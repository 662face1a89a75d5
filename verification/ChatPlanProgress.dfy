/** When an approved plan can still be completed: exactly when every unfinished step may run, whatever
    has happened to the plan and whatever the Gateway holds. */
module ChatPlanProgress {
  import opened Wrappers
  import opened PlanGraph
  import opened ChatPlan
  import opened ChatPlanRuns

  predicate Retryable(s: PlanStep) { s.state == Failed || s.state == Blocked || s.state == Cancelled }

  /** Every unfinished step names an executable command on the plan's own mission. */
  predicate Runnable(p: Plan) {
    forall i | 0 <= i < |p.steps| && p.steps[i].state != Completed :: RunnableStep(p.steps[i], p.missionId)
  }

  predicate Working(p: Plan) { p.state == ApprovedPlan || p.state == ExecutingPlan }

  predicate KeyUnused(g: Gateway, tenant: string, key: string) {
    forall c | c in g :: !(g[c].scope.tenant == tenant && g[c].key == key)
  }

  /** What the proof carries from one stage of a continuation to the next. */
  ghost predicate Ongoing(w: World, h: Hasher) { Inv(w, h) && w.plan.approvedAt.Some? && w.plan.steps != [] }

  function Open(steps: seq<PlanStep>): nat {
    if steps == [] then 0 else Open(steps[..|steps|-1]) + if steps[|steps|-1].state == Completed then 0 else 1
  }

  lemma {:induction false} OpenUpdate(steps: seq<PlanStep>, i: nat, s: PlanStep)
    requires i < |steps|
    ensures Open(steps[i := s]) ==
      Open(steps) - (if steps[i].state == Completed then 0 else 1) + (if s.state == Completed then 0 else 1)
    decreases |steps|
  {
    var n := |steps| - 1;
    if i < n {
      OpenUpdate(steps[..n], i, s);
      assert steps[i := s][..n] == steps[..n][i := s];
    } else {
      assert steps[i := s][..n] == steps[..n];
    }
  }

  // ------------------------------------------------------------ runs of operations

  /** Some run of operations leads from `w` to `v`. */
  ghost predicate Leads(w: World, v: World, h: Hasher) { exists ops :: After(w, ops, h) == v }

  lemma LeadsNowhere(w: World, h: Hasher)
    ensures Leads(w, w, h)
  {
    assert After(w, [], h) == w;
  }

  lemma LeadsByOne(w: World, op: Op, h: Hasher)
    ensures Leads(w, Exec(w, op, h).0, h)
  {
    assert [op][..0] == [] && After(w, [], h) == w;
    assert After(w, [op], h) == Exec(w, op, h).0;
  }

  lemma LeadsOn(u: World, v: World, w: World, h: Hasher)
    requires Leads(u, v, h) && Leads(v, w, h)
    ensures Leads(u, w, h)
  {
    var a :| After(u, a, h) == v;
    var b :| After(v, b, h) == w;
    AfterSplit(u, a + b, |a|, h);
    assert (a + b)[..|a|] == a && (a + b)[|a|..] == b;
    assert After(u, a + b, h) == w;
  }

  /** One operation keeps what a continuation needs. */
  lemma StaysOngoing(w: World, op: Op, v: World, h: Hasher)
    requires Ongoing(w, h) && v == Exec(w, op, h).0
    ensures Ongoing(v, h) && Leads(w, v, h)
  {
    StepKeepsInv(w, op, h);
    LeadsByOne(w, op, h);
  }

  lemma Position(steps: seq<PlanStep>, i: nat)
    requires DistinctIds(Nodes(steps)) && i < |steps|
    ensures IndexOf(steps, steps[i].stepId) == Some(i)
  {
    forall k | 0 <= k < |steps| && k != i ensures steps[k].stepId != steps[i].stepId {
      assert Nodes(steps)[k].id == steps[k].stepId && Nodes(steps)[i].id == steps[i].stepId;
    }
  }

  /** One step of the plan was replaced and nothing else that matters here changed. */
  predicate Replaced(p: Plan, q: Plan, i: nat) {
    && i < |p.steps| == |q.steps| && q.steps == p.steps[i := q.steps[i]] && SameWork(p.steps[i], q.steps[i])
    && (p.steps[i].state == Completed ==> q.steps[i].state == Completed)
    && q.planId == p.planId && q.scope == p.scope && q.missionId == p.missionId && q.approvedAt == p.approvedAt
  }

  lemma ReplacedKeeps(p: Plan, q: Plan, i: nat)
    requires Replaced(p, q, i)
    ensures SameShape(p.steps, q.steps)
    ensures p.steps[i].state != Completed ==> CompletedStays(p.steps, q.steps)
    ensures Open(q.steps) == Open(p.steps) - if p.steps[i].state != Completed && q.steps[i].state == Completed then 1 else 0
  {
    OpenUpdate(p.steps, i, q.steps[i]);
  }

  lemma SameKey(p: Plan, q: Plan, i: nat, attempt: nat, h: Hasher)
    requires Replaced(p, q, i)
    ensures KeyFor(q.planId, q.steps[i], attempt, h) == KeyFor(p.planId, p.steps[i], attempt, h)
  {
  }

  // ------------------------------------------------------------ keys and ids are never used up

  /** The Gateway is finite and a step's attempts have distinct keys, so some later attempt is free. */
  lemma {:induction false} FreeAttempt(g: Gateway, tenant: string, planId: Uuid, s: PlanStep, from: nat, h: Hasher) returns (a: nat)
    ensures a >= from && KeyUnused(g, tenant, KeyFor(planId, s, a, h))
    decreases |g|
  {
    if KeyUnused(g, tenant, KeyFor(planId, s, from, h)) { return from; }
    var c :| c in g && g[c].scope.tenant == tenant && g[c].key == KeyFor(planId, s, from, h);
    a := FreeAttempt(g - {c}, tenant, planId, s, from + 1, h);
    KeysDiffer(planId, s, from, s, a, h);
    assert forall d | d in g && d != c :: d in g - {c};
  }

  lemma {:induction false} FreeId(used: set<string>, from: nat) returns (k: nat)
    ensures k >= from && Decimal(k) !in used
    decreases |used|
  {
    if Decimal(from) !in used { return from; }
    k := FreeId(used - {Decimal(from)}, from + 1);
    if Decimal(k) == Decimal(from) { DecimalInjective(k, from); }
  }

  // ------------------------------------------------------------ one step, start to finish

  lemma PrepareSucceeds(w: World, i: nat, protocol: string, h: Hasher)
    requires DistinctIds(Nodes(w.plan.steps)) && Working(w.plan) && Free(w.plan, i)
    ensures var s := w.plan.steps[i]; var r := Prepare(w.plan, s.stepId, protocol, h);
      && r.Success? && Replaced(w.plan, r.value.0, i) && r.value.0.state == ExecutingPlan
      && r.value.0.steps[i] == PreparedStep(w.plan, i, protocol, h)
  {
    Position(w.plan.steps, i);
  }

  /** Step `i` is unfinished, may run, and nothing stands before it. */
  predicate Free(p: Plan, i: nat) {
    i < |p.steps| && p.steps[i].state != Completed && DepsCompleted(p.steps, i) && RunnableStep(p.steps[i], p.missionId)
  }

  lemma PrepareOnce(w: World, i: nat, protocol: string, h: Hasher) returns (v: World)
    requires Ongoing(w, h) && Working(w.plan) && Free(w.plan, i)
    ensures Leads(w, v, h) && Ongoing(v, h) && Working(v.plan) && Free(v.plan, i)
    ensures Replaced(w.plan, v.plan, i) && v.gateway == w.gateway && v.plan.steps[i] == PreparedStep(w.plan, i, protocol, h)
    ensures Open(v.plan.steps) == Open(w.plan.steps)
  {
    var stepId := w.plan.steps[i].stepId;
    PrepareSucceeds(w, i, protocol, h);
    var p := Prepare(w.plan, stepId, protocol, h).value.0;
    ReplacedKeeps(w.plan, p, i);
    v := w.(plan := p);
    DepsStay(w.plan.steps, p.steps, i);
    StaysOngoing(w, DoPrepare(stepId, protocol), v, h);
  }

  /** A step may be prepared again and again; each time it moves to its next attempt. */
  lemma {:induction false} PrepareAgain(w: World, i: nat, times: nat, protocol: string, h: Hasher) returns (v: World)
    requires Ongoing(w, h) && Working(w.plan) && Free(w.plan, i)
    ensures Leads(w, v, h) && Ongoing(v, h) && Working(v.plan) && Free(v.plan, i)
    ensures Replaced(w.plan, v.plan, i) && v.gateway == w.gateway
    ensures v.plan.steps[i].attempt == w.plan.steps[i].attempt + times && Open(v.plan.steps) == Open(w.plan.steps)
    decreases times
  {
    if times == 0 {
      LeadsNowhere(w, h);
      return w;
    }
    var u := PrepareOnce(w, i, protocol, h);
    v := PrepareAgain(u, i, times - 1, protocol, h);
    LeadsOn(w, u, v, h);
    ReplacedTwice(w.plan, u.plan, v.plan, i);
  }

  /** Reading the row of a step's current key settles the step as the row says. */
  lemma RecordSucceeds(p: Plan, i: nat, id: string, g: Gateway)
    requires DistinctIds(Nodes(p.steps)) && i < |p.steps| && p.steps[i].state != Completed && RowFor(p, i, id, g)
    ensures var r := Record(p, p.steps[i].stepId, id, g);
      && r.Success? && Replaced(p, r.value, i) && r.value.steps[i].state == RecordedStep(p.steps[i], id, g[id]).state
      && r.value.steps[i].attempt == p.steps[i].attempt
      && Settled(r.value)
      && Open(r.value.steps) == Open(p.steps) - if g[id].status == Done then 1 else 0
  {
    Position(p.steps, i);
    ReplacedKeeps(p, Record(p, p.steps[i].stepId, id, g).value, i);
  }

  /** The Gateway row `id` answers the key and hash step `i` holds. */
  predicate RowFor(p: Plan, i: nat, id: string, g: Gateway)
    requires i < |p.steps|
  {
    && p.steps[i].key.Some? && p.steps[i].expectedHash.Some?
    && id in g && g[id].scope == p.scope && g[id].key == p.steps[i].key.value && g[id].hash == p.steps[i].expectedHash.value
  }

  predicate Settled(p: Plan) { p.state == CompletedPlan || p.state == FailedPlan || p.state == ExecutingPlan }

  lemma RecordExec(w: World, i: nat, id: string, h: Hasher) returns (v: World)
    requires DistinctIds(Nodes(w.plan.steps))
    requires i < |w.plan.steps| && w.plan.steps[i].state != Completed && RowFor(w.plan, i, id, w.gateway)
    ensures v == Exec(w, DoRecord(w.plan.steps[i].stepId, id), h).0
    ensures Settled(v.plan) && Replaced(w.plan, v.plan, i) && v.plan.steps[i].attempt == w.plan.steps[i].attempt
    ensures w.gateway[id].status == Done ==> v.plan.steps[i].state == Completed
    ensures Open(v.plan.steps) == Open(w.plan.steps) - if w.gateway[id].status == Done then 1 else 0
  {
    RecordSucceeds(w.plan, i, id, w.gateway);
    v := w.(plan := Record(w.plan, w.plan.steps[i].stepId, id, w.gateway).value);
  }

  lemma RecordOnce(w: World, i: nat, id: string, h: Hasher) returns (v: World)
    requires Ongoing(w, h) && i < |w.plan.steps| && w.plan.steps[i].state != Completed && RowFor(w.plan, i, id, w.gateway)
    ensures Leads(w, v, h) && Ongoing(v, h) && Settled(v.plan) && Replaced(w.plan, v.plan, i)
    ensures v.plan.steps[i].attempt == w.plan.steps[i].attempt
    ensures w.gateway[id].status == Done ==> v.plan.steps[i].state == Completed
    ensures Open(v.plan.steps) == Open(w.plan.steps) - if w.gateway[id].status == Done then 1 else 0
  {
    v := RecordExec(w, i, id, h);
    StaysOngoing(w, DoRecord(w.plan.steps[i].stepId, id), v, h);
  }

  lemma FreeKeyIsAccepted(g: Gateway, id: string, scope: Scope, key: string, hash: string)
    requires id !in g && KeyUnused(g, scope.tenant, key)
    ensures var begun := GatewayStep(g, GatewayBegin(id, scope, key, hash));
      && id in begun && begun[id] == GatewayRow(scope, key, hash, InProgress, "{}")
      && var done := GatewayStep(begun, GatewayFinish(id, true, ""));
         id in done && done[id] == GatewayRow(scope, key, hash, Done, "")
  {
  }

  /** The Gateway accepts a free key under an unknown id and runs its command. */
  lemma GatewayRuns(w: World, id: string, scope: Scope, key: string, hash: string, h: Hasher) returns (v: World)
    requires Ongoing(w, h) && id !in w.gateway && KeyUnused(w.gateway, scope.tenant, key)
    ensures Leads(w, v, h) && Ongoing(v, h) && v.plan == w.plan
    ensures id in v.gateway && v.gateway[id] == GatewayRow(scope, key, hash, Done, "")
  {
    var begin, finish := GatewayBegin(id, scope, key, hash), GatewayFinish(id, true, "");
    FreeKeyIsAccepted(w.gateway, id, scope, key, hash);
    var u := w.(gateway := GatewayStep(w.gateway, begin));
    v := u.(gateway := GatewayStep(u.gateway, finish));
    StaysOngoing(w, begin, u, h);
    StaysOngoing(u, finish, v, h);
    LeadsOn(w, u, v, h);
  }

  lemma ReplacedTwice(p: Plan, q: Plan, r: Plan, i: nat)
    requires Replaced(p, q, i) && Replaced(q, r, i)
    ensures Replaced(p, r, i)
  {
  }

  /** One attempt under a free key: prepare, let the Gateway run the command, record. */
  lemma AttemptCompletes(w: World, i: nat, id: string, protocol: string, h: Hasher) returns (v: World)
    requires Ongoing(w, h) && Working(w.plan) && Free(w.plan, i) && id !in w.gateway
    requires KeyUnused(w.gateway, w.plan.scope.tenant, KeyFor(w.plan.planId, w.plan.steps[i], w.plan.steps[i].attempt + 1, h))
    ensures Leads(w, v, h) && Ongoing(v, h) && Settled(v.plan) && Replaced(w.plan, v.plan, i)
    ensures v.plan.steps[i].state == Completed && v.plan.steps[i].attempt > w.plan.steps[i].attempt
    ensures Open(v.plan.steps) == Open(w.plan.steps) - 1
  {
    var a := PrepareOnce(w, i, protocol, h);
    var s := a.plan.steps[i];
    var b := GatewayRuns(a, id, a.plan.scope, s.key.value, s.expectedHash.value, h);
    v := RecordOnce(b, i, id, h);
    LeadsOn(w, a, b, h);
    LeadsOn(w, b, v, h);
    ReplacedTwice(w.plan, a.plan, v.plan, i);
  }

  /** Preparing a step again leads to an attempt before one whose key nobody has taken. */
  lemma PrepareToFree(w: World, i: nat, protocol: string, h: Hasher) returns (u: World)
    requires Ongoing(w, h) && Working(w.plan) && Free(w.plan, i)
    ensures Leads(w, u, h) && Ongoing(u, h) && Working(u.plan) && Free(u.plan, i)
    ensures Replaced(w.plan, u.plan, i) && u.plan.steps[i].attempt >= w.plan.steps[i].attempt && Open(u.plan.steps) == Open(w.plan.steps)
    ensures KeyUnused(u.gateway, u.plan.scope.tenant, KeyFor(u.plan.planId, u.plan.steps[i], u.plan.steps[i].attempt + 1, h))
  {
    var s := w.plan.steps[i];
    var a := FreeAttempt(w.gateway, w.plan.scope.tenant, w.plan.planId, s, s.attempt + 1, h);
    u := PrepareAgain(w, i, a - s.attempt - 1, protocol, h);
    SameKey(w.plan, u.plan, i, a, h);
  }

  /** A step whose dependencies are COMPLETED can be brought to COMPLETED, whatever keys the Gateway
      already holds. */
  lemma StepCanComplete(w: World, i: nat, protocol: string, h: Hasher) returns (v: World)
    requires Ongoing(w, h) && Working(w.plan) && Free(w.plan, i)
    ensures Leads(w, v, h) && Ongoing(v, h) && Settled(v.plan) && Replaced(w.plan, v.plan, i)
    ensures v.plan.steps[i].state == Completed && v.plan.steps[i].attempt > w.plan.steps[i].attempt
    ensures Open(v.plan.steps) == Open(w.plan.steps) - 1
  {
    var u := PrepareToFree(w, i, protocol, h);
    var k := FreeId(u.gateway.Keys, 0);
    v := AttemptCompletes(u, i, Decimal(k), protocol, h);
    LeadsOn(w, u, v, h);
    ReplacedTwice(w.plan, u.plan, v.plan, i);
  }

  // ------------------------------------------------------------ two commands for one step

  /** A free step with a command that has run and was not recorded. */
  lemma RunUnrecorded(w: World, i: nat, protocol: string, h: Hasher) returns (v: World, c: string)
    requires Ongoing(w, h) && Working(w.plan) && Free(w.plan, i)
    ensures Leads(w, v, h) && Ongoing(v, h) && Working(v.plan) && Free(v.plan, i) && Replaced(w.plan, v.plan, i)
    ensures c in v.gateway && v.gateway[c].status == Done && v.gateway[c].scope == v.plan.scope
    ensures v.gateway[c].key == KeyFor(v.plan.planId, v.plan.steps[i], v.plan.steps[i].attempt, h)
  {
    var u := PrepareToFree(w, i, protocol, h);
    v, c := RunNext(u, i, protocol, h);
    LeadsOn(w, u, v, h);
    ReplacedTwice(w.plan, u.plan, v.plan, i);
  }

  lemma RunNext(w: World, i: nat, protocol: string, h: Hasher) returns (v: World, c: string)
    requires Ongoing(w, h) && Working(w.plan) && Free(w.plan, i)
    requires KeyUnused(w.gateway, w.plan.scope.tenant, KeyFor(w.plan.planId, w.plan.steps[i], w.plan.steps[i].attempt + 1, h))
    ensures Leads(w, v, h) && Ongoing(v, h) && Working(v.plan) && Free(v.plan, i) && Replaced(w.plan, v.plan, i)
    ensures c in v.gateway && v.gateway[c].status == Done && v.gateway[c].scope == v.plan.scope
    ensures v.gateway[c].key == KeyFor(v.plan.planId, v.plan.steps[i], v.plan.steps[i].attempt, h)
  {
    var k := FreeId(w.gateway.Keys, 0);
    c := Decimal(k);
    var x := PrepareOnce(w, i, protocol, h);
    var t := x.plan.steps[i];
    SameKey(w.plan, x.plan, i, t.attempt, h);
    v := GatewayRuns(x, c, x.plan.scope, t.key.value, t.expectedHash.value, h);
    LeadsOn(w, x, v, h);
  }

  /** Step `i` is COMPLETED by the row of command `d`, and command `c` of an earlier attempt has finished
      too, unrecorded. */
  predicate RanTwice(v: World, i: nat, c: string, d: string, a: nat, b: nat, h: Hasher) {
    && i < |v.plan.steps| && v.plan.steps[i].state == Completed && v.plan.steps[i].commandId == Some(d) && c != d && a < b
    && c in v.gateway && v.gateway[c].status == Done && v.gateway[c].scope == v.plan.scope
    && d in v.gateway && v.gateway[d].status == Done && v.gateway[d].scope == v.plan.scope
    && v.gateway[c].key == KeyFor(v.plan.planId, v.plan.steps[i], a, h)
    && v.gateway[d].key == KeyFor(v.plan.planId, v.plan.steps[i], b, h)
  }

  lemma RunsTwice(w: World, i: nat, protocol: string, h: Hasher) returns (v: World, c: string, d: string, a: nat, b: nat)
    requires Ongoing(w, h) && Working(w.plan) && Free(w.plan, i)
    ensures Leads(w, v, h) && Replaced(w.plan, v.plan, i) && RanTwice(v, i, c, d, a, b, h)
  {
    var u;
    u, c := RunUnrecorded(w, i, protocol, h);
    v := StepCanComplete(u, i, protocol, h);
    LeadsOn(w, u, v, h);
    ReplacedTwice(w.plan, u.plan, v.plan, i);
    RowStays(u, v, c, h);
    d := RecordedRow(v, i, h);
    a, b := u.plan.steps[i].attempt, v.plan.steps[i].attempt;
    SameKey(u.plan, v.plan, i, a, h);
    KeysDiffer(v.plan.planId, v.plan.steps[i], a, v.plan.steps[i], b, h);
  }

  ghost predicate CanRunTwice(w: World, i: nat, h: Hasher) {
    exists ops, c, d, a, b :: RanTwice(After(w, ops, h), i, c, d, a, b, h)
  }

  /** `prepare_step` refuses only a COMPLETED step. In an approved, working plan an unfinished step whose
      dependencies are COMPLETED has a continuation in which two of its commands have finished, under keys
      of different attempts and only the later recorded, if and only if the step may run at all; what the
      other steps are does not matter. */
  lemma TwoCommandsCanFinish(w: World, i: nat, h: Hasher)
    requires Inv(w, h) && w.plan.approvedAt.Some? && Working(w.plan)
    requires i < |w.plan.steps| && w.plan.steps[i].state != Completed && DepsCompleted(w.plan.steps, i)
    ensures CanRunTwice(w, i, h) <==> RunnableStep(w.plan.steps[i], w.plan.missionId)
  {
    if RunnableStep(w.plan.steps[i], w.plan.missionId) {
      var v, c, d, a, b := RunsTwice(w, i, "", h);
      LeadsToTwice(w, v, i, c, d, a, b, h);
    } else {
      forall ops, c, d, a, b ensures !RanTwice(After(w, ops, h), i, c, d, a, b, h) { UnrunnableNeverCompletes(w, ops, i, h); }
    }
  }

  lemma LeadsToTwice(w: World, v: World, i: nat, c: string, d: string, a: nat, b: nat, h: Hasher)
    requires Leads(w, v, h) && RanTwice(v, i, c, d, a, b, h)
    ensures CanRunTwice(w, i, h)
  {
    var ops :| After(w, ops, h) == v;
    assert RanTwice(After(w, ops, h), i, c, d, a, b, h);
  }

  lemma RowStays(u: World, v: World, c: string, h: Hasher)
    requires Leads(u, v, h) && c in u.gateway && u.gateway[c].status == Done
    ensures c in v.gateway && v.gateway[c] == u.gateway[c]
  {
    var ops :| After(u, ops, h) == v;
    DoneRowsStay(u, ops, c, h);
  }

  lemma RecordedRow(v: World, i: nat, h: Hasher) returns (d: string)
    requires Ongoing(v, h) && i < |v.plan.steps| && v.plan.steps[i].state == Completed
    ensures v.plan.steps[i].commandId == Some(d) && d in v.gateway && v.gateway[d].status == Done && v.gateway[d].scope == v.plan.scope
    ensures v.gateway[d].key == KeyFor(v.plan.planId, v.plan.steps[i], v.plan.steps[i].attempt, h)
  {
    assert LocalOk(v.gateway, v.plan.planId, v.plan.scope, v.plan.steps[i], h);
    d := v.plan.steps[i].commandId.value;
  }

  // ------------------------------------------------------------ plans that are not working

  lemma RetrySucceeds(p: Plan, i: nat)
    requires DistinctIds(Nodes(p.steps)) && p.approvedAt.Some? && i < |p.steps| && Retryable(p.steps[i])
    ensures var r := Retry(p, p.steps[i].stepId);
      r.Success? && r.value.state == ApprovedPlan && Open(r.value.steps) == Open(p.steps)
  {
    Position(p.steps, i);
    var q := Retry(p, p.steps[i].stepId).value;
    assert Replaced(p, q, i) && q.steps[i].state == Pending;
    ReplacedKeeps(p, q, i);
  }

  lemma RetryOnce(w: World, i: nat, h: Hasher) returns (v: World)
    requires Ongoing(w, h) && i < |w.plan.steps| && Retryable(w.plan.steps[i])
    ensures Leads(w, v, h) && Ongoing(v, h) && Working(v.plan) && Open(v.plan.steps) == Open(w.plan.steps)
  {
    var stepId := w.plan.steps[i].stepId;
    RetrySucceeds(w.plan, i);
    v := w.(plan := Retry(w.plan, stepId).value);
    StaysOngoing(w, DoRetry(stepId), v, h);
  }

  /** `record_step` asks for no plan state: a SUBMITTED step of a cancelled plan can still be settled,
      and that takes the plan out of CANCELLED. */
  lemma SettleSubmitted(w: World, i: nat, h: Hasher) returns (v: World)
    requires Ongoing(w, h) && i < |w.plan.steps| && w.plan.steps[i].state == Submitted
    ensures Leads(w, v, h) && Ongoing(v, h) && Settled(v.plan) && Open(v.plan.steps) <= Open(w.plan.steps)
  {
    assert RowKnown(w.gateway, w.plan.scope, w.plan.steps[i]);
    var id := w.plan.steps[i].commandId.value;
    var finish := GatewayFinish(id, true, "");
    var u := w.(gateway := GatewayStep(w.gateway, finish));
    StaysOngoing(w, finish, u, h);
    v := RecordOnce(u, i, id, h);
    LeadsOn(w, u, v, h);
  }

  /** A plan that is neither working nor COMPLETED has a step to retry or, when cancelled, to settle. */
  lemma SomethingToResume(w: World, h: Hasher) returns (i: nat)
    requires Ongoing(w, h) && !Working(w.plan) && w.plan.state != CompletedPlan
    ensures i < |w.plan.steps| && (Retryable(w.plan.steps[i]) || w.plan.steps[i].state == Submitted)
    ensures w.plan.state == FailedPlan ==> Retryable(w.plan.steps[i])
    ensures w.plan.state == FailedPlan || w.plan.state == CancelledPlan
  {
    if w.plan.state == FailedPlan {
      i :| 0 <= i < |w.plan.steps| && w.plan.steps[i].state == Failed;
    } else {
      i :| 0 <= i < |w.plan.steps| && w.plan.steps[i].state != Completed;
      assert LocalOk(w.gateway, w.plan.planId, w.plan.scope, w.plan.steps[i], h);
    }
  }

  function Stage(p: Plan): nat { if Working(p) then 0 else if p.state == FailedPlan then 1 else 2 }

  lemma SomethingFree(w: World, h: Hasher) returns (i: nat)
    requires WellFormed(w.plan.steps) && StatusOk(w.plan) && Working(w.plan) && Runnable(w.plan) && w.plan.steps != []
    ensures Free(w.plan, i)
  {
    AlwaysSomethingToDo(w.plan.steps);
    i :| 0 <= i < |w.plan.steps| && w.plan.steps[i].state != Completed && DepsCompleted(w.plan.steps, i);
  }

  lemma NextStage(w: World, protocol: string, h: Hasher) returns (v: World)
    requires Ongoing(w, h) && Runnable(w.plan) && w.plan.state != CompletedPlan
    ensures Leads(w, v, h) && Ongoing(v, h)
    ensures v.plan.state == CompletedPlan || Open(v.plan.steps) < Open(w.plan.steps)
      || (Open(v.plan.steps) == Open(w.plan.steps) && Stage(v.plan) < Stage(w.plan))
  {
    if Working(w.plan) {
      var i := SomethingFree(w, h);
      v := StepCanComplete(w, i, protocol, h);
    } else {
      v := ResumedStage(w, h);
    }
  }

  lemma ResumedStage(w: World, h: Hasher) returns (v: World)
    requires Ongoing(w, h) && !Working(w.plan) && w.plan.state != CompletedPlan
    ensures Leads(w, v, h) && Ongoing(v, h) && Open(v.plan.steps) <= Open(w.plan.steps)
    ensures v.plan.state == CompletedPlan || Stage(v.plan) < Stage(w.plan)
  {
    var i := SomethingToResume(w, h);
    if Retryable(w.plan.steps[i]) { v := RetryOnce(w, i, h); } else { v := SettleSubmitted(w, i, h); }
  }

  // ------------------------------------------------------------ the plan, start to finish

  /** What may run is fixed by the approval. */
  lemma RunnableStays(w: World, v: World, h: Hasher)
    requires Ongoing(w, h) && Runnable(w.plan) && Leads(w, v, h)
    ensures Runnable(v.plan)
  {
    var ops :| After(w, ops, h) == v;
    ApprovedIsFrozen(w, ops, h);
    FrozenRunnable(w.plan, v.plan);
  }

  lemma FrozenRunnable(p: Plan, q: Plan)
    requires Frozen(p, q) && Runnable(p)
    ensures Runnable(q)
  {
    forall i | 0 <= i < |q.steps| && q.steps[i].state != Completed ensures RunnableStep(q.steps[i], q.missionId) {
      assert RunnableStep(p.steps[i], p.missionId) && SameWork(p.steps[i], q.steps[i]);
    }
  }

  /** Whatever happened to an approved plan, cancellation included, some continuation completes it. */
  lemma {:induction false} CanBeCompleted(w: World, protocol: string, h: Hasher) returns (v: World)
    requires Ongoing(w, h) && Runnable(w.plan)
    ensures Leads(w, v, h) && v.plan.state == CompletedPlan
    decreases Open(w.plan.steps), Stage(w.plan)
  {
    if w.plan.state == CompletedPlan {
      LeadsNowhere(w, h);
      return w;
    }
    var u := NextStage(w, protocol, h);
    if u.plan.state == CompletedPlan { return u; }
    RunnableStays(w, u, h);
    v := CanBeCompleted(u, protocol, h);
    LeadsOn(w, u, v, h);
  }

  /** An unfinished step that may not run is never finished: no continuation ever gives it a key. */
  lemma UnrunnableNeverCompletes(w: World, ops: seq<Op>, i: nat, h: Hasher)
    requires Inv(w, h) && w.plan.approvedAt.Some?
    requires i < |w.plan.steps| && !RunnableStep(w.plan.steps[i], w.plan.missionId)
    ensures var p := After(w, ops, h).plan;
      |p.steps| == |w.plan.steps| && p.steps[i].key.None? && p.steps[i].state != Completed && p.state != CompletedPlan
  {
    RunKeepsInv(w, ops, h);
    ApprovedIsFrozen(w, ops, h);
    var v := After(w, ops, h);
    assert SameWork(w.plan.steps[i], v.plan.steps[i]);
    assert LocalOk(v.gateway, v.plan.planId, v.plan.scope, v.plan.steps[i], h);
  }

  ghost predicate Completable(w: World, h: Hasher) { exists ops :: After(w, ops, h).plan.state == CompletedPlan }

  lemma LeadsToCompleted(w: World, v: World, h: Hasher)
    requires Leads(w, v, h) && v.plan.state == CompletedPlan
    ensures Completable(w, h)
  {
    var ops :| After(w, ops, h) == v;
  }

  lemma NeverCompletable(w: World, i: nat, h: Hasher)
    requires Inv(w, h) && w.plan.approvedAt.Some?
    requires i < |w.plan.steps| && !RunnableStep(w.plan.steps[i], w.plan.missionId)
    ensures !Completable(w, h)
  {
    forall ops ensures After(w, ops, h).plan.state != CompletedPlan { UnrunnableNeverCompletes(w, ops, i, h); }
  }

  lemma EmptyNeverCompletes(w: World, h: Hasher)
    requires Inv(w, h) && w.plan.approvedAt.Some? && w.plan.steps == []
    ensures !Completable(w, h)
  {
    forall ops ensures After(w, ops, h).plan.state != CompletedPlan {
      RunKeepsInv(w, ops, h);
      ApprovedIsFrozen(w, ops, h);
    }
  }

  /** PROGRESS, exactly. An approved plan, whatever its state, has a continuation that completes it if and
      only if it has steps and every unfinished one names an executable command on the plan's mission. */
  lemma CompletableIff(w: World, h: Hasher)
    requires Inv(w, h) && w.plan.approvedAt.Some?
    ensures Completable(w, h) <==> w.plan.steps != [] && Runnable(w.plan)
  {
    if w.plan.steps == [] {
      EmptyNeverCompletes(w, h);
    } else if Runnable(w.plan) {
      var v := CanBeCompleted(w, "", h);
      LeadsToCompleted(w, v, h);
    } else {
      var i :| 0 <= i < |w.plan.steps| && w.plan.steps[i].state != Completed && !RunnableStep(w.plan.steps[i], w.plan.missionId);
      NeverCompletable(w, i, h);
    }
  }

  /** From creation on, whatever the Gateway already holds: a created plan whose steps can all run can
      be approved and completed. */
  lemma CreatedPlanCanBeCompleted(planId: Uuid, scope: Scope, mission: Uuid, title: string, objective: string, raws: seq<RawStep>,
                                  newId: nat -> Uuid, gateway: Gateway, h: Hasher)
    requires GatewayOk(gateway)
    ensures var r := Create(planId, scope, mission, title, objective, raws, newId, true);
      r.Success? && r.value.steps != [] && Runnable(r.value) ==> Completable(World(r.value, gateway), h)
  {
    var r := Create(planId, scope, mission, title, objective, raws, newId, true);
    if r.Success? && r.value.steps != [] && Runnable(r.value) {
      var w, approve := World(r.value, gateway), DoApprove(1, "", 0);
      CreatedIsOk(planId, scope, mission, title, objective, raws, newId, true, gateway, h);
      StepKeepsInv(w, approve, h);
      var approved := Exec(w, approve, h).0;
      assert approved.plan.steps == w.plan.steps && Runnable(approved.plan);
      var v := CanBeCompleted(approved, "", h);
      LeadsByOne(w, approve, h);
      LeadsOn(w, approved, v, h);
      LeadsToCompleted(w, v, h);
    }
  }

  /** An empty plan is never COMPLETED. */
  lemma EmptyPlanNeverCompletes(w: World, ops: seq<Op>, h: Hasher)
    requires Inv(w, h)
    ensures After(w, ops, h).plan.steps == [] ==> After(w, ops, h).plan.state != CompletedPlan
  {
    RunKeepsInv(w, ops, h);
  }
}
