/** Whole lives of a chat plan: any order of edits, approvals, preparations, recordings, retries
    and cancellations, interleaved with the Gateway inserting and finishing commands. */
module ChatPlanRuns {
  import opened Wrappers
  import opened PlanGraph
  import opened ChatPlan

  datatype Op =
    | DoUpdate(expected: nat, title: Option<string>, objective: Option<string>,
               raws: Option<seq<RawStep>>, newId: nat -> Uuid)
    | DoApprove(expected: nat, principal: string, now: int)
    | DoPrepare(stepId: Uuid, protocol: string)
    | DoRecord(stepId: Uuid, commandId: string)
    | DoRetry(stepId: Uuid)
    | DoCancel(expected: nat)
    | GatewayBegin(commandId: string, scope: Scope, key: string, hash: string)
    | GatewayFinish(commandId: string, ok: bool, result: string)

  datatype Outcome = Prepared(command: Command) | Accepted | Refused(error: PlanError)

  datatype World = World(plan: Plan, gateway: Gateway)

  /** The Gateway keeps one row per tenant and key, and finishes a command at most once. */
  ghost function GatewayStep(g: Gateway, op: Op): Gateway
    requires op.GatewayBegin? || op.GatewayFinish?
  {
    match op
    case GatewayBegin(id, scope, key, hash) =>
      if id in g || (exists other | other in g :: g[other].scope.tenant == scope.tenant && g[other].key == key) then g
      else g[id := GatewayRow(scope, key, hash, InProgress, "{}")]
    case GatewayFinish(id, ok, result) =>
      if id in g && g[id].status == InProgress
      then g[id := g[id].(status := if ok then Done else Broken, result := result)] else g
  }

  function Settle(w: World, r: Result<Plan, PlanError>): (World, Outcome) {
    match r case Success(p) => (w.(plan := p), Accepted) case Failure(e) => (w, Refused(e))
  }

  ghost function Exec(w: World, op: Op, h: Hasher): (World, Outcome) {
    match op
    case DoUpdate(expected, title, objective, raws, newId) =>
      Settle(w, Update(w.plan, expected, title, objective, raws, newId))
    case DoApprove(expected, principal, now) => Settle(w, Approve(w.plan, expected, principal, now))
    case DoPrepare(stepId, protocol) =>
      (match Prepare(w.plan, stepId, protocol, h)
       case Success(pc) => (w.(plan := pc.0), Prepared(pc.1))
       case Failure(e) => (w, Refused(e)))
    case DoRecord(stepId, commandId) => Settle(w, Record(w.plan, stepId, commandId, w.gateway))
    case DoRetry(stepId) => Settle(w, Retry(w.plan, stepId))
    case DoCancel(expected) => Settle(w, Cancel(w.plan, expected))
    case _ => (w.(gateway := GatewayStep(w.gateway, op)), Accepted)
  }

  ghost function After(w: World, ops: seq<Op>, h: Hasher): World {
    if ops == [] then w else Exec(After(w, ops[..|ops|-1], h), ops[|ops|-1], h).0
  }

  ghost function OutcomeAt(w: World, ops: seq<Op>, i: nat, h: Hasher): Outcome
    requires i < |ops|
  {
    Exec(After(w, ops[..i], h), ops[i], h).1
  }

  // ---------------------------------------------------------------- invariant

  ghost predicate WellFormed(steps: seq<PlanStep>) {
    DistinctIds(Nodes(steps)) && DependenciesKnown(steps) && Acyclic(GraphOf(Nodes(steps)))
  }

  predicate AllCompleted(steps: seq<PlanStep>) { forall i | 0 <= i < |steps| :: steps[i].state == Completed }

  /** The ledger row a recorded step points at. */
  predicate RowKnown(g: Gateway, scope: Scope, s: PlanStep) {
    && s.key.Some? && s.expectedHash.Some? && s.commandId.Some? && s.commandId.value in g
    && var row := g[s.commandId.value];
       row.scope == scope && row.key == s.key.value && row.hash == s.expectedHash.value
  }

  predicate RowSays(g: Gateway, scope: Scope, s: PlanStep, status: CommandStatus) {
    RowKnown(g, scope, s) && g[s.commandId.value].status == status
  }

  /** The hash a step expects is the hash of its own command, for some protocol version. */
  ghost predicate OwnHash(s: PlanStep, h: Hasher) {
    exists protocol: string :: s.expectedHash == Some(h.command(s.binding, protocol))
  }

  ghost predicate LocalOk(g: Gateway, planId: Uuid, scope: Scope, s: PlanStep, h: Hasher) {
    && s.state != Blocked && s.state != Skipped
    && (s.key.Some? <==> s.expectedHash.Some?)
    && (s.key.Some? ==> s.attempt > 0 && s.key == Some(KeyFor(planId, s, s.attempt, h)) && OwnHash(s, h))
    && (s.state == Completed ==> RowSays(g, scope, s, Done))
    && (s.state == Submitted ==> RowKnown(g, scope, s))
    && (s.state == Ready || s.state == Failed ==> s.key.Some?)
  }

  ghost predicate StepsOk(w: World, h: Hasher) {
    forall i | 0 <= i < |w.plan.steps| ::
      && LocalOk(w.gateway, w.plan.planId, w.plan.scope, w.plan.steps[i], h)
      && (w.plan.steps[i].key.Some? ==> DepsCompleted(w.plan.steps, i))
  }

  predicate Untouched(s: PlanStep) {
    s.attempt == 0 && s.key.None? && s.expectedHash.None? && (s.state == Pending || s.state == Cancelled)
  }

  predicate StatusOk(p: Plan) {
    && (p.approvedAt.None? ==>
          && (Editable(p) || p.state == CancelledPlan)
          && forall i | 0 <= i < |p.steps| :: Untouched(p.steps[i]))
    && (p.approvedAt.Some? ==> !Editable(p) && p.state != PausedPlan)
    && (p.state == CompletedPlan <==> p.steps != [] && AllCompleted(p.steps))
    && (p.state == FailedPlan ==> AnyFailed(p.steps))
    && (p.state == CancelledPlan ==> forall i | 0 <= i < |p.steps| :: p.steps[i].state != Pending && p.steps[i].state != Ready)
  }

  /** A step `prepare_step` lets through once its dependencies are COMPLETED. */
  predicate RunnableStep(s: PlanStep, mission: Uuid) {
    && Given(s.binding.commandType) && Executable(s.binding.commandType.value, s.binding.targetType)
    && s.binding.targetId == Some(mission)
  }

  predicate KeyedRunnable(p: Plan) {
    forall i | 0 <= i < |p.steps| && p.steps[i].key.Some? :: RunnableStep(p.steps[i], p.missionId)
  }

  ghost predicate GatewayOk(g: Gateway) {
    forall a, b | a in g && b in g && g[a].scope.tenant == g[b].scope.tenant && g[a].key == g[b].key :: a == b
  }

  ghost predicate PlanOk(w: World, h: Hasher) {
    WellFormed(w.plan.steps) && StepsOk(w, h) && StatusOk(w.plan) && GatewayOk(w.gateway)
  }

  ghost predicate Inv(w: World, h: Hasher) { PlanOk(w, h) && KeyedRunnable(w.plan) }

  // --------------------------------------------------------------- frozen plans

  predicate SameWork(a: PlanStep, b: PlanStep) {
    a.stepId == b.stepId && a.binding == b.binding && a.dependsOn == b.dependsOn && a.sequence == b.sequence
  }

  predicate SameShape(a: seq<PlanStep>, b: seq<PlanStep>) {
    |a| == |b| && forall i | 0 <= i < |a| :: SameWork(a[i], b[i])
  }

  /** A completed step keeps its state and the key it was completed under. */
  predicate CompletedStays(a: seq<PlanStep>, b: seq<PlanStep>)
    requires |a| == |b|
  {
    forall i | 0 <= i < |a| && a[i].state == Completed :: b[i].state == Completed && b[i].key == a[i].key
  }

  /** What may still change once a plan is approved: not its steps' ids, commands, parameters,
      targets, order or dependencies, not the approval, and nothing that was completed. */
  predicate Frozen(p: Plan, q: Plan) {
    && q.planId == p.planId && q.scope == p.scope && q.missionId == p.missionId
    && q.approvedAt == p.approvedAt && q.approvedBy == p.approvedBy
    && SameShape(p.steps, q.steps)
    && CompletedStays(p.steps, q.steps)
    && forall i | 0 <= i < |p.steps| :: p.steps[i].attempt <= q.steps[i].attempt
  }

  lemma ShapeKeepsWellFormed(a: seq<PlanStep>, b: seq<PlanStep>)
    requires WellFormed(a) && SameShape(a, b)
    ensures WellFormed(b)
  {
    assert Nodes(a) == Nodes(b);
    forall i | 0 <= i < |b| ensures forall d | d in b[i].dependsOn :: d in Ids(b) && d != b[i].stepId {
      forall d | d in b[i].dependsOn ensures d in Ids(b) && d != b[i].stepId {
        assert d in a[i].dependsOn;
        var k :| 0 <= k < |a| && a[k].stepId == d;
        assert b[k].stepId == d;
      }
    }
  }

  lemma DepsStay(a: seq<PlanStep>, b: seq<PlanStep>, i: nat)
    requires SameShape(a, b) && CompletedStays(a, b) && i < |a| && DepsCompleted(a, i)
    ensures DepsCompleted(b, i)
  {
    forall d | d in b[i].dependsOn ensures IsCompleted(b, d) {
      assert d in a[i].dependsOn && IsCompleted(a, d);
      var k :| 0 <= k < |a| && a[k].stepId == d && a[k].state == Completed;
      assert b[k].stepId == d && b[k].state == Completed;
    }
  }

  /** Changing one step keeps every step in order, provided the new step is in order itself. */
  lemma OneStepKeepsOk(w: World, w': World, i: nat, s: PlanStep, h: Hasher)
    requires StepsOk(w, h) && WellFormed(w.plan.steps) && i < |w.plan.steps|
    requires w'.plan.steps == w.plan.steps[i := s] && w'.gateway == w.gateway
    requires w'.plan.planId == w.plan.planId && w'.plan.scope == w.plan.scope
    requires SameWork(w.plan.steps[i], s)
    requires w.plan.steps[i].state == Completed ==> s.state == Completed && s.key == w.plan.steps[i].key
    requires LocalOk(w.gateway, w.plan.planId, w.plan.scope, s, h)
    requires s.key.Some? ==> DepsCompleted(w.plan.steps, i)
    ensures StepsOk(w', h) && WellFormed(w'.plan.steps)
    ensures SameShape(w.plan.steps, w'.plan.steps) && CompletedStays(w.plan.steps, w'.plan.steps)
  {
    ShapeKeepsWellFormed(w.plan.steps, w'.plan.steps);
    forall k | 0 <= k < |w'.plan.steps| && w'.plan.steps[k].key.Some? ensures DepsCompleted(w'.plan.steps, k) {
      DepsStay(w.plan.steps, w'.plan.steps, k);
    }
  }

  // ------------------------------------------------------------------- parsing

  predicate NewStep(s: PlanStep) { Untouched(s) && s.state == Pending }

  lemma {:induction false} ParsedListIsNew(raws: seq<RawStep>, mission: Uuid, newId: nat -> Uuid)
    requires ParseList(raws, mission, newId).Success?
    ensures var steps := ParseList(raws, mission, newId).value;
      && |steps| == |raws| && DistinctIds(Nodes(steps))
      && forall i | 0 <= i < |steps| :: NewStep(steps[i]) && steps[i].sequence == i + 1
    decreases |raws|
  {
    if raws != [] {
      var n := |raws| - 1;
      ParsedListIsNew(raws[..n], mission, newId);
      var before, steps := ParseList(raws[..n], mission, newId).value, ParseList(raws, mission, newId).value;
      assert steps == before + [steps[n]] && steps[n].stepId !in Ids(before);
      AppendKeepsDistinct(before, steps[n]);
    }
  }

  /** Whatever `_parse_steps` accepts is a well-formed acyclic plan of untouched steps. */
  lemma ParsedIsWellFormed(raws: seq<RawStep>, mission: Uuid, newId: nat -> Uuid)
    requires ParseSteps(raws, mission, newId).Success?
    ensures var steps := ParseSteps(raws, mission, newId).value;
      WellFormed(steps) && forall i | 0 <= i < |steps| :: NewStep(steps[i])
  {
    ParsedListIsNew(raws, mission, newId);
  }

  lemma NewStepsAreOk(w: World, h: Hasher)
    requires forall i | 0 <= i < |w.plan.steps| :: Untouched(w.plan.steps[i])
    ensures StepsOk(w, h)
  {}

  // -------------------------------------------------------- one lemma per operation

  lemma UpdateKeepsOk(w: World, op: Op, h: Hasher)
    requires PlanOk(w, h) && op.DoUpdate?
    ensures PlanOk(Exec(w, op, h).0, h)
    ensures w.plan.approvedAt.Some? ==> Exec(w, op, h).0 == w
  {
    var w' := Exec(w, op, h).0;
    if w' != w {
      if op.raws.Some? { ParsedIsWellFormed(op.raws.value, w.plan.missionId, op.newId); }
      NewStepsAreOk(w', h);
    }
  }

  lemma ApproveKeepsOk(w: World, op: Op, h: Hasher)
    requires PlanOk(w, h) && op.DoApprove?
    ensures PlanOk(Exec(w, op, h).0, h)
    ensures w.plan.approvedAt.Some? ==> Exec(w, op, h).0 == w
  {
    var w' := Exec(w, op, h).0;
    assert w'.plan.steps == w.plan.steps;
  }

  lemma PrepareKeepsOk(w: World, op: Op, h: Hasher)
    requires PlanOk(w, h) && op.DoPrepare?
    ensures PlanOk(Exec(w, op, h).0, h)
    ensures w.plan.approvedAt.Some? ==> Frozen(w.plan, Exec(w, op, h).0.plan)
  {
    if Prepare(w.plan, op.stepId, op.protocol, h).Success? {
      PrepareSteps(w, op.stepId, op.protocol, h);
      PrepareStatus(w.plan, op.stepId, op.protocol, h);
    }
  }

  lemma PrepareStatus(p: Plan, stepId: Uuid, protocol: string, h: Hasher)
    requires StatusOk(p) && Prepare(p, stepId, protocol, h).Success?
    ensures var q := Prepare(p, stepId, protocol, h).value.0;
      StatusOk(q) && (SameShape(p.steps, q.steps) && CompletedStays(p.steps, q.steps) ==> Frozen(p, q))
  {
    var i := IndexOf(p.steps, stepId).value;
    assert Prepare(p, stepId, protocol, h).value.0.steps[i].state != Completed;
  }

  lemma PrepareSteps(w: World, stepId: Uuid, protocol: string, h: Hasher)
    requires WellFormed(w.plan.steps) && StepsOk(w, h) && Prepare(w.plan, stepId, protocol, h).Success?
    ensures var p := Prepare(w.plan, stepId, protocol, h).value.0;
      && WellFormed(p.steps) && StepsOk(w.(plan := p), h)
      && SameShape(w.plan.steps, p.steps) && CompletedStays(w.plan.steps, p.steps)
  {
    var i := IndexOf(w.plan.steps, stepId).value;
    var s := PreparedStep(w.plan, i, protocol, h);
    assert OwnHash(s, h);
    OneStepKeepsOk(w, w.(plan := Prepare(w.plan, stepId, protocol, h).value.0), i, s, h);
  }

  lemma RecordKeepsOk(w: World, op: Op, h: Hasher)
    requires PlanOk(w, h) && op.DoRecord?
    ensures PlanOk(Exec(w, op, h).0, h)
    ensures w.plan.approvedAt.Some? ==> Frozen(w.plan, Exec(w, op, h).0.plan)
  {
    if Record(w.plan, op.stepId, op.commandId, w.gateway).Success? {
      RecordSteps(w, op.stepId, op.commandId, h);
      RecordStatus(w, op.stepId, op.commandId, h);
      RecordFrozen(w.plan, op.stepId, op.commandId, w.gateway);
    }
  }

  lemma RecordFrozen(p: Plan, stepId: Uuid, commandId: string, g: Gateway)
    requires Record(p, stepId, commandId, g).Success?
    ensures var q := Record(p, stepId, commandId, g).value;
      SameShape(p.steps, q.steps) && CompletedStays(p.steps, q.steps) ==> Frozen(p, q)
  {
  }

  lemma RecordStatus(w: World, stepId: Uuid, commandId: string, h: Hasher)
    requires StatusOk(w.plan) && Record(w.plan, stepId, commandId, w.gateway).Success?
    requires StepsOk(w.(plan := Record(w.plan, stepId, commandId, w.gateway).value), h)
    ensures StatusOk(Record(w.plan, stepId, commandId, w.gateway).value)
  {
    var p := Record(w.plan, stepId, commandId, w.gateway).value;
    forall i | 0 <= i < |p.steps| ensures p.steps[i].state != Skipped { assert LocalOk(w.gateway, p.planId, p.scope, p.steps[i], h); }
    RecordedPlanStatus(w.plan, stepId, commandId, w.gateway);
  }

  lemma RecordedPlanStatus(p: Plan, stepId: Uuid, commandId: string, g: Gateway)
    requires StatusOk(p) && Record(p, stepId, commandId, g).Success?
    requires var q := Record(p, stepId, commandId, g).value; forall i | 0 <= i < |q.steps| :: q.steps[i].state != Skipped
    ensures StatusOk(Record(p, stepId, commandId, g).value)
  {
    var q := Record(p, stepId, commandId, g).value;
    assert AllOver(q.steps) <==> AllCompleted(q.steps);
    assert q.steps != [] && p.approvedAt.Some?;
  }

  lemma RecordSteps(w: World, stepId: Uuid, commandId: string, h: Hasher)
    requires WellFormed(w.plan.steps) && StepsOk(w, h) && GatewayOk(w.gateway)
    requires Record(w.plan, stepId, commandId, w.gateway).Success?
    ensures var p := Record(w.plan, stepId, commandId, w.gateway).value;
      && WellFormed(p.steps) && StepsOk(w.(plan := p), h)
      && SameShape(w.plan.steps, p.steps) && CompletedStays(w.plan.steps, p.steps)
  {
    var i := IndexOf(w.plan.steps, stepId).value;
    var s := RecordedStep(w.plan.steps[i], commandId, w.gateway[commandId]);
    assert OwnHash(w.plan.steps[i], h);
    assert OwnHash(s, h);
    assert w.plan.steps[i].state == Completed ==> w.plan.steps[i].commandId == Some(commandId);
    OneStepKeepsOk(w, w.(plan := Record(w.plan, stepId, commandId, w.gateway).value), i, s, h);
  }

  lemma RetryKeepsOk(w: World, op: Op, h: Hasher)
    requires PlanOk(w, h) && op.DoRetry?
    ensures PlanOk(Exec(w, op, h).0, h)
    ensures w.plan.approvedAt.Some? ==> Frozen(w.plan, Exec(w, op, h).0.plan)
  {
    if Retry(w.plan, op.stepId).Success? {
      var w' := Exec(w, op, h).0;
      var i := IndexOf(w.plan.steps, op.stepId).value;
      OneStepKeepsOk(w, w', i, w'.plan.steps[i], h);
      RetryStatus(w.plan, op.stepId);
    }
  }

  lemma RetryStatus(p: Plan, stepId: Uuid)
    requires StatusOk(p) && Retry(p, stepId).Success?
    ensures var q := Retry(p, stepId).value;
      StatusOk(q) && (SameShape(p.steps, q.steps) && CompletedStays(p.steps, q.steps) && p.approvedAt.Some? ==> Frozen(p, q))
  {
    var i := IndexOf(p.steps, stepId).value;
    assert Retry(p, stepId).value.steps[i].state != Completed;
  }

  lemma CancelledStepIsOk(g: Gateway, planId: Uuid, scope: Scope, s: PlanStep, h: Hasher)
    requires LocalOk(g, planId, scope, s, h)
    ensures LocalOk(g, planId, scope, CancelledStep(s), h)
  {
    if s.key.Some? {
      var protocol :| s.expectedHash == Some(h.command(s.binding, protocol));
      assert CancelledStep(s).expectedHash == Some(h.command(CancelledStep(s).binding, protocol));
    }
  }

  /** Cancelling never completes a plan: an unfinished step stays unfinished. */
  lemma CancelStatus(p: Plan, expected: nat)
    requires StatusOk(p) && Cancel(p, expected).Success?
    ensures StatusOk(Cancel(p, expected).value)
  {
    var q := Cancel(p, expected).value;
    if p.steps != [] {
      var k :| 0 <= k < |p.steps| && p.steps[k].state != Completed;
      assert q.steps[k].state != Completed;
    }
  }

  lemma CancelKeepsOk(w: World, op: Op, h: Hasher)
    requires PlanOk(w, h) && op.DoCancel?
    ensures PlanOk(Exec(w, op, h).0, h)
    ensures w.plan.approvedAt.Some? ==> Frozen(w.plan, Exec(w, op, h).0.plan)
  {
    if Cancel(w.plan, op.expected).Success? {
      CancelStatus(w.plan, op.expected);
      CancelSteps(w, op.expected, h);
    }
  }

  lemma CancelSteps(w: World, expected: nat, h: Hasher)
    requires WellFormed(w.plan.steps) && StepsOk(w, h) && Cancel(w.plan, expected).Success?
    ensures var p := Cancel(w.plan, expected).value;
      && WellFormed(p.steps) && StepsOk(w.(plan := p), h)
      && SameShape(w.plan.steps, p.steps) && CompletedStays(w.plan.steps, p.steps)
  {
    var a, b := w.plan.steps, Cancel(w.plan, expected).value.steps;
    ShapeKeepsWellFormed(a, b);
    forall i | 0 <= i < |b|
      ensures LocalOk(w.gateway, w.plan.planId, w.plan.scope, b[i], h) && (b[i].key.Some? ==> DepsCompleted(b, i))
    {
      CancelledStepIsOk(w.gateway, w.plan.planId, w.plan.scope, a[i], h);
      if b[i].key.Some? { DepsStay(a, b, i); }
    }
  }

  lemma GatewayKeepsOk(w: World, op: Op, h: Hasher)
    requires PlanOk(w, h) && (op.GatewayBegin? || op.GatewayFinish?)
    ensures PlanOk(Exec(w, op, h).0, h) && Exec(w, op, h).0.plan == w.plan
  {
    var w' := Exec(w, op, h).0;
    forall i | 0 <= i < |w.plan.steps|
      ensures LocalOk(w'.gateway, w.plan.planId, w.plan.scope, w.plan.steps[i], h)
    {
      assert LocalOk(w.gateway, w.plan.planId, w.plan.scope, w.plan.steps[i], h);
    }
  }

  /** A key is only ever bound to a step that may run. */
  lemma StepKeepsKeyedRunnable(w: World, op: Op, h: Hasher)
    requires KeyedRunnable(w.plan)
    ensures KeyedRunnable(Exec(w, op, h).0.plan)
  {
    if op.DoUpdate? && op.raws.Some? && ParseSteps(op.raws.value, w.plan.missionId, op.newId).Success? {
      ParsedIsWellFormed(op.raws.value, w.plan.missionId, op.newId);
    }
  }

  lemma StepKeepsInv(w: World, op: Op, h: Hasher)
    requires Inv(w, h)
    ensures Inv(Exec(w, op, h).0, h)
    ensures w.plan.approvedAt.Some? ==> Frozen(w.plan, Exec(w, op, h).0.plan)
  {
    StepKeepsKeyedRunnable(w, op, h);
    match op
    case DoUpdate(_, _, _, _, _) => UpdateKeepsOk(w, op, h);
    case DoApprove(_, _, _) => ApproveKeepsOk(w, op, h);
    case DoPrepare(_, _) => PrepareKeepsOk(w, op, h);
    case DoRecord(_, _) => RecordKeepsOk(w, op, h);
    case DoRetry(_) => RetryKeepsOk(w, op, h);
    case DoCancel(_) => CancelKeepsOk(w, op, h);
    case GatewayBegin(_, _, _, _) => GatewayKeepsOk(w, op, h);
    case GatewayFinish(_, _, _) => GatewayKeepsOk(w, op, h);
  }

  // ------------------------------------------------------------- over whole lives

  /** Every plan `create` returns satisfies the invariant, whatever the Gateway already holds. */
  lemma CreatedIsOk(planId: Uuid, scope: Scope, mission: Uuid, title: string, objective: string,
                    raws: seq<RawStep>, newId: nat -> Uuid, conversationOpen: bool, gateway: Gateway, h: Hasher)
    requires Create(planId, scope, mission, title, objective, raws, newId, conversationOpen).Success?
    requires GatewayOk(gateway)
    ensures Inv(World(Create(planId, scope, mission, title, objective, raws, newId, conversationOpen).value, gateway), h)
  {
    ParsedIsWellFormed(raws, mission, newId);
    NewStepsAreOk(World(Create(planId, scope, mission, title, objective, raws, newId, conversationOpen).value, gateway), h);
  }

  lemma {:induction false} RunKeepsInv(w: World, ops: seq<Op>, h: Hasher)
    requires Inv(w, h)
    ensures Inv(After(w, ops, h), h)
    decreases |ops|
  {
    if ops != [] {
      var n := |ops| - 1;
      RunKeepsInv(w, ops[..n], h);
      StepKeepsInv(After(w, ops[..n], h), ops[n], h);
    }
  }

  lemma FrozenTransitive(p: Plan, q: Plan, r: Plan)
    requires Frozen(p, q) && Frozen(q, r)
    ensures Frozen(p, r)
  {
    forall i | 0 <= i < |p.steps| ensures SameWork(p.steps[i], r.steps[i]) && p.steps[i].attempt <= r.steps[i].attempt {
      assert SameWork(p.steps[i], q.steps[i]) && SameWork(q.steps[i], r.steps[i]);
    }
  }

  /** WHAT WAS APPROVED IS WHAT RUNS. After an approval, along every continuation: step ids,
      commands, targets, parameters and dependencies stay what they were, the plan is never
      editable again, attempts only grow, and a COMPLETED step stays COMPLETED under its key. */
  lemma {:induction false} ApprovedIsFrozen(w: World, ops: seq<Op>, h: Hasher)
    requires Inv(w, h) && w.plan.approvedAt.Some?
    ensures Frozen(w.plan, After(w, ops, h).plan) && !Editable(After(w, ops, h).plan)
    decreases |ops|
  {
    RunKeepsInv(w, ops, h);
    if ops != [] {
      var n := |ops| - 1;
      ApprovedIsFrozen(w, ops[..n], h);
      RunKeepsInv(w, ops[..n], h);
      var mid := After(w, ops[..n], h);
      StepKeepsInv(mid, ops[n], h);
      FrozenTransitive(w.plan, mid.plan, After(w, ops, h).plan);
    }
  }

  /** No step is prepared in a plan that was not approved, and a plan in which any step was ever
      prepared is never editable again. */
  lemma OnlyApprovedPlansExecute(w: World, ops: seq<Op>, i: nat, h: Hasher)
    requires Inv(w, h) && i < |ops| && OutcomeAt(w, ops, i, h).Prepared?
    ensures After(w, ops[..i], h).plan.approvedAt.Some?
    ensures forall j | i <= j <= |ops| :: !Editable(After(w, ops[..j], h).plan)
  {
    RunKeepsInv(w, ops[..i], h);
    PreparedIsApproved(After(w, ops[..i], h), ops[i], h);
    forall j | i <= j <= |ops| ensures !Editable(After(w, ops[..j], h).plan) {
      assert ops[..j][..i] == ops[..i];
      ApprovedFrom(w, ops[..j], i, h);
    }
  }

  lemma ApprovedFrom(w: World, ops: seq<Op>, i: nat, h: Hasher)
    requires Inv(w, h) && i <= |ops| && After(w, ops[..i], h).plan.approvedAt.Some?
    ensures !Editable(After(w, ops, h).plan)
  {
    RunKeepsInv(w, ops[..i], h);
    AfterSplit(w, ops, i, h);
    ApprovedIsFrozen(After(w, ops[..i], h), ops[i..], h);
  }

  lemma AttemptedIsNeverEditable(w: World, ops: seq<Op>, i: nat, h: Hasher)
    requires Inv(w, h) && i < |w.plan.steps| && w.plan.steps[i].attempt > 0
    ensures !Editable(After(w, ops, h).plan)
  {
    ApprovedIsFrozen(w, ops, h);
  }

  lemma AfterLast(w: World, ops: seq<Op>, h: Hasher)
    requires ops != []
    ensures After(w, ops, h) == Exec(After(w, ops[..|ops|-1], h), ops[|ops|-1], h).0
  {}

  lemma {:induction false} AfterSplit(w: World, ops: seq<Op>, i: nat, h: Hasher)
    requires i <= |ops|
    ensures After(w, ops, h) == After(After(w, ops[..i], h), ops[i..], h)
    decreases |ops|
  {
    if i == |ops| {
      assert ops[..i] == ops && ops[i..] == [];
    } else {
      AfterSplit(w, ops[..|ops|-1], i, h);
      SplitLast(ops, i);
      AfterLast(w, ops, h);
      AfterLast(After(w, ops[..i], h), ops[i..], h);
    }
  }

  lemma SplitLast<T>(s: seq<T>, i: nat)
    requires i < |s|
    ensures s[..|s|-1][..i] == s[..i]
    ensures s[i..] != [] && s[i..][..|s[i..]|-1] == s[..|s|-1][i..] && s[i..][|s[i..]|-1] == s[|s|-1]
  {
  }

  // --------------------------------------------------------- version checks

  lemma VersionStep(w: World, op: Op, h: Hasher)
    ensures var p := Exec(w, op, h).0.plan; p == w.plan || p.lockVersion == w.plan.lockVersion + 1
  {
  }

  /** A lock version names one content: two moments of a run with the same version hold the
      same plan, so an approval at a version approves exactly what was read at that version. */
  lemma {:induction false} VersionNamesContent(w: World, ops: seq<Op>, h: Hasher)
    ensures w.plan.lockVersion <= After(w, ops, h).plan.lockVersion
    ensures w.plan.lockVersion == After(w, ops, h).plan.lockVersion ==> After(w, ops, h).plan == w.plan
    decreases |ops|
  {
    if ops != [] {
      VersionNamesContent(w, ops[..|ops|-1], h);
      VersionStep(After(w, ops[..|ops|-1], h), ops[|ops|-1], h);
      AfterLast(w, ops, h);
    }
  }

  /** The approved steps are exactly the steps the approver read at the expected version. */
  lemma ApprovalIsOfWhatWasRead(w: World, ops: seq<Op>, approval: Op, h: Hasher)
    requires approval.DoApprove? && approval.expected == w.plan.lockVersion
    requires Exec(After(w, ops, h), approval, h).1 == Accepted
    ensures Exec(After(w, ops, h), approval, h).0.plan.steps == w.plan.steps
  {
    VersionNamesContent(w, ops, h);
  }

  // ------------------------------------------------------ dependencies and status

  /** DEPENDENCY SAFETY, in every reachable state: a step that holds a prepared key has all its
      dependencies COMPLETED, and a COMPLETED step is backed by a finished ledger row under its
      newest key and the hash of its own command. */
  lemma DependencySafety(w: World, ops: seq<Op>, i: nat, h: Hasher)
    requires Inv(w, h) && i < |After(w, ops, h).plan.steps|
    ensures var w' := After(w, ops, h);
      && (w'.plan.steps[i].key.Some? ==> DepsCompleted(w'.plan.steps, i))
      && (w'.plan.steps[i].state == Completed ==>
            && RowSays(w'.gateway, w'.plan.scope, w'.plan.steps[i], Done) && OwnHash(w'.plan.steps[i], h)
            && w'.plan.steps[i].key == Some(KeyFor(w'.plan.planId, w'.plan.steps[i], w'.plan.steps[i].attempt, h)))
  {
    RunKeepsInv(w, ops, h);
  }

  /** STATUS AGREEMENT, in every reachable state. */
  lemma StatusAgreement(w: World, ops: seq<Op>, h: Hasher)
    requires Inv(w, h)
    ensures var p := After(w, ops, h).plan;
      && (p.steps != [] ==> (p.state == CompletedPlan <==> AllCompleted(p.steps)))
      && (p.state == FailedPlan ==> AnyFailed(p.steps))
  {
    RunKeepsInv(w, ops, h);
  }

  /** The ids of the steps still to be completed. */
  function OpenIds(steps: seq<PlanStep>): (open: set<string>)
    ensures forall k :: k in open <==> exists i | 0 <= i < |steps| :: steps[i].state != Completed && steps[i].stepId == k
  {
    set i | 0 <= i < |steps| && steps[i].state != Completed :: steps[i].stepId
  }

  lemma OpenIdsAreNodes(steps: seq<PlanStep>)
    ensures OpenIds(steps) <= GraphOf(Nodes(steps)).Keys
  {
    forall k | k in OpenIds(steps) ensures k in GraphOf(Nodes(steps)) {
      var i :| 0 <= i < |steps| && steps[i].state != Completed && steps[i].stepId == k;
      assert Nodes(steps)[i].id == k;
    }
  }

  /** DEADLOCK FREEDOM. While some step is unfinished, some unfinished step has every dependency
      COMPLETED. */
  lemma AlwaysSomethingToDo(steps: seq<PlanStep>)
    requires WellFormed(steps) && !AllCompleted(steps)
    ensures exists i | 0 <= i < |steps| :: steps[i].state != Completed && DepsCompleted(steps, i)
  {
    var g, open := GraphOf(Nodes(steps)), OpenIds(steps);
    OpenIdsAreNodes(steps);
    var j :| 0 <= j < |steps| && steps[j].state != Completed;
    assert steps[j].stepId in open;
    SomeMemberIsFree(g, open);
    var k :| k in open && g[k] * open == {};
    var i :| 0 <= i < |steps| && steps[i].state != Completed && steps[i].stepId == k;
    FreeStepIsReady(steps, i);
  }

  lemma FreeStepIsReady(steps: seq<PlanStep>, i: nat)
    requires DistinctIds(Nodes(steps)) && DependenciesKnown(steps) && i < |steps|
    requires steps[i].stepId in GraphOf(Nodes(steps)) && GraphOf(Nodes(steps))[steps[i].stepId] * OpenIds(steps) == {}
    ensures DepsCompleted(steps, i)
  {
    GraphEntry(steps, i);
    forall d | d in steps[i].dependsOn ensures IsCompleted(steps, d) {
      var deps: set<string> := GraphOf(Nodes(steps))[steps[i].stepId];
      assert d in deps;
      assert d !in deps * OpenIds(steps);
      assert d in Ids(steps);
      var m :| 0 <= m < |steps| && steps[m].stepId == d;
    }
  }

  /** The same for every plan any run reaches. */
  lemma ReachableNeverDeadlocks(w: World, ops: seq<Op>, h: Hasher)
    requires Inv(w, h)
    ensures var steps := After(w, ops, h).plan.steps;
      AllCompleted(steps) || exists i | 0 <= i < |steps| :: steps[i].state != Completed && DepsCompleted(steps, i)
  {
    RunKeepsInv(w, ops, h);
    var steps := After(w, ops, h).plan.steps;
    if !AllCompleted(steps) { AlwaysSomethingToDo(steps); }
  }

  lemma {:induction false} GraphEntry(steps: seq<PlanStep>, i: nat)
    requires DistinctIds(Nodes(steps)) && i < |steps|
    ensures steps[i].stepId in GraphOf(Nodes(steps))
    ensures GraphOf(Nodes(steps))[steps[i].stepId] == set d | d in steps[i].dependsOn
    decreases |steps|
  {
    var n := |steps| - 1;
    var before := steps[..n];
    assert Nodes(steps)[..n] == Nodes(before);
    if i < n {
      assert DistinctIds(Nodes(before)) by {
        forall a, b | 0 <= a < b < |before| ensures Nodes(before)[a].id != Nodes(before)[b].id {
          assert Nodes(steps)[a].id != Nodes(steps)[b].id;
        }
      }
      GraphEntry(before, i);
      assert Nodes(steps)[i].id != Nodes(steps)[n].id;
    }
  }

  // ------------------------------------------------------------- key freshness

  lemma {:induction false} DecimalInjective(m: nat, n: nat)
    requires Decimal(m) == Decimal(n)
    ensures m == n
    decreases m + n
  {
    DecimalShape(m);
    DecimalShape(n);
    if m >= 10 && n >= 10 {
      var a, b := Decimal(m), Decimal(n);
      assert a[..|a|-1] == Decimal(m / 10) && b[..|b|-1] == Decimal(n / 10);
      DecimalInjective(m / 10, n / 10);
    }
  }

  lemma DecimalShape(n: nat)
    ensures |Decimal(n)| >= 1 && Decimal(n)[|Decimal(n)|-1] == "0123456789"[n % 10]
    ensures |Decimal(n)| == 1 <==> n < 10
  {}

  /** Keys of different steps differ, and so do keys of different attempts of one step. */
  lemma KeysDiffer(planId: Uuid, s: PlanStep, a: nat, t: PlanStep, b: nat, h: Hasher)
    requires s.stepId != t.stepId || (s.binding == t.binding && a != b)
    ensures KeyFor(planId, s, a, h) != KeyFor(planId, t, b, h)
  {
    var k, l := KeyFor(planId, s, a, h), KeyFor(planId, t, b, h);
    if k == l {
      var p, q := KeyPrefix(planId, s.stepId), KeyPrefix(planId, t.stepId);
      assert |p| == |q| && k[..|p|] == p && l[..|q|] == q;
      assert p[|p|-37..|p|-1] == s.stepId && q[|q|-37..|q|-1] == t.stepId;
      var stem := p + h.digest(planId, s.stepId, s.binding) + ":a";
      assert k[|stem|..] == Decimal(a) && l[|stem|..] == Decimal(b);
      DecimalInjective(a, b);
    }
  }

  /** A preparation raises the attempt of the step it prepares and keys that new attempt. */
  lemma PreparationKeysNextAttempt(w: World, op: Op, h: Hasher) returns (x: nat)
    requires Exec(w, op, h).1.Prepared?
    ensures x < |w.plan.steps| == |Exec(w, op, h).0.plan.steps|
    ensures Exec(w, op, h).1.command.key == KeyFor(w.plan.planId, w.plan.steps[x], w.plan.steps[x].attempt + 1, h)
    ensures Exec(w, op, h).0.plan.steps[x].attempt == w.plan.steps[x].attempt + 1
    ensures SameWork(w.plan.steps[x], Exec(w, op, h).0.plan.steps[x])
    ensures Exec(w, op, h).0.plan.planId == w.plan.planId
  {
    x := IndexOf(w.plan.steps, op.stepId).value;
  }

  lemma LaterKeyDiffers(u: World, v: World, first: Op, second: Op, h: Hasher)
    requires Exec(u, first, h).1.Prepared? && Exec(v, second, h).1.Prepared?
    requires Frozen(Exec(u, first, h).0.plan, v.plan) && WellFormed(v.plan.steps)
    ensures Exec(u, first, h).1.command.key != Exec(v, second, h).1.command.key
  {
    var x := PreparationKeysNextAttempt(u, first, h);
    var y := PreparationKeysNextAttempt(v, second, h);
    var u' := Exec(u, first, h).0;
    assert SameWork(u'.plan.steps[x], v.plan.steps[x]) && u'.plan.steps[x].attempt <= v.plan.steps[x].attempt;
    if x != y {
      assert Nodes(v.plan.steps)[x].id != Nodes(v.plan.steps)[y].id;
    }
    KeysDiffer(u.plan.planId, u.plan.steps[x], u.plan.steps[x].attempt + 1, v.plan.steps[y], v.plan.steps[y].attempt + 1, h);
  }

  /** A retry is accepted exactly for a step that failed, was blocked or was cancelled. It leaves the
      other steps alone, and no Gateway row can be recorded for the step until it is prepared again. */
  lemma RetryForgets(p: Plan, stepId: Uuid, commandId: string, gateway: Gateway)
    ensures var i := IndexOf(p.steps, stepId); var r := Retry(p, stepId);
      && (r.Success? <==> i.Some? && p.steps[i.value].state in {Failed, Blocked, Cancelled})
      && (r.Success? ==>
        && |r.value.steps| == |p.steps| && IndexOf(r.value.steps, stepId) == i && SameShape(p.steps, r.value.steps)
        && (forall k | 0 <= k < |p.steps| && k != i.value :: r.value.steps[k] == p.steps[k])
        && r.value.steps[i.value].attempt == p.steps[i.value].attempt && r.value.planId == p.planId
        && r.value.state == (if p.approvedAt.Some? then ApprovedPlan else ReadyPlan)
        && Record(r.value, stepId, commandId, gateway) == Failure(VersionConflict))
  {
    var r := Retry(p, stepId);
    if r.Success? { SameIndex(p.steps, r.value.steps, stepId); }
  }

  /** A RETRY ABANDONS ITS ATTEMPT: the next preparation hands out another key, so a late result of the
      abandoned attempt is refused before it and after it. */
  lemma RetryAbandonsTheAttempt(w: World, stepId: Uuid, protocol: string, commandId: string, gateway: Gateway, h: Hasher)
    requires StepsOk(w, h)
    ensures var i := IndexOf(w.plan.steps, stepId); var r := Retry(w.plan, stepId);
      r.Success? && w.plan.steps[i.value].key.Some? && Prepare(r.value, stepId, protocol, h).Success? ==>
        var old_, p := w.plan.steps[i.value].key.value, Prepare(r.value, stepId, protocol, h).value;
        && p.1.key != old_
        && (commandId in gateway && gateway[commandId].key == old_ ==> Record(p.0, stepId, commandId, gateway).Failure?)
  {
    var i, r := IndexOf(w.plan.steps, stepId), Retry(w.plan, stepId);
    RetryForgets(w.plan, stepId, commandId, gateway);
    if r.Success? && w.plan.steps[i.value].key.Some? && Prepare(r.value, stepId, protocol, h).Success? {
      assert LocalOk(w.gateway, w.plan.planId, w.plan.scope, w.plan.steps[i.value], h);
      PreparedKey(w.plan, r.value, i.value, stepId, protocol, h);
      NextKeyIsNew(w.plan, i.value, h);
      OldResultRefused(Prepare(r.value, stepId, protocol, h).value.0, i.value, stepId, commandId, gateway);
    }
  }

  lemma NextKeyIsNew(p: Plan, i: nat, h: Hasher)
    requires i < |p.steps|
    ensures KeyFor(p.planId, p.steps[i], p.steps[i].attempt + 1, h) != KeyFor(p.planId, p.steps[i], p.steps[i].attempt, h)
  {
    var s := p.steps[i];
    KeysDiffer(p.planId, s, s.attempt + 1, s, s.attempt, h);
  }

  /** Only a row under the step's current key can be recorded. */
  lemma OldResultRefused(p: Plan, i: nat, stepId: Uuid, commandId: string, gateway: Gateway)
    requires IndexOf(p.steps, stepId) == Some(i)
    ensures commandId in gateway && p.steps[i].key != Some(gateway[commandId].key) ==> Record(p, stepId, commandId, gateway).Failure?
  {
  }

  /** The key a preparation hands out, in terms of an earlier state of the step. */
  lemma PreparedKey(p: Plan, q: Plan, i: nat, stepId: Uuid, protocol: string, h: Hasher)
    requires i < |p.steps| == |q.steps| && SameWork(p.steps[i], q.steps[i]) && q.planId == p.planId
    requires p.steps[i].attempt == q.steps[i].attempt
    requires IndexOf(q.steps, stepId) == Some(i) && Prepare(q, stepId, protocol, h).Success?
    ensures var r := Prepare(q, stepId, protocol, h).value; var key := KeyFor(p.planId, p.steps[i], p.steps[i].attempt + 1, h);
      r.1.key == key && |r.0.steps| == |q.steps| && r.0.steps[i].key == Some(key) && IndexOf(r.0.steps, stepId) == Some(i)
  {
    SameIndex(q.steps, Prepare(q, stepId, protocol, h).value.0.steps, stepId);
  }

  lemma {:induction false} SameIndex(a: seq<PlanStep>, b: seq<PlanStep>, id: Uuid)
    requires |a| == |b| && forall k | 0 <= k < |a| :: a[k].stepId == b[k].stepId
    ensures IndexOf(a, id) == IndexOf(b, id)
    decreases |a|
  {
    if a != [] { SameIndex(a[..|a|-1], b[..|b|-1], id); }
  }

  /** A COMPLETED step is never prepared again: no later preparation is of that step, and its attempt
      number stands. */
  lemma CompletedIsNeverPreparedAgain(w: World, ops: seq<Op>, i: nat, k: nat, h: Hasher)
    requires Inv(w, h) && i < |w.plan.steps| && w.plan.steps[i].state == Completed && k < |ops|
    ensures OutcomeAt(w, ops, k, h).Prepared? ==> OutcomeAt(w, ops, k, h).command.stepId != w.plan.steps[i].stepId
    ensures var v := After(w, ops, h); i < |v.plan.steps| && v.plan.steps[i].attempt == w.plan.steps[i].attempt
  {
    var s := w.plan.steps[i];
    assert LocalOk(w.gateway, w.plan.planId, w.plan.scope, s, h);
    ApprovedIsFrozen(w, ops[..k], h);
    ApprovedIsFrozen(w, ops, h);
    RunKeepsInv(w, ops[..k], h);
    RunKeepsInv(w, ops, h);
    SameAttempt(w, After(w, ops, h), i, h);
    var mid := After(w, ops[..k], h);
    if OutcomeAt(w, ops, k, h).Prepared? { PreparesAnother(mid, ops[k], i, h); }
  }

  lemma SameAttempt(w: World, v: World, i: nat, h: Hasher)
    requires StepsOk(w, h) && StepsOk(v, h) && Frozen(w.plan, v.plan) && i < |w.plan.steps| && w.plan.steps[i].state == Completed
    ensures v.plan.steps[i].attempt == w.plan.steps[i].attempt
  {
    var s, t := w.plan.steps[i], v.plan.steps[i];
    assert SameWork(s, t) && s.key == t.key;
    assert LocalOk(w.gateway, w.plan.planId, w.plan.scope, s, h) && LocalOk(v.gateway, v.plan.planId, v.plan.scope, t, h);
    if s.attempt != t.attempt { KeysDiffer(w.plan.planId, s, s.attempt, t, t.attempt, h); }
  }

  lemma PreparesAnother(w: World, op: Op, i: nat, h: Hasher)
    requires DistinctIds(Nodes(w.plan.steps)) && i < |w.plan.steps| && w.plan.steps[i].state == Completed && Exec(w, op, h).1.Prepared?
    ensures Exec(w, op, h).1.command.stepId != w.plan.steps[i].stepId
  {
    var j := IndexOf(w.plan.steps, op.stepId).value;
    assert Nodes(w.plan.steps)[i].id == w.plan.steps[i].stepId && Nodes(w.plan.steps)[j].id == w.plan.steps[j].stepId;
  }

  /** A finished Gateway row is never rewritten. */
  lemma {:induction false} DoneRowsStay(w: World, ops: seq<Op>, id: string, h: Hasher)
    requires id in w.gateway && w.gateway[id].status == Done
    ensures id in After(w, ops, h).gateway && After(w, ops, h).gateway[id] == w.gateway[id]
    decreases |ops|
  {
    if ops != [] {
      DoneRowsStay(w, ops[..|ops|-1], id, h);
      DoneRowStays(After(w, ops[..|ops|-1], h), ops[|ops|-1], id, h);
    }
  }

  lemma DoneRowStays(w: World, op: Op, id: string, h: Hasher)
    requires id in w.gateway && w.gateway[id].status == Done
    ensures id in Exec(w, op, h).0.gateway && Exec(w, op, h).0.gateway[id] == w.gateway[id]
  {
  }

  /** KEY FRESHNESS. No two preparations in the whole life of a plan hand out the same key. */
  lemma KeysAreFresh(w: World, ops: seq<Op>, i: nat, j: nat, h: Hasher)
    requires Inv(w, h) && i < j < |ops|
    ensures OutcomeAt(w, ops, i, h).Prepared? && OutcomeAt(w, ops, j, h).Prepared? ==>
      OutcomeAt(w, ops, i, h).command.key != OutcomeAt(w, ops, j, h).command.key
  {
    if OutcomeAt(w, ops, i, h).Prepared? && OutcomeAt(w, ops, j, h).Prepared? { TwoKeysDiffer(w, ops, i, j, h); }
  }

  lemma TwoKeysDiffer(w: World, ops: seq<Op>, i: nat, j: nat, h: Hasher)
    requires Inv(w, h) && i < j < |ops|
    requires OutcomeAt(w, ops, i, h).Prepared? && OutcomeAt(w, ops, j, h).Prepared?
    ensures OutcomeAt(w, ops, i, h).command.key != OutcomeAt(w, ops, j, h).command.key
  {
    var u, v := After(w, ops[..i], h), After(w, ops[..j], h);
    RunKeepsInv(w, ops[..i], h);
    RunKeepsInv(w, ops[..j], h);
    StepKeepsInv(u, ops[i], h);
    var u' := Exec(u, ops[i], h).0;
    assert ops[..i+1][..i] == ops[..i];
    AfterLast(w, ops[..i+1], h);
    AfterSplit(w, ops[..j], i + 1, h);
    assert ops[..j][..i+1] == ops[..i+1];
    PreparedIsApproved(u, ops[i], h);
    ApprovedIsFrozen(u', ops[..j][i+1..], h);
    LaterKeyDiffers(u, v, ops[i], ops[j], h);
  }

  lemma PreparedIsApproved(w: World, op: Op, h: Hasher)
    requires StatusOk(w.plan) && Exec(w, op, h).1.Prepared?
    ensures w.plan.approvedAt.Some? && Exec(w, op, h).0.plan.approvedAt.Some?
  {}
}
