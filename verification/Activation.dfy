/** Context-policy activation: a mode that moves forward one step at a time on recorded evidence,
    and a rollback to the last certified policy. */
module Activation {
  import opened Wrappers

  datatype Mode = CertifiedBaseline | Shadow | Canary | Promoted | UnknownMode(name: string)
  datatype Arm = Pull | Push | Semantic | UnknownArm(name: string)
  datatype Gate = Gate(name: string, passed: bool, observed: Option<int>, required: Option<int>, reason: string)
  datatype Verdict = Verdict(allowed: bool, requested: Mode, current: Mode, gates: seq<Gate>, refused: seq<string>)
  datatype Policy = Policy(semantic: bool, assembly: Arm, source: string)

  /** A promotion run: what was decided, which gates were deferred (None when the record holds no
      list), and the arm it evaluated. */
  datatype PromotionRun = PromotionRun(decision: Option<string>, deferred: Option<seq<string>>, evaluated: Arm)
  datatype State = State(mode: Mode, arm: Arm, lastMode: Mode, lastArm: Arm, lastRun: Option<nat>, fraction: real)

  const DEFAULT_FRACTION := 0.05
  const BUCKETS := 10000
  const INSUFFICIENT_CORPUS := "INSUFFICIENT_CORPUS"
  const FAIL := "FAIL"
  const PARTIAL_PASS := "PARTIAL_PASS_IMPLEMENTED_GATES_ONLY"
  const REPLAY_GATES: seq<string> := ["context_attributed_failure_rate", "task_success_on_corpus"]

  // ------------------------------------------------------------ the mode machine

  function Rank(m: Mode): Option<nat> {
    match m
    case CertifiedBaseline => Some(0)
    case Shadow => Some(1)
    case Canary => Some(2)
    case Promoted => Some(3)
    case UnknownMode(_) => None
  }

  predicate CanTransition(current: Mode, target: Mode) {
    target == current || (Rank(current).Some? && Rank(target).Some? && Rank(target).value == Rank(current).value + 1)
  }

  predicate Promotable(m: Mode) { m.Shadow? || m.Canary? || m.Promoted? }

  /** The evidence Chapter 5.13 asks for before a candidate may serve. */
  predicate Sufficient(decision: Option<string>, deferred: Option<seq<string>>) {
    && decision.Some? && decision.value != INSUFFICIENT_CORPUS && decision.value != FAIL && decision.value != PARTIAL_PASS
    && (deferred.Some? ==> deferred.value == [])
  }

  predicate Permitted(current: Mode, requested: Mode, arm: Arm, decision: Option<string>, deferred: Option<seq<string>>, implementedFail: bool) {
    && Promotable(requested) && !arm.UnknownArm? && CanTransition(current, requested)
    && (requested.Shadow? || (Sufficient(decision, deferred) && !implementedFail))
  }

  function BoolGate(name: string, passed: bool, insufficient: bool): Gate {
    if insufficient then Gate(name, false, None, None, name + "_insufficient_evidence")
    else Gate(name, passed, Some(if passed then 1 else 0), Some(1), if passed then "ok" else name + "_unmet")
  }

  function Commas(s: seq<string>): string {
    if s == [] then "" else if |s| == 1 then s[0] else Commas(s[..|s|-1]) + "," + s[|s|-1]
  }

  /** The refusals that need no evidence. */
  function StructuralRefusal(current: Mode, requested: Mode, arm: Arm): Option<string> {
    if !Promotable(requested) then Some("requested_mode_not_promotable")
    else if arm.UnknownArm? then Some("unknown_candidate_arm")
    else if !CanTransition(current, requested) then Some("illegal_mode_transition")
    else None
  }

  /** The reasons a run can be held against a request, each with its condition. */
  predicate Objection(x: string, decision: Option<string>, deferred: Option<seq<string>>, implementedFail: bool) {
    DecisionObjection(x, decision, implementedFail) || DeferredObjection(x, deferred)
    || (x == "partial_pass_does_not_flip_production" && decision == Some(PARTIAL_PASS))
  }

  predicate DecisionObjection(x: string, decision: Option<string>, implementedFail: bool) {
    || (x == "insufficient_corpus" && decision == Some(INSUFFICIENT_CORPUS))
    || (x == "promotion_gate_fail" && decision != Some(INSUFFICIENT_CORPUS) && (decision == Some(FAIL) || implementedFail))
    || (x == "promotion_run_recorded_insufficient_evidence" && decision.None? && !implementedFail)
  }

  predicate DeferredObjection(x: string, deferred: Option<seq<string>>) {
    deferred.Some? && deferred.value != [] && x == "chapter_5_13_gates_incomplete:" + Commas(deferred.value)
  }

  predicate AllPassed(gates: seq<Gate>) { forall g | g in gates :: g.passed }

  /** The gate evaluation. A canary or promoted request is allowed if and only if every gate passed
      and the decision is not a partial pass, and that is exactly the evidence asked for. */
  method EvaluateGates(current: Mode, requested: Mode, arm: Arm, decision: Option<string>, deferred: Option<seq<string>>, implementedFail: bool)
    returns (v: Verdict)
    ensures v.allowed <==> Permitted(current, requested, arm, decision, deferred, implementedFail)
    ensures v.requested == requested && v.current == current
    ensures v.allowed <==> v.refused == []
    ensures Distinct(v.refused)
    ensures v.gates != [] <==> Promotable(requested) && !arm.UnknownArm? && CanTransition(current, requested)
    ensures v.gates != [] ==> (v.allowed <==> AllPassed(v.gates) && (requested.Shadow? || decision != Some(PARTIAL_PASS)))
    ensures v.gates == [] ==> v.refused == [if !Promotable(requested) then "requested_mode_not_promotable"
      else if arm.UnknownArm? then "unknown_candidate_arm" else "illegal_mode_transition"]
    ensures v.gates != [] ==> forall x :: x in v.refused <==> !requested.Shadow? && Objection(x, decision, deferred, implementedFail)
  {
    var structural := StructuralRefusal(current, requested, arm);
    if structural.Some? { return Verdict(false, requested, current, [], [structural.value]); }
    if requested.Shadow? {
      return Verdict(true, requested, current, [Gate("shadow_observation_only", true, Some(1), Some(1), "ok")], []);
    }
    var gates, refused := EvidenceGates(decision, deferred, implementedFail);
    v := Verdict(refused == [], requested, current, gates, refused);
  }

  /** Canary and promoted: everything must hold. */
  method EvidenceGates(decision: Option<string>, deferred: Option<seq<string>>, implementedFail: bool)
    returns (gates: seq<Gate>, unique: seq<string>)
    ensures gates != [] && Distinct(unique)
    ensures unique == [] <==> Sufficient(decision, deferred) && !implementedFail
    ensures unique == [] <==> AllPassed(gates) && decision != Some(PARTIAL_PASS)
    ensures forall x :: x in unique <==> Objection(x, decision, deferred, implementedFail)
  {
    var first, refused := DecisionGates(decision, implementedFail);
    var more, reasons := DeferredGates(deferred);
    if decision == Some(PARTIAL_PASS) { reasons := reasons + ["partial_pass_does_not_flip_production"]; }
    unique := Deduplicate(refused + reasons);
    gates := first + more;
    BothPassed(first, more);
  }

  lemma BothPassed(a: seq<Gate>, b: seq<Gate>)
    ensures AllPassed(a + b) <==> AllPassed(a) && AllPassed(b)
  {
    forall g | g in a || g in b ensures g in a + b {}
  }

  /** The gates on the recorded decision. */
  method DecisionGates(decision: Option<string>, implementedFail: bool) returns (gates: seq<Gate>, refused: seq<string>)
    ensures gates != [] && (AllPassed(gates) <==> refused == [])
    ensures refused == [] <==> decision.Some? && decision.value != INSUFFICIENT_CORPUS && decision.value != FAIL && !implementedFail
    ensures forall x :: x in refused <==> DecisionObjection(x, decision, implementedFail)
  {
    if decision == Some(INSUFFICIENT_CORPUS) {
      gates, refused := [BoolGate("corpus_adequate", false, false)], ["insufficient_corpus"];
    } else if decision == Some(FAIL) || implementedFail {
      gates, refused := [BoolGate("implemented_gates_hold", false, false)], ["promotion_gate_fail"];
    } else if decision.None? {
      gates, refused := [BoolGate("promotion_run_recorded", false, true)], ["promotion_run_recorded_insufficient_evidence"];
    } else {
      gates, refused := [BoolGate("promotion_run_recorded", true, false)], [];
      gates := gates + [BoolGate("implemented_gates_hold", decision != Some(FAIL), false)];
    }
    assert gates[0] in gates;
  }

  /** The gates on what the run deferred. */
  method DeferredGates(deferred: Option<seq<string>>) returns (gates: seq<Gate>, refused: seq<string>)
    ensures gates != [] && (AllPassed(gates) <==> refused == [])
    ensures refused == [] <==> (deferred.Some? ==> deferred.value == [])
    ensures forall x :: x in refused <==> DeferredObjection(x, deferred)
  {
    var remaining := if deferred.Some? then deferred.value else [];
    var computed := ComputedGate(remaining);
    gates := [computed];
    refused := if remaining == [] then [] else [computed.reason];
    if REPLAY_GATES[0] in remaining || REPLAY_GATES[1] in remaining { gates := gates + [ReplayGate()]; }
    assert computed in gates && (computed.passed <==> remaining == []);
  }

  function ComputedGate(remaining: seq<string>): Gate {
    Gate("chapter_5_13_all_gates_computed", remaining == [], Some(|remaining|), Some(0),
         if remaining == [] then "ok" else "chapter_5_13_gates_incomplete:" + Commas(remaining))
  }

  function ReplayGate(): Gate {
    Gate("worker_verification_replay", false, None, None, "worker_verification_replay_insufficient_evidence")
  }

  /** First occurrences, in order. */
  method Deduplicate(reasons: seq<string>) returns (unique: seq<string>)
    ensures Distinct(unique)
    ensures forall x :: x in unique <==> x in reasons
    ensures unique == [] <==> reasons == []
  {
    unique := [];
    for i := 0 to |reasons|
      invariant Distinct(unique)
      invariant forall x :: x in unique <==> x in reasons[..i]
    {
      assert reasons[..i+1] == reasons[..i] + [reasons[i]];
      if reasons[i] !in unique { unique := unique + [reasons[i]]; }
    }
    assert reasons[..|reasons|] == reasons;
    if reasons != [] { assert reasons[0] in unique; }
    if unique != [] { assert unique[0] in reasons; }
  }

  // ------------------------------------------------------------ the served policy

  /** How many of the 10000 buckets a canary fraction admits. */
  function SliceSize(fraction: real): nat {
    if fraction <= 0.0 then 0 else if fraction >= 1.0 then BUCKETS else (fraction * BUCKETS as real).Floor
  }

  predicate InCanarySlice(bucket: nat, fraction: real) {
    if fraction <= 0.0 then false
    else if fraction >= 1.0 then true
    else bucket < (fraction * BUCKETS as real).Floor
  }

  function Named(m: Mode): string {
    match m
    case CertifiedBaseline => "certified_baseline"
    case Shadow => "shadow"
    case Canary => "canary"
    case Promoted => "promoted"
    case UnknownMode(name) => name
  }

  function CompilePolicy(mode: Option<Mode>, arm: Arm, fraction: real, bucket: nat): Policy {
    if mode.None? then Policy(false, Pull, "certified_baseline")
    else if mode.value.CertifiedBaseline? || mode.value.Shadow? then Policy(false, Pull, Named(mode.value))
    else if !(mode.value.Promoted? || (mode.value.Canary? && InCanarySlice(bucket, fraction))) then Policy(false, Pull, "canary_control")
    else if arm.Semantic? then Policy(true, Pull, Named(mode.value))
    else if arm.Push? then Policy(false, Push, Named(mode.value))
    else Policy(false, Pull, Named(mode.value))
  }

  predicate ServesPull(p: Policy) { !p.semantic && p.assembly == Pull }

  function PolicyOf(state: Option<State>, bucket: nat): Policy {
    match state
    case None => CompilePolicy(None, Pull, DEFAULT_FRACTION, bucket)
    case Some(s) => CompilePolicy(Some(s.mode), s.arm, s.fraction, bucket)
  }

  /** The slice is an initial segment of the buckets that only grows with the fraction. */
  lemma CanarySliceGrows(bucket: nat, small: real, large: real)
    requires bucket < BUCKETS && small <= large
    ensures InCanarySlice(bucket, small) ==> InCanarySlice(bucket, large)
    ensures InCanarySlice(bucket, small) <==> bucket < SliceSize(small)
    ensures SliceSize(small) <= SliceSize(large) <= BUCKETS
  {
    assert small * BUCKETS as real <= large * BUCKETS as real;
  }

  // ------------------------------------------------------------ the durable row

  datatype World = World(state: Option<State>, runs: map<nat, PromotionRun>)
  datatype Request = Request(mode: Mode, arm: Arm, current: Option<Mode>, run: Option<nat>, fraction: Option<real>)

  function Durable(state: Option<State>): Mode { if state.Some? then state.value.mode else CertifiedBaseline }

  /** The run a request is judged on: the one it names, or the last one used. */
  function RunFor(w: World, req: Request): Option<nat> {
    var id := if req.run.Some? then req.run else if w.state.Some? then w.state.value.lastRun else None;
    if id.Some? && id.value in w.runs then id else None
  }

  function Decision(w: World, req: Request): Option<string> {
    match RunFor(w, req) case None => None case Some(id) => w.runs[id].decision
  }

  function Deferred(w: World, req: Request): Option<seq<string>> {
    match RunFor(w, req) case None => None case Some(id) => w.runs[id].deferred
  }

  predicate Refused(w: World, req: Request) {
    || (req.current.Some? && req.current.value != Durable(w.state))
    || (!(w.state.Some? && req.mode == Durable(w.state))
      && !Permitted(Durable(w.state), req.mode, req.arm, Decision(w, req), Deferred(w, req), Decision(w, req) == Some(FAIL)))
  }

  function Written(w: World, req: Request): State {
    var s := if w.state.Some? then w.state.value else State(CertifiedBaseline, Pull, CertifiedBaseline, Pull, None, DEFAULT_FRACTION);
    State(req.mode, req.arm,
          if req.mode.Promoted? then Promoted else s.lastMode,
          if req.mode.Promoted? then req.arm else s.lastArm,
          if RunFor(w, req).Some? then RunFor(w, req) else s.lastRun,
          if req.fraction.Some? then req.fraction.value else s.fraction)
  }

  function Advance(w: World, req: Request): World {
    if Refused(w, req) || (w.state.Some? && req.mode == Durable(w.state)) then w
    else w.(state := Some(Written(w, req)))
  }

  function LastCertified(certified: Option<Mode>): Mode {
    if certified.Some? && Rank(certified.value).Some? then certified.value else CertifiedBaseline
  }

  function Rollback(w: World): World {
    var s := if w.state.Some? then w.state.value else State(CertifiedBaseline, Pull, CertifiedBaseline, Pull, None, DEFAULT_FRACTION);
    var mode := LastCertified(if w.state.Some? then Some(s.lastMode) else None);
    var arm := if mode.CertifiedBaseline? then Pull else s.lastArm;
    w.(state := Some(State(mode, arm, mode, arm, s.lastRun, s.fraction)))
  }

  /** A run is recorded once, decided or still pending. */
  function Record(w: World, id: nat, run: PromotionRun): World {
    if id in w.runs then w else w.(runs := w.runs[id := run])
  }

  /** A pending run is filled in; a decided one is never rewritten. */
  function Complete(w: World, id: nat, run: PromotionRun): World {
    if id in w.runs && w.runs[id].decision.None? then w.(runs := w.runs[id := run]) else w
  }

  datatype Op = AdvanceOp(request: Request) | RollbackOp | RecordOp(id: nat, run: PromotionRun) | CompleteOp(id: nat, run: PromotionRun)

  function Exec(w: World, op: Op): World {
    match op
    case AdvanceOp(req) => Advance(w, req)
    case RollbackOp => Rollback(w)
    case RecordOp(id, run) => Record(w, id, run)
    case CompleteOp(id, run) => Complete(w, id, run)
  }

  function After(w: World, ops: seq<Op>): World
    decreases |ops|
  {
    if ops == [] then w else After(Exec(w, ops[0]), ops[1..])
  }

  const START := World(None, map[])

  // ------------------------------------------------------------ whole runs

  /** An operation that writes a run. */
  predicate WritesRun(op: Op) { op.RecordOp? || op.CompleteOp? }

  predicate GoodRun(w: World, id: Option<nat>) {
    id.Some? && id.value in w.runs && Sufficient(w.runs[id.value].decision, w.runs[id.value].deferred)
  }

  /** The last certified policy is the baseline with pull until a promotion, and the promoted arm from
      then on; a serving candidate rests on a sufficient run. */
  predicate Inv(w: World) {
    w.state.Some? ==>
      var s := w.state.value;
      && !s.mode.UnknownMode? && !s.arm.UnknownArm?
      && s.lastMode == (if s.mode.Promoted? then Promoted else CertifiedBaseline)
      && s.lastArm == (if s.mode.Promoted? then s.arm else Pull)
      && (s.mode.CertifiedBaseline? ==> s.arm == Pull)
      && (s.mode.Canary? || s.mode.Promoted? ==> GoodRun(w, s.lastRun))
  }

  lemma StepKeepsInv(w: World, op: Op)
    requires Inv(w)
    ensures Inv(Exec(w, op))
  {
  }

  lemma {:induction false} ReachableInv(w: World, ops: seq<Op>)
    requires Inv(w)
    ensures Inv(After(w, ops))
    decreases |ops|
  {
    if ops != [] {
      StepKeepsInv(w, ops[0]);
      ReachableInv(Exec(w, ops[0]), ops[1..]);
    }
  }

  /** One step leaves the mode, moves it forward by one, or rolls an unpromoted mode back to the
      baseline; canary and promoted are entered only from the mode just before, by a request judged on
      a recorded run with sufficient evidence and no deferred gates. */
  lemma StepMoves(w: World, op: Op)
    requires Inv(w)
    ensures var here, there := Durable(w.state), Durable(Exec(w, op).state);
      && (there == here || Rank(there) == Some(Rank(here).value + 1) || (op.RollbackOp? && there.CertifiedBaseline? && !here.Promoted?))
      && (there != here && (there.Canary? || there.Promoted?) ==>
        && op.AdvanceOp? && Rank(there) == Some(Rank(here).value + 1)
        && GoodRun(w, RunFor(w, op.request)))
  {
  }

  /** The runs recorded so far and those a run of operations records. */
  predicate OnlyInsufficient(w: World, ops: seq<Op>) {
    && (forall id | id in w.runs :: !GoodRun(w, Some(id)))
    && (forall i | 0 <= i < |ops| && WritesRun(ops[i]) :: !Sufficient(ops[i].run.decision, ops[i].run.deferred))
  }

  /** While no recorded run is sufficient, every task in every reachable state is served pull. */
  lemma {:induction false} InsufficientEvidenceServesPull(w: World, ops: seq<Op>, bucket: nat)
    requires Inv(w) && OnlyInsufficient(w, ops)
    ensures ServesPull(PolicyOf(After(w, ops).state, bucket))
    decreases |ops|
  {
    if ops != [] {
      var next := Exec(w, ops[0]);
      StepKeepsInv(w, ops[0]);
      forall id | id in next.runs ensures !GoodRun(next, Some(id)) {
        if id in w.runs { assert !GoodRun(w, Some(id)); }
      }
      assert OnlyInsufficient(next, ops[1..]);
      InsufficientEvidenceServesPull(next, ops[1..], bucket);
    }
  }

  /** A task is served something other than pull exactly when the durable row is promoted, or in canary
      with the task's bucket in the slice, and names another arm, which is then the one served; and in
      every reachable state that row rests on a sufficient run. */
  lemma CandidateIsServedExactly(ops: seq<Op>, bucket: nat)
    requires bucket < BUCKETS
    ensures var w := After(START, ops); var p := PolicyOf(w.state, bucket);
      var serving := w.state.Some? && (w.state.value.mode.Promoted? || (w.state.value.mode.Canary? && bucket < SliceSize(w.state.value.fraction)));
      && (p.semantic <==> serving && w.state.value.arm.Semantic?)
      && (p.assembly == Push <==> serving && w.state.value.arm.Push?)
      && (p.assembly != Push ==> p.assembly == Pull)
      && p.source == (if w.state.None? then "certified_baseline"
        else if w.state.value.mode.Canary? && !serving then "canary_control" else Named(w.state.value.mode))
      && (!ServesPull(p) ==> GoodRun(w, w.state.value.lastRun))
  {
    ReachableInv(START, ops);
    var w := After(START, ops);
    if w.state.Some? { CanarySliceGrows(bucket, w.state.value.fraction, w.state.value.fraction); }
  }

  /** The decisions the run contract contains. */
  predicate ContractDecision(d: Option<string>) {
    d.None? || d.value == INSUFFICIENT_CORPUS || d.value == FAIL || d.value == PARTIAL_PASS
  }

  /** With those decisions alone no task is ever served anything but pull. */
  lemma ContractDecisionsServePull(ops: seq<Op>, bucket: nat)
    requires forall i | 0 <= i < |ops| && WritesRun(ops[i]) :: ContractDecision(ops[i].run.decision)
    ensures ServesPull(PolicyOf(After(START, ops).state, bucket))
  {
    ContractRunsAreInsufficient(ops);
    InsufficientEvidenceServesPull(START, ops, bucket);
  }

  lemma ContractRunsAreInsufficient(ops: seq<Op>)
    requires forall i | 0 <= i < |ops| && WritesRun(ops[i]) :: ContractDecision(ops[i].run.decision)
    ensures OnlyInsufficient(START, ops)
  {
    forall i | 0 <= i < |ops| && WritesRun(ops[i]) ensures !Sufficient(ops[i].run.decision, ops[i].run.deferred) {
      ContractDecisionIsInsufficient(ops[i].run);
    }
  }

  lemma ContractDecisionIsInsufficient(run: PromotionRun)
    requires ContractDecision(run.decision)
    ensures !Sufficient(run.decision, run.deferred)
  {
  }

  /** Promotion is final: no later operation changes the mode, the arm or what rollback returns to. */
  lemma {:induction false} PromotedIsAbsorbing(w: World, ops: seq<Op>)
    requires Inv(w) && w.state.Some? && w.state.value.mode.Promoted?
    ensures var s := After(w, ops).state;
      s.Some? && s.value.mode.Promoted? && s.value.arm == w.state.value.arm && s.value.lastArm == w.state.value.arm
    decreases |ops|
  {
    if ops != [] {
      StepKeepsInv(w, ops[0]);
      PromotedIsAbsorbing(Exec(w, ops[0]), ops[1..]);
    }
  }

  /** Rolling back twice is rolling back once; it lands on the baseline with pull, or stays on the
      promoted arm, which it cannot leave. */
  lemma RollbackLands(w: World, ops: seq<Op>)
    requires Inv(w)
    ensures var v := After(w, ops); var r := Rollback(v);
      && Rollback(r) == r
      && (if Durable(v.state).Promoted? then r == v
          else r.state.value.mode.CertifiedBaseline? && r.state.value.arm == Pull)
  {
    ReachableInv(w, ops);
  }

  /** No run of operations climbs faster than one mode each: from the baseline, promotion takes at
      least three. */
  lemma {:induction false} PromotionTakesSteps(w: World, ops: seq<Op>)
    requires Inv(w)
    ensures Inv(After(w, ops)) && Rank(Durable(After(w, ops).state)).value <= Rank(Durable(w.state)).value + |ops|
    decreases |ops|
  {
    if ops != [] {
      StepMoves(w, ops[0]);
      StepKeepsInv(w, ops[0]);
      PromotionTakesSteps(Exec(w, ops[0]), ops[1..]);
    }
  }

  /** The run a request is judged on: the one it names, else the last one used; None when that is not recorded. */
  predicate JudgedOn(w: World, req: Request, id: Option<nat>) {
    if req.run.Some? then id == (if req.run.value in w.runs then req.run else None)
    else if w.state.Some? && w.state.value.lastRun.Some? && w.state.value.lastRun.value in w.runs then id == w.state.value.lastRun
    else id.None?
  }

  /** One forward step, or staying where a request can stay. */
  predicate Forward(here: Mode, there: Mode) {
    || (here.CertifiedBaseline? && there.Shadow?) || (here.Shadow? && there.Canary?) || (here.Canary? && there.Promoted?)
    || (here == there && (there.Shadow? || there.Canary? || there.Promoted?))
  }

  /** ADVANCING. A request is accepted exactly when the mode it expects, if it names one, is the durable one,
      and it asks for the mode the row already has, or for the next one with a known arm and, beyond shadow, a
      judged run that is decided, not refused, and deferred nothing. What it accepts it writes: the mode, the
      arm, the run it was judged on and the fraction it names, keeping the last run and the fraction otherwise;
      the policy to return to changes only by a promotion. */
  lemma AdvanceAnswers(w: World, req: Request, id: Option<nat>)
    requires JudgedOn(w, req, id)
    ensures var here := if w.state.Some? then w.state.value.mode else CertifiedBaseline;
      var stays := w.state.Some? && req.mode == here;
      && (!Refused(w, req) <==>
        && (req.current.Some? ==> req.current.value == here)
        && (stays || (Forward(here, req.mode) && !req.arm.UnknownArm? && (req.mode.Shadow? || GoodRun(w, id)))))
      && Advance(w, req).runs == w.runs
      && (Refused(w, req) || stays ==> Advance(w, req) == w)
      && (!Refused(w, req) && !stays ==> Advance(w, req).state.Some? && Rewritten(w.state, req, id, Advance(w, req).state.value))
  {
    assert RunFor(w, req) == id;
  }

  predicate Rewritten(before: Option<State>, req: Request, id: Option<nat>, s: State) {
    && s.mode == req.mode && s.arm == req.arm
    && (id.Some? ==> s.lastRun == id) && (req.fraction.Some? ==> s.fraction == req.fraction.value)
    && (id.None? ==> s.lastRun == if before.Some? then before.value.lastRun else None)
    && (req.fraction.None? ==> s.fraction == if before.Some? then before.value.fraction else 0.05)
    && (req.mode.Promoted? ==> s.lastMode == Promoted && s.lastArm == req.arm)
    && (!req.mode.Promoted? ==>
      s.lastMode == (if before.Some? then before.value.lastMode else CertifiedBaseline)
      && s.lastArm == (if before.Some? then before.value.lastArm else Pull))
  }

  function Baseline(run: Option<nat>, fraction: real): State { State(CertifiedBaseline, Pull, CertifiedBaseline, Pull, run, fraction) }

  /** Rolling back, in a reachable state: a promoted row stays as it is; any other becomes the certified
      baseline with pull, keeping its last run and its fraction. */
  lemma RollbackAnswers(w: World)
    requires Inv(w)
    ensures Rollback(w).runs == w.runs
    ensures w.state.None? ==> Rollback(w).state == Some(Baseline(None, 0.05))
    ensures w.state.Some? && w.state.value.mode.Promoted? ==> Rollback(w).state == w.state
    ensures w.state.Some? && !w.state.value.mode.Promoted? ==> Rollback(w).state == Some(Baseline(w.state.value.lastRun, w.state.value.fraction))
  {
  }

  /** A decided run is never rewritten, and a run is never removed. */
  lemma {:induction false} DecidedRunsAreFinal(w: World, ops: seq<Op>, id: nat)
    requires id in w.runs
    ensures id in After(w, ops).runs && (w.runs[id].decision.Some? ==> After(w, ops).runs[id] == w.runs[id])
    decreases |ops|
  {
    if ops != [] { DecidedRunsAreFinal(Exec(w, ops[0]), ops[1..], id); }
  }

  /** A new run is recorded as it is given; completing a pending run, however long it was pending, replaces it
      by what was decided; neither touches another run or the policy. */
  lemma PendingRunIsCompleted(w: World, ops: seq<Op>, id: nat, pending: PromotionRun, decided: PromotionRun)
    requires id !in w.runs && pending.decision.None? && forall i | 0 <= i < |ops| :: !(ops[i].CompleteOp? && ops[i].id == id)
    ensures var v := After(Record(w, id, pending), ops);
      && Record(w, id, pending) == w.(runs := w.runs[id := pending])
      && id in v.runs && v.runs[id] == pending
      && Complete(v, id, decided).state == v.state && Complete(v, id, decided).runs == v.runs[id := decided]
  {
    PendingStays(Record(w, id, pending), ops, id);
  }

  lemma {:induction false} PendingStays(w: World, ops: seq<Op>, id: nat)
    requires id in w.runs && forall i | 0 <= i < |ops| :: !(ops[i].CompleteOp? && ops[i].id == id)
    ensures id in After(w, ops).runs && After(w, ops).runs[id] == w.runs[id]
    decreases |ops|
  {
    if ops != [] { PendingStays(Exec(w, ops[0]), ops[1..], id); }
  }

  /** The arm plays no part in the verdict: a request is refused for one known arm if and only if it is
      refused for every other, whichever arm the run evaluated. */
  lemma ArmIsNotCompared(w: World, req: Request, arm: Arm)
    requires !req.arm.UnknownArm? && !arm.UnknownArm?
    ensures Refused(w, req) <==> Refused(w, req.(arm := arm))
  {
    assert RunFor(w, req) == RunFor(w, req.(arm := arm));
  }

  function AdvanceTo(m: Mode, arm: Arm, id: nat): Op { AdvanceOp(Request(m, arm, None, Some(id), None)) }

  /** So whatever arm a sufficient run evaluated, it promotes any known arm that three requests name,
      from every baseline state, and rollback then keeps that arm. */
  lemma AnyArmCanBePromoted(w: World, id: nat, arm: Arm)
    requires Inv(w) && GoodRun(w, Some(id)) && !arm.UnknownArm? && Durable(w.state).CertifiedBaseline?
    ensures var ops := [AdvanceTo(Shadow, arm, id)] + ([AdvanceTo(Canary, arm, id)] + ([AdvanceTo(Promoted, arm, id)] + ([RollbackOp] + [])));
      var s := After(w, ops).state;
      s.Some? && s.value.mode == Promoted && s.value.arm == arm && s.value.lastArm == arm
  {
    var a := Exec(w, AdvanceTo(Shadow, arm, id));
    assert Durable(a.state) == Shadow && a.runs == w.runs;
    var b := Exec(a, AdvanceTo(Canary, arm, id));
    assert Durable(b.state) == Canary && b.runs == w.runs;
    var c := Exec(b, AdvanceTo(Promoted, arm, id));
    assert Durable(c.state) == Promoted && c.state.value.arm == arm;
    RunsInTurn(w, AdvanceTo(Shadow, arm, id), [AdvanceTo(Canary, arm, id)] + ([AdvanceTo(Promoted, arm, id)] + ([RollbackOp] + [])));
    RunsInTurn(a, AdvanceTo(Canary, arm, id), [AdvanceTo(Promoted, arm, id)] + ([RollbackOp] + []));
    RunsInTurn(b, AdvanceTo(Promoted, arm, id), [RollbackOp] + []);
    RunsInTurn(c, RollbackOp, []);
  }

  lemma RunsInTurn(w: World, op: Op, rest: seq<Op>)
    ensures After(w, [op] + rest) == After(Exec(w, op), rest)
  {
    assert ([op] + rest)[1..] == rest;
  }

  // ------------------------------------------------------------ the service

  class ContextActivationService {
    var state: Option<State>
    var runs: map<nat, PromotionRun>

    constructor ()
      ensures Contents() == START
    {
      state, runs := None, map[];
    }

    function Contents(): World reads this { World(state, runs) }

    method AttemptAdvance(req: Request) returns (r: Result<Verdict, string>)
      modifies this
      ensures Contents() == Advance(old(Contents()), req)
      ensures r.Failure? <==> Refused(old(Contents()), req)
      ensures r.Success? ==> r.value.allowed && r.value.refused == [] && r.value.current == Durable(old(state)) && r.value.requested == req.mode
    {
      var durable := if state.Some? then state.value.mode else CertifiedBaseline;
      if req.current.Some? && req.current.value != durable { return Failure("POLICY_DENIED"); }
      if req.mode == durable && state.Some? { return Success(Verdict(true, req.mode, durable, [], [])); }
      var run: Option<nat> := None;
      if req.run.Some? {
        if req.run.value in runs { run := req.run; }
      } else if state.Some? && state.value.lastRun.Some? {
        if state.value.lastRun.value in runs { run := state.value.lastRun; }
      }
      var deferred: Option<seq<string>>, decision: Option<string>, implementedFail := None, None, false;
      if run.Some? {
        decision := runs[run.value].decision;
        deferred := runs[run.value].deferred;
        implementedFail := decision == Some(FAIL);
      }
      var verdict := EvaluateGates(durable, req.mode, req.arm, decision, deferred, implementedFail);
      if !verdict.allowed { return Failure("POLICY_DENIED"); }
      var fraction := if req.fraction.Some? then req.fraction.value else if state.Some? then state.value.fraction else DEFAULT_FRACTION;
      var lastMode := if state.Some? then state.value.lastMode else CertifiedBaseline;
      var lastArm := if state.Some? then state.value.lastArm else Pull;
      if req.mode.Promoted? { lastMode, lastArm := Promoted, req.arm; }
      var lastRun := if run.Some? then run else if state.Some? then state.value.lastRun else None;
      state := Some(State(req.mode, req.arm, lastMode, lastArm, lastRun, fraction));
      r := Success(verdict);
    }

    method RollBack() returns (written: State)
      modifies this
      ensures Contents() == Rollback(old(Contents())) && Some(written) == state
    {
      var certified := LastCertified(if state.Some? then Some(state.value.lastMode) else None);
      var arm := if state.Some? then state.value.lastArm else Pull;
      if certified.CertifiedBaseline? { arm := Pull; }
      var lastRun := if state.Some? then state.value.lastRun else None;
      written := State(certified, arm, certified, arm, lastRun, if state.Some? then state.value.fraction else DEFAULT_FRACTION);
      state := Some(written);
    }

    method RecordRun(id: nat, run: PromotionRun)
      modifies this
      ensures Contents() == Record(old(Contents()), id, run)
    {
      if id !in runs { runs := runs[id := run]; }
    }

    method CompleteRun(id: nat, run: PromotionRun)
      modifies this
      ensures Contents() == Complete(old(Contents()), id, run)
    {
      if id in runs && runs[id].decision.None? { runs := runs[id := run]; }
    }
  }
}
