/** What each plan operation accepts, answers and writes, said on the plan's rows and on the raw input. */
module ChatPlanLaws {
  import opened Wrappers
  import opened PlanGraph
  import opened ChatPlan
  import opened ChatPlanRuns
  import opened ChatPlanService

  // ------------------------------------------------------------ what parsing makes of its input

  /** The id of raw step `i`: its own, or the generated one. */
  function RawId(raws: seq<RawStep>, i: nat, newId: nat -> Uuid): Uuid
    requires i < |raws|
  {
    if raws[i].stepId.Some? then raws[i].stepId.value else newId(i)
  }

  /** The raw list as written; nothing when it is left out. */
  function RawDeps(raw: RawStep): seq<Uuid> { match raw.dependsOn case ListOf(items) => items case _ => [] }

  /** A command, when one is named, is executable and is not aimed at anything but the mission. */
  predicate CommandAllowed(raw: RawStep) {
    raw.commandType.Some? && raw.commandType.value != "" ==>
      && raw.commandType.value in PLAN_EXECUTABLE_COMMANDS
      && (raw.targetType.Some? && raw.targetType.value != "" ==> raw.targetType.value == "mission")
  }

  predicate WellShaped(raw: RawStep) { !raw.dependsOn.NotAList? && !raw.parameters.NotAnObject? }

  predicate DistinctRawIds(raws: seq<RawStep>, newId: nat -> Uuid) {
    forall i, j | 0 <= i < j < |raws| :: RawId(raws, i, newId) != RawId(raws, j, newId)
  }

  predicate RawDepsKnown(raws: seq<RawStep>, newId: nat -> Uuid) {
    forall i | 0 <= i < |raws| :: forall d | d in RawDeps(raws[i]) :: exists j :: 0 <= j < |raws| && RawId(raws, j, newId) == d
  }

  /** The dependency graph of the raw steps. */
  function RawNodes(raws: seq<RawStep>, newId: nat -> Uuid): seq<Node> {
    seq(|raws|, i requires 0 <= i < |raws| => Node(RawId(raws, i, newId), set d | d in RawDeps(raws[i])))
  }

  /** Step `i` of a parsed plan in terms of raw step `i`. */
  predicate CameFrom(s: PlanStep, raws: seq<RawStep>, i: nat, mission: Uuid, newId: nat -> Uuid)
    requires i < |raws|
  {
    var raw := raws[i];
    var named := raw.commandType.Some? && raw.commandType.value != "";
    var aimed := raw.targetType.Some? && raw.targetType.value != "";
    && s.stepId == RawId(raws, i, newId) && s.sequence == i + 1
    && s.title == (if raw.title != "" then raw.title else "Step " + Decimal(i + 1))
    && s.dependsOn == RawDeps(raw)
    && s.binding.commandType == (if named then raw.commandType else None)
    && s.binding.parameters == (match raw.parameters case ObjectOf(body) => body case _ => "{}")
    && (aimed ==> s.binding.targetType == raw.targetType)
    && (!aimed ==> s.binding.targetType == if named then Some("mission") else None)
    && (raw.targetId.Some? ==> s.binding.targetId == raw.targetId)
    && (raw.targetId.None? ==> s.binding.targetId == if s.binding.targetType == Some("mission") then Some(mission) else None)
    && s.state == Pending && s.attempt == 0 && s.key.None? && s.expectedHash.None? && s.commandId.None?
    && s.resultSummary.None? && s.errorCode.None? && s.errorDetail.None?
  }

  lemma ParseOneMeans(raws: seq<RawStep>, i: nat, mission: Uuid, newId: nat -> Uuid)
    requires i < |raws|
    ensures var r := ParseOne(raws[i], RawId(raws, i, newId), i + 1, mission);
      && (r.Success? <==> CommandAllowed(raws[i]) && WellShaped(raws[i]))
      && (r.Success? ==> CameFrom(r.value, raws, i, mission, newId))
      && (r.Failure? ==> r.error == if CommandAllowed(raws[i]) then ValidationFailed else CommandNotAllowed)
  {
  }

  lemma CameFromPrefix(s: PlanStep, raws: seq<RawStep>, n: nat, i: nat, mission: Uuid, newId: nat -> Uuid)
    requires i < n <= |raws| && CameFrom(s, raws[..n], i, mission, newId)
    ensures CameFrom(s, raws, i, mission, newId)
  {
  }

  /** The raw steps before `n` can be parsed one by one. */
  predicate EachParses(raws: seq<RawStep>, newId: nat -> Uuid) {
    DistinctRawIds(raws, newId) && forall i | 0 <= i < |raws| :: CommandAllowed(raws[i]) && WellShaped(raws[i])
  }

  ghost predicate Parsed(r: Result<seq<PlanStep>, PlanError>, raws: seq<RawStep>, mission: Uuid, newId: nat -> Uuid) {
    && (r.Success? <==> EachParses(raws, newId))
    && (r.Success? ==> |r.value| == |raws| && forall i | 0 <= i < |raws| :: CameFrom(r.value[i], raws, i, mission, newId))
  }

  lemma {:induction false} ParseListMeans(raws: seq<RawStep>, mission: Uuid, newId: nat -> Uuid)
    ensures Parsed(ParseList(raws, mission, newId), raws, mission, newId)
    decreases |raws|
  {
    if raws != [] {
      ParseListMeans(raws[..|raws|-1], mission, newId);
      ParseListStep(raws, mission, newId);
    }
  }

  lemma ParseListStep(raws: seq<RawStep>, mission: Uuid, newId: nat -> Uuid)
    requires raws != [] && Parsed(ParseList(raws[..|raws|-1], mission, newId), raws[..|raws|-1], mission, newId)
    ensures Parsed(ParseList(raws, mission, newId), raws, mission, newId)
  {
    var n := |raws| - 1;
    ParseOneMeans(raws, n, mission, newId);
    EachParsesMore(raws, newId);
    var earlier := ParseList(raws[..n], mission, newId);
    if earlier.Success? {
      AllCameFrom(earlier.value, raws, n, mission, newId);
      UsedId(earlier.value, raws, n, mission, newId);
    }
  }

  lemma AllCameFrom(steps: seq<PlanStep>, raws: seq<RawStep>, n: nat, mission: Uuid, newId: nat -> Uuid)
    requires |steps| == n <= |raws| && forall i | 0 <= i < n :: CameFrom(steps[i], raws[..n], i, mission, newId)
    ensures forall i | 0 <= i < n :: CameFrom(steps[i], raws, i, mission, newId)
  {
    forall i | 0 <= i < n ensures CameFrom(steps[i], raws, i, mission, newId) { CameFromPrefix(steps[i], raws, n, i, mission, newId); }
  }

  lemma UsedId(steps: seq<PlanStep>, raws: seq<RawStep>, n: nat, mission: Uuid, newId: nat -> Uuid)
    requires |steps| == n < |raws| && forall i | 0 <= i < n :: CameFrom(steps[i], raws, i, mission, newId)
    ensures RawId(raws, n, newId) in Ids(steps) <==> exists i :: 0 <= i < n && RawId(raws, i, newId) == RawId(raws, n, newId)
  {
    if RawId(raws, n, newId) in Ids(steps) {
      var i :| 0 <= i < |steps| && steps[i].stepId == RawId(raws, n, newId);
      assert RawId(raws, i, newId) == RawId(raws, n, newId);
    }
    if exists i :: 0 <= i < n && RawId(raws, i, newId) == RawId(raws, n, newId) {
      var i :| 0 <= i < n && RawId(raws, i, newId) == RawId(raws, n, newId);
      assert steps[i].stepId == RawId(raws, n, newId);
    }
  }

  lemma EachParsesMore(raws: seq<RawStep>, newId: nat -> Uuid)
    requires raws != []
    ensures var n := |raws| - 1;
      EachParses(raws, newId) <==>
        && EachParses(raws[..n], newId) && CommandAllowed(raws[n]) && WellShaped(raws[n])
        && !exists i :: 0 <= i < n && RawId(raws, i, newId) == RawId(raws, n, newId)
  {
    var n := |raws| - 1;
    var before := raws[..n];
    forall i | 0 <= i < n ensures RawId(before, i, newId) == RawId(raws, i, newId) && before[i] == raws[i] {}
    if EachParses(before, newId) && CommandAllowed(raws[n]) && WellShaped(raws[n])
      && !exists i :: 0 <= i < n && RawId(raws, i, newId) == RawId(raws, n, newId)
    {
      forall i, j | 0 <= i < j < |raws| ensures RawId(raws, i, newId) != RawId(raws, j, newId) {
        if j < n { assert RawId(before, i, newId) != RawId(before, j, newId); }
      }
    }
    if EachParses(raws, newId) {
      forall i, j | 0 <= i < j < n ensures RawId(before, i, newId) != RawId(before, j, newId) {
        assert RawId(raws, i, newId) != RawId(raws, j, newId);
      }
    }
  }

  /** PARSING, exactly. It succeeds if and only if the ids are distinct, every dependency names a step of the
      list, the dependencies as written have no cycle, every named command may be planned, and no list or
      object is malformed. Then step `i` is what raw step `i` says. */
  lemma ParseAcceptsExactly(raws: seq<RawStep>, mission: Uuid, newId: nat -> Uuid)
    ensures var r := ParseSteps(raws, mission, newId);
      && (r.Success? <==>
        && DistinctRawIds(raws, newId) && RawDepsKnown(raws, newId) && Acyclic(GraphOf(RawNodes(raws, newId)))
        && forall i | 0 <= i < |raws| :: CommandAllowed(raws[i]) && WellShaped(raws[i]))
      && (r.Failure? && EachParses(raws, newId) ==> r.error == ValidationFailed)
      && (r.Success? ==> |r.value| == |raws| && forall i | 0 <= i < |raws| :: CameFrom(r.value[i], raws, i, mission, newId))
  {
    ParseListMeans(raws, mission, newId);
    var list := ParseList(raws, mission, newId);
    if list.Success? {
      var steps := list.value;
      forall i | 0 <= i < |raws| ensures NodeOf(steps[i]) == RawNodes(raws, newId)[i] { assert CameFrom(steps[i], raws, i, mission, newId); }
      assert Nodes(steps) == RawNodes(raws, newId);
      KnownIsRawKnown(steps, raws, mission, newId);
    }
  }

  /** The first raw step that cannot be parsed names the error: a repeated id first, then a command that may not
      be planned, then a malformed list or object. */
  lemma FirstFaultIsReported(raws: seq<RawStep>, mission: Uuid, newId: nat -> Uuid, n: nat)
    requires n < |raws| && EachParses(raws[..n], newId) && !EachParses(raws[..n+1], newId)
    ensures ParseSteps(raws, mission, newId) ==
      Failure(if CommandAllowed(raws[n]) || IdUsedBefore(raws, n, newId) then ValidationFailed else CommandNotAllowed)
  {
    var upTo := raws[..n+1];
    assert upTo[..n] == raws[..n];
    ParseListMeans(raws[..n], mission, newId);
    ParseListMeans(upTo, mission, newId);
    forall i | 0 <= i < n ensures RawId(raws[..n], i, newId) == RawId(raws, i, newId) {}
    forall i | 0 <= i < n ensures CameFrom(ParseList(raws[..n], mission, newId).value[i], raws, i, mission, newId) {
      CameFromPrefix(ParseList(raws[..n], mission, newId).value[i], raws, n, i, mission, newId);
    }
    UsedId(ParseList(raws[..n], mission, newId).value, raws, n, mission, newId);
    ParseOneMeans(raws, n, mission, newId);
    ParseFailurePropagates(raws, mission, newId, n + 1);
  }

  lemma {:induction false} ParseErrors(raws: seq<RawStep>, mission: Uuid, newId: nat -> Uuid)
    ensures var r := ParseList(raws, mission, newId); r.Failure? ==> r.error == ValidationFailed || r.error == CommandNotAllowed
    decreases |raws|
  {
    if raws != [] { ParseErrors(raws[..|raws|-1], mission, newId); }
  }

  predicate IdUsedBefore(raws: seq<RawStep>, n: nat, newId: nat -> Uuid)
    requires n < |raws|
  {
    exists i :: 0 <= i < n && RawId(raws, i, newId) == RawId(raws, n, newId)
  }

  lemma KnownIsRawKnown(steps: seq<PlanStep>, raws: seq<RawStep>, mission: Uuid, newId: nat -> Uuid)
    requires |steps| == |raws| && DistinctRawIds(raws, newId)
    requires forall i | 0 <= i < |raws| :: CameFrom(steps[i], raws, i, mission, newId)
    requires Nodes(steps) == RawNodes(raws, newId)
    ensures DependenciesKnown(steps) && Acyclic(GraphOf(Nodes(steps))) <==>
      RawDepsKnown(raws, newId) && Acyclic(GraphOf(RawNodes(raws, newId)))
  {
    forall d: Uuid ensures d in Ids(steps) <==> exists j :: 0 <= j < |raws| && RawId(raws, j, newId) == d {
      if d in Ids(steps) {
        var j :| 0 <= j < |steps| && steps[j].stepId == d;
        assert RawId(raws, j, newId) == d;
      }
      if exists j :: 0 <= j < |raws| && RawId(raws, j, newId) == d {
        var j :| 0 <= j < |raws| && RawId(raws, j, newId) == d;
        assert steps[j].stepId == d;
      }
    }
    if RawDepsKnown(raws, newId) && Acyclic(GraphOf(Nodes(steps))) {
      StepsAreDistinct(steps, raws, mission, newId);
      forall i | 0 <= i < |steps| ensures forall d | d in steps[i].dependsOn :: d in Ids(steps) && d != steps[i].stepId {
        assert steps[i].dependsOn == RawDeps(raws[i]);
        NoSelfLoop(steps, i);
      }
    }
    if DependenciesKnown(steps) {
      forall i | 0 <= i < |raws| ensures forall d | d in RawDeps(raws[i]) :: exists j :: 0 <= j < |raws| && RawId(raws, j, newId) == d {
        assert steps[i].dependsOn == RawDeps(raws[i]);
        forall d | d in RawDeps(raws[i]) ensures exists j :: 0 <= j < |raws| && RawId(raws, j, newId) == d { assert d in Ids(steps); }
      }
    }
  }

  lemma StepsAreDistinct(steps: seq<PlanStep>, raws: seq<RawStep>, mission: Uuid, newId: nat -> Uuid)
    requires |steps| == |raws| && DistinctRawIds(raws, newId)
    requires forall i | 0 <= i < |raws| :: CameFrom(steps[i], raws, i, mission, newId)
    ensures DistinctIds(Nodes(steps))
  {
    forall i, j | 0 <= i < j < |steps| ensures Nodes(steps)[i].id != Nodes(steps)[j].id {
      assert RawId(raws, i, newId) != RawId(raws, j, newId);
    }
  }

  /** A step that depends on itself is a cycle. */
  lemma NoSelfLoop(steps: seq<PlanStep>, i: nat)
    requires DistinctIds(Nodes(steps)) && i < |steps| && Acyclic(GraphOf(Nodes(steps)))
    ensures steps[i].stepId !in steps[i].dependsOn
  {
    GraphEntry(steps, i);
    var id: string := steps[i].stepId;
    var loop := [id, id];
    assert !IsCycle(GraphOf(Nodes(steps)), loop);
  }

  // ------------------------------------------------------------ creating, editing, approving

  /** A created plan holds what was given and what its raw steps say; creation needs a title, an objective,
      steps that parse and an open conversation. */
  lemma CreateAnswers(planId: Uuid, scope: Scope, mission: Uuid, title: string, objective: string,
                      raws: seq<RawStep>, newId: nat -> Uuid, conversationOpen: bool)
    ensures var r := Create(planId, scope, mission, title, objective, raws, newId, conversationOpen);
      && (r.Success? <==> title != "" && objective != "" && ParseSteps(raws, mission, newId).Success? && conversationOpen)
      && (r == Failure(PolicyDenied) <==> title != "" && objective != "" && ParseSteps(raws, mission, newId).Success? && !conversationOpen)
      && (title == "" || objective == "" ==> r == Failure(ValidationFailed))
      && (r.Success? ==>
        var p := r.value;
        && p.planId == planId && p.scope == scope && p.missionId == mission && p.title == title && p.objective == objective
        && p.steps == ParseSteps(raws, mission, newId).value && p.state == (if raws == [] then DraftPlan else ReadyPlan)
        && p.approvedBy.None? && p.approvedAt.None? && p.activeStep.None? && p.lockVersion == 1)
  {
    ParseListMeans(raws, mission, newId);
    ParseErrors(raws, mission, newId);
  }

  /** An edit needs the version read and a plan not yet approved; it replaces exactly what was given, clears
      the approval and raises the version. */
  lemma UpdateAnswers(p: Plan, expected: nat, title: Option<string>, objective: Option<string>, raws: Option<seq<RawStep>>, newId: nat -> Uuid)
    ensures var r := Update(p, expected, title, objective, raws, newId);
      && (r.Success? <==>
        && expected == p.lockVersion && (p.state == DraftPlan || p.state == ReadyPlan)
        && (raws.Some? ==> ParseSteps(raws.value, p.missionId, newId).Success?)
        && (if title.Some? then title.value else p.title) != "" && (if objective.Some? then objective.value else p.objective) != "")
      && (r == Failure(VersionConflict) <==> expected != p.lockVersion || (p.state != DraftPlan && p.state != ReadyPlan))
      && (r.Success? ==>
        var q := r.value;
        && q.planId == p.planId && q.scope == p.scope && q.missionId == p.missionId
        && q.title == (if title.Some? then title.value else p.title)
        && q.objective == (if objective.Some? then objective.value else p.objective)
        && q.steps == (if raws.Some? then ParseSteps(raws.value, p.missionId, newId).value else p.steps)
        && q.state == (if q.steps == [] then DraftPlan else ReadyPlan)
        && q.approvedBy.None? && q.approvedAt.None? && q.activeStep.None? && q.lockVersion == p.lockVersion + 1)
  {
    if raws.Some? { ParseErrors(raws.value, p.missionId, newId); }
  }

  /** An approval needs the version read and a plan not yet approved, and records who and when. */
  lemma ApproveAnswers(p: Plan, expected: nat, principal: string, now: int)
    ensures var r := Approve(p, expected, principal, now);
      if expected == p.lockVersion && (p.state == DraftPlan || p.state == ReadyPlan)
      then r == Success(Plan(p.planId, p.scope, p.missionId, p.title, p.objective, ApprovedPlan, Some(principal), Some(now),
                             p.steps, p.activeStep, p.lockVersion + 1))
      else r == Failure(VersionConflict)
  {
  }

  function GivenUp(s: PlanStep): PlanStep { if s.state == Pending || s.state == Ready then s.(state := Cancelled) else s }

  /** A cancellation needs the version read and a plan that is not over; it cancels exactly the steps not yet
      started. */
  lemma CancelAnswers(p: Plan, expected: nat)
    ensures var r := Cancel(p, expected);
      && (r.Success? <==> expected == p.lockVersion && p.state != CompletedPlan && p.state != FailedPlan && p.state != CancelledPlan)
      && (r.Failure? ==> r.error == VersionConflict)
      && (r.Success? ==>
        && r.value == p.(state := CancelledPlan, activeStep := None, steps := r.value.steps, lockVersion := p.lockVersion + 1)
        && |r.value.steps| == |p.steps|
        && forall i | 0 <= i < |p.steps| :: r.value.steps[i] == GivenUp(p.steps[i]))
  {
  }

  // ------------------------------------------------------------ preparing

  predicate StepIs(p: Plan, i: nat, stepId: Uuid) { i < |p.steps| && p.steps[i].stepId == stepId }

  /** Every dependency of step `i` is a COMPLETED step. */
  predicate DependenciesDone(p: Plan, i: nat)
    requires i < |p.steps|
  {
    forall d | d in p.steps[i].dependsOn :: exists j :: 0 <= j < |p.steps| && p.steps[j].stepId == d && p.steps[j].state == Completed
  }

  /** A plan-executable command on some mission. */
  predicate NamesCommand(b: Binding) {
    && b.commandType.Some? && b.commandType.value != "" && b.commandType.value in PLAN_EXECUTABLE_COMMANDS
    && b.targetType == Some("mission") && b.targetId.Some?
  }

  /** The step names one on the plan's own mission. */
  predicate NamesMissionCommand(p: Plan, i: nat)
    requires i < |p.steps|
  {
    NamesCommand(p.steps[i].binding) && p.steps[i].binding.targetId == Some(p.missionId)
  }

  /** What stands in the way of step `i`, in the order in which it is looked for. */
  function Obstacle(p: Plan, i: nat): PlanError
    requires i < |p.steps|
  {
    if p.state != ApprovedPlan && p.state != ExecutingPlan then PlanNotApproved
    else if p.steps[i].state == Completed then VersionConflict
    else if !DependenciesDone(p, i) then DependencyBlocked
    else if NamesCommand(p.steps[i].binding) then TenantScopeViolation
    else CommandNotAllowed
  }

  lemma IndexIs(p: Plan, i: nat, stepId: Uuid)
    requires DistinctIds(Nodes(p.steps)) && StepIs(p, i, stepId)
    ensures IndexOf(p.steps, stepId) == Some(i)
  {
    forall k | 0 <= k < |p.steps| && k != i ensures p.steps[k].stepId != stepId {
      assert Nodes(p.steps)[k].id == p.steps[k].stepId && Nodes(p.steps)[i].id == p.steps[i].stepId;
    }
  }

  /** A preparation succeeds exactly for an unfinished step of an approved or executing plan whose
      dependencies are done and which names a mission command. It hands out that step's own command, under
      the key of the next attempt and the hash of that command, and stores both with the step; nothing else
      in the plan changes but its state, active step and version. */
  lemma PrepareAnswers(p: Plan, i: nat, stepId: Uuid, protocol: string, h: Hasher)
    requires DistinctIds(Nodes(p.steps)) && StepIs(p, i, stepId)
    ensures var r := Prepare(p, stepId, protocol, h); var s := p.steps[i];
      && (r.Success? <==>
        (p.state == ApprovedPlan || p.state == ExecutingPlan) && s.state != Completed && DependenciesDone(p, i) && NamesMissionCommand(p, i))
      && (r.Failure? ==> r.error == Obstacle(p, i))
      && (r.Success? ==>
        var (q, c) := r.value;
        && c == Command(stepId, s.binding, KeyFor(p.planId, s, s.attempt + 1, h), protocol, h.command(s.binding, protocol))
        && q == p.(state := ExecutingPlan, activeStep := Some(stepId), steps := q.steps, lockVersion := p.lockVersion + 1)
        && q.steps == p.steps[i := s.(state := Ready, attempt := s.attempt + 1, key := Some(c.key), expectedHash := Some(c.expectedHash),
                                      errorCode := None, errorDetail := None)])
  {
    IndexIs(p, i, stepId);
    forall d | d in p.steps[i].dependsOn ensures IsCompleted(p.steps, d) <==>
      exists j :: 0 <= j < |p.steps| && p.steps[j].stepId == d && p.steps[j].state == Completed {}
  }

  lemma PrepareUnknown(p: Plan, stepId: Uuid, protocol: string, h: Hasher)
    requires forall i | 0 <= i < |p.steps| :: p.steps[i].stepId != stepId
    ensures Prepare(p, stepId, protocol, h) == Failure(if p.state == ApprovedPlan || p.state == ExecutingPlan then PolicyDenied else PlanNotApproved)
  {
  }

  /** The step a preparation is about, with all that is handed out. */
  predicate HandsOut(p: Plan, q: Plan, i: nat, op: Op, c: Command, h: Hasher)
    requires op.DoPrepare?
  {
    && StepIs(p, i, op.stepId) && i < |q.steps|
    && c.stepId == op.stepId && c.binding == p.steps[i].binding && c.protocol == op.protocol
    && c.expectedHash == h.command(c.binding, c.protocol)
    && q.steps[i].key == Some(c.key) && q.steps[i].expectedHash == Some(c.expectedHash) && q.steps[i].binding == c.binding
    && q.steps[i].state == Ready && q.steps[i].attempt == p.steps[i].attempt + 1
  }

  /** WHAT IS PREPARED IS WHAT WAS APPROVED. Over a whole life of a plan, every command handed out is that of
      the step it names, under the protocol the call named, with the hash of that very command, and the step
      now holds its key and hash; and once the plan was approved, it is the command the approved plan has
      for that step. */
  lemma PreparedIsWhatWasApproved(w: World, ops: seq<Op>, k: nat, h: Hasher) returns (i: nat)
    requires Inv(w, h) && k < |ops| && OutcomeAt(w, ops, k, h).Prepared?
    ensures ops[k].DoPrepare?
    ensures var u := After(w, ops[..k], h);
      HandsOut(u.plan, Exec(u, ops[k], h).0.plan, i, ops[k], OutcomeAt(w, ops, k, h).command, h)
    ensures w.plan.approvedAt.Some? ==>
      StepIs(w.plan, i, ops[k].stepId) && w.plan.steps[i].binding == OutcomeAt(w, ops, k, h).command.binding
  {
    var u := After(w, ops[..k], h);
    RunKeepsInv(w, ops[..k], h);
    i := IndexOf(u.plan.steps, ops[k].stepId).value;
    PrepareAnswers(u.plan, i, ops[k].stepId, ops[k].protocol, h);
    if w.plan.approvedAt.Some? {
      ApprovedIsFrozen(w, ops[..k], h);
      assert SameWork(w.plan.steps[i], u.plan.steps[i]);
    }
  }

  // ------------------------------------------------------------ recording

  /** A row can be recorded exactly when it is the plan's, under the key and the hash the step holds. The step
      then follows the row: COMPLETED, FAILED with the error, or SUBMITTED; no other step changes. The plan is
      COMPLETED when every step is over, else FAILED with a failed step, else EXECUTING. */
  lemma RecordAnswers(p: Plan, i: nat, stepId: Uuid, commandId: string, g: Gateway)
    requires DistinctIds(Nodes(p.steps)) && StepIs(p, i, stepId)
    ensures var r := Record(p, stepId, commandId, g); var s := p.steps[i];
      && (r.Success? <==>
        && s.key.Some? && s.expectedHash.Some? && commandId in g
        && g[commandId].scope == p.scope && g[commandId].key == s.key.value && g[commandId].hash == s.expectedHash.value)
      && (r == Failure(ContextIncomplete) <==> s.key.Some? && s.expectedHash.Some? && (commandId in g ==> g[commandId].scope != p.scope))
      && (r.Failure? && r.error != ContextIncomplete ==> r.error == VersionConflict)
      && (r.Success? ==>
        var q := r.value; var t := q.steps[i]; var row := g[commandId];
        && q.steps == p.steps[i := t]
        && t == s.(state := t.state, commandId := Some(commandId), resultSummary := t.resultSummary,
                    errorCode := t.errorCode, errorDetail := t.errorDetail)
        && (t.state == Completed <==> row.status == Done) && (t.state == Failed <==> row.status == Broken)
        && (t.state == Submitted <==> row.status == InProgress)
        && t.resultSummary.Some? && |t.resultSummary.value| <= 4000 && t.resultSummary.value <= row.result
        && (|row.result| <= 4000 ==> t.resultSummary.value == row.result)
        && (row.status == Broken ==> t.errorCode == Some("COMMAND_FAILED") && t.errorDetail == Some(row.result))
        && (row.status != Broken ==> t.errorCode.None? && t.errorDetail.None?)
        && (q.state == CompletedPlan <==> forall j | 0 <= j < |q.steps| :: q.steps[j].state == Completed || q.steps[j].state == Skipped)
        && (q.state == FailedPlan <==> q.state != CompletedPlan && exists j :: 0 <= j < |q.steps| && q.steps[j].state == Failed)
        && (q.state == CompletedPlan || q.state == FailedPlan || q.state == ExecutingPlan)
        && q.activeStep == (if q.state == ExecutingPlan then Some(stepId) else None)
        && q == p.(steps := q.steps, state := q.state, activeStep := q.activeStep, lockVersion := p.lockVersion + 1))
  {
    IndexIs(p, i, stepId);
  }
}
