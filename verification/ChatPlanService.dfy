/** The plan service as the source writes it: one table of plans, updated row by row. Every
    method is proved to apply the function ChatPlan defines for it to the addressed row, and
    to leave the table alone when it refuses. */
module ChatPlanService {
  import opened Wrappers
  import opened PlanGraph
  import opened ChatPlan

  /** The first loop of `_parse_steps`. */
  method ParseEach(raws: seq<RawStep>, mission: Uuid, newId: nat -> Uuid) returns (r: Result<seq<PlanStep>, PlanError>)
    ensures r == ParseList(raws, mission, newId)
    ensures r.Success? ==> DistinctIds(Nodes(r.value))
  {
    var steps: seq<PlanStep> := [];
    var known: set<Uuid> := {};
    for n := 0 to |raws|
      invariant ParseList(raws[..n], mission, newId) == Success(steps)
      invariant |steps| == n && known == Ids(steps)
      invariant DistinctIds(Nodes(steps))
    {
      ParsePrefix(raws, mission, newId, n);
      var raw := raws[n];
      var id := if raw.stepId.Some? then raw.stepId.value else newId(n);
      if id in known {
        ParseFailurePropagates(raws, mission, newId, n + 1);
        return Failure(ValidationFailed);
      }
      var parsed := ParseOne(raw, id, n + 1, mission);
      if parsed.Failure? {
        ParseFailurePropagates(raws, mission, newId, n + 1);
        return Failure(parsed.error);
      }
      AppendKeepsDistinct(steps, parsed.value);
      steps := steps + [parsed.value];
      known := known + {id};
    }
    assert raws[..|raws|] == raws;
    return Success(steps);
  }

  predicate DependencyOk(steps: seq<PlanStep>, i: nat)
    requires i < |steps|
  {
    forall d | d in steps[i].dependsOn :: d in Ids(steps) && d != steps[i].stepId
  }

  /** Its second loop. */
  method CheckDependencies(steps: seq<PlanStep>) returns (ok: bool)
    ensures ok <==> DependenciesKnown(steps)
  {
    var ids := Ids(steps);
    for i := 0 to |steps|
      invariant forall k | 0 <= k < i :: DependencyOk(steps, k)
    {
      var deps := steps[i].dependsOn;
      for k := 0 to |deps|
        invariant forall m | 0 <= m < k :: deps[m] in ids && deps[m] != steps[i].stepId
      {
        if deps[k] !in ids || deps[k] == steps[i].stepId {
          assert !DependencyOk(steps, i);
          return false;
        }
      }
      assert DependencyOk(steps, i);
    }
    forall i | 0 <= i < |steps|
      ensures forall d | d in steps[i].dependsOn :: d in Ids(steps) && d != steps[i].stepId
    {
      assert DependencyOk(steps, i);
    }
    return true;
  }

  /** `_parse_steps`: both loops, then the layering check. */
  method ParseRawSteps(raws: seq<RawStep>, mission: Uuid, newId: nat -> Uuid) returns (r: Result<seq<PlanStep>, PlanError>)
    ensures r == ParseSteps(raws, mission, newId)
  {
    r := ParseEach(raws, mission, newId);
    if r.Failure? { return; }
    var steps := r.value;
    var known := CheckDependencies(steps);
    if !known { return Failure(ValidationFailed); }
    KnownIsClosed(steps);
    var acyclic := RequireAcyclic(Nodes(steps));
    if !acyclic { return Failure(ValidationFailed); }
  }

  lemma ParsePrefix(raws: seq<RawStep>, mission: Uuid, newId: nat -> Uuid, n: nat)
    requires n < |raws|
    ensures raws[..n+1][..n] == raws[..n] && raws[..n+1][n] == raws[n]
  {}

  /** The first bad step decides the answer. */
  lemma {:induction false} ParseFailurePropagates(raws: seq<RawStep>, mission: Uuid, newId: nat -> Uuid, n: nat)
    requires n <= |raws| && ParseList(raws[..n], mission, newId).Failure?
    ensures ParseList(raws, mission, newId) == ParseList(raws[..n], mission, newId)
    decreases |raws| - n
  {
    if n == |raws| {
      assert raws[..n] == raws;
    } else {
      ParsePrefix(raws, mission, newId, n);
      assert ParseList(raws[..n+1], mission, newId) == ParseList(raws[..n], mission, newId);
      ParseFailurePropagates(raws, mission, newId, n + 1);
    }
  }

  lemma {:induction false} EntryComesFromNode(nodes: seq<Node>, k: string)
    requires k in GraphOf(nodes)
    ensures exists i | 0 <= i < |nodes| :: nodes[i].id == k && nodes[i].deps == GraphOf(nodes)[k]
    decreases |nodes|
  {
    var n := |nodes| - 1;
    if nodes[n].id != k {
      EntryComesFromNode(nodes[..n], k);
      var i :| 0 <= i < n && nodes[..n][i].id == k && nodes[..n][i].deps == GraphOf(nodes[..n])[k];
      assert nodes[i].id == k;
    }
  }

  lemma KnownIsClosed(steps: seq<PlanStep>)
    requires DependenciesKnown(steps)
    ensures Closed(GraphOf(Nodes(steps)))
  {
    var g := GraphOf(Nodes(steps));
    forall k | k in g ensures g[k] <= g.Keys {
      EntryComesFromNode(Nodes(steps), k);
      var i :| 0 <= i < |steps| && Nodes(steps)[i].id == k && Nodes(steps)[i].deps == g[k];
      forall d | d in g[k] ensures d in g {
        assert d in steps[i].dependsOn;
        var m :| 0 <= m < |steps| && steps[m].stepId == d;
        assert Nodes(steps)[m].id == d;
      }
    }
  }

  class FrontendChatPlanService {
    var plans: map<Uuid, Plan>
    var gateway: Gateway

    constructor ()
      ensures plans == map[] && gateway == map[]
    {
      plans, gateway := map[], map[];
    }

    predicate Known(scope: Scope, planId: Uuid) reads this { planId in plans && plans[planId].scope == scope }

    method CreatePlan(planId: Uuid, scope: Scope, mission: Uuid, title: string, objective: string,
                      raws: seq<RawStep>, newId: nat -> Uuid, conversationOpen: bool) returns (r: Result<Plan, PlanError>)
      requires planId !in plans
      modifies this
      ensures r == Create(planId, scope, mission, title, objective, raws, newId, conversationOpen)
      ensures gateway == old(gateway) && plans == if r.Success? then old(plans)[planId := r.value] else old(plans)
    {
      if title == "" || objective == "" { return Failure(ValidationFailed); }
      var parsed := ParseRawSteps(raws, mission, newId);
      if parsed.Failure? { return Failure(parsed.error); }
      if !conversationOpen { return Failure(PolicyDenied); }
      var plan := Plan(planId, scope, mission, title, objective, if parsed.value != [] then ReadyPlan else DraftPlan,
                       None, None, parsed.value, None, 1);
      plans := plans[planId := plan];
      r := Success(plan);
    }

    method UpdatePlan(scope: Scope, planId: Uuid, expected: nat, title: Option<string>, objective: Option<string>,
                      raws: Option<seq<RawStep>>, newId: nat -> Uuid) returns (r: Result<Plan, PlanError>)
      modifies this
      ensures r == if old(Known(scope, planId)) then Update(old(plans[planId]), expected, title, objective, raws, newId)
                   else Failure(VersionConflict)
      ensures gateway == old(gateway) && plans == if r.Success? then old(plans)[planId := r.value] else old(plans)
    {
      if planId !in plans || plans[planId].scope != scope || plans[planId].lockVersion != expected {
        return Failure(VersionConflict);
      }
      var plan := plans[planId];
      if plan.state != DraftPlan && plan.state != ReadyPlan { return Failure(VersionConflict); }
      var nextSteps := plan.steps;
      if raws.Some? {
        var parsed := ParseRawSteps(raws.value, plan.missionId, newId);
        if parsed.Failure? { return Failure(parsed.error); }
        nextSteps := parsed.value;
      }
      var nextTitle := if title.Some? then title.value else plan.title;
      var nextObjective := if objective.Some? then objective.value else plan.objective;
      if nextTitle == "" || nextObjective == "" { return Failure(ValidationFailed); }
      plan := plan.(title := nextTitle, objective := nextObjective, steps := nextSteps,
                    state := if nextSteps != [] then ReadyPlan else DraftPlan,
                    approvedBy := None, approvedAt := None, activeStep := None, lockVersion := plan.lockVersion + 1);
      plans := plans[planId := plan];
      r := Success(plan);
    }

    method ApprovePlan(scope: Scope, planId: Uuid, principal: string, expected: nat, now: int)
      returns (r: Result<Plan, PlanError>)
      modifies this
      ensures r == if old(Known(scope, planId)) then Approve(old(plans[planId]), expected, principal, now)
                   else Failure(VersionConflict)
      ensures gateway == old(gateway) && plans == if r.Success? then old(plans)[planId := r.value] else old(plans)
    {
      if !Known(scope, planId) || plans[planId].lockVersion != expected || !Editable(plans[planId]) {
        return Failure(VersionConflict);
      }
      var plan := plans[planId].(state := ApprovedPlan, approvedBy := Some(principal), approvedAt := Some(now),
                                 lockVersion := plans[planId].lockVersion + 1);
      plans := plans[planId := plan];
      r := Success(plan);
    }

    method PrepareStep(scope: Scope, planId: Uuid, stepId: Uuid, protocol: string, h: Hasher)
      returns (r: Result<Command, PlanError>)
      modifies this
      ensures gateway == old(gateway)
      ensures !old(Known(scope, planId)) ==> r == Failure(PolicyDenied) && plans == old(plans)
      ensures old(Known(scope, planId)) ==>
        match Prepare(old(plans[planId]), stepId, protocol, h)
        case Success(pc) => r == Success(pc.1) && plans == old(plans)[planId := pc.0]
        case Failure(e) => r == Failure(e) && plans == old(plans)
    {
      if !Known(scope, planId) { return Failure(PolicyDenied); }
      var plan := plans[planId];
      if plan.state != ApprovedPlan && plan.state != ExecutingPlan { return Failure(PlanNotApproved); }
      var index := IndexOf(plan.steps, stepId);
      if index.None? { return Failure(PolicyDenied); }
      var i := index.value;
      var step := plan.steps[i];
      if step.state == Completed { return Failure(VersionConflict); }
      var k := 0;
      while k < |step.dependsOn|
        invariant 0 <= k <= |step.dependsOn|
        invariant forall m | 0 <= m < k :: IsCompleted(plan.steps, step.dependsOn[m])
      {
        if !IsCompleted(plan.steps, step.dependsOn[k]) { return Failure(DependencyBlocked); }
        k := k + 1;
      }
      if !Given(step.binding.commandType) || !Given(step.binding.targetType) || step.binding.targetId.None? {
        return Failure(CommandNotAllowed);
      }
      if !Executable(step.binding.commandType.value, step.binding.targetType) { return Failure(CommandNotAllowed); }
      if step.binding.targetType == Some("mission") && step.binding.targetId != Some(plan.missionId) {
        return Failure(TenantScopeViolation);
      }
      var key := KeyFor(plan.planId, step, step.attempt + 1, h);
      var expectedHash := h.command(step.binding, protocol);
      var prepared := step.(state := Ready, attempt := step.attempt + 1, key := Some(key),
                            expectedHash := Some(expectedHash), errorCode := None, errorDetail := None);
      plans := plans[planId := plan.(state := ExecutingPlan, activeStep := Some(stepId),
                                     steps := plan.steps[i := prepared], lockVersion := plan.lockVersion + 1)];
      r := Success(Command(stepId, step.binding, key, protocol, expectedHash));
    }

    method RecordStep(scope: Scope, planId: Uuid, stepId: Uuid, commandId: string) returns (r: Result<Plan, PlanError>)
      modifies this
      ensures r == if old(Known(scope, planId)) then Record(old(plans[planId]), stepId, commandId, old(gateway))
                   else Failure(PolicyDenied)
      ensures gateway == old(gateway) && plans == if r.Success? then old(plans)[planId := r.value] else old(plans)
    {
      if !Known(scope, planId) { return Failure(PolicyDenied); }
      var plan := plans[planId];
      var index := IndexOf(plan.steps, stepId);
      if index.None? { return Failure(PolicyDenied); }
      var step := plan.steps[index.value];
      if step.key.None? || step.expectedHash.None? { return Failure(VersionConflict); }
      if commandId !in gateway || gateway[commandId].scope != scope { return Failure(ContextIncomplete); }
      var row := gateway[commandId];
      if row.key != step.key.value || row.hash != step.expectedHash.value { return Failure(VersionConflict); }
      var steps := plan.steps[index.value := RecordedStep(step, commandId, row)];
      var terminal, anyFailed := AllOver(steps), AnyFailed(steps);
      plan := plan.(steps := steps,
                    state := if terminal then CompletedPlan else if anyFailed then FailedPlan else ExecutingPlan,
                    activeStep := if terminal || anyFailed then None else Some(stepId),
                    lockVersion := plan.lockVersion + 1);
      plans := plans[planId := plan];
      r := Success(plan);
    }

    method RetryStep(scope: Scope, planId: Uuid, stepId: Uuid) returns (r: Result<Plan, PlanError>)
      modifies this
      ensures r == if old(Known(scope, planId)) then Retry(old(plans[planId]), stepId) else Failure(PolicyDenied)
      ensures gateway == old(gateway) && plans == if r.Success? then old(plans)[planId := r.value] else old(plans)
    {
      if !Known(scope, planId) { return Failure(PolicyDenied); }
      var plan := plans[planId];
      var index := IndexOf(plan.steps, stepId);
      if index.None? { return Failure(PolicyDenied); }
      var step := plan.steps[index.value];
      if step.state != Failed && step.state != Blocked && step.state != Cancelled { return Failure(VersionConflict); }
      step := step.(state := Pending, commandId := None, key := None, expectedHash := None,
                    resultSummary := None, errorCode := None, errorDetail := None);
      var state := ReadyPlan;
      if plan.approvedAt.Some? { state := ApprovedPlan; }
      plan := plan.(state := state, activeStep := None, steps := plan.steps[index.value := step],
                    lockVersion := plan.lockVersion + 1);
      plans := plans[planId := plan];
      r := Success(plan);
    }

    method CancelPlan(scope: Scope, planId: Uuid, expected: nat) returns (r: Result<Plan, PlanError>)
      modifies this
      ensures r == if old(Known(scope, planId)) then Cancel(old(plans[planId]), expected) else Failure(VersionConflict)
      ensures gateway == old(gateway) && plans == if r.Success? then old(plans)[planId := r.value] else old(plans)
    {
      if !Known(scope, planId) || plans[planId].lockVersion != expected { return Failure(VersionConflict); }
      var plan := plans[planId];
      if plan.state == CompletedPlan || plan.state == FailedPlan || plan.state == CancelledPlan {
        return Failure(VersionConflict);
      }
      var steps: seq<PlanStep> := [];
      for i := 0 to |plan.steps|
        invariant |steps| == i && forall k | 0 <= k < i :: steps[k] == CancelledStep(plan.steps[k])
      {
        var item := plan.steps[i];
        if item.state == Pending || item.state == Ready { item := item.(state := Cancelled); }
        steps := steps + [item];
      }
      assert steps == seq(|plan.steps|, i requires 0 <= i < |plan.steps| => CancelledStep(plan.steps[i]));
      plan := plan.(state := CancelledPlan, activeStep := None, steps := steps, lockVersion := plan.lockVersion + 1);
      plans := plans[planId := plan];
      r := Success(plan);
    }
  }
}
