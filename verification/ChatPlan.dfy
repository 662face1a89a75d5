/** The chat plan engine (engine/chat/plans.py): parsing, approval under a version check, and
    the two-phase execution of steps, as functions from one plan row to the next. */
module ChatPlan {
  import opened Wrappers
  import opened PlanGraph
  import CommandLedger

  type Uuid = s: string | |s| == 36 witness seq(36, _ => '0')

  type Scope = CommandLedger.Scope

  datatype PlanError =
    | ValidationFailed | CommandNotAllowed | PolicyDenied | VersionConflict | PlanNotApproved
    | DependencyBlocked | TenantScopeViolation | ContextIncomplete

  datatype StepState = Pending | Ready | Submitted | Completed | Failed | Blocked | Skipped | Cancelled

  datatype PlanState =
    DraftPlan | ReadyPlan | ApprovedPlan | ExecutingPlan | PausedPlan | CompletedPlan | FailedPlan | CancelledPlan

  /** What a step asks the Gateway to do. */
  datatype Binding = Binding(
    commandType: Option<string>, targetType: Option<string>, targetId: Option<Uuid>, parameters: string)

  datatype PlanStep = PlanStep(
    stepId: Uuid, sequence: nat, title: string, binding: Binding, dependsOn: seq<Uuid>,
    state: StepState, attempt: nat, key: Option<string>, expectedHash: Option<string>,
    commandId: Option<string>, resultSummary: Option<string>,
    errorCode: Option<string>, errorDetail: Option<string>)

  datatype Plan = Plan(
    planId: Uuid, scope: Scope, missionId: Uuid, title: string, objective: string, state: PlanState,
    approvedBy: Option<string>, approvedAt: Option<int>, steps: seq<PlanStep>,
    activeStep: Option<Uuid>, lockVersion: nat)

  /** The two hash functions, taken as given: `_plan_hash_payload` and `logical_command_hash`. */
  datatype Hasher = Hasher(digest: (Uuid, Uuid, Binding) -> string, command: (Binding, string) -> string)

  // --------------------------------------------------------------- admission

  const PLAN_EXECUTABLE_COMMANDS: set<string> := {
    "frontend.chat.workspace.apply_patch", "frontend.chat.checkpoint.create",
    "frontend.candidate.create", "frontend.candidate.transition",
    "frontend.mutation.apply", "frontend.mutation.revert",
    "frontend.preview.start", "frontend.preview.set_state", "frontend.preview.stop",
    "frontend.verification.run", "frontend.coverage.recompute",
    "frontend.design.request", "frontend.design.try_live"}

  /** The Gateway binds every command of this set to the mission target. */
  const REQUIRED_TARGET := "mission"

  predicate Given(o: Option<string>) { o.Some? && o.value != "" }

  /** `_require_executable_command`. */
  predicate Executable(commandType: string, targetType: Option<string>) {
    commandType in PLAN_EXECUTABLE_COMMANDS && targetType == Some(REQUIRED_TARGET)
  }

  // ----------------------------------------------------------------- parsing

  datatype RawList = NoList | ListOf(items: seq<Uuid>) | NotAList

  datatype RawObject = NoObject | ObjectOf(body: string) | NotAnObject

  datatype RawStep = RawStep(
    stepId: Option<Uuid>, title: string, commandType: Option<string>, targetType: Option<string>,
    targetId: Option<Uuid>, dependsOn: RawList, parameters: RawObject)

  function ResolvedTarget(raw: RawStep, mission: Uuid): (Option<string>, Option<Uuid>) {
    var targetType :=
      if Given(raw.targetType) then raw.targetType
      else if Given(raw.commandType) && raw.commandType.value in PLAN_EXECUTABLE_COMMANDS then Some(REQUIRED_TARGET)
      else None;
    (targetType, if raw.targetId.Some? then raw.targetId else if targetType == Some("mission") then Some(mission) else None)
  }

  /** One raw step once its id is known to be unused. */
  function ParseOne(raw: RawStep, id: Uuid, index: nat, mission: Uuid): Result<PlanStep, PlanError> {
    var (targetType, targetId) := ResolvedTarget(raw, mission);
    if Given(raw.commandType) && !Executable(raw.commandType.value, targetType) then Failure(CommandNotAllowed)
    else if raw.dependsOn.NotAList? || raw.parameters.NotAnObject? then Failure(ValidationFailed)
    else
      Success(PlanStep(
        id, index, if raw.title != "" then raw.title else "Step " + Decimal(index),
        Binding(if Given(raw.commandType) then raw.commandType else None, targetType, targetId,
                if raw.parameters.ObjectOf? then raw.parameters.body else "{}"),
        if raw.dependsOn.ListOf? then raw.dependsOn.items else [],
        Pending, 0, None, None, None, None, None, None))
  }

  function Ids(steps: seq<PlanStep>): (ids: set<Uuid>)
    ensures forall id :: id in ids <==> exists i | 0 <= i < |steps| :: steps[i].stepId == id
  {
    set i | 0 <= i < |steps| :: steps[i].stepId
  }

  /** The first loop of `_parse_steps`; `newId(i)` is the id generated for a step that brings none. */
  function ParseList(raws: seq<RawStep>, mission: Uuid, newId: nat -> Uuid): Result<seq<PlanStep>, PlanError> {
    if raws == [] then Success([])
    else
      var n := |raws| - 1;
      match ParseList(raws[..n], mission, newId)
      case Failure(e) => Failure(e)
      case Success(steps) =>
        var id := if raws[n].stepId.Some? then raws[n].stepId.value else newId(n);
        if id in Ids(steps) then Failure(ValidationFailed)
        else
          match ParseOne(raws[n], id, n + 1, mission)
          case Failure(e) => Failure(e)
          case Success(step) => Success(steps + [step])
  }

  function NodeOf(s: PlanStep): Node { Node(s.stepId, set d | d in s.dependsOn) }

  function Nodes(steps: seq<PlanStep>): seq<Node> {
    seq(|steps|, i requires 0 <= i < |steps| => NodeOf(steps[i]))
  }

  /** Adding a step with an id of its own. */
  lemma AppendKeepsDistinct(steps: seq<PlanStep>, s: PlanStep)
    requires DistinctIds(Nodes(steps)) && s.stepId !in Ids(steps)
    ensures DistinctIds(Nodes(steps + [s])) && Ids(steps + [s]) == Ids(steps) + {s.stepId}
  {
    var more := steps + [s];
    forall i, j | 0 <= i < j < |more| ensures Nodes(more)[i].id != Nodes(more)[j].id {
      if j < |steps| { assert Nodes(steps)[i].id != Nodes(steps)[j].id; }
      else { assert steps[i].stepId in Ids(steps); }
    }
    forall id | id in Ids(steps) + {s.stepId} ensures id in Ids(more) {
      if id == s.stepId { assert more[|steps|].stepId == id; }
      else {
        var i :| 0 <= i < |steps| && steps[i].stepId == id;
        assert more[i].stepId == id;
      }
    }
    forall id | id in Ids(more) ensures id in Ids(steps) + {s.stepId} {
      var i :| 0 <= i < |more| && more[i].stepId == id;
      if i < |steps| { assert steps[i].stepId == id; }
    }
  }

  /** The second loop: every dependency names another step of the plan. */
  predicate DependenciesKnown(steps: seq<PlanStep>) {
    forall i | 0 <= i < |steps| ::
      forall d | d in steps[i].dependsOn :: d in Ids(steps) && d != steps[i].stepId
  }

  /** `_parse_steps`, with the layering check replaced by what it decides. */
  ghost function ParseSteps(raws: seq<RawStep>, mission: Uuid, newId: nat -> Uuid): Result<seq<PlanStep>, PlanError> {
    match ParseList(raws, mission, newId)
    case Failure(e) => Failure(e)
    case Success(steps) =>
      if DependenciesKnown(steps) && Acyclic(GraphOf(Nodes(steps))) then Success(steps) else Failure(ValidationFailed)
  }

  // ------------------------------------------------------------ keys and lookups

  /** str() of a non-negative integer. */
  function Decimal(n: nat): string {
    if n < 10 then ["0123456789"[n]] else Decimal(n / 10) + ["0123456789"[n % 10]]
  }

  function KeyPrefix(planId: Uuid, stepId: Uuid): string { "chat-plan:" + planId + ":" + stepId + ":" }

  /** The idempotency key bound to the given attempt of a step. */
  function KeyFor(planId: Uuid, step: PlanStep, attempt: nat, h: Hasher): string {
    KeyPrefix(planId, step.stepId) + h.digest(planId, step.stepId, step.binding) + ":a" + Decimal(attempt)
  }

  function IndexOf(steps: seq<PlanStep>, id: Uuid): (r: Option<nat>)
    ensures r.Some? ==> r.value < |steps| && steps[r.value].stepId == id
    ensures r.None? ==> forall i | 0 <= i < |steps| :: steps[i].stepId != id
  {
    if steps == [] then None
    else
      var n := |steps| - 1;
      var earlier := IndexOf(steps[..n], id);
      if earlier.Some? then earlier else if steps[n].stepId == id then Some(n) else None
  }

  predicate IsCompleted(steps: seq<PlanStep>, id: Uuid) {
    exists i | 0 <= i < |steps| :: steps[i].stepId == id && steps[i].state == Completed
  }

  predicate DepsCompleted(steps: seq<PlanStep>, i: nat)
    requires i < |steps|
  {
    forall d | d in steps[i].dependsOn :: IsCompleted(steps, d)
  }

  // --------------------------------------------------------------- the operations

  ghost function Create(planId: Uuid, scope: Scope, mission: Uuid, title: string, objective: string,
                        raws: seq<RawStep>, newId: nat -> Uuid, conversationOpen: bool): Result<Plan, PlanError>
  {
    if title == "" || objective == "" then Failure(ValidationFailed)
    else
      match ParseSteps(raws, mission, newId)
      case Failure(e) => Failure(e)
      case Success(steps) =>
        if !conversationOpen then Failure(PolicyDenied)
        else Success(Plan(planId, scope, mission, title, objective, if steps != [] then ReadyPlan else DraftPlan,
                          None, None, steps, None, 1))
  }

  predicate Editable(p: Plan) { p.state == DraftPlan || p.state == ReadyPlan }

  ghost function Update(p: Plan, expected: nat, title: Option<string>, objective: Option<string>,
                        raws: Option<seq<RawStep>>, newId: nat -> Uuid): Result<Plan, PlanError>
  {
    if p.lockVersion != expected || !Editable(p) then Failure(VersionConflict)
    else
      match (if raws.Some? then ParseSteps(raws.value, p.missionId, newId) else Success(p.steps))
      case Failure(e) => Failure(e)
      case Success(steps) =>
        var title' := if title.Some? then title.value else p.title;
        var objective' := if objective.Some? then objective.value else p.objective;
        if title' == "" || objective' == "" then Failure(ValidationFailed)
        else Success(p.(title := title', objective := objective', steps := steps,
                        state := if steps != [] then ReadyPlan else DraftPlan,
                        approvedBy := None, approvedAt := None, activeStep := None, lockVersion := p.lockVersion + 1))
  }

  function Approve(p: Plan, expected: nat, principal: string, now: int): Result<Plan, PlanError> {
    if p.lockVersion != expected || !Editable(p) then Failure(VersionConflict)
    else Success(p.(state := ApprovedPlan, approvedBy := Some(principal), approvedAt := Some(now),
                    lockVersion := p.lockVersion + 1))
  }

  /** The exact Gateway command a preparation hands out. */
  datatype Command = Command(stepId: Uuid, binding: Binding, key: string, protocol: string, expectedHash: string)

  function PreparedStep(p: Plan, i: nat, protocol: string, h: Hasher): PlanStep
    requires i < |p.steps|
  {
    var s := p.steps[i];
    s.(state := Ready, attempt := s.attempt + 1,
       key := Some(KeyFor(p.planId, s, s.attempt + 1, h)),
       expectedHash := Some(h.command(s.binding, protocol)),
       errorCode := None, errorDetail := None)
  }

  function Prepare(p: Plan, stepId: Uuid, protocol: string, h: Hasher): Result<(Plan, Command), PlanError> {
    if p.state != ApprovedPlan && p.state != ExecutingPlan then Failure(PlanNotApproved)
    else
      match IndexOf(p.steps, stepId)
      case None => Failure(PolicyDenied)
      case Some(i) =>
        var s := p.steps[i];
        if s.state == Completed then Failure(VersionConflict)
        else if !DepsCompleted(p.steps, i) then Failure(DependencyBlocked)
        else if !Given(s.binding.commandType) || !Given(s.binding.targetType) || s.binding.targetId.None? then
          Failure(CommandNotAllowed)
        else if !Executable(s.binding.commandType.value, s.binding.targetType) then Failure(CommandNotAllowed)
        else if s.binding.targetType == Some("mission") && s.binding.targetId != Some(p.missionId) then
          Failure(TenantScopeViolation)
        else
          var s' := PreparedStep(p, i, protocol, h);
          Success((
            p.(state := ExecutingPlan, activeStep := Some(stepId), steps := p.steps[i := s'], lockVersion := p.lockVersion + 1),
            Command(stepId, s.binding, s'.key.value, protocol, s'.expectedHash.value)))
  }

  datatype CommandStatus = InProgress | Done | Broken

  /** One Gateway row of the command ledger. */
  datatype GatewayRow = GatewayRow(scope: Scope, key: string, hash: string, status: CommandStatus, result: string)

  type Gateway = map<string, GatewayRow>

  function Truncated(s: string, n: nat): string { if |s| <= n then s else s[..n] }

  /** The step after its ledger row has been read. */
  function RecordedStep(s: PlanStep, commandId: string, row: GatewayRow): PlanStep {
    s.(state := match row.status case Done => Completed case Broken => Failed case InProgress => Submitted,
       commandId := Some(commandId), resultSummary := Some(Truncated(row.result, 4000)),
       errorCode := if row.status == Broken then Some("COMMAND_FAILED") else None,
       errorDetail := if row.status == Broken then Some(row.result) else None)
  }

  predicate AllOver(steps: seq<PlanStep>) {
    forall i | 0 <= i < |steps| :: steps[i].state == Completed || steps[i].state == Skipped
  }

  predicate AnyFailed(steps: seq<PlanStep>) { exists i | 0 <= i < |steps| :: steps[i].state == Failed }

  function Record(p: Plan, stepId: Uuid, commandId: string, gateway: Gateway): Result<Plan, PlanError> {
    match IndexOf(p.steps, stepId)
    case None => Failure(PolicyDenied)
    case Some(i) =>
      var s := p.steps[i];
      if s.key.None? || s.expectedHash.None? then Failure(VersionConflict)
      else if commandId !in gateway || gateway[commandId].scope != p.scope then Failure(ContextIncomplete)
      else if gateway[commandId].key != s.key.value || gateway[commandId].hash != s.expectedHash.value then
        Failure(VersionConflict)
      else
        var steps := p.steps[i := RecordedStep(s, commandId, gateway[commandId])];
        var over, failed := AllOver(steps), AnyFailed(steps);
        Success(p.(steps := steps,
                   state := if over then CompletedPlan else if failed then FailedPlan else ExecutingPlan,
                   activeStep := if over || failed then None else Some(stepId),
                   lockVersion := p.lockVersion + 1))
  }

  function Retry(p: Plan, stepId: Uuid): Result<Plan, PlanError> {
    match IndexOf(p.steps, stepId)
    case None => Failure(PolicyDenied)
    case Some(i) =>
      var s := p.steps[i];
      if s.state != Failed && s.state != Blocked && s.state != Cancelled then Failure(VersionConflict)
      else
        var s' := s.(state := Pending, commandId := None, key := None, expectedHash := None,
                     resultSummary := None, errorCode := None, errorDetail := None);
        Success(p.(state := if p.approvedAt.Some? then ApprovedPlan else ReadyPlan, activeStep := None,
                   steps := p.steps[i := s'], lockVersion := p.lockVersion + 1))
  }

  function CancelledStep(s: PlanStep): PlanStep {
    if s.state == Pending || s.state == Ready then s.(state := Cancelled) else s
  }

  function Cancel(p: Plan, expected: nat): Result<Plan, PlanError> {
    if p.lockVersion != expected then Failure(VersionConflict)
    else if p.state == CompletedPlan || p.state == FailedPlan || p.state == CancelledPlan then Failure(VersionConflict)
    else Success(p.(state := CancelledPlan, activeStep := None,
                    steps := seq(|p.steps|, i requires 0 <= i < |p.steps| => CancelledStep(p.steps[i])),
                    lockVersion := p.lockVersion + 1))
  }
}
