# DDE control plane: a verified model

DDE is a control plane for AI workers. This project models its database-backed state machines and
its budget pipelines in Dafny and proves what they keep over every run and every input.

Tables are sequences or maps, a unit of work is one atomic step, ids are insertion positions or
given fresh values, the clock is an input, hashes are function parameters. Code that updates rows in
place is modelled by classes whose methods are proved to perform exactly the step of a
specification function; the theorems are about runs of those steps.

| module | models |
|---|---|
| `CapabilityCatalog`, `CommandLedger`, `LeaseProtocol` | the descriptor catalogue, the idempotency ledger with its run-stop rows, and each lease operation as one atomic step |
| `LeaseRuns`, `LeaseHistory`, `LeaseGrants` | any interleaving of those steps by several processes, each with its own kill-flag memory and restarts |
| `LeaseLaws`, `ChatPlanLaws`, `ContextLaws` | what each operation of a component accepts, answers and writes, said on the rows and inputs themselves |
| `LeaseService` | the same operations as objects that update tables and memory statement by statement |
| `PlanGraph`, `ChatPlan`, `ChatPlanRuns`, `ChatPlanProgress`, `ChatPlanService` | chat plans: parsing and cycle check, the seven operations, whole lives interleaved with the Gateway, completability, the service |
| `StableSort`, `ContextAssembly`, `ContextCoverage`, `ContextCritic` | tiered greedy packing, coverage, the critic, and the pipeline that joins them |
| `ChatHistory`, `TurnAllocation`, `HistoryOverrun` | history selection and compaction; the division of a turn's token budget; the conversations that exceed it |
| `BranchHistory` | branching conversations and their visible history |
| `Activation` | context-policy modes, evidence gates, rollback, the served policy |
| `AuditLedger`, `Chunking`, `ProcessRegistry` | the hash chain, line-exact chunking, live process handles and their termination |

## Where the code does not do what is documented

- Disarming a run elsewhere: the module text says a durably disarmed run passes again. A process that
  armed the stop itself keeps refusing until it restarts or disarms the run itself
  (`LeaseRuns.DisarmReleasesExactly`, `LeaseRuns.DisarmElsewhereLeavesMemory`).
- Context extensions: they are said to be reserved inside the worker budget. The critic is given the
  whole budget, so a package exceeds it exactly when the critic reassembles
  (`ContextCritic.PackageOverrunsIffReassembled`, `ContextCritic.OverrunCondition`).
- Chat history: the query orders by ascending sequence and stops at 120 rows, so it keeps the oldest
  turns; the newest turn takes part only up to 120 turns (`ChatHistory.NewestTurnIsLoaded`).
- Chat token budget: the history may exceed its budget, ordinary budgets included. From 128 tokens on this
  happens exactly when spare summary room takes a turn back in and the summary, written again against the
  full cap, then grows by more than was left (`ChatHistory.LargeBudgetIsKeptIff`); below 128 tokens see
  `ChatHistory.SmallBudgetIsKeptIff`, and 1 to 8 tokens are exceeded by every conversation that has a turn.
  For every positive budget there is such a conversation that the turn table and its writer allow
  (`HistoryOverrun.EveryBudgetCanBeExceeded`, `HistoryOverrun.ConversationIsReachable`). The turn then exceeds its total, and the reported use is clamped to it (`TurnAllocation.TurnIsKeptIff`,
  `HistoryOverrun.EveryTurnCanOverrun`).
- Plan steps: a step that may run and is not COMPLETED can be prepared again under a fresh key, so two of its commands
  can finish while only one is recorded (`ChatPlanProgress.TwoCommandsCanFinish`).
- Activation: "never an untested arm" holds today, but only because none of the decisions the run
  contract contains is sufficient, so that no candidate can serve at all
  (`Activation.ContractDecisionsServePull`). The code does not enforce it: the verdict ignores which arm
  a run evaluated, and any sufficient run would promote any known arm (`Activation.ArmIsNotCompared`,
  `Activation.AnyArmCanBePromoted`). A promoted row cannot be rolled back
  (`Activation.PromotedIsAbsorbing`).
- Run stop: the stop row shares the command ledger with every other idempotency key, and `request` itself
  accepts any string as key. A request under a run's stop key would make the run impossible to stop
  (`LeaseGrants.RequestUnderStopKeyBlocksTheStop`); the callers in the repository compose their keys
  (engine/workers/service.py:1013, engine/donor/discovery_service.py:267,
  engine/studio/verification_execution.py:576), so this rests on how they compose them and not on a check. A stop
  row can no longer be flipped after thirty days (`LeaseRuns.ExpiredStopIsForever`).

## Model

| member | source | states |
|---|---|---|
| `LeaseRuns.StopSafety` | engine/capabilities/lease_service.py:644-816 | From a state whose stop row for a run is armed, along every interleaving of calls by any processes, restarts included, that contains no accepted disarm of that run: the row stays armed and neither entry point hands out a lease of the run |
| `LeaseRuns.StopHoldsForOneCall` | engine/capabilities/lease_service.py:644-816 | One call by anyone: the run stays stopped if and only if the call is not an accepted disarm of it, and the call admits none of its leases |
| `LeaseRuns.ArmEstablishesStop` | engine/capabilities/lease_service.py:424-514 | An accepted arm leaves the run durably stopped, the premise of stop safety |
| `LeaseRuns.RecordKeepsOtherStops` | engine/capabilities/kill_switch.py:141-173 | Writing one run's stop row releases a stopped run if and only if it is that run's row in that scope and it is written as disarmed |
| `LeaseLaws.RunStopWritten` | engine/capabilities/kill_switch.py:141-173 | A stop row is written exactly on a free key or on this project's unexpired stop row of that run, with the flag and the reason, and keeps the expiry of its first writing |
| `LeaseLaws.ArmAndDisarmWrite` | engine/capabilities/lease_service.py:424-642 | An accepted arm writes that row and revokes exactly the run's held leases, which it reports; a disarm writes the row and touches no lease; a refused one changes no table |
| `LeaseRuns.StaleCacheOnlyOverRefuses` | engine/capabilities/lease_service.py:644-669 | A remembered kill flag always refuses; a process without it behaves exactly like one with an empty memory, so memory never admits more |
| `LeaseRuns.DisarmReleasesExactly` | engine/capabilities/lease_service.py:609-642 | After an accepted disarm a process still refuses the run if and only if it is another process that remembers the flag |
| `LeaseRuns.DisarmElsewhereLeavesMemory` | engine/capabilities/lease_service.py:609-642 | Whenever another process disarms a run whose flag this process remembers and whose newest lease is held and unexpired, this process refuses the run and, after a restart, hands out that very lease |
| `LeaseRuns.ArmAcceptedIff` | engine/capabilities/kill_switch.py:141-173 | An arm is accepted if and only if the stop key is free or holds an unexpired run-stop row of this project; a refusal changes no table |
| `LeaseRuns.RefusedArmStopsNobodyElse` | engine/capabilities/lease_service.py:424-514 | After a refused arm every other process answers every call as if it had not been attempted |
| `LeaseRuns.ExpiredStopIsForever` | engine/capabilities/kill_switch.py:141-173 | Once a run's stop row has expired, along every run of calls past the expiry it never changes: an armed run is never released, a disarmed one never stopped again, and every arm and disarm is refused |
| `LeaseGrants.RequestUnderStopKeyBlocksTheStop` | engine/capabilities/kill_switch.py:94-173 | A lease request under a run's stop key takes it for good: in every continuation the run is never durably stopped and every arm or disarm of it is refused |
| `LeaseHistory.StopLeavesNothingHeld` | engine/capabilities/lease_service.py:453-514 | After an accepted arm or a stop-refused checkout the run holds no GRANTED or ACTIVE lease: exactly the held ones became REVOKED with the kill-flag reason and no other lease moved |
| `LeaseHistory.RevokedNeverReturns` | engine/capabilities/lease_service.py:671-816 | A lease in a terminal status is never handed out again in any continuation, disarmed or not |
| `LeaseHistory.EndedLeasesAreFinal` | engine/capabilities/lease_states.py:19-32 | Over any run a lease's definition, holder and times never change and an ended lease never changes at all |
| `LeaseHistory.CheckoutAdmitsExactly` | engine/capabilities/lease_service.py:671-765 | A checkout succeeds if and only if the run is not stopped and its newest lease for the capability, and no older one, is held and unexpired |
| `LeaseHistory.AdmittedWasHeld` | engine/capabilities/lease_service.py:767-849 | Whatever either entry point admits was held and unexpired, is for the capability asked for and comes out ACTIVE; the by-id entry point admits only the lease named, in the caller's scope, bound to no run |
| `LeaseLaws.CheckoutAnswers` | engine/capabilities/lease_service.py:671-849 | On the rows themselves: a run that is not stopped is answered by the newest lease of the run for the capability and by no other, and nothing is written but that row and its event; a stopped one is refused |
| `LeaseLaws.StoppedCheckoutWrites` | engine/capabilities/lease_service.py:851-893 | The stopped checkout revokes exactly the run's held leases, with reason and time, and changes no other field, row or table but the journal |
| `LeaseLaws.CheckoutByIdAnswers` | engine/capabilities/lease_service.py:767-816 | Success if and only if the row exists in the caller's scope, has the capability asked for, is bound to no run, is held and unexpired; it returns that very row, ACTIVE, and changes no other |
| `LeaseLaws.ActivateMeans` | engine/capabilities/lease_service.py:818-849 | A usable lease comes out ACTIVE, an overdue held one is written EXPIRED and refused, any other is refused and left alone |
| `LeaseHistory.StepMoves` | engine/capabilities/lease_service.py:1001-1041 | Every call that is not a request only moves leases along edges of the transition table, each move journalled |
| `LeaseHistory.IdsStayPositions` | engine/capabilities/lease_repository.py:39-58 | Lease ids stay the insertion positions of their rows over every run |
| `LeaseGrants.ReachableInv` | engine/capabilities/lease_service.py:226-422 | Every state reachable from an empty database has a valid catalogue, a journal whose history of each lease is a legal path ending in its current status, grants backed by a certified descriptor of the requested version, and ledger rows that agree with the lease table |
| `LeaseGrants.GrantSoundness` | engine/capabilities/lease_service.py:381-422 | In a valid catalogue a request is granted if and only if an ACTIVE row of the capability has the requested version and is CERTIFIED, and that is the only ACTIVE row |
| `LeaseLaws.RequestAnswers` | engine/capabilities/lease_service.py:271-422 | Under a fresh key the answer is GRANTED if and only if an ACTIVE row of the capability has the requested version and is CERTIFIED, else DENIED for the right reason; the row carries what was asked, and only it, its ledger row and its events are added |
| `LeaseLaws.RepeatedRequestAnswers` | engine/capabilities/lease_service.py:271-280 | Under a used key nothing changes, and the recorded lease is returned exactly for the same request, by the same project, finished and unexpired |
| `LeaseGrants.ReplayReturnsFirstAnswer` | engine/capabilities/lease_service.py:271-280 | A request repeated under its key after any other calls changes nothing and returns the first answer while the key is retained, and is refused without a change afterwards |
| `LeaseGrants.StepKeepsInv` | engine/capabilities/lease_service.py:271-379 | Each call keeps the invariant above |
| `CommandLedger.StopKeyInjective` | engine/capabilities/kill_switch.py:94-100 | Two runs never share a stop row |
| `CapabilityCatalog.RegisterKeepsValid` | engine/capabilities/service.py:250-356 | A registration keeps at most one ACTIVE row per capability, one row per version, mutual and backward supersession links, and changes no existing definition |
| `CapabilityCatalog.MoveKeepsValid` | engine/capabilities/service.py:395-431 | Deprecation and retirement keep the same, and move a row only along the lifecycle table |
| `CapabilityCatalog.AdmissibleMeans` | engine/capabilities/service.py:123-249 | A definition is admitted exactly with a capability, a version and listed classes |
| `CapabilityCatalog.RegisterAgainAnswers` | engine/capabilities/service.py:250-292 | Under an existing version nothing changes: identical content returns the row, any other content is refused |
| `CapabilityCatalog.RegisterNewAnswers` | engine/capabilities/service.py:283-356 | A new version appends one ACTIVE row that supersedes the ACTIVE row of the capability, if any; that row and no other becomes DEPRECATED and names its successor |
| `CapabilityCatalog.MoveAnswers` | engine/capabilities/service.py:386-433 | A move succeeds exactly along the lifecycle table and writes the status and its stamp to that row alone |
| `CapabilityCatalog.ChainIsAcyclic` | engine/capabilities/service.py:300-345 | A supersession chain never revisits a row, stays in one capability, is ACTIVE at most at its newest row, and is walked back by superseded_by |
| `LeaseProtocol.Newest` | engine/capabilities/lease_repository.py:86-110 | The newest lease of the run for the capability, or none exactly when there is none |
| `LeaseProtocol.IdsFor` | engine/capabilities/lease_repository.py:112-140 | Exactly the run's leases in the given statuses, in creation order |
| `LeaseService.CapabilityRegistryService.Register` | engine/capabilities/service.py:250-356 | The registration, statement by statement, is the catalogue step of the two Register rows above |
| `LeaseService.CapabilityRegistryService.MoveLifecycle` | engine/capabilities/service.py:386-433 | The lifecycle change is the catalogue step of MoveAnswers |
| `LeaseService.CapabilityLeaseService.Request` | engine/capabilities/lease_service.py:271-379 | The request method, with its two transitions, is the step that RequestAnswers and RepeatedRequestAnswers describe |
| `LeaseService.CapabilityLeaseService.Transition` | engine/capabilities/lease_service.py:1001-1041 | A status write succeeds exactly on a table edge and then writes that one row and its event; otherwise nothing changes |
| `LeaseService.CapabilityLeaseService.ArmRunStop` | engine/capabilities/lease_service.py:424-514 | Arming is the step that ArmAndDisarmWrite describes, and sets the process's flag whether or not the row was written |
| `LeaseService.CapabilityLeaseService.DisarmRunStop` | engine/capabilities/lease_service.py:609-642 | Disarming is the step that ArmAndDisarmWrite describes, and drops the process's flag |
| `LeaseService.CapabilityLeaseService.RequireActive` | engine/capabilities/lease_service.py:671-765 | The worker-run checkout is the step that CheckoutAnswers and StoppedCheckoutWrites describe, including the sweep on a stop |
| `LeaseService.CapabilityLeaseService.RequireActiveLease` | engine/capabilities/lease_service.py:767-816 | The by-id checkout is the step that CheckoutByIdAnswers describes |
| `LeaseService.CapabilityLeaseService.ActivateHeldLease` | engine/capabilities/lease_service.py:818-849 | Activation, with lazy expiry, is the step that ActivateMeans describes |
| `LeaseService.CapabilityLeaseService.SweepHeld` | engine/capabilities/lease_service.py:851-893 | The loop over held leases revokes exactly those, in order |
| `LeaseService.CapabilityLeaseService.Revoke` | engine/capabilities/lease_service.py:895-919 | Explicit revocation is the step that RevokeAnswers describes |
| `LeaseService.CapabilityLeaseService.Consume` | engine/capabilities/lease_service.py:921-940 | Consumption is the step that ConsumeAnswers describes |
| `LeaseService.CapabilityLeaseService.ConsumeAllForRun` | engine/capabilities/lease_service.py:942-973 | The loop consumes exactly the run's ACTIVE leases, the step that ConsumeAllAnswers describes |
| `LeaseHistory.EndedByCallNeverReturns` | engine/capabilities/lease_service.py:895-940 | An explicit revocation is accepted exactly for a held visible lease, a consumption exactly for an ACTIVE one, and the lease is never handed out again in any continuation |
| `LeaseLaws.RevokeAnswers` | engine/capabilities/lease_service.py:895-919 | A revocation succeeds exactly on a held lease of the scope and writes status, reason and time to it alone; the refusals are told apart |
| `LeaseLaws.ConsumeAnswers` | engine/capabilities/lease_service.py:921-940 | A consumption succeeds exactly on an ACTIVE lease of the scope and writes that row alone |
| `LeaseLaws.ConsumeAllAnswers` | engine/capabilities/lease_service.py:942-973 | Exactly the run's ACTIVE leases become CONSUMED, reported and journalled in order, and no other row changes |
| `LeaseHistory.ConsumeAllLeavesNoneActive` | engine/capabilities/lease_service.py:942-973 | Consuming a run's leases leaves it no ACTIVE one and changes no other lease |
| `ChatPlanProgress.CompletableIff` | engine/chat/plans.py:396-857 | An approved plan in any state, cancelled included, and with any Gateway, has a continuation that completes it if and only if it has steps and every unfinished one names an executable command on the plan's mission |
| `ChatPlanProgress.CanBeCompleted` | engine/chat/plans.py:396-857 | The construction: completing free steps, retrying failed or cancelled ones, settling submitted ones |
| `ChatPlanProgress.UnrunnableNeverCompletes` | engine/chat/plans.py:462-474 | In an approved plan a step that may not run never gets a key or completes, and neither does the plan |
| `ChatPlanProgress.CreatedPlanCanBeCompleted` | engine/chat/plans.py:82-174 | Every created plan with steps that can all run can be approved and completed, whatever the Gateway holds |
| `ChatPlanProgress.StepCanComplete` | engine/chat/plans.py:396-664 | A step whose dependencies are COMPLETED can be completed whatever keys the Gateway already holds, leaving every other step as it was |
| `ChatPlanProgress.SettleSubmitted` | engine/chat/plans.py:567-645 | A SUBMITTED step can be settled from any plan state, which takes a cancelled plan out of CANCELLED |
| `ChatPlanProgress.TwoCommandsCanFinish` | engine/chat/plans.py:443-496 | In an approved, working plan an unfinished step whose dependencies are COMPLETED has a continuation in which two of its commands have finished, under keys of different attempts and only the later recorded, if and only if the step itself may run |
| `ChatPlanRuns.CompletedIsNeverPreparedAgain` | engine/chat/plans.py:443-448 | A COMPLETED step is never prepared again in any continuation and keeps its attempt number |
| `ChatPlanProgress.EmptyPlanNeverCompletes` | engine/chat/plans.py:629-645 | A plan without steps is never COMPLETED in any run |
| `PlanGraph.RequireAcyclic` | engine/chat/plans.py:268-283 | The layering loop terminates and accepts if and only if ids are distinct, every dependency is a step and the dependency graph has no cycle |
| `PlanGraph.StuckHasCycle` | engine/chat/plans.py:268-283 | A nonempty set of steps each waiting for another of the set contains a cycle, so the loop rejects only cyclic plans |
| `PlanGraph.SomeMemberIsFree` | engine/chat/plans.py:268-283 | In an acyclic graph every nonempty set of steps has one that waits for none of the set |
| `ChatPlanRuns.ParsedIsWellFormed` | engine/chat/plans.py:176-266 | Whatever parsing accepts has distinct ids, known dependencies, no cycle, and only untouched steps |
| `ChatPlanLaws.ParseAcceptsExactly` | engine/chat/plans.py:176-283 | Parsing succeeds if and only if ids are distinct, every raw dependency names a raw step, the raw dependencies have no cycle, every named command may be planned and nothing is malformed; then step i has the id, dependencies, command, target and parameters of raw step i |
| `ChatPlanLaws.FirstFaultIsReported` | engine/chat/plans.py:180-250 | The first raw step that cannot be parsed names the error: a repeated id before a command that may not be planned before a malformed list or object |
| `ChatPlanRuns.CreatedIsOk` | engine/chat/plans.py:82-174 | Every created plan satisfies the plan invariant |
| `ChatPlanLaws.CreateAnswers` | engine/chat/plans.py:82-174 | A plan is created exactly with a title, an objective, steps that parse and an open conversation, and holds what was given |
| `ChatPlanRuns.RunKeepsInv` | engine/chat/plans.py:355-857 | Any order of edits, approvals, preparations, recordings, retries and cancellations, interleaved with the Gateway, keeps the plan invariant |
| `ChatPlanRuns.ApprovedIsFrozen` | engine/chat/plans.py:355-394 | Once approved, along every continuation, step ids, commands, targets, parameters and dependencies never change, the plan is never editable, attempts only grow and COMPLETED is stable |
| `ChatPlanRuns.OnlyApprovedPlansExecute` | engine/chat/plans.py:427-433 | A step is prepared only in a plan already approved, and from then on the plan is never editable |
| `ChatPlanLaws.PreparedIsWhatWasApproved` | engine/chat/plans.py:396-535 | Over a whole life, every command handed out is that of the step it names, under the call's protocol and with the hash of that very command, the step now holds its key and hash, and once approved it is the command the approved plan has for that step |
| `ChatPlanLaws.PrepareAnswers` | engine/chat/plans.py:427-535 | A preparation succeeds exactly for an unfinished step of an approved or executing plan with its dependencies COMPLETED and a mission command of its own; what it hands out, what it stores and each refusal are exact |
| `ChatPlanLaws.RecordAnswers` | engine/chat/plans.py:567-645 | A row is recorded exactly under the key and hash the step holds; the step follows the row's status and carries its result and error, no other step changes, and the plan is COMPLETED, FAILED or EXECUTING as its steps are |
| `ChatPlanRuns.AttemptedIsNeverEditable` | engine/chat/plans.py:666-739 | A plan with any attempt above 0 never returns to an editable state |
| `ChatPlanLaws.UpdateAnswers` | engine/chat/plans.py:666-739 | An edit is accepted exactly for the version read and a plan not yet approved, with steps that parse and no empty title or objective; it replaces exactly what was given and clears the approval |
| `ChatPlanLaws.ApproveAnswers` | engine/chat/plans.py:355-394 | An approval is accepted exactly for the version read and a plan not yet approved, and records who and when, nothing else |
| `ChatPlanRuns.VersionNamesContent` | engine/chat/plans.py:355-394 | Two moments with the same lock version hold the same plan |
| `ChatPlanRuns.ApprovalIsOfWhatWasRead` | engine/chat/plans.py:355-394 | An accepted approval at a version approves exactly the steps read at that version |
| `ChatPlanRuns.DependencySafety` | engine/chat/plans.py:443-496 | In every reachable state a step holding a prepared key has all dependencies COMPLETED, and a COMPLETED step has a finished ledger row under its newest key and its own command hash |
| `ChatPlanRuns.StatusAgreement` | engine/chat/plans.py:629-645 | In every reachable state a nonempty plan is COMPLETED if and only if all its steps are, and FAILED only with a failed step |
| `ChatPlanRuns.ReachableNeverDeadlocks` | engine/chat/plans.py:449-461 | Every reachable plan with an unfinished step has an unfinished step whose dependencies are all COMPLETED |
| `ChatPlanRuns.KeysAreFresh` | engine/chat/plans.py:475-496 | No two preparations in a plan's whole life hand out the same idempotency key |
| `ChatPlanRuns.KeysDiffer` | engine/chat/plans.py:475-496 | Keys of different steps differ, as do keys of different attempts of a step |
| `ChatPlanRuns.DecimalInjective` | engine/chat/plans.py:475-496 | The attempt number is recoverable from its decimal form |
| `ChatPlanService.ParseRawSteps` | engine/chat/plans.py:176-266 | The parsing loops and the layering check return exactly the steps, or the first error, whose meaning ParseAcceptsExactly and FirstFaultIsReported state on the raw input |
| `ChatPlanService.FrontendChatPlanService.CreatePlan` | engine/chat/plans.py:82-174 | Creation stores the plan CreateAnswers describes, or reports the error and changes nothing |
| `ChatPlanService.FrontendChatPlanService.UpdatePlan` | engine/chat/plans.py:666-739 | Editing is the step UpdateAnswers describes; a refusal changes nothing |
| `ChatPlanService.FrontendChatPlanService.ApprovePlan` | engine/chat/plans.py:355-394 | Approval is the step ApproveAnswers describes; a refusal changes nothing |
| `ChatPlanService.FrontendChatPlanService.PrepareStep` | engine/chat/plans.py:396-535 | Preparation, with its loop over dependencies, is the step PrepareAnswers describes, and returns that command |
| `ChatPlanService.FrontendChatPlanService.RecordStep` | engine/chat/plans.py:537-664 | Recording is the step RecordAnswers describes; a refusal changes nothing |
| `ChatPlanRuns.RetryForgets` | engine/chat/plans.py:780-807 | A retry is accepted exactly for a failed, blocked or cancelled step, leaves the others alone, and no Gateway row can be recorded for the step until it is prepared again |
| `ChatPlanRuns.RetryAbandonsTheAttempt` | engine/chat/plans.py:780-807 | After a retry the next preparation hands out another key, and a late result under the abandoned key is still refused |
| `ChatPlanLaws.CancelAnswers` | engine/chat/plans.py:813-857 | A cancellation is accepted exactly for the version read and a plan that is not over, and cancels exactly the steps not yet submitted |
| `ChatPlanService.FrontendChatPlanService.RetryStep` | engine/chat/plans.py:741-811 | The method, check by check and field by field, is the retry step whose meaning the two rows above state; a refusal changes nothing |
| `ChatPlanService.FrontendChatPlanService.CancelPlan` | engine/chat/plans.py:813-857 | The cancelling loop is the step CancelAnswers describes; a refusal changes nothing |
| `ContextAssembly.AssemblyConserves` | engine/context/assembly.py:71-117 | Included and evicted items are together exactly the inputs plus the success-criteria item, with multiplicity |
| `ContextAssembly.AssemblyWithinBudget` | engine/context/assembly.py:71-117 | Assembly overflows if and only if the protected items alone exceed the budget; otherwise the total is the included size, fits, holds every protected item, and no evicted item fits the slack |
| `ContextLaws.AssembleMeans` | engine/context/assembly.py:42-117 | On the items alone: assembly overflows exactly when the success criteria and the write-scope, authority and task items, under push also architecture and security, cost more than the budget; otherwise all of those are included and none of them is ever evicted |
| `ContextLaws.OfferedOrder` | engine/context/assembly.py:101-113 | Other code is offered budget before architecture and security, and within each by descending score |
| `ContextLaws.CriterionIsShown` | engine/context/assembly.py:56-69 | Every success criterion is in the criteria item, on a line of its own |
| `ContextAssembly.GreedyIsLexGreatest` | engine/context/assembly.py:101-113 | The inclusion vector is lexicographically greatest among all choices that fit, in processing order |
| `ContextAssembly.PushFitsImpliesPullFits` | engine/context/assembly.py:86-100 | If push succeeds, pull succeeds |
| `ContextAssembly.OrderRespectsScores` | engine/context/assembly.py:101-113 | Items are offered budget in descending tier number and, within a tier, descending score |
| `ContextAssembly.OrderKeepsTies` | engine/context/assembly.py:101-113 | Items of one tier with equal scores are offered budget in the order they came in |
| `ContextAssembly.AssembleContext` | engine/context/assembly.py:71-117 | The method with its dictionary of tiers and running total computes the specified assembly |
| `ContextAssembly.Fill` | engine/context/assembly.py:101-113 | The eviction loop makes the greedy choice |
| `ContextCoverage.AuthorityStatusMeans` | engine/context/coverage.py:72-120 | Satisfied exactly when every target has the wanted status, missing exactly when there are targets and none is known |
| `ContextCoverage.CodeStatusMeans` | engine/context/coverage.py:131-150 | The same for the declared write scope against the included items |
| `ContextLaws.CoverageMeans` | engine/context/coverage.py:55-180 | Each of the six statuses in terms of the task, the retrieved and the included items, EDR-like references and security relevance included |
| `ContextLaws.QuestionsMean` | engine/context/coverage.py:72-189 | A question is asked if and only if the gap it names is there |
| `ContextLaws.TouchesPlain` | engine/context/repo.py:72-81 | Scopes compare by whole path segments: a plain path is in a plain scope exactly when it is that scope or continues it after a slash |
| `ContextLaws.SpellingIsIgnored` | engine/context/repo.py:72-81 | Neither a slash at the end nor which way a slash leans makes a difference, in the path or in the scope |
| `ContextLaws.EdrLikeMeans` | engine/context/coverage.py:100-106 | A reference counts as a decision record's when it starts with EDR- in any case |
| `ContextCoverage.NoQuestionsIffNoGaps` | engine/context/coverage.py:55-189 | The report asks nothing if and only if every category is satisfied and every path resolved |
| `ContextCoverage.CoverageMonotone` | engine/context/coverage.py:131-167 | Including more never lowers a status |
| `ContextCoverage.PushIsNeverPartial` | engine/context/coverage.py:156-168 | Under push neither architecture nor security is partial |
| `ContextCoverage.ComputeCoverage` | engine/context/coverage.py:55-189 | The method with its growing list of questions computes the specified report |
| `ContextCritic.SameBudgetNeverReassembles` | engine/context/critic.py:157-223 | With a budget no larger than the assembly budget the critic never reassembles |
| `ContextCritic.ReassemblyConserves` | engine/context/critic.py:157-223 | A reassembly conserves items, fits its budget and only adds to what was included |
| `ContextLaws.CriticAnswers` | engine/context/critic.py:157-223 | The critic brings back exactly the evicted items of a partial category, if there are any and all of them fit, and charges 50 tokens and what it found either way |
| `ContextLaws.TriggerMeans` | engine/context/critic.py:123-154 | Each trigger reason is named if and only if its condition holds |
| `ContextLaws.PackageMeans` | engine/context/service.py:366-400 | A package's coverage is that of what it includes; the critic is called exactly when nothing conflicts and a trigger fired, with the whole budget |
| `ContextCritic.ReassemblyRepairs` | engine/context/critic.py:157-223 | A reassembly turns architecture and security satisfied when eviction had made them partial, and lowers no category |
| `ContextCritic.EvictionSparesCode` | engine/context/assembly.py:42-53 | With items marked as the retrievers mark them, neither eviction nor reassembly changes how the declared write scope is covered by what was retrieved |
| `ContextCritic.PackageOverrunsIffReassembled` | engine/context/service.py:239-400 | Over the whole pipeline a package is built exactly when extensions and protected items fit, and it exceeds the budget if and only if the critic reassembled it; never without extensions |
| `ContextCritic.OverrunCondition` | engine/context/service.py:366-384 | The condition known before the critic runs: evicted evidence of a partial category exists, all of it fits the whole budget, and no conflict was detected |
| `ContextCritic.OverrunWitness` | engine/context/service.py:366-384 | A concrete package of 11 tokens under a budget of 10 |
| `ContextCritic.PartialTriggers` | engine/context/critic.py:123-154 | A partial category always triggers the critic |
| `TurnAllocation.AllocationIsExact` | engine/chat/context_manager.py:138-179 | Whenever the fixed cost is below the total, fixed, explicit, memory and history budgets add up to it exactly; otherwise memory and history get nothing and references at most one token |
| `TurnAllocation.AllocationShares` | engine/chat/context_manager.py:138-165 | In whole tokens: references may take all of up to 1024, 1024 up to 1969, and 52 in a hundred from 1970 on; memory is asked for 28 in a hundred and 65 in a hundred of what they left unused, within what is left |
| `TurnAllocation.DivideBudget` | engine/chat/context_manager.py:138-179 | The running targets give the simple allocation, in which a warm or cold session plays no part |
| `TurnAllocation.AssembleTurn` | engine/chat/context_manager.py:138-195 | The whole turn, references, allocation and history selection, is the simple specification for warm and cold sessions alike |
| `TurnAllocation.GatherAccounts` | engine/chat/context_refs.py:148-170 | Every reference is included or omitted with its reason, never both; the included are counted exactly and fit; an available one is omitted only when it does not fit |
| `TurnAllocation.EarlierRefsGoFirst` | engine/chat/context_refs.py:148-170 | A reference is included exactly when it is available and fits beside those included before it, whatever comes later |
| `TurnAllocation.AssembleRefs` | engine/chat/context_refs.py:125-170 | The reference loop computes that choice; a nonpositive budget is refused |
| `TurnAllocation.TurnOverrunIsBounded` | engine/chat/context_manager.py:138-195 | How far a turn can exceed its budget: one token when the fixed cost fills it, nothing without a summary, else one summary cap plus the gap to 128 |
| `TurnAllocation.TurnIsKeptIff` | engine/chat/context_manager.py:138-195 | A turn stays within its total if and only if the history takes neither failing branch or, with nothing left over the fixed cost, that cost is the total and no reference was taken; the reported use is the carried cost in exactly these cases |
| `TurnAllocation.WholeSummaryKeepsTurn` | engine/chat/context_manager.py:172-195 | With at least 128 tokens for the history, a turn whose first left-over turns are all summarised stays within its total |
| `HistoryOverrun.EveryTurnCanOverrun` | engine/chat/context_manager.py:138-195 | Every turn that leaves its history anything exceeds its total by at least 16 tokens on some storable conversation, and reports the total |
| `TurnAllocation.TinyHistoryOverruns` | engine/chat/context_manager.py:172-195 | With 1 to 8 tokens of history budget the turn exceeds its total exactly when the conversation has a turn, and reports the total |
| `TurnAllocation.OverrunIsPossible` | engine/chat/context_manager.py:172-195 | Every conversation with a turn exceeds a total one above the fixed cost when there are no references and no memory |
| `ChatHistory.SelectionPartitions` | engine/chat/context_manager.py:356-394 | Shown and omitted turns split the loaded turns, both in sequence order |
| `ChatHistory.OldestIsLast` | engine/chat/context_manager.py:362-377 | Turns are tried newest first: a turn is chosen exactly when it fits beside what the newer ones take |
| `ChatHistory.OldestLineIsLast` | engine/chat/context_manager.py:396-415 | So are the lines of a summary |
| `ChatHistory.SqueezeSplit` | engine/chat/context_manager.py:396-415 | Cut at any white space, both sides are squeezed on their own and joined by one blank: with a text without white space unchanged, this determines the result |
| `ChatHistory.CompactShows` | engine/chat/context_manager.py:396-415 | A summary is the heading and lines chosen among the newest 32 of the turns it is for |
| `ChatHistory.LineShows` | engine/chat/context_manager.py:396-415 | A line names the turn and ends in its squeezed text or the first 220 characters of it |
| `ChatHistory.SelectionIsBounded` | engine/chat/context_manager.py:356-394 | For every positive budget the summary fits its cap, shown turns cost at most max(budget,128), and both together at most that plus the cap |
| `ChatHistory.NoRefillKeepsBudget` | engine/chat/context_manager.py:378-393 | With a budget of at least 128 and no omitted turn that fits the spare room, turns and summary stay within the budget |
| `ChatHistory.BudgetIsKeptIff` | engine/chat/context_manager.py:356-394 | For every budget: it is exceeded if and only if one of the failing branches of the next two rows is taken |
| `ChatHistory.SmallBudgetIsKeptIff` | engine/chat/context_manager.py:356-394 | Below 128 tokens nothing is chosen first, so the budget is exceeded if and only if neither all loaded turns fit nor the turns taken back and the summary of the others |
| `ChatHistory.LargeBudgetIsKeptIff` | engine/chat/context_manager.py:356-394 | From 128 tokens on the budget is exceeded if and only if a left-over turn fits the spare room and the rewritten summary grows by more than the room both choices left unused, and by exactly that difference |
| `ChatHistory.WholeSummaryKeepsBudget` | engine/chat/context_manager.py:378-415 | From 128 tokens on a conversation whose first left-over turns, at most 32, are all summarised keeps its budget |
| `HistoryOverrun.EveryBudgetCanBeExceeded` | engine/chat/context_manager.py:356-415 | No positive budget is safe: for each there is a conversation of at most 18 turns that the chat service can store, user prompts and studio replies in turn, that exceeds it by at least 16 tokens |
| `HistoryOverrun.ConversationIsReachable` | engine/chat/service.py:1490-1587 | Appended one by one to a new conversation, those turns are what the store holds and reads back |
| `ChatHistory.TinyBudgetIsExceeded` | engine/chat/context_manager.py:356-394 | A budget of 1 to 8 tokens is exceeded if and only if the conversation has a turn |
| `ChatHistory.AllTakenBackExceeds` | engine/chat/context_manager.py:378-393 | Below 128 tokens a conversation that does not fit and is taken back whole exceeds the budget by exactly what did not fit |
| `ChatHistory.ShorterSummaryKeepsBudget` | engine/chat/context_manager.py:378-393 | From 128 tokens on the refill exceeds the budget only if it makes the summary longer |
| `ChatHistory.SummaryFits` | engine/chat/context_manager.py:396-415 | The summary never exceeds the tokens reserved for it |
| `ChatHistory.NewestTurnIsLoaded` | engine/chat/context_manager.py:326-341 | The newest turn takes part if and only if the conversation has at most 120 turns |
| `ChatHistory.NewestTurnIsLost` | engine/chat/context_manager.py:326-341 | Beyond 120 turns the newest turn is neither shown nor summarised, at any budget |
| `ChatHistory.SelectHistory` | engine/chat/context_manager.py:314-394 | The method with its loops, id sets and sort computes the specified selection |
| `ChatHistory.CompactHistory` | engine/chat/context_manager.py:396-415 | The summary loop computes the specified text |
| `BranchHistory.BranchIsolation` | engine/chat/service.py:1672-1719 | Appending to a conversation changes another's history if and only if that one is it or descends from it through a link naming no branch turn, and then only by the new turn |
| `BranchHistory.PinnedHistoryIsStable` | engine/chat/service.py:1672-1719 | Through any run of opens, branches and appends, a branch whose links all name branch turns keeps its history as a prefix and grows only by its own turns |
| `BranchHistory.HistoryIsTheVisibleTurns` | engine/chat/service.py:1672-1719 | A history holds exactly the visible turns, each once, ancestors first, each conversation in sequence order |
| `BranchHistory.HistoryNeverBreaks` | engine/chat/service.py:1693-1713 | In every sound store a history is refused exactly for an unknown conversation; the missing-parent-turn error never occurs |
| `BranchHistory.ReachableHistories` | engine/chat/service.py:1672-1719 | From the empty store, after any run: a history is refused exactly for an unknown conversation and otherwise holds exactly the visible turns in order |
| `BranchHistory.RunKeepsInv` | engine/chat/service.py:1490-1587 | Every operation keeps backward links to existing parent turns and turns numbered 1..n per conversation |
| `BranchHistory.AppendAnswers` | engine/chat/service.py:1490-1587 | Appending in the caller's scope adds one row, the message under the next id and the conversation's next number, and changes nothing else; elsewhere it changes nothing |
| `BranchHistory.BranchAnswers` | engine/chat/service.py:515-574 | A branch is made exactly from a conversation of the scope and, if it names a turn, from a turn of that very conversation, and records both |
| `BranchHistory.DirectIsInOrder` | engine/chat/service.py:1721-1737 | A conversation's stored turns are numbered 1..n with distinct ids |
| `BranchHistory.BranchShowsParent` | engine/chat/service.py:515-574 | A new branch shows its parent's history cut at the branch turn |
| `BranchHistory.ConversationService.BranchConversation` | engine/chat/service.py:515-574 | Branching adds the specified conversation or is refused without a change |
| `BranchHistory.ConversationService.AppendTurn` | engine/chat/service.py:1490-1587 | Appending adds the specified numbered row or is refused without a change |
| `Activation.EvaluateGates` | engine/context/activation.py:151-263 | A request is allowed if and only if the mode is promotable and next, the arm is known and the evidence suffices; past the structural checks it is allowed exactly when every gate passed and the decision is no partial pass; the refusals are distinct and each is named exactly under its condition |
| `Activation.StepMoves` | engine/context/activation_service.py:131-321 | One operation keeps the mode, moves it forward by one, or rolls an unpromoted mode back; canary and promoted are entered only from the mode before on a sufficient recorded run |
| `Activation.AdvanceAnswers` | engine/context/activation_service.py:131-256 | A request is accepted exactly when the mode it expects is the durable one and it asks for the mode the row has, or for the next with a known arm and, beyond shadow, a sufficient judged run; what it accepts it writes, field by field |
| `Activation.ReachableInv` | engine/context/activation_service.py:131-321 | In every reachable state, pending runs that are decided later included, the last certified policy is baseline with pull, or the promoted arm, and a serving candidate rests on a sufficient run |
| `Activation.InsufficientEvidenceServesPull` | engine/context/activation.py:73-100 | While no recorded run is sufficient, every task in every reachable state is served pull |
| `Activation.ContractDecisionsServePull` | engine/contracts/promotion_gate_run.py:39-42 | With the decisions the run contract contains, no task is ever served anything but pull |
| `Activation.CandidateIsServedExactly` | engine/context/activation.py:73-100 | Another arm is served exactly to promoted rows and in-slice canary tasks, is the row's arm, and rests on a sufficient run |
| `Activation.PromotedIsAbsorbing` | engine/context/activation_service.py:131-321 | After a promotion no operation changes the mode or the arm |
| `Activation.RollbackLands` | engine/context/activation_service.py:258-321 | Rollback is idempotent and lands on baseline with pull, or leaves a promoted row as it is |
| `Activation.RollbackAnswers` | engine/context/activation_service.py:258-321 | In a reachable state a promoted row stays as it is and any other becomes the baseline with pull, keeping its last run and fraction |
| `Activation.PromotionTakesSteps` | engine/context/activation.py:115-127 | No run climbs more than one mode per operation |
| `Activation.CanarySliceGrows` | engine/context/activation.py:130-140 | The slice is the buckets below a size that grows with the fraction and never exceeds 10000 |
| `Activation.ArmIsNotCompared` | engine/context/activation_service.py:170-200 | A request is refused for one known arm if and only if it is refused for every other, whatever arm the run evaluated |
| `Activation.AnyArmCanBePromoted` | engine/context/activation_service.py:170-245 | From every baseline state and for every sufficient run and known arm, shadow, canary and promoted requests naming that arm promote it whatever the run evaluated, and rollback keeps it |
| `Activation.ContextActivationService.AttemptAdvance` | engine/context/activation_service.py:131-256 | The method writes the row AdvanceAnswers describes, or refuses without a change exactly when it says so |
| `Activation.ContextActivationService.RollBack` | engine/context/activation_service.py:258-321 | The method writes and returns the row RollbackAnswers describes |
| `AuditLedger.ChainsVerify` | engine/audit/ledger.py:42-103 | After any appends for any tenants in any order every tenant's chain verifies and is numbered 1..n |
| `AuditLedger.ChainHoldsWhatWasAppended` | engine/audit/ledger.py:54-84 | A tenant's chain holds exactly the entries appended for it, in order |
| `AuditLedger.TamperEvident` | engine/audit/ledger.py:22-103 | With an injective hash, verifying chains with the same last hash have the same length, ids, types and payloads |
| `AuditLedger.RewrittenStoreIsCaught` | engine/audit/ledger.py:86-103 | Any store that verifies for a tenant and ends in the recorded hash holds what was appended for that tenant |
| `AuditLedger.TruncationVerifies` | engine/audit/ledger.py:86-103 | Cutting off a chain's newest entries leaves a chain that verifies |
| `AuditLedger.Ledger.Append` | engine/audit/ledger.py:54-84 | Appending adds the specified linked record |
| `AuditLedger.Ledger.VerifyChain` | engine/audit/ledger.py:86-103 | Verification reports no break exactly when the chain verifies, and otherwise the first entry that breaks it |
| `Chunking.MarkdownChunks` | engine/context/chunking.py:107-144 | The chunks are consecutive sections up to the last line, each exactly its lines, titled by its heading, with headings only at their start; only blank lines precede the first |
| `Chunking.SectionsAreContiguous` | engine/context/chunking.py:107-144 | Ranges are contiguous and increasing and every chunk after the first starts at a heading |
| `Chunking.HeadingMeans` | engine/context/chunking.py:137-141 | A section is titled by its heading line without the leading hashes and the white space at either end, or by the path when nothing is left |
| `Chunking.ChunksRejoin` | engine/context/chunking.py:107-144 | Joining the chunks gives back the document after its blank preamble |
| `Chunking.EveryLineIsChunked` | engine/context/chunking.py:49-104 | Every line that is not blank lies in a definition chunk that is exactly its range, or is one of the lines the module chunk joins |
| `Chunking.EveryDefinitionIsChunked` | engine/context/chunking.py:62-82 | Wherever in the tree a definition is, below definitions and control flow of any depth, its chunk is there under its qualified name |
| `Chunking.ChunkIsADefinition` | engine/context/chunking.py:62-82 | And every definition chunk is that of a definition at some place in the tree |
| `Chunking.DefinitionsAreExact` | engine/context/chunking.py:62-82 | Every definition chunk is exactly the lines of its range |
| `Chunking.PythonChunker.Run` | engine/context/chunking.py:62-104 | The walk and the covered-line set give one chunk per definition found and a module chunk of exactly the lines outside all of them, unless blank |
| `ProcessRegistry.RegistryRefinesFlatMap` | engine/capabilities/process_registry.py:358-391 | Under any registrations and removals the nested map is the flat map from run and pid to handle, with no empty bucket |
| `ProcessRegistry.RepresentationIsCanonical` | engine/capabilities/process_registry.py:358-391 | Two histories leave the same nested map if and only if they leave the same flat map |
| `ProcessRegistry.Terminate` | engine/capabilities/process_registry.py:316-349 | The log is what the system answered, and the answer is the phase those answers lead to: a forced kill is issued exactly to a visible process that accepted the signal and was not seen to exit in the window, killed, terminated, absent and failed as the system's answers say |
| `ProcessRegistry.PollGrace` | engine/capabilities/process_registry.py:331-339 | The polling loop reports an exit if and only if some probe due inside the window finds the process gone, within 100 probes, and otherwise ends at the first probe due after it |
| `ProcessRegistry.ProcessHandleRegistry.RegisterProcess` | engine/capabilities/process_registry.py:358-361 | Registering is the nested-map step |
| `ProcessRegistry.ProcessHandleRegistry.UnregisterProcess` | engine/capabilities/process_registry.py:363-382 | Removing is the nested-map step, dropping an emptied bucket |
| `ProcessRegistry.ListsTheBucket` | engine/capabilities/process_registry.py:358-391 | After any registrations and removals the list of a run holds exactly its registered pids, once each |
| `ProcessRegistry.ProcessHandleRegistry.PidsForRun` | engine/capabilities/process_registry.py:384-391 | Exactly the registered pids of the run, each once, in the order of registration, where a pid registered again keeps its place |
| `ProcessRegistry.ProcessHandleRegistry.SweepRun` | engine/capabilities/process_registry.py:393-418 | Exactly one outcome per registered process, in the order of registration, with the phase its system's answers lead to; a phase other than failed is reported exactly when exit or absence was observed, detail exactly for a failure |

## Left out

- Row-level security and tenancy of descriptors (owner tenant, visibility); leases, ledger rows, plans and conversations are filtered by scope.
- Units of work supplied by the caller and partial commits: each service call is one atomic step.
- Malformed UUID strings, trimming of titles, timestamps other than those the logic compares.
- Registry events, activity logs and the external-effect journal; the process sweep inside an arm is modelled on its own in `ProcessRegistry`.
- Lookup of worker runs and the request's other admission checks outside the lease tables.
- The command table of the Gateway beyond which commands a plan may name.
- Token counts and fractions are exact reals where the source uses binary floating point.
- `is_security_relevant` keyword matching is an input of the coverage model; distractor pressure is not modelled.
- Resolution and normalisation of context references: the resolved, distinct references are inputs.
- Memory recall: a function of the budget that returns at most the budget.
- BranchHistory.HistoryNeverBreaks: `open` stores a parent conversation and a branch turn it is given without checking them (engine/chat/service.py:139-174); reachability assumes, as holds in engine/chat, that only `branch` passes those two arguments.
- Chat routing, intent classification, titles, pins and candidates of conversations.
- ProcessRegistry.Terminate: the platform calls (signals, `waitpid`, reaping) are an oracle, and the concurrent attempts of a sweep are made one after another.
- Chunking.PythonChunker.Run: starts from a definition tree; parsing, file access and size limits are not modelled.
- Checkpoints, attribution, context conflicts, git scope, embeddings, adapters, scripts and migrations: they would add easier members only.
