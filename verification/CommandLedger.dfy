/** The command idempotency ledger (engine/events/idempotency.py) as far as leases use it:
    one row per (tenant, key), guarded by a request hash, expiring after thirty days.
    Row-level security hides a row from a unit of work scoped to another project. */
module CommandLedger {
  import opened Wrappers

  /** The tenant and project a unit of work is scoped to. */
  datatype Scope = Scope(tenant: string, project: string)

  /** The scope fields of a lease: exactly what `lease_hash` covers. */
  datatype LeaseDefinition = LeaseDefinition(
    scope: Scope, mission: string, task: string, executionPlan: string,
    run: Option<string>, environment: Option<string>, capability: string, version: string,
    resourceScope: string, operationScope: string, constraints: string)

  datatype LeaseStatus = Requested | Evaluating | Granted | Active | Denied | Consumed | Expired | Revoked

  datatype DenialReason =
    NoActiveDescriptor | ActiveVersionIs(version: string) | NotCertified | NotActive

  datatype Lease = Lease(
    id: nat, def: LeaseDefinition, requestedBy: string, issuedAt: int, expiresAt: int,
    status: LeaseStatus, deniedReason: Option<DenialReason>,
    revokedAt: Option<int>, revocationReason: Option<string>, updatedAt: int)

  /** An injective hash: the value it was computed from. */
  datatype RequestHash = OfLease(def: LeaseDefinition) | OfRunStop(run: string)

  datatype CommandStatus = InProgress | Completed | Failed

  datatype CommandResult = NoResult | StopRecord(armed: bool, reason: string) | LeaseRecord(lease: Lease)

  datatype LedgerRow = LedgerRow(
    project: string, hash: RequestHash, status: CommandStatus, result: CommandResult, expiresAt: int)

  datatype LedgerKey = LedgerKey(tenant: string, key: string)

  type Ledger = map<LedgerKey, LedgerRow>

  datatype Error = VersionConflict | PolicyDenied | KillFlagActive

  /** COMMAND_IDEMPOTENCY_RETENTION_V1, in seconds. */
  const RETENTION := 30 * 24 * 60 * 60

  function KeyIn(scope: Scope, key: string): LedgerKey { LedgerKey(scope.tenant, key) }

  /** get_by_key as a unit of work scoped to `scope` sees it. */
  function Lookup(ledger: Ledger, scope: Scope, key: string): Option<LedgerRow> {
    if KeyIn(scope, key) in ledger && ledger[KeyIn(scope, key)].project == scope.project
    then Some(ledger[KeyIn(scope, key)])
    else None
  }

  /** `begin`: the row and whether this caller created it, or a refusal. */
  function Begin(ledger: Ledger, scope: Scope, key: string, hash: RequestHash, now: int)
    : Result<(LedgerRow, bool), Error>
  {
    if KeyIn(scope, key) !in ledger then
      Success((LedgerRow(scope.project, hash, InProgress, NoResult, now + RETENTION), true))
    else
      match Lookup(ledger, scope, key)
      case None => Failure(VersionConflict)
      case Some(row) =>
        if row.expiresAt <= now || row.hash != hash then Failure(VersionConflict) else Success((row, false))
  }

  /** `complete` on the row `begin` returned. */
  function Complete(ledger: Ledger, scope: Scope, key: string, row: LedgerRow, result: CommandResult): Ledger {
    ledger[KeyIn(scope, key) := row.(status := Completed, result := result)]
  }

  /** run_stop_idempotency_key. */
  function StopKey(run: string): string { "kill_flag_run_stop:" + run }

  lemma StopKeyInjective(r1: string, r2: string)
    requires StopKey(r1) == StopKey(r2)
    ensures r1 == r2
  {
    var prefix := "kill_flag_run_stop:";
    assert r1 == StopKey(r1)[|prefix|..] && r2 == StopKey(r2)[|prefix|..];
  }

  /** record_run_stop: create-or-flip the run's one durable stop row. */
  function RecordRunStop(ledger: Ledger, scope: Scope, run: string, armed: bool, reason: string, now: int)
    : Result<Ledger, Error>
  {
    match Begin(ledger, scope, StopKey(run), OfRunStop(run), now)
    case Failure(e) => Failure(e)
    case Success(begun) => Success(Complete(ledger, scope, StopKey(run), begun.0, StopRecord(armed, reason)))
  }

  /** read_durable_run_stop. */
  predicate DurablyStopped(ledger: Ledger, scope: Scope, run: string) {
    match Lookup(ledger, scope, StopKey(run))
    case None => false
    case Some(row) => row.result.StopRecord? && row.result.armed
  }
}
