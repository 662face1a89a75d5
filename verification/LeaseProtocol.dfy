/** The capability-lease state machine (engine/capabilities/lease_service.py) as atomic
    steps over the durable tables. A lease id is its position in `leases`, so creation
    order is table order. The class in LeaseService.dfy is proved against these functions. */
module LeaseProtocol {
  import opened Wrappers
  import opened CommandLedger
  import Catalog = CapabilityCatalog

  const KILL_FLAG_REASON := "kill_flag"

  datatype Event =
    | LeaseRequested(id: nat)
    | LeaseEvaluating(id: nat)
    | LeaseDenied(id: nat, denial: DenialReason)
    | LeaseGranted(id: nat)
    | LeaseActivated(id: nat)
    | LeaseTransitioned(id: nat, from: LeaseStatus, to: LeaseStatus)
    | LeaseRevoked(id: nat, reason: string)
    | LeaseConsumed(id: nat)
    | KillFlagEnforced(scope: Scope, run: string)
    | RunStopArmed(scope: Scope, run: string, revoked: seq<nat>)

  datatype Store = Store(catalog: Catalog.Catalog, leases: seq<Lease>, ledger: Ledger, journal: seq<Event>)

  /** One worker run within its scope: what a kill flag names. */
  datatype RunRef = RunRef(scope: Scope, run: string)

  // -------------------------------------------------------------- lease states

  /** CAPABILITY_LEASE_TRANSITIONS. */
  predicate Edge(from: LeaseStatus, to: LeaseStatus) {
    match from
    case Requested => to == Evaluating
    case Evaluating => to == Granted || to == Denied
    case Granted => to == Active || to == Expired || to == Revoked
    case Active => to == Consumed || to == Expired || to == Revoked
    case _ => false
  }

  /** HELD_LEASE_STATUSES. */
  const HELD := {Granted, Active}

  predicate Held(s: LeaseStatus) { s in HELD }

  predicate Terminal(s: LeaseStatus) { s == Denied || s == Consumed || s == Expired || s == Revoked }

  predicate BoundTo(l: Lease, ref: RunRef) { l.def.scope == ref.scope && l.def.run == Some(ref.run) }

  predicate HeldBy(l: Lease, ref: RunRef) { BoundIn(l, ref, HELD) }

  function Moved(l: Lease, to: LeaseStatus, now: int): Lease { l.(status := to, updatedAt := now) }

  function RevokedLease(l: Lease, reason: string, now: int): Lease {
    Moved(l, Revoked, now).(revokedAt := Some(now), revocationReason := Some(reason))
  }

  // ------------------------------------------------------------------ requests

  /** `_evaluate`: the reason to deny, or None to grant. */
  function Evaluate(c: Catalog.Catalog, capability: string, version: string): Option<DenialReason> {
    match Catalog.FindActive(c, capability)
    case None => Some(NoActiveDescriptor)
    case Some(i) =>
      if c[i].def.version != version then Some(ActiveVersionIs(c[i].def.version))
      else if c[i].certification != Catalog.Certified then Some(NotCertified)
      else if c[i].lifecycle != Catalog.Active then Some(DenialReason.NotActive)
      else None
  }

  function IssuedLease(st: Store, def: LeaseDefinition, requester: string, ttl: int, now: int): Lease {
    var denial := Evaluate(st.catalog, def.capability, def.version);
    Lease(|st.leases|, def, requester, now, now + ttl, if denial.Some? then Denied else Granted, denial, None, None, now)
  }

  /** `_replay_or_raise`. */
  function Replay(row: LedgerRow): Result<Lease, Error> {
    if row.status == Completed && row.result.LeaseRecord? then Success(row.result.lease) else Failure(VersionConflict)
  }

  /** `request`: REQUESTED, EVALUATING, then GRANTED or DENIED, once per idempotency key. */
  function Request(st: Store, def: LeaseDefinition, requester: string, key: string, ttl: int, now: int)
    : (Store, Result<Lease, Error>)
  {
    match Begin(st.ledger, def.scope, key, OfLease(def), now)
    case Failure(e) => (st, Failure(e))
    case Success(begun) =>
      if !begun.1 then (st, Replay(begun.0))
      else
        var lease := IssuedLease(st, def, requester, ttl, now);
        var verdict := if lease.status == Denied then LeaseDenied(lease.id, lease.deniedReason.value) else LeaseGranted(lease.id);
        (Store(
          st.catalog,
          st.leases + [lease],
          Complete(st.ledger, def.scope, key, begun.0, LeaseRecord(lease)),
          st.journal + [LeaseRequested(lease.id), LeaseEvaluating(lease.id), verdict]),
        Success(lease))
  }

  // ----------------------------------------------------------------- run stops

  predicate BoundIn(l: Lease, ref: RunRef, statuses: set<LeaseStatus>) { BoundTo(l, ref) && l.status in statuses }

  /** list_for_run / list_held_for_run: the run's leases in one of `statuses`, in creation order. */
  function IdsFor(leases: seq<Lease>, ref: RunRef, statuses: set<LeaseStatus>): (ids: seq<nat>)
    ensures forall k :: k in ids <==> 0 <= k < |leases| && BoundIn(leases[k], ref, statuses)
    ensures forall i, j | 0 <= i < j < |ids| :: ids[i] < ids[j]
  {
    if leases == [] then []
    else
      var n := |leases| - 1;
      var earlier := IdsFor(leases[..n], ref, statuses);
      assert forall i | 0 <= i < |earlier| :: earlier[i] in earlier;
      earlier + (if BoundIn(leases[n], ref, statuses) then [n] else [])
  }

  function HeldIds(leases: seq<Lease>, ref: RunRef): seq<nat> { IdsFor(leases, ref, HELD) }

  function RevokeEvents(ids: seq<nat>, reason: string): seq<Event> {
    seq(|ids|, i requires 0 <= i < |ids| => LeaseRevoked(ids[i], reason))
  }

  /** The lease table after every held lease of the run has been revoked. */
  function Swept(leases: seq<Lease>, ref: RunRef, now: int): seq<Lease> {
    seq(|leases|, i requires 0 <= i < |leases| =>
      if HeldBy(leases[i], ref) then RevokedLease(leases[i], KILL_FLAG_REASON, now) else leases[i])
  }

  function SweptStore(st: Store, ref: RunRef, now: int): Store {
    st.(leases := Swept(st.leases, ref, now),
        journal := st.journal + RevokeEvents(HeldIds(st.leases, ref), KILL_FLAG_REASON))
  }

  /** `arm_run_stop` on the tables: the durable row, the sweep, one summary event. */
  function Arm(st: Store, ref: RunRef, now: int): (Store, Result<seq<nat>, Error>) {
    match RecordRunStop(st.ledger, ref.scope, ref.run, true, KILL_FLAG_REASON, now)
    case Failure(e) => (st, Failure(e))
    case Success(ledger) =>
      var swept := SweptStore(st, ref, now);
      var ids := HeldIds(st.leases, ref);
      (swept.(ledger := ledger, journal := swept.journal + [RunStopArmed(ref.scope, ref.run, ids)]), Success(ids))
  }

  /** `disarm_run_stop` on the tables: the durable row only. */
  function Disarm(st: Store, ref: RunRef, reason: string, now: int): (Store, Result<(), Error>) {
    match RecordRunStop(st.ledger, ref.scope, ref.run, false, reason, now)
    case Failure(e) => (st, Failure(e))
    case Success(ledger) => (st.(ledger := ledger), Success(()))
  }

  // ----------------------------------------------------------------- checkouts

  predicate Matches(l: Lease, ref: RunRef, capability: string) { BoundTo(l, ref) && l.def.capability == capability }

  /** get_active_for_run: the newest lease of the run for the capability, whatever its status. */
  function Newest(leases: seq<Lease>, ref: RunRef, capability: string): (r: Option<nat>)
    ensures r.Some? ==> r.value < |leases| && Matches(leases[r.value], ref, capability)
    ensures r.Some? ==> forall k | r.value < k < |leases| :: !Matches(leases[k], ref, capability)
    ensures r.None? ==> forall k | 0 <= k < |leases| :: !Matches(leases[k], ref, capability)
  {
    if leases == [] then None
    else
      var n := |leases| - 1;
      if Matches(leases[n], ref, capability) then Some(n) else Newest(leases[..n], ref, capability)
  }

  /** `_activate_held_lease`: the expiry it observes is written even though it refuses. */
  function Activate(st: Store, id: nat, now: int): (Store, Result<Lease, Error>)
    requires id < |st.leases|
  {
    var lease := st.leases[id];
    if !Held(lease.status) then (st, Failure(PolicyDenied))
    else if lease.expiresAt <= now then
      (st.(leases := st.leases[id := Moved(lease, Expired, now)],
           journal := st.journal + [LeaseTransitioned(id, lease.status, Expired)]),
       Failure(PolicyDenied))
    else if lease.status == Granted then
      (st.(leases := st.leases[id := Moved(lease, Active, now)], journal := st.journal + [LeaseActivated(id)]),
       Success(Moved(lease, Active, now)))
    else (st, Success(lease))
  }

  /** `_is_run_stopped`: this process's memory first, then the durable row. */
  predicate RunStopped(st: Store, killed: set<RunRef>, ref: RunRef) {
    ref in killed || DurablyStopped(st.ledger, ref.scope, ref.run)
  }

  /** `require_active`. */
  function Checkout(st: Store, killed: set<RunRef>, ref: RunRef, capability: string, now: int)
    : (Store, Result<Lease, Error>)
  {
    if RunStopped(st, killed, ref) then
      var swept := SweptStore(st, ref, now);
      (swept.(journal := swept.journal + [KillFlagEnforced(ref.scope, ref.run)]), Failure(KillFlagActive))
    else
      match Newest(st.leases, ref, capability)
      case None => (st, Failure(PolicyDenied))
      case Some(id) => Activate(st, id, now)
  }

  predicate Visible(st: Store, scope: Scope, id: nat) { id < |st.leases| && st.leases[id].def.scope == scope }

  /** `require_active_lease`: only leases that belong to no worker run. */
  function CheckoutById(st: Store, scope: Scope, id: nat, capability: string, now: int)
    : (Store, Result<Lease, Error>)
  {
    if !Visible(st, scope, id) then (st, Failure(PolicyDenied))
    else if st.leases[id].def.capability != capability then (st, Failure(PolicyDenied))
    else if st.leases[id].def.run.Some? then (st, Failure(PolicyDenied))
    else Activate(st, id, now)
  }

  // ------------------------------------------------------ revocation, consumption

  function Revoke(st: Store, scope: Scope, id: nat, reason: string, now: int): (Store, Result<Lease, Error>) {
    if !Visible(st, scope, id) then (st, Failure(PolicyDenied))
    else if !Edge(st.leases[id].status, Revoked) then (st, Failure(VersionConflict))
    else
      var lease := RevokedLease(st.leases[id], reason, now);
      (st.(leases := st.leases[id := lease], journal := st.journal + [LeaseRevoked(id, reason)]), Success(lease))
  }

  function Consume(st: Store, scope: Scope, id: nat, now: int): (Store, Result<Lease, Error>) {
    if !Visible(st, scope, id) then (st, Failure(PolicyDenied))
    else if !Edge(st.leases[id].status, Consumed) then (st, Failure(VersionConflict))
    else
      var lease := Moved(st.leases[id], Consumed, now);
      (st.(leases := st.leases[id := lease], journal := st.journal + [LeaseConsumed(id)]), Success(lease))
  }

  function ConsumeEvents(ids: seq<nat>): seq<Event> {
    seq(|ids|, i requires 0 <= i < |ids| => LeaseConsumed(ids[i]))
  }

  /** `consume_all_for_run`: every ACTIVE lease of the run, and no other. */
  function ConsumeAll(st: Store, ref: RunRef, now: int): (Store, seq<nat>) {
    var ids := IdsFor(st.leases, ref, {Active});
    (st.(
      leases := seq(|st.leases|, i requires 0 <= i < |st.leases| =>
        if BoundIn(st.leases[i], ref, {Active}) then Moved(st.leases[i], Consumed, now) else st.leases[i]),
      journal := st.journal + ConsumeEvents(ids)),
    ids)
  }
}
