/** What each lease operation answers and writes, said on the rows themselves: which rows are read, which
    one changes, and to what. */
module LeaseLaws {
  import opened Wrappers
  import opened CommandLedger
  import opened LeaseProtocol
  import opened LeaseHistory
  import Catalog = CapabilityCatalog

  // ------------------------------------------------------------ activation

  predicate Usable(l: Lease, now: int) { (l.status == Granted || l.status == Active) && now < l.expiresAt }

  predicate Overdue(l: Lease, now: int) { (l.status == Granted || l.status == Active) && l.expiresAt <= now }

  /** What an admitted lease looks like: the same row, ACTIVE, stamped when that is a change. */
  function ActiveLease(l: Lease, now: int): Lease {
    if l.status == Granted then l.(status := Active, updatedAt := now) else l
  }

  /** The answer to an activation of row `id`, and what it leaves in the tables: a usable lease comes out
      ACTIVE, an overdue one is written EXPIRED and refused, any other is refused, and no other row or
      table changes but the journal. */
  ghost predicate Activated(st: Store, id: nat, now: int, after: Store, r: Result<Lease, Error>)
    requires id < |st.leases|
  {
    var l := st.leases[id];
    && after.catalog == st.catalog && after.ledger == st.ledger
    && (if Usable(l, now) then r == Success(ActiveLease(l, now)) else r == Failure(PolicyDenied))
    && after.leases == (
      if Usable(l, now) then st.leases[id := ActiveLease(l, now)]
      else if Overdue(l, now) then st.leases[id := l.(status := Expired, updatedAt := now)]
      else st.leases)
    && after.journal == st.journal + (
      if Usable(l, now) && l.status == Granted then [LeaseActivated(id)]
      else if Overdue(l, now) then [LeaseTransitioned(id, l.status, Expired)]
      else [])
  }

  lemma ActivateMeans(st: Store, id: nat, now: int)
    requires id < |st.leases|
    ensures Activated(st, id, now, Activate(st, id, now).0, Activate(st, id, now).1)
  {
  }

  /** The by-id checkout looks at one row and asks four things of it: the caller's scope, the capability
      asked for, no worker run, and that it is held and unexpired. It succeeds exactly then and returns that
      very row, ACTIVE. */
  lemma CheckoutByIdAnswers(st: Store, scope: Scope, id: nat, capability: string, now: int)
    ensures var (after, r) := CheckoutById(st, scope, id, capability, now);
      && (r.Success? <==>
        && id < |st.leases| && st.leases[id].def.scope == scope && st.leases[id].def.capability == capability
        && st.leases[id].def.run.None? && Usable(st.leases[id], now))
      && (if id < |st.leases| && st.leases[id].def.scope == scope && st.leases[id].def.capability == capability && st.leases[id].def.run.None?
          then Activated(st, id, now, after, r)
          else after == st && r == Failure(PolicyDenied))
  {
    if id < |st.leases| { ActivateMeans(st, id, now); }
  }

  /** Row `id` is the newest of the run's leases for the capability. */
  predicate IsNewest(st: Store, id: nat, ref: RunRef, capability: string) {
    && id < |st.leases| && OfRun(st.leases[id], ref, capability)
    && forall k | id < k < |st.leases| :: !OfRun(st.leases[k], ref, capability)
  }

  predicate OfRun(l: Lease, ref: RunRef, capability: string) {
    l.def.scope == ref.scope && l.def.run == Some(ref.run) && l.def.capability == capability
  }

  /** The run has an armed stop row in its own project, or this process remembers the flag. */
  predicate StopKnown(st: Store, killed: set<RunRef>, ref: RunRef) {
    ref in killed ||
    var k := LedgerKey(ref.scope.tenant, StopKey(ref.run));
    k in st.ledger && st.ledger[k].project == ref.scope.project && st.ledger[k].result.StopRecord? && st.ledger[k].result.armed
  }

  /** The worker-run checkout of a run that is not stopped looks at the newest lease of the run for the
      capability and at no other: its answer is that row's, with that capability, and nothing matches means
      a refusal without a change. */
  lemma CheckoutAnswers(st: Store, killed: set<RunRef>, ref: RunRef, capability: string, now: int, id: nat)
    ensures var (after, r) := Checkout(st, killed, ref, capability, now);
      && (StopKnown(st, killed, ref) ==> r == Failure(KillFlagActive))
      && (!StopKnown(st, killed, ref) && IsNewest(st, id, ref, capability) ==> Activated(st, id, now, after, r))
      && (!StopKnown(st, killed, ref) && (forall k | 0 <= k < |st.leases| :: !OfRun(st.leases[k], ref, capability)) ==>
        after == st && r == Failure(PolicyDenied))
      && (r.Success? ==> r.value.def.capability == capability && r.value.def.run == Some(ref.run) && r.value.def.scope == ref.scope)
  {
    var newest := Newest(st.leases, ref, capability);
    forall k | 0 <= k < |st.leases| ensures Matches(st.leases[k], ref, capability) <==> OfRun(st.leases[k], ref, capability) {}
    if newest.Some? {
      ActivateMeans(st, newest.value, now);
      if IsNewest(st, id, ref, capability) { assert !(id < newest.value) && !(newest.value < id); }
    }
  }

  /** The stopped checkout: the held leases of the run are revoked with the kill-flag reason, each row
      otherwise as it was, and nothing else in the tables changes. */
  lemma StoppedCheckoutWrites(st: Store, killed: set<RunRef>, ref: RunRef, capability: string, now: int)
    requires StopKnown(st, killed, ref)
    ensures var after := Checkout(st, killed, ref, capability, now).0;
      && after.catalog == st.catalog && after.ledger == st.ledger && |after.leases| == |st.leases|
      && forall k | 0 <= k < |st.leases| :: after.leases[k] == SweptRow(st.leases[k], ref, now)
  {
    forall k | 0 <= k < |st.leases| ensures Swept(st.leases, ref, now)[k] == SweptRow(st.leases[k], ref, now) {}
  }

  function SweptRow(l: Lease, ref: RunRef, now: int): Lease {
    if l.def.scope == ref.scope && l.def.run == Some(ref.run) && (l.status == Granted || l.status == Active)
    then l.(status := Revoked, revokedAt := Some(now), revocationReason := Some("kill_flag"), updatedAt := now) else l
  }

  // ------------------------------------------------------------ requests

  /** Some ACTIVE row of the capability, of the version and CERTIFIED. */
  predicate Offered(c: Catalog.Catalog, capability: string, version: string) {
    exists i | 0 <= i < |c| :: Offers(c[i], capability, version)
  }

  predicate Offers(d: Catalog.Descriptor, capability: string, version: string) {
    d.lifecycle == Catalog.Active && d.def.capability == capability && d.def.version == version && d.certification == Catalog.Certified
  }

  predicate OneActive(c: Catalog.Catalog, i: nat, capability: string) {
    i < |c| && c[i].lifecycle == Catalog.Active && c[i].def.capability == capability
  }

  /** The reason of a denial: no ACTIVE row, an ACTIVE row of another version, or one not CERTIFIED. */
  ghost predicate RightReason(c: Catalog.Catalog, capability: string, version: string, reason: DenialReason) {
    match reason
    case NoActiveDescriptor => forall i | 0 <= i < |c| :: !OneActive(c, i, capability)
    case ActiveVersionIs(v) => v != version && exists i: nat :: OneActive(c, i, capability) && c[i].def.version == v
    case NotCertified => exists i: nat :: OneActive(c, i, capability) && c[i].def.version == version && c[i].certification != Catalog.Certified
    case NotActive => false
  }

  lemma EvaluateMeans(c: Catalog.Catalog, capability: string, version: string)
    requires Catalog.Valid(c)
    ensures Evaluate(c, capability, version).None? <==> Offered(c, capability, version)
    ensures Evaluate(c, capability, version).Some? ==> RightReason(c, capability, version, Evaluate(c, capability, version).value)
  {
    var active := Catalog.FindActive(c, capability);
    if active.Some? {
      var i := active.value;
      assert OneActive(c, i, capability);
      forall j | 0 <= j < |c| && Catalog.IsActive(c[j], capability) ensures j == i { assert Catalog.IsActive(c[j], c[i].def.capability); }
      if Offers(c[i], capability, version) { assert Offered(c, capability, version); }
    }
  }

  /** A request under a key nobody has used is answered by the catalogue: GRANTED exactly when an ACTIVE row
      of the capability has the requested version and is CERTIFIED, otherwise DENIED with the right reason.
      The row carries what was asked, and only it, its ledger row and its three events are added. */
  lemma RequestAnswers(st: Store, def: LeaseDefinition, requester: string, key: string, ttl: int, now: int)
    requires Catalog.Valid(st.catalog) && LedgerKey(def.scope.tenant, key) !in st.ledger
    ensures var (after, r) := Request(st, def, requester, key, ttl, now);
      && r.Success?
      && var l := r.value; var granted := Offered(st.catalog, def.capability, def.version);
      && l == Lease(|st.leases|, def, requester, now, now + ttl, if granted then Granted else Denied, l.deniedReason, None, None, now)
      && (granted <==> l.deniedReason.None?)
      && (!granted ==> RightReason(st.catalog, def.capability, def.version, l.deniedReason.value))
      && after.catalog == st.catalog && after.leases == st.leases + [l]
      && after.ledger == st.ledger[LedgerKey(def.scope.tenant, key) :=
        LedgerRow(def.scope.project, OfLease(def), Completed, LeaseRecord(l), now + 30 * 24 * 60 * 60)]
      && after.journal == st.journal + [LeaseRequested(l.id), LeaseEvaluating(l.id),
        if granted then LeaseGranted(l.id) else LeaseDenied(l.id, l.deniedReason.value)]
  {
    EvaluateMeans(st.catalog, def.capability, def.version);
  }

  /** A request under a used key changes nothing. It is answered with the recorded lease exactly when the row
      is this project's, unexpired, of the same request and finished with a lease. */
  lemma RepeatedRequestAnswers(st: Store, def: LeaseDefinition, requester: string, key: string, ttl: int, now: int)
    requires LedgerKey(def.scope.tenant, key) in st.ledger
    ensures var row := st.ledger[LedgerKey(def.scope.tenant, key)];
      var (after, r) := Request(st, def, requester, key, ttl, now);
      && after == st
      && (if row.project == def.scope.project && now < row.expiresAt && row.hash == OfLease(def) && row.status == Completed && row.result.LeaseRecord?
          then r == Success(row.result.lease) else r == Failure(VersionConflict))
  {
  }

  // ------------------------------------------------------------ endings

  /** A revocation succeeds exactly on a held lease of the caller's scope, and writes the status, the reason
      and the time to that row alone. */
  lemma RevokeAnswers(st: Store, scope: Scope, id: nat, reason: string, now: int)
    ensures var (after, r) := Revoke(st, scope, id, reason, now);
      && (if id < |st.leases| && st.leases[id].def.scope == scope && (st.leases[id].status == Granted || st.leases[id].status == Active)
          then
            var l := st.leases[id].(status := Revoked, revokedAt := Some(now), revocationReason := Some(reason), updatedAt := now);
            r == Success(l) && after == st.(leases := st.leases[id := l], journal := st.journal + [LeaseRevoked(id, reason)])
          else after == st && r == Failure(if id < |st.leases| && st.leases[id].def.scope == scope then VersionConflict else PolicyDenied))
  {
  }

  /** The same for a consumption of an ACTIVE lease. */
  lemma ConsumeAnswers(st: Store, scope: Scope, id: nat, now: int)
    ensures var (after, r) := Consume(st, scope, id, now);
      && (if id < |st.leases| && st.leases[id].def.scope == scope && st.leases[id].status == Active
          then
            var l := st.leases[id].(status := Consumed, updatedAt := now);
            r == Success(l) && after == st.(leases := st.leases[id := l], journal := st.journal + [LeaseConsumed(id)])
          else after == st && r == Failure(if id < |st.leases| && st.leases[id].def.scope == scope then VersionConflict else PolicyDenied))
  {
  }

  predicate InUse(l: Lease, ref: RunRef) { l.def.scope == ref.scope && l.def.run == Some(ref.run) && l.status == Active }

  /** Consuming a run's leases consumes exactly the ACTIVE ones and reports their ids in order. */
  lemma ConsumeAllAnswers(st: Store, ref: RunRef, now: int)
    ensures var (after, ids) := ConsumeAll(st, ref, now);
      && after.catalog == st.catalog && after.ledger == st.ledger && |after.leases| == |st.leases|
      && (forall k :: k in ids <==> 0 <= k < |st.leases| && InUse(st.leases[k], ref))
      && (forall i, j | 0 <= i < j < |ids| :: ids[i] < ids[j])
      && (forall k | 0 <= k < |st.leases| ::
        after.leases[k] == if k in ids then st.leases[k].(status := Consumed, updatedAt := now) else st.leases[k])
      && |after.journal| == |st.journal| + |ids|
      && forall i | 0 <= i < |ids| :: after.journal[|st.journal| + i] == LeaseConsumed(ids[i])
  {
  }

  // ------------------------------------------------------------ run stops

  /** Writing a run's stop row: accepted on a free key or this project's unexpired row of that run, and then
      only that row changes: finished, with the flag and the reason, expiring thirty days after it was first
      written. */
  lemma RunStopWritten(ledger: Ledger, scope: Scope, run: string, armed: bool, reason: string, now: int)
    ensures var k := LedgerKey(scope.tenant, "kill_flag_run_stop:" + run);
      var r := RecordRunStop(ledger, scope, run, armed, reason, now);
      var free := k !in ledger;
      if free || (ledger[k].project == scope.project && now < ledger[k].expiresAt && ledger[k].hash == OfRunStop(run))
      then r == Success(ledger[k := LedgerRow(scope.project, OfRunStop(run), Completed, StopRecord(armed, reason),
                                              if free then now + 30 * 24 * 60 * 60 else ledger[k].expiresAt)])
      else r == Failure(VersionConflict)
  {
  }

  /** Arming and disarming in terms of that row: an accepted arm also sweeps the run's held leases, a disarm
      touches no lease, and a refused one changes no table. */
  lemma ArmAndDisarmWrite(st: Store, ref: RunRef, reason: string, now: int)
    ensures var written := RecordRunStop(st.ledger, ref.scope, ref.run, true, "kill_flag", now);
      var (after, r) := Arm(st, ref, now);
      && (written.Failure? ==> after == st && r.Failure?)
      && (written.Success? ==>
        && r.Success? && after.catalog == st.catalog && after.ledger == written.value && |after.leases| == |st.leases|
        && (forall k | 0 <= k < |st.leases| :: after.leases[k] == SweptRow(st.leases[k], ref, now))
        && (forall k :: k in r.value <==> 0 <= k < |st.leases| && SweptRow(st.leases[k], ref, now) != st.leases[k]))
    ensures var written := RecordRunStop(st.ledger, ref.scope, ref.run, false, reason, now);
      var (after, r) := Disarm(st, ref, reason, now);
      if written.Success? then after == st.(ledger := written.value) && r.Success? else after == st && r.Failure?
  {
    forall k | 0 <= k < |st.leases| ensures Swept(st.leases, ref, now)[k] == SweptRow(st.leases[k], ref, now) {}
    forall k: nat | k < |st.leases| ensures HeldBy(st.leases[k], ref) <==> SweptRow(st.leases[k], ref, now) != st.leases[k] {}
  }
}
