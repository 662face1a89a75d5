/** The invariant of the lease tables over every run from an empty database, and the
    two results that need it: grants are sound across supersession, and a repeated
    request is a pure replay of the first answer. */
module LeaseGrants {
  import opened Wrappers
  import opened CommandLedger
  import opened LeaseProtocol
  import opened LeaseRuns
  import opened LeaseHistory
  import Catalog = CapabilityCatalog

  // ------------------------------------------------------------ journal refines

  lemma HistoryOfOthers(events: seq<Event>, k: nat)
    requires events != [] && !About(events[|events|-1], k)
    ensures History(events, k) == History(events[..|events|-1], k)
  {
  }

  lemma HistoryOfOwn(events: seq<Event>, k: nat)
    requires events != [] && About(events[|events|-1], k)
    ensures History(events, k) == History(events[..|events|-1], k) + [Announced(events[|events|-1])]
  {
  }

  /** The part of the journal that moves leases. */
  lemma {:induction false} MovesHistory(ids: seq<nat>, to: LeaseStatus, events: seq<Event>, k: nat)
    requires Distinct(ids) && |ids| == |events|
    requires forall i | 0 <= i < |ids| :: About(events[i], ids[i]) && Announced(events[i]) == to
    ensures History(events, k) == if k in ids then [to] else []
    decreases |events|
  {
    if events != [] {
      var n := |events| - 1;
      var before := ids[..n];
      MovesHistory(before, to, events[..n], k);
      assert ids == before + [ids[n]] && ids[n] !in before;
      if ids[n] == k { HistoryOfOwn(events, k); } else { HistoryOfOthers(events, k); }
    }
  }

  /** With the events about runs that may follow it. */
  lemma {:induction false} EventsHistory(ids: seq<nat>, to: LeaseStatus, events: seq<Event>, k: nat)
    requires Distinct(ids) && |ids| <= |events|
    requires forall i | 0 <= i < |ids| :: About(events[i], ids[i]) && Announced(events[i]) == to
    requires forall i | |ids| <= i < |events| :: events[i].KillFlagEnforced? || events[i].RunStopArmed?
    ensures History(events, k) == if k in ids then [to] else []
    decreases |events|
  {
    if |ids| == |events| {
      MovesHistory(ids, to, events, k);
    } else {
      HistoryOfOthers(events, k);
      EventsHistory(ids, to, events[..|events|-1], k);
    }
  }

  lemma MovesKeepJournal(a: Store, b: Store)
    requires JournalAgrees(a) && MovesSomehow(a, b)
    ensures JournalAgrees(b)
  {
    var ids: seq<nat>, to: LeaseStatus, events: seq<Event> :| Moves(a, b, ids, to, events);
    forall k: nat ensures History(b.journal, k) == History(a.journal, k) + (if k in ids then [to] else []) {
      HistoryConcat(a.journal, events, k);
      EventsHistory(ids, to, events, k);
    }
    forall k | 0 <= k < |b.leases| ensures LegalPath(History(b.journal, k)) && var h := History(b.journal, k); h[|h|-1] == b.leases[k].status {
      assert LegalPath(History(a.journal, k));
    }
    forall k | |b.leases| <= k ensures History(b.journal, k) == [] {
      assert k !in ids;
    }
  }

  lemma IssueHistory(id: nat, verdict: Event, k: nat)
    requires About(verdict, id)
    ensures History([LeaseRequested(id), LeaseEvaluating(id), verdict], k) ==
            if k == id then [Requested, Evaluating, Announced(verdict)] else []
  {
    var events := [LeaseRequested(id), LeaseEvaluating(id), verdict];
    assert events[..2] == [LeaseRequested(id), LeaseEvaluating(id)];
    assert events[..2][..1] == [LeaseRequested(id)];
    assert History([LeaseRequested(id)], k) == if k == id then [Requested] else [];
    assert History(events[..2], k) == if k == id then [Requested, Evaluating] else [];
  }

  lemma AppendKeepsJournal(st: Store, st': Store, l: Lease, verdict: Event)
    requires JournalAgrees(st)
    requires l.id == |st.leases| && About(verdict, l.id) && Announced(verdict) == l.status && Edge(Evaluating, l.status)
    requires st'.leases == st.leases + [l]
    requires st'.journal == st.journal + [LeaseRequested(l.id), LeaseEvaluating(l.id), verdict]
    ensures JournalAgrees(st')
  {
    forall k: nat ensures History(st'.journal, k) ==
      History(st.journal, k) + (if k == l.id then [Requested, Evaluating, l.status] else [])
    {
      HistoryConcat(st.journal, [LeaseRequested(l.id), LeaseEvaluating(l.id), verdict], k);
      IssueHistory(l.id, verdict, k);
    }
    forall k | 0 <= k < |st'.leases| ensures LegalPath(History(st'.journal, k)) {
      assert k < |st.leases| ==> LegalPath(History(st.journal, k));
    }
  }

  lemma RequestKeepsJournal(st: Store, def: LeaseDefinition, requester: string, key: string, ttl: int, now: int)
    requires JournalAgrees(st)
    ensures JournalAgrees(Request(st, def, requester, key, ttl, now).0)
  {
    var st' := Request(st, def, requester, key, ttl, now).0;
    if st' != st {
      var l := IssuedLease(st, def, requester, ttl, now);
      AppendKeepsJournal(st, st', l,
        if l.status == Denied then LeaseDenied(l.id, l.deniedReason.value) else LeaseGranted(l.id));
    }
  }

  // ---------------------------------------------------------------- invariant

  predicate CertifiedVersion(d: Catalog.Descriptor, capability: string, version: string) {
    Catalog.IsVersion(d, capability, version) && d.certification == Catalog.Certified
  }

  ghost predicate Backed(c: Catalog.Catalog, capability: string, version: string) {
    exists i | 0 <= i < |c| :: CertifiedVersion(c[i], capability, version)
  }

  /** Every lease that was ever granted names a version the catalogue certified. */
  ghost predicate GrantsBacked(st: Store) {
    forall k | 0 <= k < |st.leases| && st.leases[k].status != Denied ::
      Backed(st.catalog, st.leases[k].def.capability, st.leases[k].def.version)
  }

  ghost predicate RowAgrees(k: LedgerKey, row: LedgerRow, leases: seq<Lease>) {
    && row.status == Completed
    && match row.hash
       case OfLease(def) =>
         && k.tenant == def.scope.tenant && row.project == def.scope.project
         && row.result.LeaseRecord?
         && var l := row.result.lease;
            l.def == def && l.id < |leases| && leases[l.id].def == def && (l.status == Granted || l.status == Denied)
       case OfRunStop(run) => k.key == StopKey(run) && row.result.StopRecord?
  }

  ghost predicate LedgerAgrees(st: Store) {
    forall k | k in st.ledger :: RowAgrees(k, st.ledger[k], st.leases)
  }

  ghost predicate Inv(st: Store) {
    && Catalog.Valid(st.catalog)
    && TableWellFormed(st)
    && JournalAgrees(st)
    && GrantsBacked(st)
    && LedgerAgrees(st)
  }

  lemma CatalogOnlyExtends(st: Store, killed: set<RunRef>, now: int, op: Op)
    requires Catalog.Valid(st.catalog)
    ensures var c := StoreStep(st, killed, now, op).0.catalog; Catalog.Valid(c) && Catalog.Extends(st.catalog, c)
  {
    match op
    case DoRegister(d, cert) => Catalog.RegisterKeepsValid(st.catalog, d, cert, now);
    case DoMoveDescriptor(id, target) => Catalog.MoveKeepsValid(st.catalog, id, target, now);
    case _ => OthersLeaveCatalog(st, killed, now, op);
  }

  lemma OthersLeaveCatalog(st: Store, killed: set<RunRef>, now: int, op: Op)
    requires !op.DoRegister? && !op.DoMoveDescriptor?
    ensures StoreStep(st, killed, now, op).0.catalog == st.catalog
  {
  }

  lemma BackedStays(c: Catalog.Catalog, c': Catalog.Catalog, capability: string, version: string)
    requires Catalog.Extends(c, c') && Backed(c, capability, version)
    ensures Backed(c', capability, version)
  {
    var i :| 0 <= i < |c| && CertifiedVersion(c[i], capability, version);
    assert CertifiedVersion(c'[i], capability, version);
  }

  /** A denial is final and a granted lease stays a lease that was granted. */
  lemma MovesKeepGrants(a: Store, b: Store)
    requires MovesSomehow(a, b) && GrantsBacked(a) && Catalog.Extends(a.catalog, b.catalog)
    ensures GrantsBacked(b)
  {
    MovesProgress(a, b);
    forall k | 0 <= k < |b.leases| && b.leases[k].status != Denied
      ensures Backed(b.catalog, b.leases[k].def.capability, b.leases[k].def.version)
    {
      BackedStays(a.catalog, b.catalog, a.leases[k].def.capability, a.leases[k].def.version);
    }
  }

  lemma RecordKeepsLedger(st: Store, leases: seq<Lease>, scope: Scope, run: string, armed: bool, reason: string, now: int)
    requires LedgerAgrees(st) && Progress(st.leases, leases)
    requires RecordRunStop(st.ledger, scope, run, armed, reason, now).Success?
    ensures LedgerAgrees(st.(leases := leases, ledger := RecordRunStop(st.ledger, scope, run, armed, reason, now).value))
  {
    var ledger' := RecordRunStop(st.ledger, scope, run, armed, reason, now).value;
    forall k | k in ledger' ensures RowAgrees(k, ledger'[k], leases) {
      if k != KeyIn(scope, StopKey(run)) { assert RowAgrees(k, st.ledger[k], st.leases); }
    }
  }

  lemma RequestKeepsLedger(st: Store, def: LeaseDefinition, requester: string, key: string, ttl: int, now: int)
    requires LedgerAgrees(st)
    ensures LedgerAgrees(Request(st, def, requester, key, ttl, now).0)
  {
    var st' := Request(st, def, requester, key, ttl, now).0;
    forall k | k in st'.ledger ensures RowAgrees(k, st'.ledger[k], st'.leases) {
      if k in st.ledger { assert RowAgrees(k, st.ledger[k], st.leases); }
    }
  }

  lemma ProgressKeepsLedger(st: Store, st': Store)
    requires LedgerAgrees(st) && Progress(st.leases, st'.leases) && st'.ledger == st.ledger
    ensures LedgerAgrees(st')
  {
    forall k | k in st'.ledger ensures RowAgrees(k, st'.ledger[k], st'.leases) {
      assert RowAgrees(k, st.ledger[k], st.leases);
    }
  }

  lemma StepKeepsLedger(st: Store, killed: set<RunRef>, now: int, op: Op)
    requires LedgerAgrees(st)
    ensures LedgerAgrees(StoreStep(st, killed, now, op).0)
  {
    var st' := StoreStep(st, killed, now, op).0;
    StepProgress(st, killed, now, op);
    if op.DoRequest? {
      RequestKeepsLedger(st, op.def, op.requester, op.key, op.ttl, now);
    } else if st'.ledger == st.ledger {
      ProgressKeepsLedger(st, st');
    } else if op.DoArm? {
      RecordKeepsLedger(st, st'.leases, op.ref.scope, op.ref.run, true, KILL_FLAG_REASON, now);
    } else {
      assert op.DoDisarm?;
      RecordKeepsLedger(st, st'.leases, op.ref.scope, op.ref.run, false, op.reason, now);
    }
  }

  lemma StepKeepsInv(st: Store, killed: set<RunRef>, now: int, op: Op)
    requires Inv(st)
    ensures Inv(StoreStep(st, killed, now, op).0)
  {
    var st' := StoreStep(st, killed, now, op).0;
    CatalogOnlyExtends(st, killed, now, op);
    StepKeepsLedger(st, killed, now, op);
    if op.DoRequest? {
      RequestKeepsJournal(st, op.def, op.requester, op.key, op.ttl, now);
      RequestKeepsGrants(st, op.def, op.requester, op.key, op.ttl, now);
    } else {
      StepMoves(st, killed, now, op);
      MovesProgress(st, st');
      MovesKeepJournal(st, st');
      MovesKeepGrants(st, st');
    }
  }

  /** Every state any run reaches from an empty database satisfies the invariant. */
  lemma {:induction false} ReachableInv(caches: map<string, set<RunRef>>, calls: seq<Call>)
    ensures Inv(After(World(Store([], [], map[], []), caches), calls).store)
    decreases |calls|
  {
    var w0 := World(Store([], [], map[], []), caches);
    if calls != [] {
      var n := |calls| - 1;
      ReachableInv(caches, calls[..n]);
      var mid := After(w0, calls[..n]);
      StepKeepsInv(mid.store, CacheOf(mid, calls[n].process), calls[n].now, calls[n].op);
    }
  }

  // ----------------------------------------------------------- grant soundness

  /** A request is granted exactly when some ACTIVE row of the capability has the requested
      version and is CERTIFIED, and that row is the only ACTIVE one. */
  lemma GrantSoundness(c: Catalog.Catalog, capability: string, version: string)
    requires Catalog.Valid(c)
    ensures Evaluate(c, capability, version).None? <==>
      exists i | 0 <= i < |c| :: Catalog.IsActive(c[i], capability) && CertifiedVersion(c[i], capability, version)
    ensures Evaluate(c, capability, version).None? ==>
      forall i | 0 <= i < |c| && Catalog.IsActive(c[i], capability) :: CertifiedVersion(c[i], capability, version)
  {
    var f := Catalog.FindActive(c, capability);
    forall i | 0 <= i < |c| && Catalog.IsActive(c[i], capability) ensures f == Some(i) {
      assert f.Some?;
      assert Catalog.IsActive(c[i], c[f.value].def.capability);
    }
  }

  lemma RequestKeepsGrants(st: Store, def: LeaseDefinition, requester: string, key: string, ttl: int, now: int)
    requires Catalog.Valid(st.catalog) && GrantsBacked(st)
    ensures GrantsBacked(Request(st, def, requester, key, ttl, now).0)
  {
    var st' := Request(st, def, requester, key, ttl, now).0;
    GrantSoundness(st.catalog, def.capability, def.version);
    forall k | 0 <= k < |st'.leases| && st'.leases[k].status != Denied
      ensures Backed(st'.catalog, st'.leases[k].def.capability, st'.leases[k].def.version)
    {
      if k < |st.leases| { assert st'.leases[k] == st.leases[k]; }
    }
  }

  // -------------------------------------------------------------------- replay

  /** Nothing but its own request ever writes a lease row of the ledger. */
  lemma LeaseRowStays(st: Store, killed: set<RunRef>, now: int, op: Op, k: LedgerKey)
    requires k in st.ledger && st.ledger[k].hash.OfLease?
    ensures var ledger := StoreStep(st, killed, now, op).0.ledger; k in ledger && ledger[k] == st.ledger[k]
  {}

  lemma {:induction false} LeaseRowStaysInRuns(w: World, calls: seq<Call>, k: LedgerKey)
    requires k in w.store.ledger && w.store.ledger[k].hash.OfLease?
    ensures var ledger := After(w, calls).store.ledger; k in ledger && ledger[k] == w.store.ledger[k]
    decreases |calls|
  {
    if calls != [] {
      var n := |calls| - 1;
      LeaseRowStaysInRuns(w, calls[..n], k);
      var mid := After(w, calls[..n]);
      LeaseRowStays(mid.store, CacheOf(mid, calls[n].process), calls[n].now, calls[n].op, k);
    }
  }

  /** IDEMPOTENT REQUESTS. Once a request under a new key was answered, repeating it after any
      other calls returns that first answer and changes nothing while the key is retained, and
      is refused without any change once it has expired. */
  lemma ReplayReturnsFirstAnswer(w: World, first: Call, calls: seq<Call>, again: Call)
    requires first.op.DoRequest? && again.op.DoRequest?
    requires again.op.def == first.op.def && again.op.key == first.op.key
    requires KeyIn(first.op.def.scope, first.op.key) !in w.store.ledger
    ensures var w1 := After(Exec(w, first).0, calls);
      && Exec(w1, again).0.store == w1.store
      && Exec(w1, again).1 ==
           (if again.now < first.now + RETENTION then Exec(w, first).1 else Refused(VersionConflict))
  {
    var k := KeyIn(first.op.def.scope, first.op.key);
    var w0 := Exec(w, first).0;
    assert w0.store.ledger[k].hash == OfLease(first.op.def);
    LeaseRowStaysInRuns(w0, calls, k);
  }

  /** A lease request that uses a run's stop key takes it for good: from then on, in every continuation,
      no process can arm or disarm that run in any project of the tenant, and the run is never durably
      stopped. */
  lemma RequestUnderStopKeyBlocksTheStop(w: World, first: Call, calls: seq<Call>, later: Call, ref: RunRef)
    requires first.op.DoRequest? && first.op.key == StopKey(ref.run) && first.op.def.scope.tenant == ref.scope.tenant
    requires KeyIn(first.op.def.scope, first.op.key) !in w.store.ledger
    ensures var w1 := After(Exec(w, first).0, calls);
      && !Stopped(w1.store, ref)
      && ((later.op.DoArm? || later.op.DoDisarm?) && later.op.ref == ref ==> Exec(w1, later).1 == Refused(VersionConflict))
  {
    var k := KeyIn(ref.scope, StopKey(ref.run));
    var w0 := Exec(w, first).0;
    assert w0.store.ledger[k].hash == OfLease(first.op.def) && w0.store.ledger[k].result.LeaseRecord?;
    LeaseRowStaysInRuns(w0, calls, k);
  }
}
