/** Whole runs of the lease protocol: any number of processes, each with its own kill-flag
    cache, interleave atomic calls on the shared tables and may restart at any time. */
module LeaseRuns {
  import opened Wrappers
  import opened CommandLedger
  import opened LeaseProtocol
  import Catalog = CapabilityCatalog

  datatype Op =
    | DoRequest(def: LeaseDefinition, requester: string, key: string, ttl: int)
    | DoArm(ref: RunRef)
    | DoDisarm(ref: RunRef, reason: string)
    | DoCheckout(ref: RunRef, capability: string)
    | DoCheckoutById(scope: Scope, id: nat, capability: string)
    | DoRevoke(scope: Scope, id: nat, reason: string)
    | DoConsume(scope: Scope, id: nat)
    | DoConsumeAll(ref: RunRef)
    | DoRegister(descriptor: Catalog.Definition, certification: Catalog.Certification)
    | DoMoveDescriptor(id: nat, target: Catalog.Lifecycle)
    | DoRestart

  /** One call: the process that makes it, the clock it reads, and what it asks for. */
  datatype Call = Call(process: string, now: int, op: Op)

  datatype Outcome = CheckedOut(lease: Lease) | Replied(lease: Lease) | Refused(error: Error) | Done

  datatype World = World(store: Store, caches: map<string, set<RunRef>>)

  function CacheOf(w: World, process: string): set<RunRef> {
    if process in w.caches then w.caches[process] else {}
  }

  function Reply(r: Result<Lease, Error>): Outcome {
    match r case Success(l) => Replied(l) case Failure(e) => Refused(e)
  }

  function Admission(r: Result<Lease, Error>): Outcome {
    match r case Success(l) => CheckedOut(l) case Failure(e) => Refused(e)
  }

  /** The tables and the caller's answer after one call made with `killed` in memory. */
  function StoreStep(st: Store, killed: set<RunRef>, now: int, op: Op): (Store, Outcome) {
    match op
    case DoRequest(def, requester, key, ttl) =>
      var (st', r) := Request(st, def, requester, key, ttl, now); (st', Reply(r))
    case DoArm(ref) =>
      var (st', r) := Arm(st, ref, now); (st', if r.Success? then Done else Refused(r.error))
    case DoDisarm(ref, reason) =>
      var (st', r) := Disarm(st, ref, reason, now); (st', if r.Success? then Done else Refused(r.error))
    case DoCheckout(ref, capability) =>
      var (st', r) := Checkout(st, killed, ref, capability, now); (st', Admission(r))
    case DoCheckoutById(scope, id, capability) =>
      var (st', r) := CheckoutById(st, scope, id, capability, now); (st', Admission(r))
    case DoRevoke(scope, id, reason) =>
      var (st', r) := Revoke(st, scope, id, reason, now); (st', Reply(r))
    case DoConsume(scope, id) =>
      var (st', r) := Consume(st, scope, id, now); (st', Reply(r))
    case DoConsumeAll(ref) => (ConsumeAll(st, ref, now).0, Done)
    case DoRegister(d, cert) => (st.(catalog := Catalog.Register(st.catalog, d, cert, now).0), Done)
    case DoMoveDescriptor(id, target) => (st.(catalog := Catalog.MoveLifecycle(st.catalog, id, target, now).0), Done)
    case DoRestart => (st, Done)
  }

  /** The caller's kill-flag memory after the call. Arming sets and disarming drops the
      flag before the durable row is written, whether or not that write succeeds. */
  function CacheStep(killed: set<RunRef>, op: Op): set<RunRef> {
    match op
    case DoArm(ref) => killed + {ref}
    case DoDisarm(ref, _) => killed - {ref}
    case DoRestart => {}
    case _ => killed
  }

  function Exec(w: World, c: Call): (World, Outcome) {
    var killed := CacheOf(w, c.process);
    var (st', out) := StoreStep(w.store, killed, c.now, c.op);
    (World(st', w.caches[c.process := CacheStep(killed, c.op)]), out)
  }

  function After(w: World, calls: seq<Call>): World {
    if calls == [] then w else Exec(After(w, calls[..|calls|-1]), calls[|calls|-1]).0
  }

  /** The answer to the i-th call of a run. */
  function OutcomeAt(w: World, calls: seq<Call>, i: nat): Outcome
    requires i < |calls|
  {
    Exec(After(w, calls[..i]), calls[i]).1
  }

  // --------------------------------------------------------------- stop safety

  predicate Stopped(st: Store, ref: RunRef) { DurablyStopped(st.ledger, ref.scope, ref.run) }

  /** A disarm of this very run that the ledger accepted. */
  predicate Disarms(w: World, c: Call, ref: RunRef) {
    c.op.DoDisarm? && c.op.ref == ref && Exec(w, c).1 == Done
  }

  /** An admitted checkout of a lease that belongs to the run. */
  predicate AdmitsRun(out: Outcome, ref: RunRef) { out.CheckedOut? && BoundTo(out.lease, ref) }

  lemma RecordKeepsOtherStops(ledger: Ledger, scope: Scope, run: string, armed: bool, reason: string, now: int, ref: RunRef)
    requires DurablyStopped(ledger, ref.scope, ref.run)
    requires RecordRunStop(ledger, scope, run, armed, reason, now).Success?
    ensures DurablyStopped(RecordRunStop(ledger, scope, run, armed, reason, now).value, ref.scope, ref.run) <==>
            (scope == ref.scope && run == ref.run ==> armed)
  {
    if scope.tenant == ref.scope.tenant && StopKey(run) == StopKey(ref.run) {
      StopKeyInjective(run, ref.run);
    }
  }

  /** One call, whoever makes it: a stopped run stays stopped unless this call is an accepted
      disarm of it, and no lease of the run is admitted. */
  lemma StopHoldsForOneCall(w: World, c: Call, ref: RunRef)
    requires Stopped(w.store, ref)
    ensures Stopped(Exec(w, c).0.store, ref) <==> !Disarms(w, c, ref)
    ensures !AdmitsRun(Exec(w, c).1, ref)
  {
    match c.op
    case DoArm(r) =>
      if RecordRunStop(w.store.ledger, r.scope, r.run, true, KILL_FLAG_REASON, c.now).Success? {
        RecordKeepsOtherStops(w.store.ledger, r.scope, r.run, true, KILL_FLAG_REASON, c.now, ref);
      }
    case DoDisarm(r, reason) =>
      if RecordRunStop(w.store.ledger, r.scope, r.run, false, reason, c.now).Success? {
        RecordKeepsOtherStops(w.store.ledger, r.scope, r.run, false, reason, c.now, ref);
      }
    case _ =>
  }

  /** STOP SAFETY. From a state where the run's stop row is armed, along every interleaving
      that contains no accepted disarm of that run, the row stays armed and no process is
      ever handed a lease of the run, whatever its memory holds and however often it restarts. */
  lemma {:induction false} StopSafety(w: World, calls: seq<Call>, ref: RunRef)
    requires Stopped(w.store, ref) && NeverDisarmed(w, calls, ref)
    ensures Stopped(After(w, calls).store, ref) && NeverAdmitted(w, calls, ref)
    decreases |calls|
  {
    if calls != [] {
      NeverDisarmedBefore(w, calls, ref);
      StopSafety(w, calls[..|calls|-1], ref);
      StopHoldsAtTheEnd(w, calls, ref);
    }
  }

  lemma StopHoldsAtTheEnd(w: World, calls: seq<Call>, ref: RunRef)
    requires calls != [] && Stopped(After(w, calls[..|calls|-1]).store, ref)
    requires !Disarms(After(w, calls[..|calls|-1]), calls[|calls|-1], ref) && NeverAdmitted(w, calls[..|calls|-1], ref)
    ensures Stopped(After(w, calls).store, ref) && NeverAdmitted(w, calls, ref)
  {
    StopHoldsForOneCall(After(w, calls[..|calls|-1]), calls[|calls|-1], ref);
    NeverAdmittedAfter(w, calls, ref);
  }

  /** No call of the run is an accepted disarm of `ref`. */
  predicate NeverDisarmed(w: World, calls: seq<Call>, ref: RunRef) {
    forall i | 0 <= i < |calls| :: !Disarms(After(w, calls[..i]), calls[i], ref)
  }

  /** No call of the run is answered with a lease of `ref`. */
  predicate NeverAdmitted(w: World, calls: seq<Call>, ref: RunRef) {
    forall i | 0 <= i < |calls| :: !AdmitsRun(OutcomeAt(w, calls, i), ref)
  }

  lemma NeverDisarmedBefore(w: World, calls: seq<Call>, ref: RunRef)
    requires calls != [] && NeverDisarmed(w, calls, ref)
    ensures NeverDisarmed(w, calls[..|calls|-1], ref) && !Disarms(After(w, calls[..|calls|-1]), calls[|calls|-1], ref)
  {
    forall i | 0 <= i < |calls| - 1 ensures calls[..|calls|-1][..i] == calls[..i] {}
  }

  lemma NeverAdmittedAfter(w: World, calls: seq<Call>, ref: RunRef)
    requires calls != [] && NeverAdmitted(w, calls[..|calls|-1], ref) && !AdmitsRun(OutcomeAt(w, calls, |calls| - 1), ref)
    ensures NeverAdmitted(w, calls, ref)
  {
    forall i | 0 <= i < |calls| ensures !AdmitsRun(OutcomeAt(w, calls, i), ref) {
      if i < |calls| - 1 { EarlierStep(w, calls, i); }
    }
  }

  /** The steps of a longer run are those of the shorter. */
  lemma EarlierStep(w: World, calls: seq<Call>, i: nat)
    requires i < |calls| - 1
    ensures OutcomeAt(w, calls, i) == OutcomeAt(w, calls[..|calls|-1], i)
  {
    assert calls[..|calls|-1][..i] == calls[..i];
  }

  /** An accepted arm establishes the premise of StopSafety. */
  lemma ArmEstablishesStop(w: World, c: Call)
    requires c.op.DoArm? && Exec(w, c).1 == Done
    ensures Stopped(Exec(w, c).0.store, c.op.ref)
  {}

  /** Memory can only add refusals: what a process admits it would also have admitted with an
      empty memory, with the same effect on the tables; a cached flag always refuses. */
  lemma StaleCacheOnlyOverRefuses(st: Store, killed: set<RunRef>, ref: RunRef, capability: string, now: int)
    ensures ref in killed ==> Checkout(st, killed, ref, capability, now).1 == Failure(KillFlagActive)
    ensures ref !in killed ==> Checkout(st, killed, ref, capability, now) == Checkout(st, {}, ref, capability, now)
  {}

  /** After an accepted disarm by one process, exactly the other processes that still
      remember the flag keep refusing the run. */
  lemma DisarmReleasesExactly(w: World, c: Call, other: string)
    requires c.op.DoDisarm? && Exec(w, c).1 == Done
    ensures var w' := Exec(w, c).0;
      RunStopped(w'.store, CacheOf(w', other), c.op.ref) <==> other != c.process && c.op.ref in CacheOf(w, other)
  {}

  /** The documented "a durably disarmed run passes again" is not true in a process that remembers the
      flag when another process disarms the run: it refuses although the run's newest lease is held and
      unexpired, and admits that very lease after a restart. */
  lemma DisarmElsewhereLeavesMemory(w: World, p: string, c: Call, capability: string, now: int, id: nat)
    requires c.op.DoDisarm? && Exec(w, c).1 == Done && p != c.process && c.op.ref in CacheOf(w, p)
    requires Newest(w.store.leases, c.op.ref, capability) == Some(id)
    requires Held(w.store.leases[id].status) && now < w.store.leases[id].expiresAt
    ensures var v := Exec(w, c).0;
      var checkout := Call(p, now, DoCheckout(c.op.ref, capability));
      var out := Exec(Exec(v, Call(p, now, DoRestart)).0, checkout).1;
      && !Stopped(v.store, c.op.ref)
      && Exec(v, checkout).1 == Refused(KillFlagActive)
      && out.CheckedOut? && out.lease == w.store.leases[id].(status := Active, updatedAt := out.lease.updatedAt)
  {
    var v := Exec(w, c).0;
    assert v.store.leases == w.store.leases;
    assert CacheOf(Exec(v, Call(p, now, DoRestart)).0, p) == {};
  }

  // ------------------------------------------------------------ when an arm is refused

  /** An arm is accepted if and only if the run's stop key is free, or holds an unexpired run-stop row
      of this project. A refusal is always a version conflict and changes no table. */
  lemma ArmAcceptedIff(w: World, c: Call)
    requires c.op.DoArm?
    ensures var ref := c.op.ref; var k := KeyIn(ref.scope, StopKey(ref.run)); var ledger := w.store.ledger;
      Exec(w, c).1 == Done <==>
        k !in ledger || (ledger[k].project == ref.scope.project && c.now < ledger[k].expiresAt && ledger[k].hash == OfRunStop(ref.run))
    ensures Exec(w, c).1 != Done ==> Exec(w, c).1 == Refused(VersionConflict) && Exec(w, c).0.store == w.store
  {
  }

  /** A refused arm is felt by the arming process alone: every other process answers every call as if
      it had not been attempted. */
  lemma RefusedArmStopsNobodyElse(w: World, c: Call, other: Call)
    requires c.op.DoArm? && Exec(w, c).1 != Done && other.process != c.process
    ensures Exec(Exec(w, c).0, other).1 == Exec(w, other).1
    ensures Exec(Exec(w, c).0, other).0.store == Exec(w, other).0.store
    ensures c.op.ref in CacheOf(Exec(w, c).0, c.process)
  {
    ArmAcceptedIff(w, c);
    assert CacheOf(Exec(w, c).0, other.process) == CacheOf(w, other.process);
  }

  lemma ExpiredRowStays(st: Store, killed: set<RunRef>, now: int, op: Op, k: LedgerKey)
    requires k in st.ledger && st.ledger[k].expiresAt <= now
    ensures var ledger := StoreStep(st, killed, now, op).0.ledger; k in ledger && ledger[k] == st.ledger[k]
  {
  }

  /** Once a run's stop row has expired, along every run of calls whose clock stays past the expiry the row
      never changes: an armed run is never released, a disarmed one never stopped again, and every arm and
      disarm of the run is refused. */
  lemma {:induction false} ExpiredStopIsForever(w: World, calls: seq<Call>, ref: RunRef)
    requires var k := KeyIn(ref.scope, StopKey(ref.run));
      k in w.store.ledger && forall i | 0 <= i < |calls| :: w.store.ledger[k].expiresAt <= calls[i].now
    ensures var k := KeyIn(ref.scope, StopKey(ref.run)); var v := After(w, calls);
      && k in v.store.ledger && v.store.ledger[k] == w.store.ledger[k]
      && (Stopped(v.store, ref) <==> Stopped(w.store, ref))
      && forall c: Call | (c.op.DoArm? || c.op.DoDisarm?) && c.op.ref == ref && w.store.ledger[k].expiresAt <= c.now ::
        Exec(v, c).1 == Refused(VersionConflict)
    decreases |calls|
  {
    if calls != [] {
      var n := |calls| - 1;
      ExpiredStopIsForever(w, calls[..n], ref);
      var mid := After(w, calls[..n]);
      ExpiredRowStays(mid.store, CacheOf(mid, calls[n].process), calls[n].now, calls[n].op, KeyIn(ref.scope, StopKey(ref.run)));
    }
  }
}
