/** The lease service as the source writes it: objects that update the shared tables and
    their own kill-flag memory step by step. Every method is proved to do exactly the
    atomic step LeaseProtocol defines for it. */
module LeaseService {
  import opened Wrappers
  import opened CommandLedger
  import opened LeaseProtocol
  import Catalog = CapabilityCatalog

  /** The tables a unit of work reads and writes. */
  class Database {
    var catalog: Catalog.Catalog
    var leases: seq<Lease>
    var ledger: Ledger
    var journal: seq<Event>

    constructor ()
      ensures View() == Store([], [], map[], [])
    {
      catalog, leases, ledger, journal := [], [], map[], [];
    }

    function View(): Store reads this { Store(catalog, leases, ledger, journal) }
  }

  /** The in-memory set of killed runs of one process. */
  class KillSwitchRegistry {
    var killed: set<RunRef>

    constructor ()
      ensures killed == {}
    {
      killed := {};
    }

    method Arm(ref: RunRef)
      modifies this
      ensures killed == old(killed) + {ref}
    {
      killed := killed + {ref};
    }

    method Disarm(ref: RunRef)
      modifies this
      ensures killed == old(killed) - {ref}
    {
      killed := killed - {ref};
    }
  }

  /** The writer of the catalogue. */
  class CapabilityRegistryService {
    const db: Database

    constructor (db: Database)
      ensures this.db == db
    {
      this.db := db;
    }

    method Register(def: Catalog.Definition, cert: Catalog.Certification, now: int)
      returns (r: Result<Catalog.Descriptor, Catalog.CatalogError>)
      modifies db
      ensures db.View() == old(db.View()).(catalog := Catalog.Register(old(db.catalog), def, cert, now).0)
      ensures r == Catalog.Register(old(db.catalog), def, cert, now).1
    {
      if !Catalog.Admissible(def) {
        return Failure(Catalog.CatalogError.Rejected("inadmissible definition"));
      }
      var existing := Catalog.FindVersion(db.catalog, def.capability, def.version);
      if existing.Some? {
        if db.catalog[existing.value].def == def {
          return Success(db.catalog[existing.value]);
        }
        return Failure(Catalog.CatalogError.Rejected("different content under the same version"));
      }
      var previous := Catalog.FindActive(db.catalog, def.capability);
      var newId := |db.catalog|;
      var record := Catalog.Descriptor(newId, def, cert, Catalog.Active, previous, None, None, None);
      db.catalog := db.catalog + [record];
      if previous.Some? {
        var p := previous.value;
        db.catalog := db.catalog[p := db.catalog[p].(
          lifecycle := Catalog.Deprecated, supersededBy := Some(newId), deprecatedAt := Some(now))];
      }
      r := Success(record);
    }

    method MoveLifecycle(id: nat, target: Catalog.Lifecycle, now: int)
      returns (r: Result<Catalog.Descriptor, Catalog.CatalogError>)
      modifies db
      ensures db.View() == old(db.View()).(catalog := Catalog.MoveLifecycle(old(db.catalog), id, target, now).0)
      ensures r == Catalog.MoveLifecycle(old(db.catalog), id, target, now).1
    {
      if id >= |db.catalog| { return Failure(Catalog.UnknownDescriptor); }
      if !Catalog.LifecycleEdge(db.catalog[id].lifecycle, target) { return Failure(Catalog.IllegalTransition); }
      var row := db.catalog[id].(lifecycle := target);
      if target == Catalog.Deprecated {
        row := row.(deprecatedAt := Some(now));
      } else {
        row := row.(retiredAt := Some(now));
      }
      db.catalog := db.catalog[id := row];
      r := Success(row);
    }
  }

  datatype ExtraFields = NoExtra | DenialFields(denial: DenialReason) | RevocationFields(reason: string)

  function WithExtra(l: Lease, extra: ExtraFields, now: int): Lease {
    match extra
    case NoExtra => l
    case DenialFields(d) => l.(deniedReason := Some(d))
    case RevocationFields(reason) => l.(revokedAt := Some(now), revocationReason := Some(reason))
  }

  class CapabilityLeaseService {
    const db: Database
    const killSwitch: KillSwitchRegistry

    constructor (db: Database, killSwitch: KillSwitchRegistry)
      ensures this.db == db && this.killSwitch == killSwitch
    {
      this.db, this.killSwitch := db, killSwitch;
    }

    /** `_transition`: the guarded status write plus its event. */
    method Transition(id: nat, target: LeaseStatus, e: Event, extra: ExtraFields, now: int)
      returns (r: Result<Lease, Error>)
      requires id < |db.leases|
      modifies db
      ensures r.Success? <==> Edge(old(db.leases[id].status), target)
      ensures r.Success? ==>
        && r.value == WithExtra(Moved(old(db.leases[id]), target, now), extra, now)
        && db.View() == old(db.View()).(leases := old(db.leases)[id := r.value], journal := old(db.journal) + [e])
      ensures r.Failure? ==> r.error == VersionConflict && db.View() == old(db.View())
    {
      var current := db.leases[id];
      if !Edge(current.status, target) { return Failure(VersionConflict); }
      var updated := WithExtra(Moved(current, target, now), extra, now);
      db.leases := db.leases[id := updated];
      db.journal := db.journal + [e];
      r := Success(updated);
    }

    method Request(def: LeaseDefinition, requester: string, key: string, ttl: int, now: int)
      returns (r: Result<Lease, Error>)
      modifies db
      ensures (db.View(), r) == LeaseProtocol.Request(old(db.View()), def, requester, key, ttl, now)
    {
      var begun := Begin(db.ledger, def.scope, key, OfLease(def), now);
      if begun.Failure? { return Failure(begun.error); }
      var (record, isNew) := begun.value;
      if !isNew { return Replay(record); }
      var id := |db.leases|;
      db.leases := db.leases + [Lease(id, def, requester, now, now + ttl, Requested, None, None, None, now)];
      db.journal := db.journal + [LeaseRequested(id)];
      var evaluating := Transition(id, Evaluating, LeaseEvaluating(id), NoExtra, now);
      var denial := Evaluate(db.catalog, def.capability, def.version);
      if denial.Some? {
        r := Transition(id, Denied, LeaseDenied(id, denial.value), DenialFields(denial.value), now);
      } else {
        r := Transition(id, Granted, LeaseGranted(id), NoExtra, now);
      }
      db.ledger := Complete(db.ledger, def.scope, key, record, LeaseRecord(r.value));
      assert db.leases == old(db.leases) + [r.value];
      assert db.journal == old(db.journal) + [LeaseRequested(id), LeaseEvaluating(id), db.journal[|db.journal|-1]];
    }

    /** Revoke the given leases one by one, as both stop paths do. */
    method RevokeEach(ids: seq<nat>, now: int)
      requires forall i | 0 <= i < |ids| :: ids[i] < |db.leases| && Held(db.leases[ids[i]].status)
      requires forall i, j | 0 <= i < j < |ids| :: ids[i] < ids[j]
      modifies db
      ensures |db.leases| == |old(db.leases)|
      ensures forall k | 0 <= k < |db.leases| ::
        db.leases[k] == if k in ids then RevokedLease(old(db.leases)[k], KILL_FLAG_REASON, now) else old(db.leases)[k]
      ensures db.journal == old(db.journal) + RevokeEvents(ids, KILL_FLAG_REASON)
      ensures db.ledger == old(db.ledger) && db.catalog == old(db.catalog)
    {
      for i := 0 to |ids|
        invariant |db.leases| == |old(db.leases)|
        invariant forall k | 0 <= k < |db.leases| ::
          db.leases[k] == if k in ids[..i] then RevokedLease(old(db.leases)[k], KILL_FLAG_REASON, now) else old(db.leases)[k]
        invariant db.journal == old(db.journal) + RevokeEvents(ids[..i], KILL_FLAG_REASON)
        invariant db.ledger == old(db.ledger) && db.catalog == old(db.catalog)
      {
        assert ids[i] !in ids[..i];
        var _ := Transition(ids[i], Revoked, LeaseRevoked(ids[i], KILL_FLAG_REASON), RevocationFields(KILL_FLAG_REASON), now);
        assert ids[..i+1] == ids[..i] + [ids[i]];
        assert RevokeEvents(ids[..i+1], KILL_FLAG_REASON) ==
               RevokeEvents(ids[..i], KILL_FLAG_REASON) + [LeaseRevoked(ids[i], KILL_FLAG_REASON)];
      }
      assert ids[..|ids|] == ids;
    }

    method SweepHeld(ref: RunRef, now: int) returns (held: seq<nat>)
      modifies db
      ensures db.View() == SweptStore(old(db.View()), ref, now)
      ensures held == HeldIds(old(db.leases), ref)
    {
      held := HeldIds(db.leases, ref);
      assert forall i | 0 <= i < |held| :: held[i] in held;
      RevokeEach(held, now);
      assert db.leases == Swept(old(db.leases), ref, now);
    }

    method ArmRunStop(ref: RunRef, now: int) returns (r: Result<seq<nat>, Error>)
      modifies db, killSwitch
      ensures killSwitch.killed == old(killSwitch.killed) + {ref}
      ensures (db.View(), r) == LeaseProtocol.Arm(old(db.View()), ref, now)
    {
      killSwitch.Arm(ref);
      var recorded := RecordRunStop(db.ledger, ref.scope, ref.run, true, KILL_FLAG_REASON, now);
      if recorded.Failure? { return Failure(recorded.error); }
      db.ledger := recorded.value;
      var revoked := SweepHeld(ref, now);
      db.journal := db.journal + [RunStopArmed(ref.scope, ref.run, revoked)];
      r := Success(revoked);
    }

    method DisarmRunStop(ref: RunRef, reason: string, now: int) returns (r: Result<(), Error>)
      modifies db, killSwitch
      ensures killSwitch.killed == old(killSwitch.killed) - {ref}
      ensures (db.View(), r) == LeaseProtocol.Disarm(old(db.View()), ref, reason, now)
    {
      killSwitch.Disarm(ref);
      var recorded := RecordRunStop(db.ledger, ref.scope, ref.run, false, reason, now);
      if recorded.Failure? { return Failure(recorded.error); }
      db.ledger := recorded.value;
      r := Success(());
    }

    method ActivateHeldLease(id: nat, now: int) returns (r: Result<Lease, Error>)
      requires id < |db.leases|
      modifies db
      ensures (db.View(), r) == LeaseProtocol.Activate(old(db.View()), id, now)
    {
      var lease := db.leases[id];
      if !Held(lease.status) { return Failure(PolicyDenied); }
      if lease.expiresAt <= now {
        var _ := Transition(id, Expired, LeaseTransitioned(id, lease.status, Expired), NoExtra, now);
        return Failure(PolicyDenied);
      }
      if lease.status == Granted {
        r := Transition(id, Active, LeaseActivated(id), NoExtra, now);
      } else {
        r := Success(lease);
      }
    }

    method RequireActive(ref: RunRef, capability: string, now: int) returns (r: Result<Lease, Error>)
      modifies db
      ensures (db.View(), r) == LeaseProtocol.Checkout(old(db.View()), killSwitch.killed, ref, capability, now)
    {
      var stopped := ref in killSwitch.killed;
      if !stopped { stopped := DurablyStopped(db.ledger, ref.scope, ref.run); }
      if stopped {
        var _ := SweepHeld(ref, now);
        db.journal := db.journal + [KillFlagEnforced(ref.scope, ref.run)];
        return Failure(KillFlagActive);
      }
      var newest := Newest(db.leases, ref, capability);
      if newest.None? { return Failure(PolicyDenied); }
      r := ActivateHeldLease(newest.value, now);
    }

    method RequireActiveLease(scope: Scope, id: nat, capability: string, now: int) returns (r: Result<Lease, Error>)
      modifies db
      ensures (db.View(), r) == LeaseProtocol.CheckoutById(old(db.View()), scope, id, capability, now)
    {
      if id >= |db.leases| || db.leases[id].def.scope != scope { return Failure(PolicyDenied); }
      if db.leases[id].def.capability != capability { return Failure(PolicyDenied); }
      if db.leases[id].def.run.Some? { return Failure(PolicyDenied); }
      r := ActivateHeldLease(id, now);
    }

    method Revoke(scope: Scope, id: nat, reason: string, now: int) returns (r: Result<Lease, Error>)
      modifies db
      ensures (db.View(), r) == LeaseProtocol.Revoke(old(db.View()), scope, id, reason, now)
    {
      if id >= |db.leases| || db.leases[id].def.scope != scope { return Failure(PolicyDenied); }
      r := Transition(id, Revoked, LeaseRevoked(id, reason), RevocationFields(reason), now);
    }

    method Consume(scope: Scope, id: nat, now: int) returns (r: Result<Lease, Error>)
      modifies db
      ensures (db.View(), r) == LeaseProtocol.Consume(old(db.View()), scope, id, now)
    {
      if id >= |db.leases| || db.leases[id].def.scope != scope { return Failure(PolicyDenied); }
      r := Transition(id, Consumed, LeaseConsumed(id), NoExtra, now);
    }

    method ConsumeAllForRun(ref: RunRef, now: int) returns (consumed: seq<nat>)
      modifies db
      ensures (db.View(), consumed) == LeaseProtocol.ConsumeAll(old(db.View()), ref, now)
    {
      consumed := IdsFor(db.leases, ref, {Active});
      assert forall i | 0 <= i < |consumed| :: consumed[i] in consumed;
      ConsumeEach(consumed, now);
      assert db.leases == LeaseProtocol.ConsumeAll(old(db.View()), ref, now).0.leases;
    }

    method ConsumeEach(ids: seq<nat>, now: int)
      requires forall i | 0 <= i < |ids| :: ids[i] < |db.leases| && db.leases[ids[i]].status == Active
      requires forall i, j | 0 <= i < j < |ids| :: ids[i] < ids[j]
      modifies db
      ensures |db.leases| == |old(db.leases)|
      ensures forall k | 0 <= k < |db.leases| ::
        db.leases[k] == if k in ids then Moved(old(db.leases)[k], Consumed, now) else old(db.leases)[k]
      ensures db.journal == old(db.journal) + ConsumeEvents(ids)
      ensures db.ledger == old(db.ledger) && db.catalog == old(db.catalog)
    {
      for i := 0 to |ids|
        invariant |db.leases| == |old(db.leases)|
        invariant forall k | 0 <= k < |db.leases| ::
          db.leases[k] == if k in ids[..i] then Moved(old(db.leases)[k], Consumed, now) else old(db.leases)[k]
        invariant db.journal == old(db.journal) + ConsumeEvents(ids[..i])
        invariant db.ledger == old(db.ledger) && db.catalog == old(db.catalog)
      {
        assert ids[i] !in ids[..i];
        var _ := Transition(ids[i], Consumed, LeaseConsumed(ids[i]), NoExtra, now);
        assert ids[..i+1] == ids[..i] + [ids[i]];
        assert ConsumeEvents(ids[..i+1]) == ConsumeEvents(ids[..i]) + [LeaseConsumed(ids[i])];
      }
      assert ids[..|ids|] == ids;
    }
  }
}
