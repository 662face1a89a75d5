/** Live processes of a run: a nested map of handles, and the escalation that ends one process. */
module ProcessRegistry {
  import opened Wrappers

  datatype RunKey = RunKey(tenant: string, project: string, run: string)
  datatype Handle = Handle(key: RunKey, lease: string, pid: int)
  type Buckets = map<RunKey, map<int, Handle>>

  // ------------------------------------------------------------ nested and flat

  function Registered(m: Buckets, h: Handle): Buckets {
    m[h.key := (if h.key in m then m[h.key] else map[])[h.pid := h]]
  }

  /** An emptied bucket is dropped. */
  function Unregistered(m: Buckets, key: RunKey, pid: int): Buckets {
    if key !in m then m
    else
      var bucket := m[key] - {pid};
      if |bucket| == 0 then m - {key} else m[key := bucket]
  }

  function Find(m: Buckets, key: RunKey, pid: int): Option<Handle> {
    if key in m && pid in m[key] then Some(m[key][pid]) else None
  }

  /** The simple form: one map from run and pid to handle. */
  datatype Slot = Slot(key: RunKey, pid: int)
  type Flat = map<Slot, Handle>

  ghost predicate Represents(m: Buckets, f: Flat) {
    forall key, pid :: Find(m, key, pid) == if Slot(key, pid) in f then Some(f[Slot(key, pid)]) else None
  }

  predicate NoEmptyBuckets(m: Buckets) { forall key | key in m :: m[key] != map[] }

  datatype Op = Register(handle: Handle) | Unregister(key: RunKey, pid: int)

  function Step(m: Buckets, op: Op): Buckets {
    match op case Register(h) => Registered(m, h) case Unregister(key, pid) => Unregistered(m, key, pid)
  }

  function FlatStep(f: Flat, op: Op): Flat {
    match op case Register(h) => f[Slot(h.key, h.pid) := h] case Unregister(key, pid) => f - {Slot(key, pid)}
  }

  function After(ops: seq<Op>): Buckets { if ops == [] then map[] else Step(After(ops[..|ops|-1]), ops[|ops|-1]) }
  function FlatAfter(ops: seq<Op>): Flat { if ops == [] then map[] else FlatStep(FlatAfter(ops[..|ops|-1]), ops[|ops|-1]) }

  lemma EmptyBucket(bucket: map<int, Handle>)
    ensures |bucket| == 0 <==> bucket == map[]
  {
    if |bucket| == 0 { assert bucket.Keys == {}; }
  }

  lemma HasMember(s: set<int>)
    ensures |s| > 0 ==> exists x :: x in s
  {
    if forall x :: x !in s { assert s == {}; }
  }

  lemma StepRefines(m: Buckets, f: Flat, op: Op)
    requires Represents(m, f) && NoEmptyBuckets(m)
    ensures Represents(Step(m, op), FlatStep(f, op)) && NoEmptyBuckets(Step(m, op))
  {
    if op.Unregister? && op.key in m {
      var bucket := m[op.key] - {op.pid};
      EmptyBucket(bucket);
      forall key, pid ensures Find(Step(m, op), key, pid) == if key == op.key && pid == op.pid then None else Find(m, key, pid) {
        if key == op.key && pid != op.pid && pid in m[key] { assert pid in bucket; }
      }
    } else if op.Register? {
      var bucket := (if op.handle.key in m then m[op.handle.key] else map[])[op.handle.pid := op.handle];
      assert op.handle.pid in bucket;
    }
  }

  /** Under any sequence of registrations and removals the nested map is the flat one, with no empty
      bucket left behind. */
  lemma {:induction false} RegistryRefinesFlatMap(ops: seq<Op>)
    ensures Represents(After(ops), FlatAfter(ops)) && NoEmptyBuckets(After(ops))
    decreases |ops|
  {
    if ops != [] {
      RegistryRefinesFlatMap(ops[..|ops|-1]);
      StepRefines(After(ops[..|ops|-1]), FlatAfter(ops[..|ops|-1]), ops[|ops|-1]);
    }
  }

  lemma SameBuckets(m: Buckets, n: Buckets, key: RunKey)
    requires NoEmptyBuckets(m) && (forall k, p :: Find(m, k, p) == Find(n, k, p)) && key in m
    ensures key in n && m[key] == n[key]
  {
    EmptyBucket(m[key]);
    HasMember(m[key].Keys);
    var pid :| pid in m[key].Keys;
    assert Find(n, key, pid).Some?;
    forall p ensures p in m[key] <==> p in n[key] { assert Find(m, key, p) == Find(n, key, p); }
    forall p | p in m[key] ensures m[key][p] == n[key][p] { assert Find(m, key, p) == Find(n, key, p); }
  }

  /** The representation is canonical: histories that leave the same flat map leave the same nested one. */
  lemma RepresentationIsCanonical(xs: seq<Op>, ys: seq<Op>)
    ensures FlatAfter(xs) == FlatAfter(ys) <==> After(xs) == After(ys)
  {
    RegistryRefinesFlatMap(xs);
    RegistryRefinesFlatMap(ys);
    var m, n, f, g := After(xs), After(ys), FlatAfter(xs), FlatAfter(ys);
    if f == g {
      assert forall k, p :: Find(m, k, p) == Find(n, k, p);
      forall key | key in m ensures key in n && m[key] == n[key] { SameBuckets(m, n, key); }
      forall key | key in n ensures key in m && m[key] == n[key] { SameBuckets(n, m, key); }
    }
    if m == n {
      forall s: Slot ensures s in f <==> s in g {
        assert s == Slot(s.key, s.pid) && Find(m, s.key, s.pid) == Find(n, s.key, s.pid);
      }
      forall s | s in f ensures f[s] == g[s] {
        assert s == Slot(s.key, s.pid) && Find(m, s.key, s.pid) == Find(n, s.key, s.pid);
      }
    }
  }

  // ------------------------------------------------------------ the order of registration

  /** The pids without one of them. */
  function Minus(pids: seq<int>, pid: int): seq<int> {
    if pids == [] then []
    else
      var rest := Minus(pids[..|pids|-1], pid);
      if pids[|pids|-1] == pid then rest else rest + [pids[|pids|-1]]
  }

  /** The registered pids of a run: a new one goes last, one registered again keeps its place. */
  function Listed(ops: seq<Op>, key: RunKey): seq<int> {
    if ops == [] then [] else ListStep(Listed(ops[..|ops|-1], key), ops[|ops|-1], key)
  }

  function ListStep(before: seq<int>, op: Op, key: RunKey): seq<int> {
    match op
    case Register(h) => if h.key == key && h.pid !in before then before + [h.pid] else before
    case Unregister(k, pid) => if k == key then Minus(before, pid) else before
  }

  function InOrder(order: map<RunKey, seq<int>>, key: RunKey): seq<int> { if key in order then order[key] else [] }

  lemma AfterStep(ops: seq<Op>, op: Op)
    ensures After(ops + [op]) == Step(After(ops), op)
  {
    assert (ops + [op])[..|ops|] == ops;
  }

  lemma ListedStep(ops: seq<Op>, op: Op, key: RunKey)
    ensures Listed(ops + [op], key) == ListStep(Listed(ops, key), op, key)
  {
    assert (ops + [op])[..|ops|] == ops;
  }

  lemma {:induction false} MinusMembers(pids: seq<int>, pid: int)
    requires Distinct(pids)
    ensures Distinct(Minus(pids, pid)) && forall p :: p in Minus(pids, pid) <==> p in pids && p != pid
    decreases |pids|
  {
    if pids != [] {
      var n := |pids| - 1;
      MinusMembers(pids[..n], pid);
      assert pids == pids[..n] + [pids[n]] && pids[n] !in pids[..n];
    }
  }

  lemma {:induction false} MinusAbsent(pids: seq<int>, pid: int)
    requires pid !in pids
    ensures Minus(pids, pid) == pids
    decreases |pids|
  {
    if pids != [] {
      MinusAbsent(pids[..|pids|-1], pid);
      assert pids == pids[..|pids|-1] + [pids[|pids|-1]];
    }
  }

  /** The list holds exactly the registered pids of the run, once each. */
  lemma {:induction false} ListsTheBucket(ops: seq<Op>, key: RunKey)
    ensures Distinct(Listed(ops, key)) && forall p :: p in Listed(ops, key) <==> Find(After(ops), key, p).Some?
    decreases |ops|
  {
    if ops != [] {
      var before, op := ops[..|ops|-1], ops[|ops|-1];
      ListsTheBucket(before, key);
      if op.Unregister? && op.key == key { MinusMembers(Listed(before, key), op.pid); }
      RegistryRefinesFlatMap(before);
      RegistryRefinesFlatMap(ops);
      assert FlatAfter(ops) == FlatStep(FlatAfter(before), op);
      forall p ensures Find(After(ops), key, p).Some? <==>
        if op.Register? then (op.handle.key == key && op.handle.pid == p) || Find(After(before), key, p).Some?
        else !(op.key == key && op.pid == p) && Find(After(before), key, p).Some?
      {
      }
    }
  }

  lemma NonemptyHasMember(s: seq<int>)
    ensures s != [] ==> exists p :: p in s
  {
    if s != [] {
      var p := s[0];
      assert p in s;
    }
  }

  lemma NothingListed(ops: seq<Op>, key: RunKey)
    requires key !in After(ops)
    ensures Listed(ops, key) == []
  {
    ListsTheBucket(ops, key);
    forall p ensures p !in Listed(ops, key) { assert Find(After(ops), key, p).None?; }
    NonemptyHasMember(Listed(ops, key));
  }

  /** The order the dictionaries keep is the list of the history. */
  ghost predicate Follows(order: map<RunKey, seq<int>>, ops: seq<Op>) { forall key :: InOrder(order, key) == Listed(ops, key) }

  lemma FollowsStep(order: map<RunKey, seq<int>>, next: map<RunKey, seq<int>>, ops: seq<Op>, op: Op)
    requires Follows(order, ops) && forall key :: InOrder(next, key) == ListStep(InOrder(order, key), op, key)
    ensures Follows(next, ops + [op])
  {
    forall key ensures InOrder(next, key) == Listed(ops + [op], key) { ListedStep(ops, op, key); }
  }

  // ------------------------------------------------------------ ending one process

  const GRACE := 5000
  const POLL := 50

  datatype Phase = Terminated | Killed | Absent | Failed
  datatype OsEvent = Opened(found: bool) | Signalled(accepted: bool) | Probed(alive: bool)
    | Forced(accepted: bool, waited: nat) | Awaited(exited: bool) | Reaped

  /** What the operating system answers about one pid: whether it can be opened, whether the request is
      a cooperative signal, whether the signals are accepted, liveness at the k-th probe, the extra time
      of the k-th poll, and whether the wait after the forced kill sees the exit. */
  datatype System = System(visible: bool, graceful: bool, signalAccepted: bool, forceAccepted: bool,
                           alive: nat -> bool, delay: nat -> nat, exitSeen: bool)

  predicate ExitObserved(log: seq<OsEvent>) { Opened(false) in log || Probed(false) in log || Awaited(true) in log }
  predicate ForceIssued(log: seq<OsEvent>) { exists e :: e in log && e.Forced? }

  // ------------------------------------------------------------ what the system answers

  /** When the k-th probe of the grace window is due, in milliseconds after the request. */
  function Due(os: System, k: nat): nat { if k == 0 then 0 else Due(os, k - 1) + POLL + os.delay(k) }

  /** The process is not alive at some probe that is due inside the window. */
  ghost predicate SeenGone(os: System) { exists k: nat :: Due(os, k) < GRACE && !os.alive(k) }

  /** Probe `k` is the first that is due after the window. */
  predicate AfterWindow(os: System, k: nat) { Due(os, k) >= GRACE && (k > 0 ==> Due(os, k - 1) < GRACE) }

  ghost predicate SeenDeadAfter(os: System) { exists k: nat :: AfterWindow(os, k) && !os.alive(k) }

  /** The phase the system's answers lead to, and `Failed` when it refuses every attempt. */
  ghost function Reached(os: System): Phase {
    if !os.visible || (!os.signalAccepted && !os.alive(0)) then Absent
    else if !os.signalAccepted then Failed
    else if SeenGone(os) then (if os.graceful then Terminated else Killed)
    else if os.forceAccepted then (if os.exitSeen then Killed else Failed)
    else if SeenDeadAfter(os) then Killed
    else Failed
  }

  function Probes(log: seq<OsEvent>): seq<bool> {
    if log == [] then []
    else
      var rest := Probes(log[..|log|-1]);
      if log[|log|-1].Probed? then rest + [log[|log|-1].alive] else rest
  }

  predicate AliveInOrder(probes: seq<bool>, os: System) { forall j | 0 <= j < |probes| :: probes[j] == os.alive(j) }

  predicate Answered(e: OsEvent, os: System) {
    match e
    case Opened(found) => found == os.visible
    case Signalled(accepted) => accepted == os.signalAccepted
    case Forced(accepted, _) => accepted == os.forceAccepted
    case Awaited(exited) => exited == os.exitSeen
    case _ => true
  }

  /** The log holds what the system answered, the j-th probe included. */
  predicate Recorded(log: seq<OsEvent>, os: System) {
    (forall e | e in log :: Answered(e, os)) && AliveInOrder(Probes(log), os)
  }

  lemma {:induction false} DueGrows(os: System, j: nat, k: nat)
    requires j < k
    ensures Due(os, j) + POLL <= Due(os, k)
    decreases k
  {
    if j < k - 1 { DueGrows(os, j, k - 1); }
  }

  lemma ProbesMore(log: seq<OsEvent>, e: OsEvent)
    ensures Probes(log + [e]) == if e.Probed? then Probes(log) + [e.alive] else Probes(log)
  {
    assert (log + [e])[..|log|] == log;
  }

  lemma RecordedMore(log: seq<OsEvent>, e: OsEvent, os: System)
    requires Recorded(log, os) && Answered(e, os) && (e.Probed? ==> e.alive == os.alive(|Probes(log)|))
    ensures Recorded(log + [e], os) && Probes(log + [e]) == if e.Probed? then Probes(log) + [e.alive] else Probes(log)
  {
    ProbesMore(log, e);
  }

  predicate AliveUntil(os: System, k: nat) { forall j | 0 <= j < k :: os.alive(j) }

  lemma NotGone(os: System, k: nat)
    requires Due(os, k) >= GRACE && AliveUntil(os, k)
    ensures !SeenGone(os)
  {
    forall j: nat | Due(os, j) < GRACE ensures os.alive(j) {
      if k < j { DueGrows(os, k, j); }
    }
  }

  lemma OneAfterWindow(os: System, k: nat)
    requires AfterWindow(os, k)
    ensures SeenDeadAfter(os) <==> !os.alive(k)
  {
    forall j: nat | AfterWindow(os, j) ensures j == k {
      if j < k { assert Due(os, j) <= Due(os, k - 1) by { if j < k - 1 { DueGrows(os, j, k - 1); } } }
      if k < j { assert Due(os, k) <= Due(os, j - 1) by { if k < j - 1 { DueGrows(os, k, j - 1); } } }
    }
  }

  /** `k` probes were added, all of them answered. */
  predicate Probing(start: seq<OsEvent>, log: seq<OsEvent>, k: nat) {
    |log| == |start| + k && log[..|start|] == start && forall i | |start| <= i < |log| :: log[i].Probed?
  }

  predicate AllAlive(start: seq<OsEvent>, log: seq<OsEvent>) { forall i | |start| <= i < |log| :: log[i] == Probed(true) }

  lemma ProbedOnce(start: seq<OsEvent>, log: seq<OsEvent>, k: nat, alive: bool)
    requires Probing(start, log, k) && AllAlive(start, log)
    ensures var next := log + [Probed(alive)];
      && Probing(start, next, k + 1)
      && (alive ==> AllAlive(start, next))
      && (!alive ==> exists i :: |start| <= i < |next| && next[i] == Probed(false))
  {
    var next := log + [Probed(alive)];
    assert next[|log|] == Probed(alive) && next[..|start|] == log[..|start|];
  }

  /** Polls until the process is seen to have exited or the grace window is over. */
  method PollGrace(os: System, start: seq<OsEvent>) returns (gone: bool, k: nat, waited: nat, log: seq<OsEvent>)
    requires Recorded(start, os) && Probes(start) == []
    ensures gone <==> SeenGone(os)
    ensures Recorded(log, os) && |Probes(log)| == k <= GRACE / POLL
    ensures Probing(start, log, k)
    ensures gone <==> exists i :: |start| <= i < |log| && log[i] == Probed(false)
    ensures !gone ==> waited >= GRACE && AfterWindow(os, k)
  {
    gone, k, waited, log := false, 0, 0, start;
    while waited < GRACE
      invariant Recorded(log, os) && |Probes(log)| == k && waited == Due(os, k) && AliveUntil(os, k)
      invariant Probing(start, log, k) && AllAlive(start, log)
      invariant k * POLL <= waited && (k > 0 ==> (k - 1) * POLL < GRACE && Due(os, k - 1) < GRACE)
      decreases GRACE - waited
    {
      var alive := os.alive(k);
      RecordedMore(log, Probed(alive), os);
      ProbedOnce(start, log, k, alive);
      log := log + [Probed(alive)];
      if !alive { return true, k + 1, waited, log; }
      k := k + 1;
      waited := waited + POLL + os.delay(k);
    }
    NotGone(os, k);
  }

  /** The escalation: request, grace window, forced kill, wait, reap. The log is what the system answered,
      and the answer is the phase those answers lead to. A phase is reported if and only if exit or absence
      was observed. The forced kill is issued exactly to a visible process that accepted the request and was
      not seen to exit inside the window, and never before the window has passed. */
  method Terminate(os: System) returns (r: Result<Phase, string>, log: seq<OsEvent>)
    ensures Recorded(log, os)
    ensures if Reached(os).Failed? then r.Failure? else r == Success(Reached(os))
    ensures r.Success? <==> ExitObserved(log)
    ensures ForceIssued(log) <==> os.visible && os.signalAccepted && !SeenGone(os)
    ensures forall e | e in log && e.Forced? :: e.waited >= GRACE
    ensures Signalled(os.signalAccepted) in log <==> os.visible
    ensures |log| <= GRACE / POLL + 6
  {
    log := [Opened(os.visible)];
    RecordedMore([], Opened(os.visible), os);
    assert [] + [Opened(os.visible)] == log;
    if !os.visible { return Success(Absent), log; }
    RecordedMore(log, Signalled(os.signalAccepted), os);
    log := log + [Signalled(os.signalAccepted)];
    if !os.signalAccepted {
      var alive := os.alive(0);
      RecordedMore(log, Probed(alive), os);
      log := log + [Probed(alive)];
      if !alive {
        RecordedMore(log, Reaped, os);
        return Success(Absent), log + [Reaped];
      }
      return Failure("signal refused"), log;
    }
    r, log := Escalate(os, log);
  }

  /** The request was accepted; so far neither exit nor force. */
  ghost predicate Calm(log: seq<OsEvent>) { Signalled(true) in log && !ExitObserved(log) && !ForceIssued(log) }

  lemma PolledIsCalm(start: seq<OsEvent>, log: seq<OsEvent>)
    requires start == [Opened(true), Signalled(true)] && |log| >= 2 && log[..2] == start
    requires forall i | 2 <= i < |log| :: log[i].Probed?
    ensures Signalled(true) in log && !ForceIssued(log) && Opened(false) !in log && Awaited(true) !in log
  {
    assert log[0] == start[0] && log[1] == start[1];
    assert forall e | e in log :: e == start[0] || e == start[1] || e.Probed?;
  }

  /** The escalation once the request was accepted. */
  method Escalate(os: System, start: seq<OsEvent>) returns (r: Result<Phase, string>, log: seq<OsEvent>)
    requires os.visible && os.signalAccepted && start == [Opened(true), Signalled(true)]
    requires Recorded(start, os) && Probes(start) == []
    ensures Recorded(log, os) && Signalled(true) in log
    ensures if Reached(os).Failed? then r.Failure? else r == Success(Reached(os))
    ensures r.Success? <==> ExitObserved(log)
    ensures ForceIssued(log) <==> !SeenGone(os)
    ensures forall e | e in log && e.Forced? :: e.waited >= GRACE
    ensures |log| <= GRACE / POLL + 6
  {
    var gone, k, waited;
    gone, k, waited, log := PollGrace(os, start);
    PolledIsCalm(start, log);
    if gone {
      RecordedMore(log, Reaped, os);
      return Success(if os.graceful then Terminated else Killed), log + [Reaped];
    }
    r, log := ForceKill(os, log, k, waited);
  }

  /** A calm log with a late forced kill and what was seen after it. */
  lemma ForcedLog(polled: seq<OsEvent>, force: OsEvent, seen: seq<OsEvent>)
    requires Calm(polled) && force.Forced? && force.waited >= GRACE && forall e | e in seen :: !e.Forced?
    ensures var log := polled + [force] + seen;
      && Signalled(true) in log && ForceIssued(log) && (forall e | e in log && e.Forced? :: e.waited >= GRACE)
      && (ExitObserved(log) <==> ExitObserved(seen))
  {
    var log := polled + [force] + seen;
    assert forall e :: e in log <==> e in polled || e == force || e in seen;
    assert forall e | e in polled :: !e.Forced?;
    assert force in log;
  }

  /** The forced kill, after the window. */
  method ForceKill(os: System, polled: seq<OsEvent>, k: nat, waited: nat) returns (r: Result<Phase, string>, log: seq<OsEvent>)
    requires os.visible && os.signalAccepted && !SeenGone(os) && AfterWindow(os, k) && waited >= GRACE
    requires Calm(polled) && Recorded(polled, os) && |Probes(polled)| == k && |polled| <= GRACE / POLL + 2
    ensures Recorded(log, os) && Signalled(true) in log
    ensures if Reached(os).Failed? then r.Failure? else r == Success(Reached(os))
    ensures r.Success? <==> ExitObserved(log)
    ensures ForceIssued(log) && forall e | e in log && e.Forced? :: e.waited >= GRACE
    ensures |log| <= GRACE / POLL + 6
  {
    OneAfterWindow(os, k);
    var force := Forced(os.forceAccepted, waited);
    RecordedMore(polled, force, os);
    log := polled + [force];
    if !os.forceAccepted {
      var alive := os.alive(k);
      RecordedMore(log, Probed(alive), os);
      ForcedLog(polled, force, [Probed(alive)]);
      log := log + [Probed(alive)];
      if !alive { return Success(Killed), log; }
      return Failure("kill refused"), log;
    }
    RecordedMore(log, Awaited(os.exitSeen), os);
    ForcedLog(polled, force, [Awaited(os.exitSeen)]);
    log := log + [Awaited(os.exitSeen)];
    if !os.exitSeen { return Failure("did not exit"), log; }
    RecordedMore(log, Reaped, os);
    ForcedLog(polled, force, [Awaited(true), Reaped]);
    assert log + [Reaped] == polled + [force] + [Awaited(true), Reaped];
    return Success(Killed), log + [Reaped];
  }

  // ------------------------------------------------------------ the registry

  datatype Outcome = Outcome(pid: int, phase: Phase, detail: Option<string>)

  /** An outcome says what the system's answers lead to, and no more than its log observed. */
  ghost predicate Honest(o: Outcome, log: seq<OsEvent>, os: System) {
    && Recorded(log, os) && o.phase == Reached(os) && (o.detail.Some? <==> o.phase.Failed?)
    && (!o.phase.Failed? <==> ExitObserved(log))
    && (ForceIssued(log) <==> os.visible && os.signalAccepted && !SeenGone(os))
  }

  class ProcessHandleRegistry {
    /** The nested dictionary, and the insertion order its buckets keep. */
    var byRun: Buckets
    var order: map<RunKey, seq<int>>
    ghost var history: seq<Op>

    ghost predicate Valid() reads this {
      byRun == After(history) && Follows(order, history)
    }

    constructor ()
      ensures Valid() && history == [] && byRun == map[]
    {
      byRun, order, history := map[], map[], [];
    }

    method RegisterProcess(h: Handle)
      requires Valid()
      modifies this
      ensures Valid() && history == old(history) + [Register(h)]
      ensures byRun == Step(old(byRun), Register(h))
    {
      AfterStep(history, Register(h));
      ListsTheBucket(history, h.key);
      ghost var before := order;
      if h.key !in byRun { byRun := byRun[h.key := map[]]; }
      if h.pid !in byRun[h.key] { order := order[h.key := InOrder(order, h.key) + [h.pid]]; }
      byRun := byRun[h.key := byRun[h.key][h.pid := h]];
      FollowsStep(before, order, history, Register(h));
      history := history + [Register(h)];
    }

    method UnregisterProcess(key: RunKey, pid: int)
      requires Valid()
      modifies this
      ensures Valid() && history == old(history) + [Unregister(key, pid)]
      ensures byRun == Step(old(byRun), Unregister(key, pid))
    {
      AfterStep(history, Unregister(key, pid));
      ghost var before := order;
      if key in byRun {
        var bucket := byRun[key] - {pid};
        order := order[key := Minus(InOrder(order, key), pid)];
        if |bucket| == 0 { byRun := byRun - {key}; } else { byRun := byRun[key := bucket]; }
      } else {
        NothingListed(history, key);
        assert InOrder(order, key) == Listed(history, key) == [];
      }
      FollowsStep(before, order, history, Unregister(key, pid));
      history := history + [Unregister(key, pid)];
    }

    /** Every registered pid of the run, once, in the order of registration. */
    method PidsForRun(key: RunKey) returns (pids: seq<int>)
      requires Valid()
      ensures pids == Listed(history, key) && Distinct(pids)
      ensures forall p :: p in pids <==> Find(byRun, key, p).Some?
    {
      ListsTheBucket(history, key);
      if key !in byRun {
        NothingListed(history, key);
        return [];
      }
      pids := InOrder(order, key);
    }

    /** One outcome per registered process of the run, with the log of its escalation. A phase other than
        `Failed` is reported exactly when exit or absence was observed, `Terminated` only without a
        forced kill; a refusal of the system becomes a `Failed` outcome and never an error. */
    method SweepRun(key: RunKey, os: int -> System) returns (outcomes: seq<Outcome>, logs: seq<seq<OsEvent>>)
      requires Valid()
      ensures |outcomes| == |Listed(history, key)| && forall i | 0 <= i < |outcomes| :: outcomes[i].pid == Listed(history, key)[i]
      ensures forall p :: p in Listed(history, key) <==> Find(byRun, key, p).Some?
      ensures Distinct(Listed(history, key))
      ensures |logs| == |outcomes| && forall i | 0 <= i < |outcomes| :: Honest(outcomes[i], logs[i], os(outcomes[i].pid))
    {
      var pids := PidsForRun(key);
      outcomes, logs := [], [];
      for i := 0 to |pids|
        invariant |outcomes| == |logs| == i && forall j | 0 <= j < i :: outcomes[j].pid == pids[j]
        invariant forall j | 0 <= j < i :: Honest(outcomes[j], logs[j], os(outcomes[j].pid))
      {
        var r, log := Terminate(os(pids[i]));
        var o := match r
          case Success(phase) => Outcome(pids[i], phase, None)
          case Failure(text) => Outcome(pids[i], Failed, Some(text));
        assert Honest(o, log, os(o.pid));
        outcomes, logs := outcomes + [o], logs + [log];
      }
    }
  }
}
