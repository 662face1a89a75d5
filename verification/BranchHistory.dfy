/** Conversations that branch: turns are numbered per conversation, and the visible history of a
    branch is its parent's, cut at the branch turn, followed by its own. */
module BranchHistory {
  import opened Wrappers
  import opened StableSort
  import opened ChatHistory
  import CommandLedger

  type Scope = CommandLedger.Scope

  /** A row of the turn table. Turn ids and conversation ids are insertion positions. */
  datatype Row = Row(scope: Scope, conversation: nat, turn: Turn)
  datatype Conversation = Conversation(scope: Scope, parent: Option<nat>, branchTurn: Option<nat>)
  datatype Store = Store(conversations: seq<Conversation>, rows: seq<Row>)
  datatype HistoryError = PolicyDenied | ContextIncomplete

  // ------------------------------------------------------------ queries

  predicate Known(st: Store, scope: Scope, c: nat) { c < |st.conversations| && st.conversations[c].scope == scope }

  function Of(rows: seq<Row>, c: nat): seq<Row> {
    if rows == [] then []
    else
      var rest := Of(rows[..|rows|-1], c);
      if rows[|rows|-1].conversation == c then rest + [rows[|rows|-1]] else rest
  }

  function InScope(rows: seq<Row>, scope: Scope): seq<Row> {
    if rows == [] then []
    else
      var rest := InScope(rows[..|rows|-1], scope);
      if rows[|rows|-1].scope == scope then rest + [rows[|rows|-1]] else rest
  }

  function Sequence(r: Row): real { r.turn.sequence as real }

  function Direct(st: Store, scope: Scope, c: nat): seq<Row> { SortBy(InScope(Of(st.rows, c), scope), Sequence) }

  /** coalesce(max(sequence), 0) over one conversation. */
  function Greatest(rows: seq<Row>, c: nat): nat {
    if rows == [] then 0
    else
      var rest, last := Greatest(rows[..|rows|-1], c), rows[|rows|-1];
      if last.conversation == c && last.turn.sequence > rest then last.turn.sequence else rest
  }

  function Find(rows: seq<Row>, id: nat): Option<Row> {
    if rows == [] then None
    else if rows[0].turn.id == id then Some(rows[0])
    else Find(rows[1..], id)
  }

  /** The rows that are not from `p`, or not later than `limit`. */
  function UpTo(rows: seq<Row>, p: nat, limit: nat): seq<Row> {
    if rows == [] then []
    else
      var rest, last := UpTo(rows[..|rows|-1], p, limit), rows[|rows|-1];
      if last.conversation != p || last.turn.sequence <= limit then rest + [last] else rest
  }

  /** What makes the recursion below end. */
  predicate ParentsComeFirst(st: Store) {
    forall c | 0 <= c < |st.conversations| && st.conversations[c].parent.Some? :: st.conversations[c].parent.value < c
  }

  function History(st: Store, scope: Scope, c: nat): Result<seq<Row>, HistoryError>
    requires ParentsComeFirst(st)
    decreases c
  {
    if !Known(st, scope, c) then Failure(PolicyDenied)
    else
      var own := Direct(st, scope, c);
      match st.conversations[c].parent
      case None => Success(own)
      case Some(p) =>
        match History(st, scope, p)
        case Failure(e) => Failure(e)
        case Success(inherited) =>
          match st.conversations[c].branchTurn
          case None => Success(inherited + own)
          case Some(t) =>
            match Find(Direct(st, scope, p), t)
            case None => Failure(ContextIncomplete)
            case Some(at) => Success(UpTo(inherited, p, at.turn.sequence) + own)
  }

  // ------------------------------------------------------------ operations

  function Open(st: Store, scope: Scope): Store {
    st.(conversations := st.conversations + [Conversation(scope, None, None)])
  }

  predicate BranchAllowed(st: Store, scope: Scope, c: nat, from: Option<nat>) {
    Known(st, scope, c) && (from.Some? ==> exists i :: 0 <= i < |st.rows| && st.rows[i].turn.id == from.value && st.rows[i].conversation == c)
  }

  function Branch(st: Store, scope: Scope, c: nat, from: Option<nat>): Store {
    if BranchAllowed(st, scope, c, from)
    then st.(conversations := st.conversations + [Conversation(scope, Some(c), from)])
    else st
  }

  datatype Message = Message(role: string, intent: string, outcome: string, text: string)

  function NewRow(st: Store, scope: Scope, c: nat, m: Message): Row {
    Row(scope, c, Turn(|st.rows|, Greatest(st.rows, c) + 1, m.role, m.intent, m.outcome, m.text))
  }

  function Append(st: Store, scope: Scope, c: nat, m: Message): Store {
    if Known(st, scope, c) then st.(rows := st.rows + [NewRow(st, scope, c, m)]) else st
  }

  datatype Op = OpenOp(scope: Scope) | BranchOp(scope: Scope, source: nat, from: Option<nat>) | AppendOp(scope: Scope, target: nat, message: Message)

  function Exec(st: Store, op: Op): Store {
    match op
    case OpenOp(scope) => Open(st, scope)
    case BranchOp(scope, c, from) => Branch(st, scope, c, from)
    case AppendOp(scope, c, m) => Append(st, scope, c, m)
  }

  function After(st: Store, ops: seq<Op>): Store
    decreases |ops|
  {
    if ops == [] then st else After(Exec(st, ops[0]), ops[1..])
  }

  // ------------------------------------------------------------ invariant

  predicate Linked(st: Store, c: nat)
    requires c < |st.conversations|
  {
    var me := st.conversations[c];
    && (me.parent.Some? ==> me.parent.value < c && st.conversations[me.parent.value].scope == me.scope)
    && (me.branchTurn.Some? ==>
      && me.parent.Some? && me.branchTurn.value < |st.rows|
      && st.rows[me.branchTurn.value].conversation == me.parent.value)
  }

  predicate Filed(st: Store, i: nat)
    requires i < |st.rows|
  {
    var r := st.rows[i];
    r.turn.id == i && Known(st, r.scope, r.conversation)
  }

  predicate Numbered(rows: seq<Row>) { forall k | 0 <= k < |rows| :: rows[k].turn.sequence == k + 1 }

  /** Branches point back to existing turns of their parent, rows belong to known conversations, and
      every conversation's turns are numbered 1..n. */
  ghost predicate Inv(st: Store) {
    && (forall c | 0 <= c < |st.conversations| :: Linked(st, c))
    && (forall i | 0 <= i < |st.rows| :: Filed(st, i))
    && (forall c: nat :: Numbered(Of(st.rows, c)))
  }

  lemma OfAppend(rows: seq<Row>, r: Row, c: nat)
    ensures Of(rows + [r], c) == if r.conversation == c then Of(rows, c) + [r] else Of(rows, c)
  {
    assert (rows + [r])[..|rows|] == rows;
  }

  lemma {:induction false} GreatestIsCount(rows: seq<Row>, c: nat)
    requires Numbered(Of(rows, c))
    ensures Greatest(rows, c) == |Of(rows, c)|
    decreases |rows|
  {
    if rows != [] {
      var before, last := rows[..|rows|-1], rows[|rows|-1];
      assert rows == before + [last];
      OfAppend(before, last, c);
      forall k | 0 <= k < |Of(before, c)| ensures Of(before, c)[k].turn.sequence == k + 1 {
        assert Of(rows, c)[k] == Of(before, c)[k];
      }
      GreatestIsCount(before, c);
      if last.conversation == c { assert Of(rows, c)[|Of(before, c)|] == last; }
    }
  }

  lemma AppendKeepsInv(st: Store, scope: Scope, c: nat, m: Message)
    requires Inv(st)
    ensures Inv(Append(st, scope, c, m))
  {
    if Known(st, scope, c) {
      var r, next := NewRow(st, scope, c, m), Append(st, scope, c, m);
      forall d: nat ensures Numbered(Of(next.rows, d)) {
        OfAppend(st.rows, r, d);
        GreatestIsCount(st.rows, d);
      }
      forall d | 0 <= d < |next.conversations| ensures Linked(next, d) { assert Linked(st, d); }
      forall i | 0 <= i < |next.rows| ensures Filed(next, i) { assert i < |st.rows| ==> Filed(st, i); }
    }
  }

  lemma AddConversationKeepsInv(st: Store, me: Conversation)
    requires Inv(st)
    requires me.parent.Some? ==> Known(st, me.scope, me.parent.value)
    requires me.branchTurn.Some? ==>
      me.parent.Some? && me.branchTurn.value < |st.rows| && st.rows[me.branchTurn.value].conversation == me.parent.value
    ensures Inv(st.(conversations := st.conversations + [me]))
  {
    var next := st.(conversations := st.conversations + [me]);
    forall d | 0 <= d < |next.conversations| ensures Linked(next, d) { assert d < |st.conversations| ==> Linked(st, d); }
    forall i | 0 <= i < |next.rows| ensures Filed(next, i) { assert Filed(st, i); }
  }

  lemma StepKeepsInv(st: Store, op: Op)
    requires Inv(st)
    ensures Inv(Exec(st, op))
  {
    match op
    case OpenOp(scope) => AddConversationKeepsInv(st, Conversation(scope, None, None));
    case BranchOp(scope, c, from) =>
      if BranchAllowed(st, scope, c, from) {
        if from.Some? {
          var i :| 0 <= i < |st.rows| && st.rows[i].turn.id == from.value && st.rows[i].conversation == c;
          assert Filed(st, i);
        }
        AddConversationKeepsInv(st, Conversation(scope, Some(c), from));
      }
    case AppendOp(scope, c, m) => AppendKeepsInv(st, scope, c, m);
  }

  /** Every reachable store is sound. */
  lemma {:induction false} RunKeepsInv(st: Store, ops: seq<Op>)
    requires Inv(st)
    ensures Inv(After(st, ops))
    decreases |ops|
  {
    if ops != [] {
      StepKeepsInv(st, ops[0]);
      RunKeepsInv(Exec(st, ops[0]), ops[1..]);
    }
  }

  lemma EmptyIsSound()
    ensures Inv(Store([], []))
  {
  }

  lemma InvGivesOrder(st: Store)
    requires Inv(st)
    ensures ParentsComeFirst(st)
  {
    forall c | 0 <= c < |st.conversations| && st.conversations[c].parent.Some?
      ensures st.conversations[c].parent.value < c
    {
      assert Linked(st, c);
    }
  }

  // ------------------------------------------------------------ the history never fails

  lemma {:induction false} OfMembers(rows: seq<Row>, c: nat, x: Row)
    ensures x in Of(rows, c) <==> x in rows && x.conversation == c
    decreases |rows|
  {
    if rows != [] {
      OfMembers(rows[..|rows|-1], c, x);
      assert rows == rows[..|rows|-1] + [rows[|rows|-1]];
    }
  }

  lemma {:induction false} AllInScope(rows: seq<Row>, scope: Scope)
    requires forall x | x in rows :: x.scope == scope
    ensures InScope(rows, scope) == rows
    decreases |rows|
  {
    if rows != [] {
      AllInScope(rows[..|rows|-1], scope);
      assert rows == rows[..|rows|-1] + [rows[|rows|-1]];
    }
  }

  /** The scoped, sorted query returns the conversation's rows as they were inserted. */
  lemma DirectIsOf(st: Store, scope: Scope, c: nat)
    requires Inv(st) && Known(st, scope, c)
    ensures Direct(st, scope, c) == Of(st.rows, c)
  {
    var own := Of(st.rows, c);
    forall x | x in own ensures x.scope == scope {
      OfMembers(st.rows, c, x);
      var i :| 0 <= i < |st.rows| && st.rows[i] == x;
      assert Filed(st, i);
    }
    AllInScope(own, scope);
    assert Numbered(own);
    SortOfSorted(own, Sequence);
  }

  lemma {:induction false} FindOnly(rows: seq<Row>, x: Row)
    requires x in rows && forall y | y in rows :: y.turn.id == x.turn.id ==> y == x
    ensures Find(rows, x.turn.id) == Some(x)
    decreases |rows|
  {
    assert rows[0] in rows;
    if rows[0] != x {
      FindOnly(rows[1..], x);
    }
  }

  lemma BranchTurnIsFound(st: Store, p: nat, t: nat)
    requires Inv(st) && t < |st.rows| && st.rows[t].conversation == p
    ensures Find(Of(st.rows, p), t) == Some(st.rows[t])
  {
    var x := st.rows[t];
    assert Filed(st, t);
    OfMembers(st.rows, p, x);
    forall y | y in Of(st.rows, p) ensures y.turn.id == t ==> y == x {
      OfMembers(st.rows, p, y);
      var i :| 0 <= i < |st.rows| && st.rows[i] == y;
      assert Filed(st, i);
    }
    FindOnly(Of(st.rows, p), x);
  }

  /** The history without its error paths. */
  ghost function View(st: Store, c: nat): seq<Row>
    requires Inv(st) && c < |st.conversations|
    decreases c
  {
    var own := Of(st.rows, c);
    assert Linked(st, c);
    match st.conversations[c].parent
    case None => own
    case Some(p) =>
      match st.conversations[c].branchTurn
      case None => View(st, p) + own
      case Some(t) => UpTo(View(st, p), p, st.rows[t].turn.sequence) + own
  }

  /** In a sound store a history is refused exactly for an unknown conversation; the missing-parent-turn
      error cannot occur. */
  lemma {:induction false} HistoryNeverBreaks(st: Store, scope: Scope, c: nat)
    requires Inv(st) && ParentsComeFirst(st)
    ensures History(st, scope, c) == if Known(st, scope, c) then Success(View(st, c)) else Failure(PolicyDenied)
    decreases c
  {
    if Known(st, scope, c) {
      assert Linked(st, c);
      var me := st.conversations[c];
      DirectIsOf(st, scope, c);
      if me.parent.Some? {
        HistoryNeverBreaks(st, scope, me.parent.value);
        DirectIsOf(st, scope, me.parent.value);
        if me.branchTurn.Some? { BranchTurnIsFound(st, me.parent.value, me.branchTurn.value); }
      }
    }
  }

  /** From the empty store, after any run: a history is refused exactly for an unknown conversation, and
      otherwise holds exactly the visible turns, once each and in order. */
  lemma ReachableHistories(ops: seq<Op>, scope: Scope, c: nat)
    ensures var st := After(Store([], []), ops);
      && Inv(st) && ParentsComeFirst(st)
      && (History(st, scope, c).Success? <==> Known(st, scope, c))
      && (History(st, scope, c).Failure? ==> History(st, scope, c).error == PolicyDenied)
      && (History(st, scope, c).Success? ==>
        var s := History(st, scope, c).value;
        Chronological(s) && forall x :: x in s <==> x in st.rows && Visible(st, c, x))
  {
    EmptyIsSound();
    RunKeepsInv(Store([], []), ops);
    var st := After(Store([], []), ops);
    InvGivesOrder(st);
    HistoryNeverBreaks(st, scope, c);
    if Known(st, scope, c) { HistoryIsTheVisibleTurns(st, c); }
  }

  /** The stored turns of a conversation are what the history selection expects. */
  lemma DirectIsInOrder(st: Store, scope: Scope, c: nat)
    requires Inv(st) && Known(st, scope, c)
    ensures var own := Direct(st, scope, c); InOrder(seq(|own|, i requires 0 <= i < |own| => own[i].turn))
    ensures forall k | 0 <= k < |Direct(st, scope, c)| :: Direct(st, scope, c)[k].turn.sequence == k + 1
  {
    DirectIsOf(st, scope, c);
    var own := Of(st.rows, c);
    assert Numbered(own);
    forall i, j | 0 <= i < j < |own| ensures own[i].turn.id != own[j].turn.id {
      OfMembers(st.rows, c, own[i]);
      OfMembers(st.rows, c, own[j]);
      var a :| 0 <= a < |st.rows| && st.rows[a] == own[i];
      var b :| 0 <= b < |st.rows| && st.rows[b] == own[j];
      assert Filed(st, a) && Filed(st, b);
      assert own[i].turn.sequence != own[j].turn.sequence;
    }
  }

  // ------------------------------------------------------------ what is visible

  /** `a` is `c` or one of its ancestors. */
  predicate Reaches(st: Store, c: nat, a: nat)
    requires ParentsComeFirst(st)
    decreases c
  {
    c < |st.conversations| && (a == c || (st.conversations[c].parent.Some? && Reaches(st, st.conversations[c].parent.value, a)))
  }

  /** The branch turn named by the link through which the lineage of `c` enters `a`. */
  function CutAt(st: Store, c: nat, a: nat): Option<nat>
    requires ParentsComeFirst(st) && Reaches(st, c, a) && a != c
    decreases c
  {
    var me := st.conversations[c];
    if me.parent.value == a then me.branchTurn else CutAt(st, me.parent.value, a)
  }

  /** A turn is visible from `c` when its conversation is on the lineage and the link into that
      conversation names no branch turn, or one that is not earlier. */
  ghost predicate Visible(st: Store, c: nat, x: Row)
    requires Inv(st) && ParentsComeFirst(st)
  {
    && Reaches(st, c, x.conversation)
    && (x.conversation != c && CutAt(st, c, x.conversation).Some? ==>
      var t := CutAt(st, c, x.conversation).value; t < |st.rows| && x.turn.sequence <= st.rows[t].turn.sequence)
  }

  predicate Earlier(x: Row, y: Row) {
    x.conversation < y.conversation || (x.conversation == y.conversation && x.turn.sequence < y.turn.sequence)
  }

  predicate Chronological(s: seq<Row>) { forall i, j | 0 <= i < j < |s| :: Earlier(s[i], s[j]) }

  lemma {:induction false} UpToMembers(s: seq<Row>, p: nat, limit: nat, x: Row)
    ensures x in UpTo(s, p, limit) <==> x in s && (x.conversation != p || x.turn.sequence <= limit)
    decreases |s|
  {
    if s != [] {
      UpToMembers(s[..|s|-1], p, limit, x);
      assert s == s[..|s|-1] + [s[|s|-1]];
    }
  }

  lemma {:induction false} UpToChronological(s: seq<Row>, p: nat, limit: nat)
    requires Chronological(s)
    ensures Chronological(UpTo(s, p, limit))
    decreases |s|
  {
    if s != [] {
      var before, last := s[..|s|-1], s[|s|-1];
      UpToChronological(before, p, limit);
      forall x | x in UpTo(before, p, limit) ensures Earlier(x, last) {
        UpToMembers(before, p, limit, x);
        var i :| 0 <= i < |before| && before[i] == x;
        assert Earlier(s[i], s[|s|-1]);
      }
    }
  }

  lemma VisibleFromParent(st: Store, c: nat, x: Row)
    requires Inv(st) && ParentsComeFirst(st) && c < |st.conversations| && st.conversations[c].parent.Some? && x.conversation != c
    ensures var me := st.conversations[c];
      Visible(st, c, x) <==>
        && Visible(st, me.parent.value, x)
        && (x.conversation == me.parent.value && me.branchTurn.Some? ==>
          me.branchTurn.value < |st.rows| && x.turn.sequence <= st.rows[me.branchTurn.value].turn.sequence)
  {
    assert Linked(st, c);
  }

  /** The visible history holds exactly the visible turns, each once, ancestors first and each
      conversation in sequence order. */
  lemma {:induction false} HistoryIsTheVisibleTurns(st: Store, c: nat)
    requires Inv(st) && ParentsComeFirst(st) && c < |st.conversations|
    ensures Chronological(View(st, c))
    ensures forall x :: x in View(st, c) ==> x.conversation <= c
    ensures forall x :: x in View(st, c) <==> x in st.rows && Visible(st, c, x)
    decreases c
  {
    var own, me := Of(st.rows, c), st.conversations[c];
    assert Linked(st, c);
    forall x ensures x in own <==> x in st.rows && x.conversation == c { OfMembers(st.rows, c, x); }
    assert Numbered(own);
    assert forall i | 0 <= i < |own| :: own[i] in own;
    assert Chronological(own);
    if me.parent.Some? {
      var p := me.parent.value;
      HistoryIsTheVisibleTurns(st, p);
      var inherited := View(st, p);
      if me.branchTurn.Some? {
        var limit := st.rows[me.branchTurn.value].turn.sequence;
        UpToChronological(inherited, p, limit);
        forall x ensures x in UpTo(inherited, p, limit) <==> x in inherited && (x.conversation != p || x.turn.sequence <= limit) {
          UpToMembers(inherited, p, limit, x);
        }
        Joined(UpTo(inherited, p, limit), own, p, c);
      } else {
        Joined(inherited, own, p, c);
      }
      forall x ensures x in View(st, c) <==> x in st.rows && Visible(st, c, x) {
        if x.conversation != c { VisibleFromParent(st, c, x); }
      }
    }
  }

  lemma Joined(inherited: seq<Row>, own: seq<Row>, p: nat, c: nat)
    requires Chronological(inherited) && Chronological(own) && p < c
    requires (forall x | x in inherited :: x.conversation <= p) && (forall x | x in own :: x.conversation == c)
    ensures Chronological(inherited + own)
  {
    forall i, j | 0 <= i < |inherited| && 0 <= j < |own| ensures Earlier(inherited[i], own[j]) {
      assert inherited[i] in inherited && own[j] in own;
    }
  }

  // ------------------------------------------------------------ isolation

  /** `d` sees new turns of `a`: it is `a`, or it descends from it through a link that names no
      branch turn. */
  predicate Follows(st: Store, d: nat, a: nat)
    requires ParentsComeFirst(st)
  {
    Reaches(st, d, a) && (a != d ==> CutAt(st, d, a).None?)
  }

  function Dropped(s: seq<Row>, id: nat): seq<Row> {
    if s == [] then []
    else
      var rest := Dropped(s[..|s|-1], id);
      if s[|s|-1].turn.id == id then rest else rest + [s[|s|-1]]
  }

  lemma {:induction false} DroppedAbsent(s: seq<Row>, id: nat)
    requires forall x | x in s :: x.turn.id != id
    ensures Dropped(s, id) == s
    decreases |s|
  {
    if s != [] {
      DroppedAbsent(s[..|s|-1], id);
      assert s == s[..|s|-1] + [s[|s|-1]];
    }
  }

  lemma {:induction false} DroppedConcat(s: seq<Row>, t: seq<Row>, id: nat)
    ensures Dropped(s + t, id) == Dropped(s, id) + Dropped(t, id)
    decreases |t|
  {
    if t == [] {
      assert s + t == s;
    } else {
      DroppedConcat(s, t[..|t|-1], id);
      assert (s + t)[..|s + t| - 1] == s + t[..|t|-1];
    }
  }

  lemma {:induction false} DroppedUpTo(s: seq<Row>, p: nat, limit: nat, id: nat)
    ensures Dropped(UpTo(s, p, limit), id) == UpTo(Dropped(s, id), p, limit)
    decreases |s|
  {
    if s != [] {
      var before, last := s[..|s|-1], s[|s|-1];
      DroppedUpTo(before, p, limit, id);
      assert (UpTo(before, p, limit) + [last])[..|UpTo(before, p, limit)|] == UpTo(before, p, limit);
      assert (Dropped(before, id) + [last])[..|Dropped(before, id)|] == Dropped(before, id);
    }
  }

  lemma OldIds(st: Store, x: Row)
    requires Inv(st) && x in st.rows
    ensures x.turn.id < |st.rows| && st.rows[x.turn.id] == x
  {
    var i :| 0 <= i < |st.rows| && st.rows[i] == x;
    assert Filed(st, i);
  }

  /** Apart from the new turn itself, an append leaves every history as it was. */
  lemma {:induction false} AppendOnlyAdds(st: Store, scope: Scope, a: nat, m: Message, d: nat)
    requires Inv(st) && Inv(Append(st, scope, a, m)) && Known(st, scope, a) && d < |st.conversations|
    ensures Dropped(View(Append(st, scope, a, m), d), |st.rows|) == View(st, d)
    decreases d
  {
    var next, id := Append(st, scope, a, m), |st.rows|;
    var old_, new_, me := Of(st.rows, d), Of(next.rows, d), st.conversations[d];
    OfAppend(st.rows, NewRow(st, scope, a, m), d);
    forall x | x in old_ ensures x.turn.id != id {
      OfMembers(st.rows, d, x);
      OldIds(st, x);
    }
    DroppedAbsent(old_, id);
    assert Dropped(new_, id) == old_ by { if a == d { assert new_[..|old_|] == old_; } }
    assert Linked(st, d);
    if me.parent.Some? {
      var p := me.parent.value;
      AppendOnlyAdds(st, scope, a, m, p);
      if me.branchTurn.Some? {
        var limit := st.rows[me.branchTurn.value].turn.sequence;
        DroppedUpTo(View(next, p), p, limit, id);
        DroppedConcat(UpTo(View(next, p), p, limit), new_, id);
      } else {
        DroppedConcat(View(next, p), new_, id);
      }
    }
  }

  lemma {:induction false} SameLineage(st: Store, next: Store, d: nat, a: nat)
    requires ParentsComeFirst(st) && ParentsComeFirst(next) && d < |st.conversations| <= |next.conversations|
    requires forall c | 0 <= c < |st.conversations| :: next.conversations[c] == st.conversations[c]
    ensures Reaches(next, d, a) == Reaches(st, d, a)
    ensures Reaches(st, d, a) && a != d ==> CutAt(next, d, a) == CutAt(st, d, a)
    decreases d
  {
    if a != d && st.conversations[d].parent.Some? { SameLineage(st, next, st.conversations[d].parent.value, a); }
  }

  lemma {:induction false} CutIsInAncestor(st: Store, d: nat, a: nat)
    requires Inv(st) && ParentsComeFirst(st) && Reaches(st, d, a) && a != d && CutAt(st, d, a).Some?
    ensures CutAt(st, d, a).value < |st.rows| && st.rows[CutAt(st, d, a).value].conversation == a
    decreases d
  {
    assert Linked(st, d);
    if st.conversations[d].parent.value != a { CutIsInAncestor(st, st.conversations[d].parent.value, a); }
  }

  lemma SequenceIsCounted(st: Store, x: Row)
    requires Inv(st) && x in st.rows
    ensures x.turn.sequence <= Greatest(st.rows, x.conversation)
  {
    OfMembers(st.rows, x.conversation, x);
    assert Numbered(Of(st.rows, x.conversation));
    GreatestIsCount(st.rows, x.conversation);
  }

  /** The new turn is visible exactly where the appended conversation is followed. */
  lemma NewTurnVisibility(st: Store, scope: Scope, a: nat, m: Message, d: nat)
    requires Inv(st) && Known(st, scope, a) && d < |st.conversations| && ParentsComeFirst(st)
    requires Inv(Append(st, scope, a, m)) && ParentsComeFirst(Append(st, scope, a, m))
    ensures Visible(Append(st, scope, a, m), d, NewRow(st, scope, a, m)) <==> Follows(st, d, a)
  {
    var next := Append(st, scope, a, m);
    SameLineage(st, next, d, a);
    if Reaches(st, d, a) && a != d && CutAt(st, d, a).Some? {
      CutIsInAncestor(st, d, a);
      var t := CutAt(st, d, a).value;
      SequenceIsCounted(st, st.rows[t]);
    }
  }

  /** Appending to `a` changes the history of `d` if and only if `d` is `a` or descends from it through
      a link that names no branch turn; and then only by the new turn. */
  lemma BranchIsolation(st: Store, scope: Scope, a: nat, m: Message, d: nat)
    requires Inv(st) && Known(st, scope, a) && d < |st.conversations| && ParentsComeFirst(st)
    ensures var next := Append(st, scope, a, m);
      && Inv(next)
      && Dropped(View(next, d), |st.rows|) == View(st, d)
      && (View(next, d) != View(st, d) <==> Follows(st, d, a))
      && (NewRow(st, scope, a, m) in View(next, d) <==> Follows(st, d, a))
  {
    AppendKeepsInv(st, scope, a, m);
    var next, r := Append(st, scope, a, m), NewRow(st, scope, a, m);
    InvGivesOrder(next);
    AppendOnlyAdds(st, scope, a, m, d);
    HistoryIsTheVisibleTurns(next, d);
    HistoryIsTheVisibleTurns(st, d);
    NewTurnVisibility(st, scope, a, m, d);
    assert r in next.rows;
    if !Follows(st, d, a) {
      forall x | x in View(next, d) ensures x.turn.id != |st.rows| {
        OldIds(next, x);
      }
      DroppedAbsent(View(next, d), |st.rows|);
    } else if r in View(st, d) {
      OldIds(st, r);
    }
  }

  // ------------------------------------------------------------ whole runs

  /** Every link on the lineage names a branch turn. */
  ghost predicate Pinned(st: Store, d: nat)
    requires ParentsComeFirst(st)
  {
    forall a: nat | Reaches(st, d, a) && a != d :: CutAt(st, d, a).Some?
  }

  /** `b` is `a` followed by turns of conversation `d`. */
  predicate GrowsBy(a: seq<Row>, b: seq<Row>, d: nat) {
    |a| <= |b| && b[..|a|] == a && forall i | |a| <= i < |b| :: b[i].conversation == d
  }

  lemma GrowsOn(a: seq<Row>, b: seq<Row>, c: seq<Row>, d: nat)
    requires GrowsBy(a, b, d) && GrowsBy(b, c, d)
    ensures GrowsBy(a, c, d)
  {
    assert c[..|a|] == c[..|b|][..|a|];
    forall i | |a| <= i < |c| ensures c[i].conversation == d {
      if i < |b| { assert c[i] == c[..|b|][i] == b[i]; }
    }
  }

  lemma {:induction false} NewConversationIsUnseen(st: Store, me: Conversation, d: nat)
    requires Inv(st) && d < |st.conversations| && Inv(st.(conversations := st.conversations + [me]))
    ensures View(st.(conversations := st.conversations + [me]), d) == View(st, d)
    decreases d
  {
    assert Linked(st, d);
    if st.conversations[d].parent.Some? { NewConversationIsUnseen(st, me, st.conversations[d].parent.value); }
  }

  lemma OwnAppend(st: Store, scope: Scope, d: nat, m: Message)
    requires Inv(st) && Known(st, scope, d) && Inv(Append(st, scope, d, m)) && ParentsComeFirst(st)
    ensures View(Append(st, scope, d, m), d) == View(st, d) + [NewRow(st, scope, d, m)]
  {
    var next := Append(st, scope, d, m);
    OfAppend(st.rows, NewRow(st, scope, d, m), d);
    assert Linked(st, d);
    if st.conversations[d].parent.Some? {
      var p := st.conversations[d].parent.value;
      NotBelow(st, p, d);
      BranchIsolation(st, scope, d, m, p);
    }
  }

  lemma {:induction false} NotBelow(st: Store, c: nat, a: nat)
    requires ParentsComeFirst(st) && c < a
    ensures !Reaches(st, c, a)
    decreases c
  {
    if c < |st.conversations| && st.conversations[c].parent.Some? { NotBelow(st, st.conversations[c].parent.value, a); }
  }

  /** A pinned branch keeps its history through one step, up to its own new turns. */
  lemma PinnedStep(st: Store, op: Op, d: nat)
    requires Inv(st) && ParentsComeFirst(st) && d < |st.conversations| && Pinned(st, d)
    ensures var next := Exec(st, op);
      && Inv(next) && ParentsComeFirst(next) && d < |next.conversations| && Pinned(next, d)
      && GrowsBy(View(st, d), View(next, d), d)
  {
    StepKeepsInv(st, op);
    var next := Exec(st, op);
    InvGivesOrder(next);
    forall a: nat | Reaches(next, d, a) && a != d ensures CutAt(next, d, a).Some? { SameLineage(st, next, d, a); }
    match op
    case OpenOp(scope) => NewConversationIsUnseen(st, Conversation(scope, None, None), d);
    case BranchOp(scope, c, from) =>
      if BranchAllowed(st, scope, c, from) { NewConversationIsUnseen(st, Conversation(scope, Some(c), from), d); }
    case AppendOp(scope, a, m) =>
      if Known(st, scope, a) {
        if a == d { OwnAppend(st, scope, d, m); } else { BranchIsolation(st, scope, a, m, d); }
      }
  }

  /** Through any run of opens, branches and appends, the history of a pinned branch only grows at its
      end, by its own turns. */
  lemma {:induction false} PinnedHistoryIsStable(st: Store, ops: seq<Op>, d: nat)
    requires Inv(st) && ParentsComeFirst(st) && d < |st.conversations| && Pinned(st, d)
    ensures var end := After(st, ops);
      && Inv(end) && d < |end.conversations|
      && GrowsBy(View(st, d), View(end, d), d)
    decreases |ops|
  {
    if ops != [] {
      PinnedStep(st, ops[0], d);
      PinnedHistoryIsStable(Exec(st, ops[0]), ops[1..], d);
      GrowsOn(View(st, d), View(Exec(st, ops[0]), d), View(After(st, ops), d), d);
    }
  }

  /** A fresh branch shows its parent's history cut at the branch turn. */
  lemma BranchShowsParent(st: Store, scope: Scope, c: nat, from: Option<nat>)
    requires Inv(st) && BranchAllowed(st, scope, c, from)
    ensures var next := Branch(st, scope, c, from);
      && Inv(next) && (from.Some? ==> from.value < |st.rows|)
      && View(next, |st.conversations|) == if from.Some? then UpTo(View(st, c), c, st.rows[from.value].turn.sequence) else View(st, c)
  {
    StepKeepsInv(st, BranchOp(scope, c, from));
    var next, d := Branch(st, scope, c, from), |st.conversations|;
    assert Linked(next, d);
    NewConversationIsUnseen(st, Conversation(scope, Some(c), from), c);
    forall i | 0 <= i < |st.rows| ensures st.rows[i].conversation != d { assert Filed(st, i); }
    NoneOf(st.rows, d);
  }

  lemma {:induction false} NoneOf(rows: seq<Row>, c: nat)
    requires forall i | 0 <= i < |rows| :: rows[i].conversation != c
    ensures Of(rows, c) == []
    decreases |rows|
  {
    if rows != [] { NoneOf(rows[..|rows|-1], c); }
  }

  /** Appending to a conversation of the caller's scope adds one row: the message, under the next id and the
      conversation's next number. Nothing else changes, and elsewhere nothing is written. */
  lemma AppendAnswers(st: Store, scope: Scope, c: nat, m: Message)
    requires Inv(st)
    ensures var next := Append(st, scope, c, m);
      var row := Row(scope, c, Turn(|st.rows|, |Of(st.rows, c)| + 1, m.role, m.intent, m.outcome, m.text));
      && next.conversations == st.conversations
      && next.rows == (if c < |st.conversations| && st.conversations[c].scope == scope then st.rows + [row] else st.rows)
  {
    GreatestIsCount(st.rows, c);
  }

  /** A branch is made exactly from a conversation of the caller's scope and, if it names a turn, from a turn of
      that very conversation; it then records both. Opening records neither. No turn is written. */
  lemma BranchAnswers(st: Store, scope: Scope, c: nat, from: Option<nat>)
    requires Inv(st)
    ensures var allowed := c < |st.conversations| && st.conversations[c].scope == scope
        && (from.Some? ==> from.value < |st.rows| && st.rows[from.value].conversation == c);
      && Branch(st, scope, c, from).rows == st.rows
      && Branch(st, scope, c, from).conversations == st.conversations + (if allowed then [Conversation(scope, Some(c), from)] else [])
      && Open(st, scope) == Store(st.conversations + [Conversation(scope, None, None)], st.rows)
  {
    if from.Some? && from.value < |st.rows| { assert Filed(st, from.value); }
    if BranchAllowed(st, scope, c, from) && from.Some? {
      var i :| 0 <= i < |st.rows| && st.rows[i].turn.id == from.value && st.rows[i].conversation == c;
      assert Filed(st, i);
    }
  }

  // ------------------------------------------------------------ the service

  class ConversationService {
    var conversations: seq<Conversation>
    var rows: seq<Row>

    constructor ()
      ensures Contents() == Store([], [])
    {
      conversations, rows := [], [];
    }

    function Contents(): Store reads this { Store(conversations, rows) }

    method OpenConversation(scope: Scope, parent: Option<nat>, branchTurn: Option<nat>) returns (id: nat)
      modifies this
      ensures id == |old(conversations)|
      ensures Contents() == Store(old(conversations) + [Conversation(scope, parent, branchTurn)], old(rows))
    {
      id := |conversations|;
      conversations := conversations + [Conversation(scope, parent, branchTurn)];
    }

    method BranchConversation(scope: Scope, source: nat, from: Option<nat>) returns (r: Result<nat, HistoryError>)
      modifies this
      ensures Contents() == Branch(old(Contents()), scope, source, from)
      ensures r == if BranchAllowed(old(Contents()), scope, source, from) then Success(|old(conversations)|) else Failure(PolicyDenied)
    {
      if source >= |conversations| || conversations[source].scope != scope { return Failure(PolicyDenied); }
      if from.Some? {
        if !exists i :: 0 <= i < |rows| && rows[i].turn.id == from.value && rows[i].conversation == source {
          return Failure(PolicyDenied);
        }
      }
      var id := OpenConversation(scope, Some(source), from);
      r := Success(id);
    }

    method AppendTurn(scope: Scope, target: nat, m: Message) returns (r: Result<Row, HistoryError>)
      modifies this
      ensures Contents() == Append(old(Contents()), scope, target, m)
      ensures r == if Known(old(Contents()), scope, target) then Success(NewRow(old(Contents()), scope, target, m)) else Failure(PolicyDenied)
    {
      if target >= |conversations| || conversations[target].scope != scope { return Failure(PolicyDenied); }
      var sequence := Greatest(rows, target) + 1;
      var record := Row(scope, target, Turn(|rows|, sequence, m.role, m.intent, m.outcome, m.text));
      rows := rows + [record];
      r := Success(record);
    }
  }
}
