/** No positive history budget is safe: for each there is a conversation the chat service can store,
    prompts and replies in turn, that exceeds it. It is made of long turns, a padded one that the spare
    room takes back in, and at most one more that fills the room for recent turns. */
module HistoryOverrun {
  import opened Wrappers
  import opened ChatHistory
  import ChatPlan
  import Store = BranchHistory
  import opened TurnAllocation

  // ------------------------------------------------------------ a refill that lengthens the summary

  /** All lines have the same size, line break included. */
  predicate Even(lines: seq<string>, size: nat) { forall i | 0 <= i < |lines| :: |lines[i]| + 1 == size }

  /** `k` times `size`. */
  function Times(k: nat, size: nat): nat { if k == 0 then 0 else Times(k - 1, size) + size }

  lemma {:induction false} TimesIsProduct(k: nat, size: nat)
    ensures Times(k, size) == k * size
  {
    if k > 0 {
      TimesIsProduct(k - 1, size);
      assert k * size == (k - 1) * size + size;
    }
  }

  lemma {:induction false} FitEven(lines: seq<string>, size: nat, room: int, k: nat)
    requires Even(lines, size) && k <= |lines| && Times(k, size) <= room && (k < |lines| ==> room < Times(k, size) + size)
    ensures Size(Fitting(lines, room)) == Times(k, size)
    decreases |lines|
  {
    if lines != [] {
      var n := |lines| - 1;
      EvenStart(lines, size);
      if k == 0 {
        assert Fitting(lines, room) == Fitting(lines[..n], room);
        FitEven(lines[..n], size, room, 0);
      } else {
        FitEven(lines[..n], size, room - size, k - 1);
        FitLast(lines, room);
      }
    }
  }

  lemma EvenStart(lines: seq<string>, size: nat)
    requires lines != [] && Even(lines, size)
    ensures Even(lines[..|lines|-1], size) && |lines[|lines|-1]| + 1 == size
  {
  }

  lemma FitLast(lines: seq<string>, room: int)
    requires lines != [] && |lines[|lines|-1]| + 1 <= room
    ensures var size := |lines[|lines|-1]| + 1; Size(Fitting(lines, room)) == Size(Fitting(lines[..|lines|-1], room - size)) + size
  {
    var n := |lines| - 1;
    SizeOfMore(Fitting(lines[..n], room - |lines[n]| - 1), lines[n]);
  }

  lemma SizeOfMore(lines: seq<string>, last: string)
    ensures Size(lines + [last]) == Size(lines) + |last| + 1
  {
    assert (lines + [last])[..|lines|] == lines;
  }

  lemma FitMore(lines: seq<string>, last: string, room: int)
    requires |last| + 1 <= room
    ensures Size(Fitting(lines + [last], room)) == Size(Fitting(lines, room - |last| - 1)) + |last| + 1
  {
    FitLast(lines + [last], room);
    assert (lines + [last])[..|lines|] == lines;
  }

  /** One more line behind them, which fits. */
  lemma FitEvenThen(lines: seq<string>, last: string, size: nat, room: int, k: nat)
    requires Even(lines, size) && k <= |lines| && |last| + 1 <= room
    requires Times(k, size) <= room - |last| - 1 && (k < |lines| ==> room - |last| - 1 < Times(k, size) + size)
    ensures Size(Fitting(lines + [last], room)) == Times(k, size) + |last| + 1
  {
    FitEven(lines, size, room - |last| - 1, k);
    FitMore(lines, last, room);
  }

  /** The lines of long turns take `size` characters each and exactly `k + 1` of them fit a summary of `cap`
      tokens; the short turn behind them, with a line of `short` characters, takes the place of one. */
  predicate Displaces(long: seq<Turn>, b: Turn, size: nat, short: nat, k: nat, cap: int) {
    && k < |long| < SUMMARY_TURNS && Even(Lines(long), size) && |Line(b)| + 1 == short <= size
    && 35 + Times(k, size) + size <= cap * 4 < 35 + Times(k, size) + size + short && 35 + Times(k, size) + short <= cap * 4
  }

  lemma LongSummary(long: seq<Turn>, size: nat, k: nat, cap: int)
    requires k < |long| <= SUMMARY_TURNS && Even(Lines(long), size)
    requires 35 + Times(k, size) + size <= cap * 4 < 35 + Times(k, size) + size + size
    ensures |Compact(long, cap)| == 35 + Times(k + 1, size)
  {
    FitEven(Lines(long), size, cap * 4 - 35, k + 1);
    SummaryChars(long, cap);
  }

  lemma SummaryChars(s: seq<Turn>, cap: int)
    requires 1 <= |s| <= SUMMARY_TURNS
    ensures |Compact(s, cap)| == 35 + Size(Fitting(Lines(s), cap * 4 - 35))
  {
    assert |HEADING| == 35;
    SummarySize(s, cap);
  }

  lemma BothSummary(long: seq<Turn>, b: Turn, size: nat, k: nat, cap: int)
    requires k < |long| < SUMMARY_TURNS && Even(Lines(long), size)
    requires 35 + Times(k, size) + |Line(b)| + 1 <= cap * 4 < 35 + Times(k, size) + size + |Line(b)| + 1
    ensures |Compact(long + [b], cap)| == 35 + Times(k, size) + |Line(b)| + 1
  {
    FitEvenThen(Lines(long), Line(b), size, cap * 4 - 35, k);
    LinesAppend(long, b);
    SummaryChars(long + [b], cap);
  }

  lemma LinesAppend(a: seq<Turn>, b: Turn)
    ensures Lines(a + [b]) == Lines(a) + [Line(b)]
  {
    LinesSnoc(a + [b]);
    assert (a + [b])[..|a|] == a && (a + [b])[|a|] == b;
    var all := Lines(a + [b]);
    assert all == all[..|a|] + [all[|a|]];
  }

  // ------------------------------------------------------------ the selection it leads to

  lemma {:induction false} WithoutOthers(s: seq<Turn>, ids: set<nat>)
    requires forall i | 0 <= i < |s| :: s[i].id !in ids
    ensures Without(s, ids) == s
    decreases |s|
  {
    if s != [] {
      WithoutOthers(s[..|s|-1], ids);
      assert s == s[..|s|-1] + [s[|s|-1]];
    }
  }

  lemma {:induction false} WithoutBoth(a: seq<Turn>, b: seq<Turn>, ids: set<nat>)
    ensures Without(a + b, ids) == Without(a, ids) + Without(b, ids)
    decreases |b|
  {
    if b == [] {
      assert a + b == a;
    } else {
      WithoutBoth(a, b[..|b|-1], ids);
      assert (a + b)[..|a + b| - 1] == a + b[..|b|-1];
    }
  }

  /** Taking out the turns at the end leaves the others. */
  lemma WithoutEnd(a: seq<Turn>, b: seq<Turn>)
    requires InOrder(a + b)
    ensures Without(a + b, Ids(b)) == a
  {
    WithoutBoth(a, b, Ids(b));
    WithoutAll(b, Ids(b));
    forall i | 0 <= i < |a| ensures a[i].id !in Ids(b) {
      forall j | 0 <= j < |b| ensures a[i].id != b[j].id { assert (a + b)[i].id != (a + b)[|a| + j].id; }
    }
    WithoutOthers(a, Ids(b));
  }

  lemma ChosenLast(a: seq<Turn>, b: Turn, room: int)
    requires Cost(b) == room
    ensures Chosen(a + [b], room) == [b]
  {
    assert (a + [b])[..|a|] == a;
    NothingFits(a, 0);
  }

  lemma OrderedStart(a: seq<Turn>, b: seq<Turn>)
    requires InOrder(a + b)
    ensures InOrder(a)
  {
    forall i, j | 0 <= i < j < |a| ensures Position(a[i]) < Position(a[j]) && a[i].id != a[j].id {
      assert (a + b)[i] == a[i] && (a + b)[j] == a[j];
    }
  }

  /** A conversation that does not fit, whose first choice is `tail` and whose spare room is exactly `b`. */
  predicate Refilled(long: seq<Turn>, b: Turn, tail: seq<Turn>, budget: int) {
    var items := long + [b] + tail;
    && InOrder(items) && |items| <= MAX_HISTORY_TURNS && 0 < budget < Total(items) && FirstChoice(items, budget) == tail
    && Cost(b) == Cap(budget) - EstimateTokens(Compact(long + [b], Cap(budget)))
  }

  /** It then costs both choices and the summary of the long turns, which is the longer one. */
  lemma RefillCost(long: seq<Turn>, b: Turn, tail: seq<Turn>, size: nat, short: nat, k: nat, budget: int)
    requires Refilled(long, b, tail, budget) && Displaces(long, b, size, short, k, Cap(budget))
    ensures HistoryCost(Select(long + [b] + tail, budget)) == Total(tail) + Cost(b) + (35 + Times(k + 1, size) + 3) / 4
  {
    var items := long + [b] + tail;
    TakesTheShort(long, b, tail, budget);
    LongSummary(long, size, k, Cap(budget));
    CompactedCost(items, budget);
    assert Total([b]) == Cost(b) by { assert [b][..0] == []; }
  }

  lemma TakesTheShort(long: seq<Turn>, b: Turn, tail: seq<Turn>, budget: int)
    requires InOrder(long + [b] + tail) && FirstChoice(long + [b] + tail, budget) == tail
    requires Cost(b) == Cap(budget) - EstimateTokens(Compact(long + [b], Cap(budget)))
    ensures TakenIn(long + [b] + tail, budget) == [b] && FinallyOmitted(long + [b] + tail, budget) == long
  {
    var items, head := long + [b] + tail, long + [b];
    LeavesHead(head, tail, budget);
    OrderedStart(head, tail);
    TakesLast(items, long, b, budget);
  }

  lemma LeavesHead(head: seq<Turn>, tail: seq<Turn>, budget: int)
    requires InOrder(head + tail) && FirstChoice(head + tail, budget) == tail
    ensures FirstOmitted(head + tail, budget) == head
  {
    WithoutEnd(head, tail);
  }

  lemma TakesLast(items: seq<Turn>, long: seq<Turn>, b: Turn, budget: int)
    requires InOrder(long + [b]) && FirstOmitted(items, budget) == long + [b]
    requires Cost(b) == Cap(budget) - EstimateTokens(Compact(long + [b], Cap(budget)))
    ensures TakenIn(items, budget) == [b] && FinallyOmitted(items, budget) == long
  {
    ChosenLast(long, b, Cost(b));
    WithoutEnd(long, [b]);
  }

  // ------------------------------------------------------------ the conversation

  /** What the turn table and its one writer allow: a prompt and its reply in turn, numbered from 1, with
      the intent and the outcome of the exchange, and texts that are not blank at either end. */
  predicate Storable(s: seq<Turn>) {
    |s| % 2 == 0 && forall i | 0 <= i < |s| :: StorableTurn(s, i)
  }

  predicate StorableTurn(s: seq<Turn>, i: nat)
    requires i < |s|
  {
    && s[i].id == i && s[i].sequence == i + 1 && s[i].role == Role(i + 1)
    && (s[i].outcome == "ROUTED" || s[i].outcome == "REFUSED" || s[i].outcome == "ANSWERED")
    && Trimmed(s[i].text)
    && (i % 2 == 1 ==> s[i].intent == s[i-1].intent && s[i].outcome == s[i-1].outcome)
  }

  function Role(n: nat): string { if n % 2 == 1 then "user" else "studio" }

  /** Turn `n`: a prompt no rule recognises, or the provider's reply to it. */
  function Said(n: nat, text: string): Turn
    requires n >= 1
  {
    Turn(n - 1, n, Role(n), "UNKNOWN", "ANSWERED", text)
  }

  function Solid(n: nat): string { seq(n, _ => 'x') }

  /** Two letters with blanks between them: long to store, three characters in a summary. */
  function Padded(n: nat): string
    requires n >= 3
  {
    ['x'] + seq(n - 2, _ => ' ') + ['x']
  }

  lemma {:induction false} SqueezeSolid(s: string)
    requires forall i | 0 <= i < |s| :: s[i] == 'x'
    ensures Squeeze(s) == s
    decreases |s|
  {
    if s != [] {
      SqueezeSolid(s[..|s|-1]);
      assert s == s[..|s|-1] + [s[|s|-1]];
      assert !IsSpace('x');
    }
  }

  lemma {:induction false} SqueezeBlanks(n: nat)
    ensures Squeeze(['x'] + seq(n, _ => ' ')) == ['x']
    decreases n
  {
    var s := ['x'] + seq(n, _ => ' ');
    if n == 0 {
      assert s == ['x'] && s[..0] == [];
      assert Squeeze(s) == Squeeze([]) + ['x'];
    } else {
      SqueezeBlanks(n - 1);
      assert s[..|s|-1] == ['x'] + seq(n - 1, _ => ' ');
      assert s[|s|-1] == ' ' && IsSpace(' ');
    }
  }

  lemma SqueezePadded(n: nat)
    requires n >= 3
    ensures Squeeze(Padded(n)) == ['x', ' ', 'x']
  {
    var s := Padded(n);
    SqueezeBlanks(n - 2);
    assert s[..|s|-1] == ['x'] + seq(n - 2, _ => ' ');
    assert s[|s|-2] == ' ' && IsSpace(' ') && !IsSpace('x');
  }

  lemma DecimalSize(n: nat)
    requires 1 <= n < 100
    ensures |ChatPlan.Decimal(n)| == if n < 10 then 1 else 2
  {
    if n >= 10 { assert |ChatPlan.Decimal(n / 10)| == 1; }
  }

  /** What a line holds besides the text, line break included. */
  function Overhead(n: nat): nat { 26 + (if n < 10 then 1 else 2) + (if n % 2 == 1 then 4 else 6) }

  lemma SaidLine(n: nat, text: string, length: nat)
    requires 1 <= n < 100 && |Squeeze(text)| == length <= LINE_TEXT
    ensures |Line(Said(n, text))| + 1 == Overhead(n) + length
  {
    DecimalSize(n);
  }

  /** How many long turns fill a summary of `cap` tokens, and the size of their lines. */
  function Count(cap: int): int { (cap * 4 - 35 + 249) / 250 }
  function LongSize(cap: int): int
    requires cap >= SUMMARY_MIN_TOKENS
  {
    (cap * 4 - 35) / Count(cap)
  }

  lemma {:induction false} Sizes(cap: int)
    requires SUMMARY_MIN_TOKENS <= cap <= SUMMARY_MAX_TOKENS
    ensures var q, z, room := Count(cap), LongSize(cap), cap * 4 - 35;
      2 <= q <= 16 && 163 <= z <= 250 && Times(q - 1, z) + z <= room < Times(q - 1, z) + z + 16
  {
    var q, room := Count(cap), cap * 4 - 35;
    var z := room / q;
    assert 2 <= q <= 16 && 250 * (q - 1) < room <= 250 * q;
    assert room == q * z + room % q;
    Quotient(room, q, 163, 250);
    TimesIsProduct(q, z);
  }

  lemma {:induction false} Grows(q: nat, a: int, b: int)
    requires a < b
    ensures q * a + q <= q * b
    decreases b - a
  {
    assert q * b == q * (b - 1) + q;
    if a < b - 1 { Grows(q, a, b - 1); }
  }

  lemma Quotient(n: nat, q: nat, least: nat, most: nat)
    requires q > 0 && q * least <= n <= q * most
    ensures least <= n / q <= most
  {
    var z := n / q;
    assert n == q * z + n % q;
    if z > most { Grows(q, most, z); }
    if z < least { Grows(q, z, least); }
  }

  predicate Capped(cap: int) { SUMMARY_MIN_TOKENS <= cap <= SUMMARY_MAX_TOKENS }

  /** The long turns: as many as fill a summary, and one more when `pad` is 1. */
  function Long(cap: int, pad: nat): seq<Turn>
    requires Capped(cap) && pad <= 1
  {
    Sizes(cap);
    seq(Count(cap) + pad, i requires 0 <= i < Count(cap) + pad => LongTurn(cap, i + 1))
  }

  function LongTurn(cap: int, n: nat): Turn
    requires Capped(cap) && n >= 1
  {
    Sizes(cap);
    Said(n, Solid(LongSize(cap) - Overhead(n)))
  }

  function ShortNumber(cap: int, pad: nat): nat
    requires Capped(cap)
  {
    Sizes(cap);
    Count(cap) + pad + 1
  }

  /** The size of the short turn's line. */
  function ShortSize(cap: int, pad: nat): nat
    requires Capped(cap)
  {
    Overhead(ShortNumber(cap, pad)) + 3
  }

  /** The room the first summary leaves. */
  function Room(cap: int, pad: nat): int
    requires Capped(cap)
  {
    Sizes(cap);
    cap - (35 + Times(Count(cap) - 1, LongSize(cap)) + ShortSize(cap, pad) + 3) / 4
  }

  function Short(cap: int, pad: nat): Turn
    requires Capped(cap)
  {
    RoomIsLarge(cap, pad);
    Said(ShortNumber(cap, pad), Padded(4 * (Room(cap, pad) - TURN_OVERHEAD)))
  }

  lemma RoomIsLarge(cap: int, pad: nat)
    requires Capped(cap)
    ensures 31 <= Room(cap, pad) && Count(cap) >= 2
  {
    Sizes(cap);
  }

  lemma LongLine(cap: int, n: nat)
    requires Capped(cap) && 1 <= n < 100
    ensures |Line(LongTurn(cap, n))| + 1 == LongSize(cap)
  {
    Sizes(cap);
    var m := LongSize(cap) - Overhead(n);
    SqueezeSolid(Solid(m));
    SaidLine(n, Solid(m), m);
  }

  lemma LongLines(cap: int, pad: nat)
    requires Capped(cap) && pad <= 1
    ensures |Long(cap, pad)| == Count(cap) + pad && LongSize(cap) > 0 && Even(Lines(Long(cap, pad)), LongSize(cap))
  {
    Sizes(cap);
    forall i | 0 <= i < |Long(cap, pad)| ensures |Lines(Long(cap, pad))[i]| + 1 == LongSize(cap) {
      LongLine(cap, i + 1);
      assert Lines(Long(cap, pad))[i] == Line(LongTurn(cap, i + 1));
    }
  }

  lemma ShortLine(cap: int, pad: nat)
    requires Capped(cap) && pad <= 1
    ensures |Line(Short(cap, pad))| + 1 == ShortSize(cap, pad) && Cost(Short(cap, pad)) == Room(cap, pad)
  {
    RoomIsLarge(cap, pad);
    Sizes(cap);
    var m := 4 * (Room(cap, pad) - TURN_OVERHEAD);
    SqueezePadded(m);
    SaidLine(ShortNumber(cap, pad), Padded(m), 3);
  }

  lemma LongDisplaced(cap: int, pad: nat)
    requires Capped(cap) && pad <= 1
    ensures LongSize(cap) > 0 && Count(cap) >= 2
    ensures Displaces(Long(cap, pad), Short(cap, pad), LongSize(cap), ShortSize(cap, pad), Count(cap) - 1, cap)
    ensures Cost(Short(cap, pad)) == cap - EstimateTokens(Compact(Long(cap, pad) + [Short(cap, pad)], cap))
  {
    Sizes(cap);
    LongLines(cap, pad);
    ShortLine(cap, pad);
    BothSummary(Long(cap, pad), Short(cap, pad), LongSize(cap), Count(cap) - 1, cap);
  }

  // ------------------------------------------------------------ with the room for recent turns

  /** Whether the room for recent turns is filled by a turn of its own, and whether the number of turns
      then needs one more to be even. */
  predicate Fills(budget: int) { budget - Cap(budget) > TURN_OVERHEAD }

  function Pad(budget: int): nat {
    if (Count(Cap(budget)) + 1 + (if Fills(budget) then 1 else 0)) % 2 == 1 then 1 else 0
  }

  function Head(budget: int): seq<Turn>
    requires budget > 0
  {
    Long(Cap(budget), Pad(budget)) + [Short(Cap(budget), Pad(budget))]
  }

  function Filler(budget: int): seq<Turn>
    requires budget > 0
  {
    if Fills(budget) then [Said(ShortNumber(Cap(budget), Pad(budget)) + 1, Solid(4 * (budget - Cap(budget) - TURN_OVERHEAD)))] else []
  }

  /** The conversation. */
  function Conversation(budget: int): seq<Turn>
    requires budget > 0
  {
    Head(budget) + Filler(budget)
  }

  /** Not blank at either end. */
  predicate Trimmed(text: string) { text != "" && !IsSpace(text[0]) && !IsSpace(text[|text|-1]) }

  lemma ConversationTurn(budget: int, i: nat)
    requires budget > 0 && i < |Conversation(budget)|
    ensures var t := Conversation(budget)[i]; t == Said(i + 1, t.text) && Trimmed(t.text)
  {
    var cap, pad := Cap(budget), Pad(budget);
    Sizes(cap);
    if i < |Long(cap, pad)| {
      assert Conversation(budget)[i] == LongTurn(cap, i + 1);
      SolidIsTrimmed(LongSize(cap) - Overhead(i + 1));
    } else if i == |Long(cap, pad)| {
      assert Conversation(budget)[i] == Short(cap, pad);
      RoomIsLarge(cap, pad);
      PaddedIsTrimmed(4 * (Room(cap, pad) - TURN_OVERHEAD));
    } else {
      assert Conversation(budget)[i] == Filler(budget)[0];
      SolidIsTrimmed(4 * (budget - cap - TURN_OVERHEAD));
    }
  }

  lemma SolidIsTrimmed(n: nat)
    requires n > 0
    ensures Trimmed(Solid(n))
  {
    assert !IsSpace('x');
  }

  lemma PaddedIsTrimmed(n: nat)
    requires n >= 3
    ensures Trimmed(Padded(n))
  {
    assert !IsSpace('x');
  }

  lemma ConversationIsEven(budget: int)
    requires budget > 0
    ensures |Conversation(budget)| % 2 == 0 && |Conversation(budget)| <= 18
  {
    CountIsSmall(Cap(budget));
    var n := ConversationLength(budget);
    Parity(n);
  }

  lemma ConversationLength(budget: int) returns (n: int)
    requires budget > 0
    ensures |Conversation(budget)| == n + (if n % 2 == 1 then 1 else 0) && Count(Cap(budget)) < n <= Count(Cap(budget)) + 2
    ensures n == 18 ==> Count(Cap(budget)) == 16
  {
    n := Count(Cap(budget)) + 1 + if Fills(budget) then 1 else 0;
  }

  lemma CountIsSmall(cap: int)
    requires Capped(cap)
    ensures 2 <= Count(cap) <= 16
  {
  }

  lemma Parity(n: int)
    ensures (n + if n % 2 == 1 then 1 else 0) % 2 == 0
  {
  }

  lemma SaidIsStorable(s: seq<Turn>)
    requires |s| % 2 == 0 && forall i | 0 <= i < |s| :: s[i] == Said(i + 1, s[i].text) && Trimmed(s[i].text)
    ensures Storable(s)
  {
    forall i | 0 <= i < |s| ensures StorableTurn(s, i) {
      if i > 0 { assert s[i-1] == Said(i, s[i-1].text); }
    }
  }

  lemma ConversationIsStorable(budget: int)
    requires budget > 0
    ensures var s := Conversation(budget); Storable(s) && InOrder(s) && |s| <= 18
  {
    var s := Conversation(budget);
    ConversationIsEven(budget);
    forall i | 0 <= i < |s| ensures s[i] == Said(i + 1, s[i].text) && Trimmed(s[i].text) { ConversationTurn(budget, i); }
    SaidIsStorable(s);
    StorableInOrder(s);
  }

  lemma StorableInOrder(s: seq<Turn>)
    requires Storable(s)
    ensures InOrder(s)
  {
    forall i, j | 0 <= i < j < |s| ensures Position(s[i]) < Position(s[j]) && s[i].id != s[j].id {
      assert StorableTurn(s, i) && StorableTurn(s, j);
    }
  }

  lemma HeadCosts(budget: int, i: nat)
    requires budget > 0 && i < |Head(budget)|
    ensures Cost(Head(budget)[i]) > TURN_OVERHEAD
  {
    var cap, pad := Cap(budget), Pad(budget);
    if i < |Long(cap, pad)| {
      LongCosts(cap, pad, i);
      Sizes(cap);
    } else {
      ShortLine(cap, pad);
      RoomIsLarge(cap, pad);
    }
  }

  lemma FillerIsChosen(budget: int)
    requires budget > 0
    ensures FirstChoice(Conversation(budget), budget) == Filler(budget)
    ensures Total(Filler(budget)) == if Fills(budget) then budget - Cap(budget) else 0
  {
    var room := Max(0, budget - Cap(budget));
    if Fills(budget) {
      var f := Filler(budget)[0];
      ChosenLast(Head(budget), f, room);
      assert Filler(budget) == [f] && Total([f]) == Cost(f) by { assert [f][..0] == []; }
    } else {
      assert Conversation(budget) == Head(budget);
      forall t | t in Head(budget) ensures Cost(t) > room {
        var i :| 0 <= i < |Head(budget)| && Head(budget)[i] == t;
        HeadCosts(budget, i);
      }
      NothingFits(Head(budget), room);
    }
  }

  /** NO BUDGET IS SAFE. Every positive budget is exceeded, by at least 16 tokens, by a conversation of at
      most 18 turns that the chat service can store. */
  lemma EveryBudgetCanBeExceeded(budget: int)
    requires budget > 0
    ensures var s := Conversation(budget); Storable(s) && InOrder(s) && |s| <= 18 && HistoryCost(Select(s, budget)) >= budget + 16
  {
    ConversationIsStorable(budget);
    ConversationExceeds(budget);
  }

  lemma ConversationExceeds(budget: int)
    requires budget > 0
    ensures HistoryCost(Select(Conversation(budget), budget)) >= budget + 16
  {
    var cap, pad := Cap(budget), Pad(budget);
    var size, short, k := Fitted(cap, pad);
    ConversationRefills(budget);
    FillerIsChosen(budget);
    RefillCost(Long(cap, pad), Short(cap, pad), Filler(budget), size, short, k, budget);
  }

  lemma ConversationRefills(budget: int)
    requires budget > 0
    ensures Refilled(Long(Cap(budget), Pad(budget)), Short(Cap(budget), Pad(budget)), Filler(budget), budget)
  {
    ConversationIsStorable(budget);
    FillerIsChosen(budget);
    LongDisplaced(Cap(budget), Pad(budget));
    TotalIsLarge(budget);
  }

  /** The short turn displaces one of the long ones, and it and the longer summary exceed the summary's
      share by at least 28 tokens. */
  lemma Fitted(cap: int, pad: nat) returns (size: nat, short: nat, k: nat)
    requires Capped(cap) && pad <= 1
    ensures Displaces(Long(cap, pad), Short(cap, pad), size, short, k, cap)
    ensures Cost(Short(cap, pad)) + (35 + Times(k + 1, size) + 3) / 4 >= cap + 28
  {
    LongDisplaced(cap, pad);
    ExcessIsLarge(cap, pad);
    size, short, k := LongSize(cap), ShortSize(cap, pad), Count(cap) - 1;
  }

  lemma ExcessIsLarge(cap: int, pad: nat)
    requires Capped(cap) && pad <= 1
    ensures LongSize(cap) > 0 && Count(cap) > 0
    ensures Cost(Short(cap, pad)) + (35 + Times(Count(cap), LongSize(cap)) + 3) / 4 >= cap + 28
  {
    ShortLine(cap, pad);
    RoomIsLarge(cap, pad);
    Sizes(cap);
  }

  lemma {:induction false} TotalOfMany(s: seq<Turn>, quarters: nat)
    requires forall i | 0 <= i < |s| :: Cost(s[i]) * 4 >= quarters
    ensures Total(s) * 4 >= Times(|s|, quarters)
    decreases |s|
  {
    if s != [] { TotalOfMany(s[..|s|-1], quarters); }
  }

  lemma {:induction false} TimesMore(k: nat, size: nat, more: nat)
    ensures Times(k, size + more) == Times(k, size) + Times(k, more)
  {
    if k > 0 { TimesMore(k - 1, size, more); }
  }

  lemma LongCosts(cap: int, pad: nat, i: nat)
    requires Capped(cap) && pad <= 1 && i < |Long(cap, pad)|
    ensures LongSize(cap) >= 0 && Cost(Long(cap, pad)[i]) * 4 >= LongSize(cap) + 11
  {
    Sizes(cap);
    assert Long(cap, pad)[i] == LongTurn(cap, i + 1);
  }

  lemma {:induction false} TimesGrows(k: nat, more: nat, size: nat)
    ensures Times(k + more, size) >= Times(k, size)
    decreases more
  {
    if more > 0 { TimesGrows(k, more - 1, size); }
  }

  lemma LongTotal(cap: int, pad: nat)
    requires Capped(cap) && pad <= 1
    ensures Total(Long(cap, pad)) >= cap - 7
  {
    Sizes(cap);
    var q, z := Count(cap), LongSize(cap);
    forall i | 0 <= i < |Long(cap, pad)| ensures Cost(Long(cap, pad)[i]) * 4 >= z + 11 { LongCosts(cap, pad, i); }
    TotalOfMany(Long(cap, pad), z + 11);
    TimesGrows(q, pad, z + 11);
    TimesMore(q, z, 11);
    TimesIsProduct(q, 11);
  }

  lemma TotalIsLarge(budget: int)
    requires budget > 0
    ensures Total(Conversation(budget)) > budget
  {
    var cap, pad := Cap(budget), Pad(budget);
    var b := Short(cap, pad);
    LongTotal(cap, pad);
    RoomIsLarge(cap, pad);
    ShortLine(cap, pad);
    FillerIsChosen(budget);
    TotalConcat(Head(budget), Filler(budget));
    TotalConcat(Long(cap, pad), [b]);
    assert Total([b]) == Cost(b) by { assert [b][..0] == []; }
  }

  // ------------------------------------------------------------ the conversation is stored

  /** Opening a conversation and appending the turns one by one. */
  function Writes(s: seq<Turn>, scope: Store.Scope): seq<Store.Op> {
    if s == [] then [Store.OpenOp(scope)]
    else
      var t := s[|s|-1];
      Writes(s[..|s|-1], scope) + [Store.AppendOp(scope, 0, Store.Message(t.role, t.intent, t.outcome, t.text))]
  }

  function Rows(s: seq<Turn>, scope: Store.Scope): seq<Store.Row> {
    if s == [] then [] else Rows(s[..|s|-1], scope) + [Store.Row(scope, 0, s[|s|-1])]
  }

  predicate Numbered(s: seq<Turn>) { forall i | 0 <= i < |s| :: s[i].id == i && s[i].sequence == i + 1 }

  lemma {:induction false} AfterLast(st: Store.Store, ops: seq<Store.Op>, op: Store.Op)
    ensures Store.After(st, ops + [op]) == Store.Exec(Store.After(st, ops), op)
    decreases |ops|
  {
    if ops == [] {
      assert ops + [op] == [op] && [op][1..] == [];
      assert Store.After(st, [op]) == Store.After(Store.Exec(st, op), []);
    } else {
      AfterLast(Store.Exec(st, ops[0]), ops[1..], op);
      assert (ops + [op])[1..] == ops[1..] + [op];
    }
  }

  lemma {:induction false} RowsOf(s: seq<Turn>, scope: Store.Scope)
    requires Numbered(s)
    ensures |Rows(s, scope)| == |s| && Store.Greatest(Rows(s, scope), 0) == |s| && Store.Of(Rows(s, scope), 0) == Rows(s, scope)
    ensures forall i | 0 <= i < |s| :: Rows(s, scope)[i].turn == s[i]
    decreases |s|
  {
    if s != [] {
      var before := Rows(s[..|s|-1], scope);
      RowsOf(s[..|s|-1], scope);
      assert Rows(s, scope)[..|before|] == before;
    }
  }

  lemma {:induction false} WritesStore(s: seq<Turn>, scope: Store.Scope)
    requires Numbered(s)
    ensures Store.After(Store.Store([], []), Writes(s, scope)) == Store.Store([Store.Conversation(scope, None, None)], Rows(s, scope))
    decreases |s|
  {
    var empty := Store.Store([], []);
    if s == [] {
      var open := Store.OpenOp(scope);
      AfterLast(empty, [], open);
      assert [] + [open] == [open] == Writes(s, scope);
    } else {
      var before, t := s[..|s|-1], s[|s|-1];
      WritesStore(before, scope);
      AppendsRow(before, t, scope);
      AfterLast(empty, Writes(before, scope), Store.AppendOp(scope, 0, Store.Message(t.role, t.intent, t.outcome, t.text)));
    }
  }

  lemma AppendsRow(before: seq<Turn>, t: Turn, scope: Store.Scope)
    requires Numbered(before) && t.id == |before| && t.sequence == |before| + 1
    ensures var conversations := [Store.Conversation(scope, None, None)];
      var op := Store.AppendOp(scope, 0, Store.Message(t.role, t.intent, t.outcome, t.text));
      Store.Exec(Store.Store(conversations, Rows(before, scope)), op)
        == Store.Store(conversations, Rows(before, scope) + [Store.Row(scope, 0, t)])
  {
    RowsOf(before, scope);
  }

  /** Any numbered turns are what the store holds, and the history loads, after they were appended. */
  lemma WrittenIsRead(s: seq<Turn>, scope: Store.Scope)
    requires Numbered(s)
    ensures var rows := Store.Direct(Store.After(Store.Store([], []), Writes(s, scope)), scope, 0);
      |rows| == |s| && forall i | 0 <= i < |s| :: rows[i].turn == s[i]
  {
    var st := Store.After(Store.Store([], []), Writes(s, scope));
    WritesStore(s, scope);
    RowsOf(s, scope);
    Store.EmptyIsSound();
    Store.RunKeepsInv(Store.Store([], []), Writes(s, scope));
    Store.DirectIsOf(st, scope, 0);
  }

  /** The exceeding conversations are reachable: appended to a new conversation, they are read back. */
  lemma ConversationIsReachable(budget: int, scope: Store.Scope)
    requires budget > 0
    ensures var s := Conversation(budget); var rows := Store.Direct(Store.After(Store.Store([], []), Writes(s, scope)), scope, 0);
      |rows| == |s| && forall i | 0 <= i < |s| :: rows[i].turn == s[i]
  {
    var s := Conversation(budget);
    ConversationIsStorable(budget);
    forall i | 0 <= i < |s| ensures s[i].id == i && s[i].sequence == i + 1 { assert StorableTurn(s, i); }
    WrittenIsRead(s, scope);
  }

  /** And so every turn that leaves its history anything can exceed its total, while it reports the total. */
  lemma EveryTurnCanOverrun(total: int, fixed: nat, refs: seq<ResolvedRef>, recall: nat -> nat)
    requires DistinctRefs(refs) && WithinBudget(recall) && fixed < total && Allocate(total, fixed, refs, recall).history > 0
    ensures var h := Allocate(total, fixed, refs, recall).history;
      var m := TurnContext(total, fixed, refs, recall, Conversation(h));
      Storable(Conversation(h)) && Carried(fixed, m) >= total + 16 && m.used == total
  {
    AllocationIsExact(total, fixed, refs, recall);
    EveryBudgetCanBeExceeded(Allocate(total, fixed, refs, recall).history);
  }
}
