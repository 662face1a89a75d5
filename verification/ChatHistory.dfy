/** Which stored turns of a conversation a provider is shown: everything when it fits, otherwise
    the newest that fit beside a deterministic summary of the rest, with unused summary room
    handed back to further turns. */
module ChatHistory {
  import opened Wrappers
  import opened StableSort
  import ChatPlan

  datatype Turn = Turn(id: nat, sequence: nat, role: string, intent: string, outcome: string, text: string)
  datatype Selection = Selection(selected: seq<Turn>, summary: Option<string>, omitted: seq<Turn>)

  const MAX_HISTORY_TURNS := 120
  const TURN_OVERHEAD := 12
  const SUMMARY_MAX_TOKENS := 1000
  const SUMMARY_MIN_TOKENS := 128
  const SUMMARY_TURNS := 32
  const LINE_TEXT := 220
  const HEADING := "Compacted earlier DDE Chat history:"

  /** A quarter of the characters, rounded up. */
  function EstimateTokens(text: string): (t: nat)
    ensures 4 * t - 4 < |text| <= 4 * t
  {
    (|text| + 3) / 4
  }

  function Cost(t: Turn): nat { EstimateTokens(t.text) + TURN_OVERHEAD }
  function Total(s: seq<Turn>): nat { if s == [] then 0 else Total(s[..|s|-1]) + Cost(s[|s|-1]) }
  function Position(t: Turn): real { t.sequence as real }
  function Max(a: int, b: int): int { if a < b then b else a }
  function Min(a: int, b: int): int { if a < b then a else b }

  /** Rows of one conversation as the query returns them. */
  predicate InOrder(s: seq<Turn>) {
    && StrictlyAscending(s, Position)
    && forall i, j | 0 <= i < j < |s| :: s[i].id != s[j].id
  }

  /** The ascending query stops after 120 rows. */
  function Loaded(turns: seq<Turn>): seq<Turn> {
    if |turns| <= MAX_HISTORY_TURNS then turns else turns[..MAX_HISTORY_TURNS]
  }

  // ------------------------------------------------------------ greedy choice, newest first

  function Rev<T>(s: seq<T>): seq<T> { if s == [] then [] else [s[|s|-1]] + Rev(s[..|s|-1]) }

  /** The turns that fit, tried from the newest; one that does not fit is passed over. */
  function Chosen(s: seq<Turn>, room: int): seq<Turn> {
    if s == [] then []
    else
      var n := |s| - 1;
      if Cost(s[n]) > room then Chosen(s[..n], room) else Chosen(s[..n], room - Cost(s[n])) + [s[n]]
  }

  function Ids(s: seq<Turn>): set<nat> { set i | 0 <= i < |s| :: s[i].id }

  /** The turns whose id is not in `ids`. */
  function Without(s: seq<Turn>, ids: set<nat>): seq<Turn> {
    if s == [] then []
    else
      var rest := Without(s[..|s|-1], ids);
      if s[|s|-1].id in ids then rest else rest + [s[|s|-1]]
  }

  // ------------------------------------------------------------ the summary

  predicate IsSpace(c: char) {
    var n := c as int;
    9 <= n <= 13 || 28 <= n <= 32 || n == 0x85 || n == 0xa0 || n == 0x1680 || 0x2000 <= n <= 0x200a
    || n == 0x2028 || n == 0x2029 || n == 0x202f || n == 0x205f || n == 0x3000
  }

  /** Runs of white space become one blank; none is left at either end. */
  function Squeeze(s: string): string {
    if s == [] then []
    else
      var n := |s| - 1;
      var r := Squeeze(s[..n]);
      if IsSpace(s[n]) then r
      else if r != [] && IsSpace(s[n-1]) then r + [' ', s[n]]
      else r + [s[n]]
  }

  function Line(t: Turn): string {
    var text := Squeeze(t.text);
    "- #" + ChatPlan.Decimal(t.sequence) + " " + t.role + " [" + t.intent + "/" + t.outcome + "]: "
    + (if |text| <= LINE_TEXT then text else text[..LINE_TEXT])
  }

  function Lines(s: seq<Turn>): seq<string> { seq(|s|, i requires 0 <= i < |s| => Line(s[i])) }

  /** The lines that fit in `room` characters, each with a line break, tried from the newest. */
  function Fitting(lines: seq<string>, room: int): seq<string> {
    if lines == [] then []
    else
      var n := |lines| - 1;
      var size := |lines[n]| + 1;
      if size > room then Fitting(lines[..n], room) else Fitting(lines[..n], room - size) + [lines[n]]
  }

  function Join(heading: string, lines: seq<string>): string {
    if lines == [] then heading else Join(heading, lines[..|lines|-1]) + "\n" + lines[|lines|-1]
  }

  function Window(s: seq<Turn>): seq<Turn> { if |s| <= SUMMARY_TURNS then s else s[|s| - SUMMARY_TURNS..] }

  function Compact(s: seq<Turn>, cap: int): string {
    if s == [] then "" else Join(HEADING, Fitting(Lines(Window(s)), cap * 4 - |HEADING|))
  }

  // ------------------------------------------------------------ the selection

  function Cap(budget: int): int { Min(SUMMARY_MAX_TOKENS, Max(SUMMARY_MIN_TOKENS, budget / 4)) }

  /** The turns left to the summary after the first and the second choice. */
  function FirstOmitted(items: seq<Turn>, budget: int): seq<Turn> {
    Without(items, Ids(Chosen(items, Max(0, budget - Cap(budget)))))
  }

  function Spare(left: seq<Turn>, cap: int): int { Max(0, cap - EstimateTokens(Compact(left, cap))) }

  function FinallyOmitted(items: seq<Turn>, budget: int): seq<Turn> {
    var left := FirstOmitted(items, budget);
    Without(left, Ids(Chosen(left, Spare(left, Cap(budget)))))
  }

  /** Every loaded turn is shown as it stands unless it was omitted. */
  function Select(turns: seq<Turn>, budget: int): Selection {
    var items := Loaded(turns);
    if items == [] || budget <= 0 then Selection([], None, items)
    else if Total(items) <= budget then Selection(items, None, [])
    else
      var omitted := FinallyOmitted(items, budget);
      Selection(Without(items, Ids(omitted)), Some(Compact(omitted, Cap(budget))), omitted)
  }

  /** The turns kept at first and those taken in afterwards, and what a summary of some turns costs. */
  function FirstChoice(items: seq<Turn>, budget: int): seq<Turn> { Chosen(items, Max(0, budget - Cap(budget))) }

  function TakenIn(items: seq<Turn>, budget: int): seq<Turn> {
    var left := FirstOmitted(items, budget);
    Chosen(left, Spare(left, Cap(budget)))
  }

  function SummaryCost(s: seq<Turn>, budget: int): nat { EstimateTokens(Compact(s, Cap(budget))) }

  function SummaryTokens(s: Selection): nat { if s.summary.Some? then EstimateTokens(s.summary.value) else 0 }

  // ------------------------------------------------------------ parts of an ordered list

  predicate PartOf(part: seq<Turn>, whole: seq<Turn>) { InOrder(part) && multiset(part) <= multiset(whole) }

  lemma Members<T>(part: seq<T>, whole: seq<T>, x: T)
    requires multiset(part) <= multiset(whole) && x in part
    ensures x in whole
  {
    assert x in multiset(part);
    assert x in multiset(whole);
  }

  lemma {:induction false} WithoutCount(s: seq<Turn>, ids: set<nat>, x: Turn)
    ensures multiset(Without(s, ids))[x] == if x.id in ids then 0 else multiset(s)[x]
    decreases |s|
  {
    if s != [] {
      WithoutCount(s[..|s|-1], ids, x);
      assert s == s[..|s|-1] + [s[|s|-1]];
    }
  }

  lemma {:induction false} OnlyOnce(s: seq<Turn>, x: Turn)
    requires InOrder(s)
    ensures multiset(s)[x] <= 1
    decreases |s|
  {
    if s != [] {
      var n := |s| - 1;
      OnlyOnce(s[..n], x);
      assert s == s[..n] + [s[n]];
      assert s[n] !in s[..n];
    }
  }

  lemma SameId(s: seq<Turn>, x: Turn, y: Turn)
    requires InOrder(s) && x in s && y in s && x.id == y.id
    ensures x == y
  {
    var i :| 0 <= i < |s| && s[i] == x;
    var j :| 0 <= j < |s| && s[j] == y;
    assert !(i < j) && !(j < i);
  }

  /** Leaving out a part by its ids leaves exactly the other turns. */
  lemma WithoutPart(s: seq<Turn>, part: seq<Turn>)
    requires InOrder(s) && multiset(part) <= multiset(s)
    ensures multiset(Without(s, Ids(part))) == multiset(s) - multiset(part)
  {
    forall x: Turn ensures multiset(Without(s, Ids(part)))[x] == (multiset(s) - multiset(part))[x] {
      WithoutCount(s, Ids(part), x);
      OnlyOnce(s, x);
      if x in part {
        assert x.id in Ids(part);
        assert multiset(part)[x] >= 1;
      } else if x.id in Ids(part) {
        var y :| y in part && y.id == x.id;
        Members(part, s, y);
        if x in s { SameId(s, x, y); }
      }
    }
  }

  lemma Subsequence(s: seq<Turn>, r: seq<Turn>)
    requires s != [] && InOrder(s) && InOrder(r) && multiset(r) <= multiset(s[..|s|-1])
    ensures InOrder(r + [s[|s|-1]]) && multiset(r + [s[|s|-1]]) <= multiset(s)
  {
    var n := |s| - 1;
    assert s == s[..n] + [s[n]];
    forall i | 0 <= i < |r| ensures Position(r[i]) < Position(s[n]) && r[i].id != s[n].id {
      Members(r, s[..n], r[i]);
      var j :| 0 <= j < n && s[j] == r[i];
    }
  }

  lemma {:induction false} WithoutInOrder(s: seq<Turn>, ids: set<nat>)
    requires InOrder(s)
    ensures PartOf(Without(s, ids), s)
    decreases |s|
  {
    if s != [] {
      WithoutInOrder(s[..|s|-1], ids);
      assert s == s[..|s|-1] + [s[|s|-1]];
      if s[|s|-1].id !in ids { Subsequence(s, Without(s[..|s|-1], ids)); }
    }
  }

  lemma {:induction false} ChosenIsPart(s: seq<Turn>, room: int)
    requires InOrder(s)
    ensures PartOf(Chosen(s, room), s)
    decreases |s|
  {
    if s != [] {
      var n := |s| - 1;
      Snoc(s);
      if Cost(s[n]) > room {
        ChosenIsPart(s[..n], room);
      } else {
        ChosenIsPart(s[..n], room - Cost(s[n]));
        Subsequence(s, Chosen(s[..n], room - Cost(s[n])));
      }
    }
  }

  lemma {:induction false} ChosenFits(s: seq<Turn>, room: int)
    ensures Total(Chosen(s, room)) <= Max(0, room)
    decreases |s|
  {
    if s != [] {
      var n := |s| - 1;
      if Cost(s[n]) > room {
        ChosenFits(s[..n], room);
      } else {
        var r := Chosen(s[..n], room - Cost(s[n]));
        ChosenFits(s[..n], room - Cost(s[n]));
        assert (r + [s[n]])[..|r|] == r;
      }
    }
  }

  /** NEWEST FIRST, read from the oldest end: the choice among the newer turns is made first, and this turn is
      shown exactly when its cost fits beside what they take. */
  lemma {:induction false} OldestIsLast(s: seq<Turn>, room: int)
    requires s != []
    ensures var newer := Chosen(s[1..], room);
      Chosen(s, room) == if Cost(s[0]) <= room - Total(newer) then [s[0]] + newer else newer
    decreases |s|
  {
    var n := |s| - 1;
    if n == 0 {
      assert s[..n] == [] && s[1..] == [];
    } else {
      var later := s[1..];
      var left := if Cost(s[n]) > room then room else room - Cost(s[n]);
      assert later[..|later|-1] == s[..n][1..] && later[|later|-1] == s[n];
      OldestIsLast(s[..n], left);
      var newer := Chosen(s[..n][1..], left);
      assert Cost(s[n]) <= room ==> (newer + [s[n]])[..|newer|] == newer;
      assert ([s[0]] + newer) + [s[n]] == [s[0]] + (newer + [s[n]]);
    }
  }

  function Sizes(lines: seq<string>): nat { if lines == [] then 0 else Sizes(lines[..|lines|-1]) + |lines[|lines|-1]| + 1 }

  /** The same for the lines of a summary. */
  lemma {:induction false} OldestLineIsLast(lines: seq<string>, room: int)
    requires lines != []
    ensures var newer := Fitting(lines[1..], room);
      Fitting(lines, room) == if |lines[0]| + 1 <= room - Sizes(newer) then [lines[0]] + newer else newer
    decreases |lines|
  {
    var n := |lines| - 1;
    if n == 0 {
      assert lines[..n] == [] && lines[1..] == [];
    } else {
      var later := lines[1..];
      var size := |lines[n]| + 1;
      var left := if size > room then room else room - size;
      assert later[..|later|-1] == lines[..n][1..] && later[|later|-1] == lines[n];
      OldestLineIsLast(lines[..n], left);
      var newer := Fitting(lines[..n][1..], left);
      assert size <= room ==> (newer + [lines[n]])[..|newer|] == newer;
      assert ([lines[0]] + newer) + [lines[n]] == [lines[0]] + (newer + [lines[n]]);
    }
  }

  // ------------------------------------------------------------ white space

  predicate NoSpace(s: string) { forall i | 0 <= i < |s| :: !IsSpace(s[i]) }

  /** Two squeezed texts with white space between them. */
  function Spaced(a: string, b: string): string { if a == "" then b else if b == "" then a else a + " " + b }

  /** A text without white space stays as it is. */
  lemma {:induction false} SqueezeWord(s: string)
    requires NoSpace(s)
    ensures Squeeze(s) == s
    decreases |s|
  {
    if s != [] {
      SqueezeWord(s[..|s|-1]);
      assert s == s[..|s|-1] + [s[|s|-1]];
    }
  }

  /** One more character after a squeezed text, which white space followed or did not. */
  function Extended(r: string, gap: bool, x: char): string {
    if IsSpace(x) then r else if r != [] && gap then r + [' ', x] else r + [x]
  }

  predicate EndsInSpace(s: string) { s != [] && IsSpace(s[|s|-1]) }

  lemma SqueezeMore(s: string, before: string, x: char)
    requires s == before + [x]
    ensures Squeeze(s) == Extended(Squeeze(before), EndsInSpace(before), x)
  {
    var n := |s| - 1;
    assert s[..n] == before && s[n] == x;
    if before == [] { assert Squeeze(before) == []; } else { assert s[n-1] == before[n-1]; }
  }

  lemma SplitMore(p: string, q: string, gap: bool, inner: bool, x: char)
    requires if q == [] then gap else gap == inner
    ensures Extended(Spaced(p, q), gap, x) == Spaced(p, Extended(q, inner, x))
  {
    if q == [] {
      assert p + [' ', x] == p + " " + [x];
    } else if p != [] {
      assert (p + " " + q) + [' ', x] == p + " " + (q + [' ', x]);
      assert (p + " " + q) + [x] == p + " " + (q + [x]);
    }
  }

  lemma EndsInWord(s: string)
    ensures s != [] && !EndsInSpace(s) ==> Squeeze(s) != []
  {
  }

  /** Cut at any white space, both sides are squeezed on their own and one blank joins what is left of them.
      With `SqueezeWord` this determines the result: a text is its words, joined by single blanks. */
  lemma {:induction false} SqueezeSplit(a: string, c: char, b: string)
    requires IsSpace(c)
    ensures Squeeze(a + [c] + b) == Spaced(Squeeze(a), Squeeze(b))
    decreases |b|
  {
    if b == [] {
      assert a + [c] + b == a + [c];
      SqueezeMore(a + [c], a, c);
    } else {
      var before, x := b[..|b|-1], b[|b|-1];
      assert b == before + [x] && a + [c] + b == (a + [c] + before) + [x];
      SqueezeSplit(a, c, before);
      SqueezeMore(a + [c] + b, a + [c] + before, x);
      SqueezeMore(b, before, x);
      EndsInWord(before);
      assert EndsInSpace(a + [c] + before) <==> before == [] || EndsInSpace(before);
      SplitMore(Squeeze(a), Squeeze(before), EndsInSpace(a + [c] + before), EndsInSpace(before), x);
    }
  }

  /** A summary line names the turn's number, role and outcome and ends in the squeezed text, or its first 220
      characters. */
  lemma LineShows(t: Turn)
    ensures var text := Squeeze(t.text); var shown := text[..Min(|text|, 220)];
      && |Line(t)| >= |shown| && Line(t)[|Line(t)| - |shown|..] == shown
      && Line(t)[..|Line(t)| - |shown|] == "- #" + ChatPlan.Decimal(t.sequence) + " " + t.role + " [" + t.intent + "/" + t.outcome + "]: "
  {
  }

  lemma NewestLines(s: seq<Turn>)
    ensures var newest := s[Max(0, |s| - 32)..];
      && |Window(s)| == Min(|s|, 32) && Window(s) == newest
      && forall i | 0 <= i < |newest| :: Lines(newest)[i] == Line(newest[i])
  {
    if |s| <= 32 { assert s[0..] == s; }
  }

  /** A summary is the heading and the lines chosen among the newest 32 of the turns it is for. */
  lemma CompactShows(s: seq<Turn>, cap: int)
    requires s != []
    ensures var newest := s[Max(0, |s| - 32)..];
      && |newest| == Min(|s|, 32) && Compact(s, cap) == Join(HEADING, Fitting(Lines(newest), 4 * cap - |HEADING|))
      && forall i | 0 <= i < |newest| :: Lines(newest)[i] == Line(newest[i])
  {
    NewestLines(s);
  }

  // ------------------------------------------------------------ totals do not depend on order

  lemma {:induction false} TotalConcat(a: seq<Turn>, b: seq<Turn>)
    ensures Total(a + b) == Total(a) + Total(b)
    decreases |b|
  {
    if b == [] {
      assert a + b == a;
    } else {
      TotalConcat(a, b[..|b|-1]);
      assert (a + b)[..|a + b| - 1] == a + b[..|b|-1];
    }
  }

  lemma CutAround(s: seq<Turn>, i: nat)
    requires i < |s|
    ensures s == s[..i+1] + s[i+1..] && s[..i+1] != [] && s[..i+1][|s[..i+1]|-1] == s[i]
    ensures s[..i+1][..|s[..i+1]|-1] == s[..i]
    ensures multiset(s) == multiset(s[..i] + s[i+1..]) + multiset{s[i]}
  {
    assert s == s[..i] + [s[i]] + s[i+1..];
  }

  lemma TotalRemove(s: seq<Turn>, i: nat)
    requires i < |s|
    ensures Total(s) == Total(s[..i] + s[i+1..]) + Cost(s[i])
  {
    TotalConcat(s[..i], s[i+1..]);
    TotalConcat(s[..i+1], s[i+1..]);
    CutAround(s, i);
  }

  lemma {:induction false} TotalOfSame(s: seq<Turn>, t: seq<Turn>)
    requires multiset(s) == multiset(t)
    ensures Total(s) == Total(t)
    decreases |s|
  {
    if s == [] {
      assert |multiset(t)| == 0;
    } else {
      var n := |s| - 1;
      assert s[n] in multiset(t);
      var i :| 0 <= i < |t| && t[i] == s[n];
      TotalRemove(t, i);
      CutAround(t, i);
      DropLast(s);
      assert multiset(t[..i] + t[i+1..]) == multiset(t) - multiset{t[i]};
      TotalOfSame(s[..n], t[..i] + t[i+1..]);
    }
  }

  // ------------------------------------------------------------ the summary fits

  lemma {:induction false} LinesFit(heading: string, lines: seq<string>, room: int)
    requires room >= 0
    ensures |Join(heading, Fitting(lines, room))| <= |heading| + room
    decreases |lines|
  {
    if lines != [] {
      var n := |lines| - 1;
      var size := |lines[n]| + 1;
      if size > room {
        LinesFit(heading, lines[..n], room);
      } else {
        var rest := Fitting(lines[..n], room - size);
        LinesFit(heading, lines[..n], room - size);
        assert (rest + [lines[n]])[..|rest|] == rest;
      }
    }
  }

  /** A summary stays within the tokens reserved for it. */
  lemma SummaryFits(s: seq<Turn>, cap: int)
    requires cap >= SUMMARY_MIN_TOKENS
    ensures EstimateTokens(Compact(s, cap)) <= cap
  {
    if s != [] {
      LinesFit(HEADING, Lines(Window(s)), cap * 4 - |HEADING|);
    }
  }

  // ------------------------------------------------------------ main results

  lemma Apart<T>(all: multiset<T>, first: multiset<T>, extra: multiset<T>)
    requires first <= all && extra <= all - first
    ensures var rest := (all - first) - extra; rest <= all && all - rest == first + extra && (first + extra) + rest == all
  {
  }

  /** Leaving out `first` and then `extra`, and keeping what was not left out, keeps exactly both. */
  lemma KeptIsBoth(items: seq<Turn>, first: seq<Turn>, extra: seq<Turn>)
    requires InOrder(items) && PartOf(first, items) && PartOf(extra, Without(items, Ids(first)))
    ensures var omitted := Without(Without(items, Ids(first)), Ids(extra));
      && PartOf(omitted, items)
      && PartOf(Without(items, Ids(omitted)), items)
      && multiset(Without(items, Ids(omitted))) == multiset(first + extra)
      && multiset(Without(items, Ids(omitted))) + multiset(omitted) == multiset(items)
  {
    var left := Without(items, Ids(first));
    WithoutPart(items, first);
    WithoutInOrder(items, Ids(first));
    WithoutPart(left, extra);
    WithoutInOrder(left, Ids(extra));
    var omitted := Without(left, Ids(extra));
    Apart(multiset(items), multiset(first), multiset(extra));
    WithoutPart(items, omitted);
    WithoutInOrder(items, Ids(omitted));
    assert multiset(first + extra) == multiset(first) + multiset(extra);
  }

  /** What a compacted selection keeps and costs. */
  lemma TwoChoices(items: seq<Turn>, budget: int)
    requires InOrder(items) && budget > 0
    ensures var first := Chosen(items, Max(0, budget - Cap(budget)));
      var left := FirstOmitted(items, budget);
      var extra := Chosen(left, Spare(left, Cap(budget)));
      var omitted := FinallyOmitted(items, budget);
      var kept := Without(items, Ids(omitted));
      && PartOf(omitted, items) && PartOf(kept, items)
      && multiset(kept) == multiset(first + extra)
      && multiset(kept) + multiset(omitted) == multiset(items)
      && Total(kept) == Total(first) + Total(extra)
      && Total(first) <= Max(0, budget - Cap(budget)) && Total(extra) <= Spare(left, Cap(budget))
  {
    var first := Chosen(items, Max(0, budget - Cap(budget)));
    ChosenIsPart(items, Max(0, budget - Cap(budget)));
    ChosenFits(items, Max(0, budget - Cap(budget)));
    var left := FirstOmitted(items, budget);
    WithoutInOrder(items, Ids(first));
    var extra := Chosen(left, Spare(left, Cap(budget)));
    ChosenIsPart(left, Spare(left, Cap(budget)));
    ChosenFits(left, Spare(left, Cap(budget)));
    KeptIsBoth(items, first, extra);
    TotalOfSame(Without(items, Ids(FinallyOmitted(items, budget))), first + extra);
    TotalConcat(first, extra);
  }

  /** Shown and omitted turns split the loaded turns, both in sequence order. */
  lemma SelectionPartitions(turns: seq<Turn>, budget: int)
    requires InOrder(turns)
    ensures var r := Select(turns, budget);
      && multiset(r.selected) + multiset(r.omitted) == multiset(Loaded(turns))
      && InOrder(r.selected) && InOrder(r.omitted)
  {
    var items := Loaded(turns);
    assert InOrder(items);
    if items != [] && 0 < budget < Total(items) {
      TwoChoices(items, budget);
    }
  }

  /** What a positive history budget can cost, turns and summary. */
  lemma SelectionIsBounded(turns: seq<Turn>, budget: int)
    requires InOrder(turns) && budget > 0
    ensures var r := Select(turns, budget);
      && SummaryTokens(r) <= Cap(budget)
      && Total(r.selected) <= Max(budget, 128)
      && Total(r.selected) + SummaryTokens(r) <= Max(budget, 128) + Cap(budget)
  {
    var items := Loaded(turns);
    assert InOrder(items);
    if items != [] && budget < Total(items) {
      TwoChoices(items, budget);
      SummaryFits(FinallyOmitted(items, budget), Cap(budget));
    }
  }

  /** Without a refill a budget of at least 128 tokens is kept. */
  lemma NoRefillKeepsBudget(turns: seq<Turn>, budget: int)
    requires InOrder(turns) && budget >= SUMMARY_MIN_TOKENS
    requires var left := FirstOmitted(Loaded(turns), budget);
      forall t | t in left :: Cost(t) > Spare(left, Cap(budget))
    ensures var r := Select(turns, budget); Total(r.selected) + SummaryTokens(r) <= budget
  {
    var items := Loaded(turns);
    assert InOrder(items);
    if items != [] && budget < Total(items) {
      TwoChoices(items, budget);
      var left := FirstOmitted(items, budget);
      NothingFits(left, Spare(left, Cap(budget)));
      SummaryFits(FinallyOmitted(items, budget), Cap(budget));
    }
  }

  lemma {:induction false} NothingFits(s: seq<Turn>, room: int)
    requires forall t | t in s :: Cost(t) > room
    ensures Chosen(s, room) == []
    decreases |s|
  {
    if s != [] { NothingFits(s[..|s|-1], room); }
  }

  /** What a selection costs, turns and summary. */
  function HistoryCost(r: Selection): nat { Total(r.selected) + SummaryTokens(r) }

  /** A compacted selection costs both choices and the summary of the rest. */
  lemma CompactedCost(items: seq<Turn>, budget: int)
    requires InOrder(items) && 0 < budget < Total(items) && |items| <= MAX_HISTORY_TURNS
    ensures HistoryCost(Select(items, budget)) ==
      Total(FirstChoice(items, budget)) + Total(TakenIn(items, budget)) + SummaryCost(FinallyOmitted(items, budget), budget)
  {
    CompactedSelection(items, budget);
    TwoChoices(items, budget);
  }

  lemma CompactedSelection(items: seq<Turn>, budget: int)
    requires 0 < budget < Total(items) && |items| <= MAX_HISTORY_TURNS
    ensures var omitted := FinallyOmitted(items, budget);
      Select(items, budget) == Selection(Without(items, Ids(omitted)), Some(Compact(omitted, Cap(budget))), omitted)
  {
  }

  /** What both choices leave, in terms of the first summary. */
  lemma ChoicesFit(items: seq<Turn>, budget: int)
    requires InOrder(items) && budget >= SUMMARY_MIN_TOKENS
    ensures Total(FirstChoice(items, budget)) <= budget - Cap(budget)
    ensures Spare(FirstOmitted(items, budget), Cap(budget)) == Cap(budget) - SummaryCost(FirstOmitted(items, budget), budget)
    ensures Total(TakenIn(items, budget)) <= Spare(FirstOmitted(items, budget), Cap(budget))
  {
    ChosenFits(items, Max(0, budget - Cap(budget)));
    var left := FirstOmitted(items, budget);
    ChosenFits(left, Spare(left, Cap(budget)));
    SummaryFits(left, Cap(budget));
  }

  /** The turns a budget below 128 tokens takes back: all its room is the summary's spare. */
  function TakenBack(items: seq<Turn>): seq<Turn> { Chosen(items, Spare(items, SUMMARY_MIN_TOKENS)) }

  lemma SmallChoices(items: seq<Turn>, budget: int)
    requires 0 < budget < SUMMARY_MIN_TOKENS
    ensures Cap(budget) == SUMMARY_MIN_TOKENS && Chosen(items, Max(0, budget - Cap(budget))) == []
    ensures FirstOmitted(items, budget) == items && FinallyOmitted(items, budget) == Without(items, Ids(TakenBack(items)))
  {
    NothingFits(items, 0);
    WithoutNobody(items, Ids([]));
  }

  /** Below 128 tokens the first choice is always empty, so the budget is kept if and only if everything
      fits, or the turns taken back and the summary of the others do. */
  lemma SmallBudgetIsKeptIff(turns: seq<Turn>, budget: int)
    requires InOrder(turns) && 0 < budget < SUMMARY_MIN_TOKENS
    ensures HistoryCost(Select(turns, budget)) > budget <==> SmallOverrun(Loaded(turns), budget)
  {
    var items := Loaded(turns);
    assert InOrder(items) && Loaded(items) == items;
    SmallChoices(items, budget);
    if Total(items) > budget { CompactedCost(items, budget); }
  }

  predicate SmallOverrun(items: seq<Turn>, budget: int) {
    && Total(items) > budget
    && Total(TakenBack(items)) + EstimateTokens(Compact(Without(items, Ids(TakenBack(items))), SUMMARY_MIN_TOKENS)) > budget
  }

  // ------------------------------------------------------------ budgets from 128 tokens on

  /** Some turn left over by the first choice fits the room the summary did not need. */
  predicate Refills(items: seq<Turn>, budget: int) {
    var left := FirstOmitted(items, budget);
    exists t :: t in left && Cost(t) <= Spare(left, Cap(budget))
  }

  /** How much the summary grows when it is written again after the refill. */
  function SummaryGrowth(items: seq<Turn>, budget: int): int {
    SummaryCost(FinallyOmitted(items, budget), budget) - SummaryCost(FirstOmitted(items, budget), budget)
  }

  /** The room both choices leave unused. */
  function UnusedRoom(items: seq<Turn>, budget: int): int {
    (budget - Cap(budget) - Total(FirstChoice(items, budget)))
    + (Spare(FirstOmitted(items, budget), Cap(budget)) - Total(TakenIn(items, budget)))
  }

  /** The branch that fails: a refill after which the rewritten summary needs more than what was left. */
  predicate LargeOverrun(items: seq<Turn>, budget: int) {
    Total(items) > budget && Refills(items, budget) && SummaryGrowth(items, budget) > UnusedRoom(items, budget)
  }

  lemma NoRefillNoGrowth(items: seq<Turn>, budget: int)
    requires !Refills(items, budget)
    ensures TakenIn(items, budget) == [] && SummaryGrowth(items, budget) == 0
  {
    var left := FirstOmitted(items, budget);
    NothingFits(left, Spare(left, Cap(budget)));
    WithoutNobody(left, Ids([]));
  }

  /** From 128 tokens on, the budget is exceeded if and only if a turn is taken in and the summary then
      grows by more than the room left unused, and by exactly that difference. */
  lemma LargeBudgetIsKeptIff(turns: seq<Turn>, budget: int)
    requires InOrder(turns) && budget >= SUMMARY_MIN_TOKENS
    ensures var items := Loaded(turns); var cost := HistoryCost(Select(turns, budget));
      && (cost > budget <==> LargeOverrun(items, budget))
      && (cost > budget ==> cost - budget == SummaryGrowth(items, budget) - UnusedRoom(items, budget))
  {
    var items := Loaded(turns);
    assert InOrder(items) && Loaded(items) == items;
    if Total(items) > budget {
      CompactedCost(items, budget);
      ChoicesFit(items, budget);
      if !Refills(items, budget) { NoRefillNoGrowth(items, budget); }
    }
  }

  /** When any budget is exceeded, from the branches of the two cases. */
  predicate Overruns(items: seq<Turn>, budget: int) {
    budget > 0 && if budget < SUMMARY_MIN_TOKENS then SmallOverrun(items, budget) else LargeOverrun(items, budget)
  }

  lemma BudgetIsKeptIff(turns: seq<Turn>, budget: nat)
    requires InOrder(turns)
    ensures HistoryCost(Select(turns, budget)) > budget <==> Overruns(Loaded(turns), budget)
  {
    if 0 < budget < SUMMARY_MIN_TOKENS { SmallBudgetIsKeptIff(turns, budget); }
    if budget >= SUMMARY_MIN_TOKENS { LargeBudgetIsKeptIff(turns, budget); }
  }

  /** From 128 tokens on, the refill can break the budget only by making the summary longer. */
  lemma ShorterSummaryKeepsBudget(turns: seq<Turn>, budget: int)
    requires InOrder(turns) && budget >= SUMMARY_MIN_TOKENS
    ensures SummaryGrowth(Loaded(turns), budget) <= 0 ==> HistoryCost(Select(turns, budget)) <= budget
  {
    var items := Loaded(turns);
    assert InOrder(items);
    LargeBudgetIsKeptIff(turns, budget);
    ChoicesFit(items, budget);
  }

  /** The characters of some lines, each with its line break. */
  function Size(lines: seq<string>): nat {
    if lines == [] then 0 else Size(lines[..|lines|-1]) + |lines[|lines|-1]| + 1
  }

  lemma {:induction false} JoinSize(heading: string, lines: seq<string>)
    ensures |Join(heading, lines)| == |heading| + Size(lines)
    decreases |lines|
  {
    if lines != [] { JoinSize(heading, lines[..|lines|-1]); }
  }

  lemma {:induction false} AllFitting(lines: seq<string>, room: int)
    requires Size(lines) <= room
    ensures Fitting(lines, room) == lines
    decreases |lines|
  {
    if lines != [] {
      var n := |lines| - 1;
      AllFitting(lines[..n], room - |lines[n]| - 1);
      assert lines == lines[..n] + [lines[n]];
    }
  }

  lemma LinesSnoc(s: seq<Turn>)
    requires s != []
    ensures Lines(s)[..|s|-1] == Lines(s[..|s|-1]) && Lines(s)[|s|-1] == Line(s[|s|-1])
  {
  }

  /** A measure of the turns, added up. */
  function SumBy(s: seq<Turn>, f: Turn -> nat): nat { if s == [] then 0 else SumBy(s[..|s|-1], f) + f(s[|s|-1]) }

  lemma {:induction false} SumWithout(s: seq<Turn>, ids: set<nat>, f: Turn -> nat)
    ensures SumBy(Without(s, ids), f) <= SumBy(s, f) && |Without(s, ids)| <= |s|
    decreases |s|
  {
    if s != [] {
      var rest, last := Without(s[..|s|-1], ids), s[|s|-1];
      SumWithout(s[..|s|-1], ids, f);
      assert (rest + [last])[..|rest|] == rest;
    }
  }

  function LineSize(t: Turn): nat { |Line(t)| + 1 }

  lemma {:induction false} SizeIsSum(s: seq<Turn>)
    ensures Size(Lines(s)) == SumBy(s, LineSize)
    decreases |s|
  {
    if s != [] {
      SizeIsSum(s[..|s|-1]);
      LinesSnoc(s);
    }
  }

  lemma FewerLines(s: seq<Turn>, ids: set<nat>)
    ensures Size(Lines(Without(s, ids))) <= Size(Lines(s)) && |Without(s, ids)| <= |s|
  {
    SizeIsSum(s);
    SizeIsSum(Without(s, ids));
    SumWithout(s, ids, LineSize);
  }

  /** No line of the turns is left out of their summary. */
  predicate AllLinesFit(s: seq<Turn>, cap: int) { |s| <= SUMMARY_TURNS && |HEADING| + Size(Lines(s)) <= cap * 4 }

  lemma WholeSummary(s: seq<Turn>, cap: int)
    requires AllLinesFit(s, cap)
    ensures |Compact(s, cap)| == if s == [] then 0 else |HEADING| + Size(Lines(s))
  {
    AllFitting(Lines(s), cap * 4 - |HEADING|);
    SummarySize(s, cap);
  }

  lemma SummarySize(s: seq<Turn>, cap: int)
    requires |s| <= SUMMARY_TURNS
    ensures |Compact(s, cap)| == if s == [] then 0 else |HEADING| + Size(Fitting(Lines(s), cap * 4 - |HEADING|))
  {
    assert Window(s) == s;
    JoinSize(HEADING, Fitting(Lines(s), cap * 4 - |HEADING|));
  }

  /** A conversation whose first left-over turns are all summarised keeps every budget from 128 tokens on:
      taking turns in can then only shorten the summary. */
  lemma WholeSummaryKeepsBudget(turns: seq<Turn>, budget: int)
    requires InOrder(turns) && budget >= SUMMARY_MIN_TOKENS
    ensures AllLinesFit(FirstOmitted(Loaded(turns), budget), Cap(budget)) ==> HistoryCost(Select(turns, budget)) <= budget
  {
    var items := Loaded(turns);
    var left := FirstOmitted(items, budget);
    if AllLinesFit(left, Cap(budget)) {
      FewerLines(left, Ids(TakenIn(items, budget)));
      WholeSummary(left, Cap(budget));
      WholeSummary(FinallyOmitted(items, budget), Cap(budget));
      ShorterSummaryKeepsBudget(turns, budget);
    }
  }

  lemma {:induction false} HeadingStays(heading: string, lines: seq<string>)
    ensures |Join(heading, lines)| >= |heading|
    decreases |lines|
  {
    if lines != [] { HeadingStays(heading, lines[..|lines|-1]); }
  }

  lemma TotalAtLeast(s: seq<Turn>)
    ensures s != [] ==> Total(s) >= TURN_OVERHEAD
  {
  }

  /** A turn costs at least 12 tokens and a summary at least 9, so a budget of 1 to 8 tokens is exceeded
      by every conversation that has a turn, and by no other. */
  lemma TinyBudgetIsExceeded(turns: seq<Turn>, budget: int)
    requires InOrder(turns) && 0 < budget < 9
    ensures HistoryCost(Select(turns, budget)) > budget <==> turns != []
  {
    var items := Loaded(turns);
    SmallBudgetIsKeptIff(turns, budget);
    TotalAtLeast(items);
    TotalAtLeast(TakenBack(items));
    if items != [] && TakenBack(items) == [] {
      WithoutNobody(items, Ids([]));
      HeadingStays(HEADING, Fitting(Lines(Window(items)), SUMMARY_MIN_TOKENS * 4 - |HEADING|));
    }
  }

  /** A conversation that does not fit and whose turns are all taken back exceeds its small budget, by
      exactly what did not fit. */
  lemma AllTakenBackExceeds(turns: seq<Turn>, budget: int)
    requires InOrder(turns) && 0 < budget < SUMMARY_MIN_TOKENS
    requires Total(Loaded(turns)) > budget && TakenBack(Loaded(turns)) == Loaded(turns)
    ensures HistoryCost(Select(turns, budget)) == Total(Loaded(turns)) > budget
    ensures Select(turns, budget).selected == Loaded(turns)
  {
    var items := Loaded(turns);
    SmallChoices(items, budget);
    WithoutAll(items, Ids(items));
    WithoutNobody(items, Ids([]));
  }

  lemma {:induction false} WithoutAll(s: seq<Turn>, ids: set<nat>)
    requires forall i | 0 <= i < |s| :: s[i].id in ids
    ensures Without(s, ids) == []
    decreases |s|
  {
    if s != [] { WithoutAll(s[..|s|-1], ids); }
  }

  /** The query keeps the oldest turns: the newest turn takes part exactly when the conversation
      has at most 120 turns. */
  lemma NewestTurnIsLoaded(turns: seq<Turn>)
    requires InOrder(turns) && turns != []
    ensures turns[|turns|-1] in Loaded(turns) <==> |turns| <= MAX_HISTORY_TURNS
  {
    if |turns| > MAX_HISTORY_TURNS {
      forall i | 0 <= i < MAX_HISTORY_TURNS ensures turns[i] != turns[|turns|-1] {
        assert turns[i].id != turns[|turns|-1].id;
      }
    }
  }

  /** Beyond 120 turns the newest turn is neither shown nor summarised, at any budget. */
  lemma NewestTurnIsLost(turns: seq<Turn>, budget: int)
    requires InOrder(turns) && |turns| > MAX_HISTORY_TURNS
    ensures var r := Select(turns, budget);
      turns[|turns|-1] !in r.selected && turns[|turns|-1] !in r.omitted
  {
    NewestTurnIsLoaded(turns);
    SelectionPartitions(turns, budget);
    var r := Select(turns, budget);
    var t := turns[|turns|-1];
    assert t !in multiset(Loaded(turns));
    assert multiset(r.selected)[t] == 0 && multiset(r.omitted)[t] == 0;
  }

  // ------------------------------------------------------------ the loops

  lemma RevAppend<T>(s: seq<T>, x: T)
    ensures Rev(s + [x]) == [x] + Rev(s)
  {
    assert (s + [x])[..|s|] == s;
  }

  lemma {:induction false} RevSame<T>(s: seq<T>)
    ensures multiset(Rev(s)) == multiset(s)
    decreases |s|
  {
    if s != [] {
      RevSame(s[..|s|-1]);
      assert s == s[..|s|-1] + [s[|s|-1]];
    }
  }

  method PickRecent(items: seq<Turn>, budget: nat) returns (picked: seq<Turn>)
    ensures Rev(picked) == Chosen(items, budget)
  {
    picked := [];
    var used, i := 0, |items|;
    assert items[..i] == items;
    while i > 0
      invariant 0 <= i <= |items| && used <= budget
      invariant Chosen(items, budget) == Chosen(items[..i], budget - used) + Rev(picked)
    {
      i := i - 1;
      assert items[..i+1][..i] == items[..i];
      if used + Cost(items[i]) > budget { continue; }
      RevAppend(picked, items[i]);
      picked := picked + [items[i]];
      used := used + Cost(items[i]);
    }
  }

  method Refill(omitted: seq<Turn>, reserve: nat) returns (extra: seq<Turn>)
    ensures Rev(extra) == Chosen(omitted, reserve)
  {
    extra := [];
    var spare: int, i := reserve, |omitted|;
    assert omitted[..i] == omitted;
    while i > 0
      invariant 0 <= i <= |omitted|
      invariant Chosen(omitted, reserve) == Chosen(omitted[..i], spare) + Rev(extra)
    {
      i := i - 1;
      assert omitted[..i+1][..i] == omitted[..i];
      if Cost(omitted[i]) <= spare {
        RevAppend(extra, omitted[i]);
        extra := extra + [omitted[i]];
        spare := spare - Cost(omitted[i]);
      }
    }
  }

  lemma FittingStep(lines: seq<string>, i: nat, room: int)
    requires i < |lines|
    ensures var size := |lines[i]| + 1;
      Fitting(lines[..i+1], room) == if size > room then Fitting(lines[..i], room) else Fitting(lines[..i], room - size) + [lines[i]]
  {
    assert lines[..i+1][..i] == lines[..i];
  }

  /** The summary loop over the turns' lines, from `heading` characters towards `maxChars`. */
  method PickLines(lines: seq<string>, heading: nat, maxChars: nat) returns (selected: seq<string>)
    ensures Rev(selected) == Fitting(lines, maxChars - heading)
  {
    selected := [];
    var used, i := heading, |lines|;
    assert lines[..i] == lines;
    while i > 0
      invariant 0 <= i <= |lines|
      invariant Fitting(lines, maxChars - heading) == Fitting(lines[..i], maxChars - used) + Rev(selected)
    {
      i := i - 1;
      FittingStep(lines, i, maxChars - used);
      var line := lines[i];
      if used + |line| + 1 > maxChars { continue; }
      RevAppend(selected, line);
      selected := selected + [line];
      used := used + |line| + 1;
    }
  }

  method CompactHistory(items: seq<Turn>, maxTokens: nat) returns (text: string)
    ensures text == Compact(items, maxTokens)
  {
    if items == [] { return ""; }
    var selected := PickLines(Lines(Window(items)), |HEADING|, maxTokens * 4);
    text := Join(HEADING, Rev(selected));
  }

  /** Sorting both choices together gives the loaded turns that were not omitted. */
  lemma MergedChoices(items: seq<Turn>, budget: int, extra: seq<Turn>)
    requires InOrder(items) && budget > 0
    requires var left := FirstOmitted(items, budget); Rev(extra) == Chosen(left, Spare(left, Cap(budget)))
    ensures SortBy(Chosen(items, Max(0, budget - Cap(budget))) + extra, Position)
         == Without(items, Ids(FinallyOmitted(items, budget)))
  {
    TwoChoices(items, budget);
    RevSame(extra);
    var first := Chosen(items, Max(0, budget - Cap(budget)));
    var kept := Without(items, Ids(FinallyOmitted(items, budget)));
    assert multiset(first + extra) == multiset(kept);
    SortIsUnique(first + extra, kept, Position);
  }

  lemma SortedChoice(items: seq<Turn>, room: int)
    requires InOrder(items)
    ensures SortBy(Chosen(items, room), Position) == Chosen(items, room)
  {
    ChosenIsPart(items, room);
    SortOfSorted(Chosen(items, room), Position);
  }

  lemma SameReversed(rev: seq<Turn>, s: seq<Turn>)
    requires Rev(rev) == s
    ensures Ids(rev) == Ids(s)
  {
    RevSame(rev);
    forall x: Turn ensures x in rev <==> x in s {
      assert x in rev <==> x in multiset(rev);
      assert x in s <==> x in multiset(s);
    }
    assert forall n :: n in Ids(rev) <==> exists x :: x in rev && x.id == n;
    assert forall n :: n in Ids(s) <==> exists x :: x in s && x.id == n;
  }

  /** Hands unused summary room to further turns, as the second half of a compaction. */
  method SpendSpare(ghost items: seq<Turn>, ghost budget: int, selected: seq<Turn>, omitted: seq<Turn>, cap: nat)
    returns (r: Selection)
    requires InOrder(items) && budget > 0 && cap == Cap(budget)
    requires selected == Chosen(items, Max(0, budget - cap)) && omitted == FirstOmitted(items, budget)
    ensures r.omitted == FinallyOmitted(items, budget)
    ensures r.selected == Without(items, Ids(r.omitted)) && r.summary == Some(Compact(r.omitted, cap))
  {
    var summary := CompactHistory(omitted, cap);
    var spare := Max(0, cap - EstimateTokens(summary));
    var extra := [];
    if spare > 0 { extra := Refill(omitted, spare); } else { NothingFits(omitted, spare); }
    SameReversed(extra, Chosen(omitted, spare));
    MergedChoices(items, budget, extra);
    if extra != [] {
      var left := Without(omitted, Ids(extra));
      summary := CompactHistory(left, cap);
      return Selection(SortBy(selected + extra, Position), Some(summary), left);
    }
    SortedChoice(items, Max(0, budget - cap));
    assert selected + extra == selected;
    WithoutNobody(omitted, Ids(extra));
    r := Selection(selected, Some(summary), omitted);
  }

  /** The history builder is the specification above, for every conversation and budget. */
  method SelectHistory(turns: seq<Turn>, budget: int) returns (r: Selection)
    requires InOrder(turns)
    ensures r == Select(turns, budget)
  {
    var items := Loaded(turns);
    assert InOrder(items);
    if items == [] || budget <= 0 { return Selection([], None, items); }
    if Total(items) <= budget { return Selection(items, None, []); }
    var cap := Cap(budget);
    var picked := PickRecent(items, Max(0, budget - cap));
    var selected := Rev(picked);
    var omitted := Without(items, Ids(selected));
    r := SpendSpare(items, budget, selected, omitted, cap);
  }

  lemma {:induction false} WithoutNobody(s: seq<Turn>, ids: set<nat>)
    requires ids == {}
    ensures Without(s, ids) == s
    decreases |s|
  {
    if s != [] {
      WithoutNobody(s[..|s|-1], ids);
      assert s == s[..|s|-1] + [s[|s|-1]];
    }
  }
}
