/** How the token budget of one chat turn is divided: the fixed cost first, then explicit
    references, recalled memory, and whatever is left to the history. */
module TurnAllocation {
  import opened Wrappers
  import opened ChatHistory

  const RESERVE := 320
  const MIN_EXPLICIT := 1024
  const WARM_FRACTION := 0.05
  const COLD_FRACTION := 0.20
  const MEMORY_FRACTION := 0.28
  const EXPLICIT_FRACTION := 0.52
  const UNUSED_TO_MEMORY := 0.65
  const BUDGET_EXCEEDED := "CONTEXT_BUDGET_EXCEEDED"

  datatype ResolvedRef = ResolvedRef(ref: string, available: bool, summary: string, tokens: nat)
  datatype ContextBudget = ContextBudget(tokens: nat, items: seq<ResolvedRef>, omitted: seq<string>, reasons: map<string, string>)

  /** Tokens recalled from memory for a given budget, never more than it. */
  ghost predicate WithinBudget(recall: nat -> nat) { forall b :: recall(b) <= b }

  // ------------------------------------------------------------ explicit references

  /** References are normalised and made unique before they are resolved. */
  predicate DistinctRefs(s: seq<ResolvedRef>) { forall i, j | 0 <= i < j < |s| :: s[i].ref != s[j].ref }

  function RefTotal(s: seq<ResolvedRef>): nat { if s == [] then 0 else RefTotal(s[..|s|-1]) + s[|s|-1].tokens }

  /** Why a reference is left out, given the tokens already taken. */
  function Refusal(r: ResolvedRef, used: nat, budget: int): Option<string> {
    if !r.available then Some(r.summary)
    else if used + r.tokens > budget then Some(BUDGET_EXCEEDED)
    else None
  }

  function Gather(s: seq<ResolvedRef>, budget: int): ContextBudget {
    if s == [] then ContextBudget(0, [], [], map[])
    else Admit(Gather(s[..|s|-1], budget), s[|s|-1], budget)
  }

  function Admit(c: ContextBudget, r: ResolvedRef, budget: int): ContextBudget {
    match Refusal(r, c.tokens, budget)
    case Some(reason) => ContextBudget(c.tokens, c.items, c.omitted + [r.ref], c.reasons[r.ref := reason])
    case None => ContextBudget(c.tokens + r.tokens, c.items + [r], c.omitted, c.reasons)
  }

  /** Every reference is included or omitted with a reason, never both; the included ones are
      available, are counted exactly and fit; and an available one is left out only when it does
      not fit beside those that were included. */
  ghost predicate Accounted(c: ContextBudget, s: seq<ResolvedRef>, budget: int) {
    && c.tokens == RefTotal(c.items) <= budget
    && c.reasons.Keys == (set x | x in c.omitted)
    && (forall r | r in c.items :: r in s && r.available)
    && (forall x | x in c.omitted :: Names(s, x))
    && (forall r | r in s :: Decided(c, r, budget))
  }

  predicate Names(s: seq<ResolvedRef>, x: string) { exists i :: 0 <= i < |s| && s[i].ref == x }

  ghost predicate Decided(c: ContextBudget, r: ResolvedRef, budget: int) {
    if r in c.items then r.ref !in c.omitted
    else
      && r.ref in c.omitted && r.ref in c.reasons
      && c.reasons[r.ref] == (if r.available then BUDGET_EXCEEDED else r.summary)
      && (r.available ==> c.tokens + r.tokens > budget)
  }

  lemma NewIsUnknown(c: ContextBudget, s: seq<ResolvedRef>, r: ResolvedRef, budget: int)
    requires Accounted(c, s, budget) && forall i | 0 <= i < |s| :: s[i].ref != r.ref
    ensures r.ref !in c.omitted && r.ref !in c.reasons && r !in c.items && r !in s
  {
    assert !Names(s, r.ref);
  }

  lemma AdmitDecides(c: ContextBudget, r: ResolvedRef, x: ResolvedRef, budget: int)
    requires x == r || (x.ref != r.ref && Decided(c, x, budget))
    requires r.ref !in c.omitted && r !in c.items
    ensures Decided(Admit(c, r, budget), x, budget)
  {
  }

  lemma NamesGrow(s: seq<ResolvedRef>, r: ResolvedRef, x: string)
    requires Names(s, x) || x == r.ref
    ensures Names(s + [r], x)
  {
    if Names(s, x) {
      var i :| 0 <= i < |s| && s[i].ref == x;
      assert (s + [r])[i].ref == x;
    } else {
      assert (s + [r])[|s|].ref == x;
    }
  }

  lemma AdmitKeeps(c: ContextBudget, s: seq<ResolvedRef>, r: ResolvedRef, budget: int)
    requires Accounted(c, s, budget) && forall i | 0 <= i < |s| :: s[i].ref != r.ref
    ensures Accounted(Admit(c, r, budget), s + [r], budget)
  {
    var d := Admit(c, r, budget);
    NewIsUnknown(c, s, r, budget);
    assert d.tokens == RefTotal(d.items) <= budget by { assert (c.items + [r])[..|c.items|] == c.items; }
    forall x | x in s + [r] ensures Decided(d, x, budget) { AdmitDecides(c, r, x, budget); }
    forall x | x in d.omitted ensures Names(s + [r], x) { NamesGrow(s, r, x); }
  }

  lemma {:induction false} GatherAccounts(s: seq<ResolvedRef>, budget: int)
    requires DistinctRefs(s) && budget >= 0
    ensures Accounted(Gather(s, budget), s, budget)
    decreases |s|
  {
    if s != [] {
      var n := |s| - 1;
      GatherAccounts(s[..n], budget);
      AdmitKeeps(Gather(s[..n], budget), s[..n], s[n], budget);
      assert s == s[..n] + [s[n]];
    }
  }

  /** First come, first served: a reference is included exactly when it is available and fits beside what was
      included before it, whatever comes later. */
  lemma {:induction false} EarlierRefsGoFirst(s: seq<ResolvedRef>, budget: int, i: nat)
    requires DistinctRefs(s) && budget >= 0 && i < |s|
    ensures Gather(s[..i], budget).items <= Gather(s, budget).items
    ensures s[i] in Gather(s, budget).items <==> s[i].available && RefTotal(Gather(s[..i], budget).items) + s[i].tokens <= budget
    decreases |s|
  {
    var n := |s| - 1;
    GatherAccounts(s[..n], budget);
    assert s[..n][..i] == s[..i];
    if i == n {
      NewIsUnknown(Gather(s[..n], budget), s[..n], s[n], budget);
    } else {
      EarlierRefsGoFirst(s[..n], budget, i);
      assert s[n] != s[i];
    }
  }

  method AssembleRefs(resolved: seq<ResolvedRef>, budget: int) returns (r: Result<ContextBudget, string>)
    ensures r == if budget <= 0 then Failure("VALIDATION_FAILED") else Success(Gather(resolved, budget))
  {
    if budget <= 0 { return Failure("VALIDATION_FAILED"); }
    var included, omitted, reasons, used := [], [], map[], 0;
    for i := 0 to |resolved|
      invariant 0 <= used
      invariant Gather(resolved[..i], budget) == ContextBudget(used, included, omitted, reasons)
    {
      var item := resolved[i];
      assert resolved[..i+1][..i] == resolved[..i];
      if !item.available {
        omitted := omitted + [item.ref];
        reasons := reasons[item.ref := item.summary];
        continue;
      }
      if used + item.tokens > budget {
        omitted := omitted + [item.ref];
        reasons := reasons[item.ref := BUDGET_EXCEEDED];
        continue;
      }
      included := included + [item];
      used := used + item.tokens;
    }
    assert resolved[..|resolved|] == resolved;
    r := Success(ContextBudget(used, included, omitted, reasons));
  }

  // ------------------------------------------------------------ the allocation

  /** int() of a share of a token count. */
  function Share(n: nat, fraction: real): (r: nat)
    requires 0.0 <= fraction <= 1.0
    ensures r <= n && r as real <= n as real * fraction < (r + 1) as real
  {
    assert 0.0 <= n as real * fraction <= n as real;
    (n as real * fraction).Floor
  }

  /** The simple form: an explicit share, a memory share with a part of what the references left
      unused, and the exact remainder for the history. A warm or cold session is no part of it. */
  datatype Allocation = Allocation(explicit: ContextBudget, memory: nat, history: nat)

  function ExplicitTarget(remaining: nat): (t: nat)
    ensures t <= remaining && (remaining > 0 ==> t > 0)
  {
    Min(remaining, Max(MIN_EXPLICIT, Share(remaining, EXPLICIT_FRACTION)))
  }

  /** In whole numbers: the explicit share is all there is up to 1024 tokens, 1024 up to 1969, and from 1970
      on 52 in a hundred, rounded down. */
  lemma ExplicitShare(remaining: nat)
    ensures ExplicitTarget(remaining) ==
      if remaining <= 1024 then remaining else if remaining < 1970 then 1024 else remaining * 52 / 100
  {
    WholeShare(remaining, 52, EXPLICIT_FRACTION);
  }

  /** The memory share is 28 in a hundred and 65 in a hundred of what the references left unused of theirs,
      but never more than what is left over. */
  lemma MemoryShare(remaining: nat, explicit: nat)
    requires explicit <= remaining
    ensures var unused := Max(0, ExplicitTarget(remaining) - explicit);
      MemoryBudget(remaining, explicit) == Min(remaining * 28 / 100 + unused * 65 / 100, remaining - explicit)
  {
    WholeShare(remaining, 28, MEMORY_FRACTION);
    WholeShare(Max(0, ExplicitTarget(remaining) - explicit), 65, UNUSED_TO_MEMORY);
  }

  lemma WholeShare(n: nat, percent: nat, fraction: real)
    requires percent <= 100 && fraction == percent as real / 100.0
    ensures Share(n, fraction) == n * percent / 100
  {
    var r := Share(n, fraction);
    assert n as real * fraction == (n * percent) as real / 100.0;
    assert (100 * r) as real <= (n * percent) as real < (100 * r + 100) as real;
    assert 100 * r <= n * percent < 100 * r + 100;
  }

  function MemoryBudget(remaining: nat, explicit: nat): nat {
    Max(0, Min(Share(remaining, MEMORY_FRACTION) + Share(Max(0, ExplicitTarget(remaining) - explicit), UNUSED_TO_MEMORY),
               remaining - explicit))
  }

  function Allocate(total: int, fixed: nat, refs: seq<ResolvedRef>, recall: nat -> nat): Allocation {
    var remaining := Max(0, total - fixed);
    var explicit := Gather(refs, Max(1, ExplicitTarget(remaining)));
    var memory := recall(MemoryBudget(remaining, explicit.tokens));
    Allocation(explicit, memory, Max(0, total - fixed - explicit.tokens - memory))
  }

  /** What the references may take and what memory is asked for, in whole numbers of tokens. */
  lemma AllocationShares(total: int, fixed: nat, refs: seq<ResolvedRef>, recall: nat -> nat)
    requires DistinctRefs(refs) && fixed < total
    ensures var a, left := Allocate(total, fixed, refs, recall), total - fixed;
      var target := if left <= 1024 then left else if left < 1970 then 1024 else left * 52 / 100;
      && a.explicit == Gather(refs, target) && a.explicit.tokens <= target
      && a.memory == recall(Min(left * 28 / 100 + (target - a.explicit.tokens) * 65 / 100, left - a.explicit.tokens))
  {
    var left := total - fixed;
    assert Max(0, total - fixed) == left && Max(1, ExplicitTarget(left)) == ExplicitTarget(left);
    ExplicitShare(left);
    GatherAccounts(refs, ExplicitTarget(left));
    MemoryShare(left, Gather(refs, ExplicitTarget(left)).tokens);
  }

  /** Whenever the fixed cost leaves anything, the four parts add up to the budget exactly; when it
      leaves nothing, memory and history get nothing and the references at most one token. */
  lemma AllocationIsExact(total: int, fixed: nat, refs: seq<ResolvedRef>, recall: nat -> nat)
    requires DistinctRefs(refs) && WithinBudget(recall)
    ensures var a := Allocate(total, fixed, refs, recall);
      && (fixed < total ==> fixed + a.explicit.tokens + a.memory + a.history == total)
      && (fixed >= total ==> a.explicit.tokens <= 1 && a.memory == 0 && a.history == 0)
  {
    var remaining := Max(0, total - fixed);
    GatherAccounts(refs, Max(1, ExplicitTarget(remaining)));
  }

  /** A turn as the manager returns it. `used` is what it reports. */
  datatype Managed = Managed(used: int, allocation: Allocation, history: Selection)

  function TurnContext(total: int, fixed: nat, refs: seq<ResolvedRef>, recall: nat -> nat, turns: seq<Turn>): Managed {
    var a := Allocate(total, fixed, refs, recall);
    var h := Select(turns, a.history);
    Managed(Min(total, fixed + a.explicit.tokens + a.memory + Total(h.selected) + SummaryTokens(h)), a, h)
  }

  /** What the turn really carries. */
  function Carried(fixed: nat, m: Managed): nat {
    fixed + m.allocation.explicit.tokens + m.allocation.memory + Total(m.history.selected) + SummaryTokens(m.history)
  }

  /** How far a turn can exceed the budget: by the references' one token when the fixed cost fills it;
      otherwise not at all unless the history was compacted, and then by at most one summary, plus
      the gap to 128 tokens when the history budget is below that. */
  lemma TurnOverrunIsBounded(total: int, fixed: nat, refs: seq<ResolvedRef>, recall: nat -> nat, turns: seq<Turn>)
    requires InOrder(turns) && DistinctRefs(refs) && WithinBudget(recall)
    ensures var m := TurnContext(total, fixed, refs, recall, turns);
      var h := m.allocation.history;
      && (fixed >= total ==> Carried(fixed, m) <= fixed + 1)
      && (fixed < total && m.history.summary.None? ==> Carried(fixed, m) <= total)
      && (fixed < total && m.history.summary.Some? ==> Carried(fixed, m) <= total + Max(0, 128 - h) + Cap(h))
  {
    AllocationIsExact(total, fixed, refs, recall);
    var m := TurnContext(total, fixed, refs, recall, turns);
    if m.allocation.history > 0 { SelectionIsBounded(turns, m.allocation.history); }
  }

  /** Exactly when a turn stays within its total. With anything left over the fixed cost: unless the
      history takes turns back below 128 tokens that do not fit beside the summary of the others, or from
      128 tokens on takes a turn in and its summary grows by more than the room left unused. With nothing
      left: when the fixed cost is the total and no reference was taken. The reported figure is the carried
      one in exactly these cases. */
  lemma TurnIsKeptIff(total: int, fixed: nat, refs: seq<ResolvedRef>, recall: nat -> nat, turns: seq<Turn>)
    requires InOrder(turns) && DistinctRefs(refs) && WithinBudget(recall)
    ensures var m := TurnContext(total, fixed, refs, recall, turns);
      && (Carried(fixed, m) <= total <==>
        if fixed < total then !Overruns(Loaded(turns), m.allocation.history) else fixed == total && m.allocation.explicit.tokens == 0)
      && (m.used == Carried(fixed, m) <==> Carried(fixed, m) <= total)
  {
    AllocationIsExact(total, fixed, refs, recall);
    BudgetIsKeptIff(turns, Allocate(total, fixed, refs, recall).history);
  }

  /** With at least 128 tokens for the history, a turn whose first left-over turns are all summarised stays
      within its total. */
  lemma WholeSummaryKeepsTurn(total: int, fixed: nat, refs: seq<ResolvedRef>, recall: nat -> nat, turns: seq<Turn>)
    requires InOrder(turns) && DistinctRefs(refs) && WithinBudget(recall) && fixed < total
    requires Allocate(total, fixed, refs, recall).history >= SUMMARY_MIN_TOKENS
    ensures var m := TurnContext(total, fixed, refs, recall, turns); var h := m.allocation.history;
      AllLinesFit(FirstOmitted(Loaded(turns), h), Cap(h)) ==> Carried(fixed, m) <= total
  {
    AllocationIsExact(total, fixed, refs, recall);
    WholeSummaryKeepsBudget(turns, Allocate(total, fixed, refs, recall).history);
  }

  /** With 1 to 8 tokens left for the history, the turn exceeds its total exactly when the conversation has
      a turn, and reports the total all the same. */
  lemma TinyHistoryOverruns(total: int, fixed: nat, refs: seq<ResolvedRef>, recall: nat -> nat, turns: seq<Turn>)
    requires InOrder(turns) && DistinctRefs(refs) && WithinBudget(recall) && fixed < total
    requires 0 < Allocate(total, fixed, refs, recall).history < 9
    ensures var m := TurnContext(total, fixed, refs, recall, turns);
      && (Carried(fixed, m) > total <==> turns != [])
      && (turns != [] ==> m.used == total)
  {
    AllocationIsExact(total, fixed, refs, recall);
    TinyBudgetIsExceeded(turns, Allocate(total, fixed, refs, recall).history);
  }

  /** Such turns exist: a fixed cost one below the total, no references and no memory. */
  lemma OverrunIsPossible(total: int, fixed: nat, recall: nat -> nat, turns: seq<Turn>)
    requires total == fixed + 1 && WithinBudget(recall) && recall(0) == 0 && recall(1) == 0 && InOrder(turns) && turns != []
    ensures var m := TurnContext(total, fixed, [], recall, turns);
      Carried(fixed, m) > total && m.used == total
  {
    assert Gather([], 1).tokens == 0;
    assert MemoryBudget(1, 0) <= 1;
    assert Allocate(total, fixed, [], recall).history == 1;
    TinyHistoryOverruns(total, fixed, [], recall, turns);
  }

  /** The targets as the manager keeps them while it divides the budget. */
  method DivideBudget(total: int, fixed: nat, warm: bool, refs: seq<ResolvedRef>, recall: nat -> nat)
    returns (a: Allocation)
    ensures a == Allocate(total, fixed, refs, recall)
  {
    var remaining := Max(0, total - fixed);
    var historyTarget: int := Share(remaining, if warm then WARM_FRACTION else COLD_FRACTION);
    var explicitTarget := Min(remaining, Max(MIN_EXPLICIT, Share(remaining, EXPLICIT_FRACTION)));
    var memoryTarget := Share(remaining, MEMORY_FRACTION);
    var assembled := AssembleRefs(refs, Max(1, explicitTarget));
    var explicit := assembled.value;
    var unused := Max(0, explicitTarget - explicit.tokens);
    memoryTarget := memoryTarget + Share(unused, UNUSED_TO_MEMORY);
    historyTarget := historyTarget + unused - Share(unused, UNUSED_TO_MEMORY);
    var memory := recall(Max(0, Min(memoryTarget, remaining - explicit.tokens)));
    var before := fixed + explicit.tokens + memory;
    historyTarget := historyTarget + Max(0, total - before - historyTarget);
    a := Allocation(explicit, memory, Max(0, Min(historyTarget, total - before)));
  }

  /** The manager's arithmetic, step by step, gives the simple form for warm and cold sessions alike. */
  method AssembleTurn(total: int, prompt: nat, live: nat, warm: bool, refs: seq<ResolvedRef>,
                      recall: nat -> nat, turns: seq<Turn>) returns (m: Managed)
    requires InOrder(turns)
    ensures m == TurnContext(total, RESERVE + prompt + live, refs, recall, turns)
  {
    var fixed := RESERVE + prompt + live;
    var a := DivideBudget(total, fixed, warm, refs, recall);
    var history := SelectHistory(turns, a.history);
    var used := Min(total, fixed + a.explicit.tokens + a.memory + Total(history.selected) + SummaryTokens(history));
    m := Managed(used, a, history);
  }
}
