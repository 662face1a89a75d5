/** Budgeted context assembly (engine/context/assembly.py): protected tiers first, then a
    greedy fill of the evictable tiers in descending tier number, by descending score. */
module ContextAssembly {
  import opened Wrappers
  import opened StableSort

  datatype ContextItem = ContextItem(
    retriever: string, itemKey: string, categories: seq<string>, relevance: real,
    writeScopeMatch: bool, content: string, sourcePath: Option<string>)

  datatype FusedItem = FusedItem(item: ContextItem, score: real)

  /** `token_estimate`: about four characters per token, never zero. */
  function Tokens(f: FusedItem): (t: nat)
    ensures t >= 1 && (4 * t <= |f.item.content| < 4 * t + 4 || (t == 1 && |f.item.content| < 8))
  {
    var quarter := |f.item.content| / 4;
    if quarter < 1 then 1 else quarter
  }

  datatype Assembled = Assembled(included: seq<FusedItem>, evicted: seq<FusedItem>, total: nat)

  datatype AssemblyResult = Fits(assembled: Assembled) | BudgetExceeded(required: nat)

  const ARCHITECTURE := "architecture_constraints"
  const SECURITY := "security_constraints"

  /** `_tier`: 0 write scope, 1 authority, 3 architecture and security, 5 other code. */
  function Tier(item: ContextItem): nat {
    if item.writeScopeMatch then 0
    else if item.retriever == "authority" || item.retriever == "task" then 1
    else if ARCHITECTURE in item.categories || SECURITY in item.categories then 3
    else 5
  }

  function Bullets(criteria: seq<string>): string {
    if criteria == [] then ""
    else if |criteria| == 1 then "- " + criteria[0]
    else Bullets(criteria[..|criteria|-1]) + "\n- " + criteria[|criteria|-1]
  }

  /** `_success_criteria_item`. */
  function CriteriaItem(criteria: seq<string>): FusedItem {
    FusedItem(ContextItem("task", "success_criteria", ["verification_obligations"], 1.0, true,
                          "Success criteria:\n" + Bullets(criteria), None), 1.0)
  }

  function Sum(s: seq<FusedItem>): nat { if s == [] then 0 else Sum(s[..|s|-1]) + Tokens(s[|s|-1]) }

  function InTier(s: seq<FusedItem>, tier: nat): seq<FusedItem> {
    if s == [] then []
    else InTier(s[..|s|-1], tier) + (if Tier(s[|s|-1].item) == tier then [s[|s|-1]] else [])
  }

  /** The items that may not be evicted; `push` adds the architecture and security tier. */
  function Protected(criteria: seq<string>, fused: seq<FusedItem>, push: bool): seq<FusedItem> {
    InTier(fused, 0) + ([CriteriaItem(criteria)] + InTier(fused, 1)) + (if push then InTier(fused, 3) else [])
  }

  function Loss(f: FusedItem): real { -f.score }

  /** The evictable items in the order they are offered budget. */
  function Order(fused: seq<FusedItem>, push: bool): seq<FusedItem> {
    SortBy(InTier(fused, 5), Loss) + (if push then [] else SortBy(InTier(fused, 3), Loss))
  }

  /** The items a choice vector takes (or leaves), in order. */
  function Pick(order: seq<FusedItem>, v: seq<bool>, taken: bool): seq<FusedItem>
    requires |v| == |order|
  {
    if order == [] then []
    else
      var n := |order| - 1;
      if v[n] == taken then Pick(order[..n], v[..n], taken) + [order[n]] else Pick(order[..n], v[..n], taken)
  }

  /** Which offered items a left-to-right greedy fill takes: each one that still fits. */
  function Greedy(order: seq<FusedItem>, used: nat, budget: int): (v: seq<bool>)
    ensures |v| == |order|
  {
    if order == [] then []
    else
      var n := |order| - 1;
      var v := Greedy(order[..n], used, budget);
      v + [used + Sum(Pick(order[..n], v, true)) + Tokens(order[n]) <= budget]
  }

  /** `assemble`. */
  function Assemble(criteria: seq<string>, fused: seq<FusedItem>, budget: int, push: bool): AssemblyResult {
    var fixed := Protected(criteria, fused, push);
    if Sum(fixed) > budget then BudgetExceeded(Sum(fixed))
    else
      var order := Order(fused, push);
      var v := Greedy(order, Sum(fixed), budget);
      Fits(Assembled(fixed + Pick(order, v, true), Pick(order, v, false), Sum(fixed) + Sum(Pick(order, v, true))))
  }

  // ------------------------------------------------------------------ sums

  lemma {:induction false} SumConcat(a: seq<FusedItem>, b: seq<FusedItem>)
    ensures Sum(a + b) == Sum(a) + Sum(b)
    decreases |b|
  {
    if b == [] { assert a + b == a; }
    else {
      assert (a + b)[..|a + b| - 1] == a + b[..|b|-1];
      SumConcat(a, b[..|b|-1]);
    }
  }

  lemma SumCons(x: FusedItem, s: seq<FusedItem>)
    ensures Sum([x] + s) == Tokens(x) + Sum(s)
  {
    SumConcat([x], s);
    assert [x][..0] == [];
  }

  lemma SumSnoc(s: seq<FusedItem>, x: FusedItem)
    ensures Sum(s + [x]) == Sum(s) + Tokens(x)
  {
    assert (s + [x])[..|s|] == s;
  }

  lemma {:induction false} SumAtLeastMember(s: seq<FusedItem>, x: FusedItem)
    requires x in s
    ensures Sum(s) >= Tokens(x)
    decreases |s|
  {
    if s[|s|-1] != x { SumAtLeastMember(s[..|s|-1], x); }
  }

  // ---------------------------------------------------------------- conservation

  function One(f: FusedItem, tier: nat): multiset<FusedItem> { if Tier(f.item) == tier then multiset{f} else multiset{} }

  lemma {:induction false} TiersPartition(s: seq<FusedItem>)
    ensures multiset(InTier(s, 0)) + multiset(InTier(s, 1)) + multiset(InTier(s, 3)) + multiset(InTier(s, 5)) == multiset(s)
    decreases |s|
  {
    if s != [] {
      TiersPartition(s[..|s|-1]);
      Snoc(s);
      forall t: nat ensures multiset(InTier(s, t)) == multiset(InTier(s[..|s|-1], t)) + One(s[|s|-1], t) {
      }
    }
  }

  lemma {:induction false} PickPartition(order: seq<FusedItem>, v: seq<bool>)
    requires |v| == |order|
    ensures multiset(Pick(order, v, true)) + multiset(Pick(order, v, false)) == multiset(order)
    decreases |order|
  {
    if order != [] {
      var n := |order| - 1;
      PickPartition(order[..n], v[..n]);
      assert order == order[..n] + [order[n]];
    }
  }

  lemma OrderIsRest(fused: seq<FusedItem>, push: bool)
    ensures multiset(Order(fused, push)) == multiset(InTier(fused, 5)) + (if push then multiset{} else multiset(InTier(fused, 3)))
  {
    SortIsSorted(InTier(fused, 5), Loss);
    SortIsSorted(InTier(fused, 3), Loss);
  }

  /** CONSERVATION. Included and evicted items are together exactly the inputs and the
      success-criteria item, counted with multiplicity. */
  lemma AssemblyConserves(criteria: seq<string>, fused: seq<FusedItem>, budget: int, push: bool)
    requires Assemble(criteria, fused, budget, push).Fits?
    ensures var a := Assemble(criteria, fused, budget, push).assembled;
      multiset(a.included) + multiset(a.evicted) == multiset(fused) + multiset{CriteriaItem(criteria)}
  {
    var fixed, order := Protected(criteria, fused, push), Order(fused, push);
    var v := Greedy(order, Sum(fixed), budget);
    PickPartition(order, v);
    FixedAndOrder(criteria, fused, push);
    assert multiset(fixed + Pick(order, v, true)) == multiset(fixed) + multiset(Pick(order, v, true));
  }

  lemma FixedAndOrder(criteria: seq<string>, fused: seq<FusedItem>, push: bool)
    ensures multiset(Protected(criteria, fused, push)) + multiset(Order(fused, push)) == multiset(fused) + multiset{CriteriaItem(criteria)}
  {
    TiersPartition(fused);
    OrderIsRest(fused, push);
    var t0, t1, t3 := InTier(fused, 0), InTier(fused, 1), InTier(fused, 3);
    assert multiset(Protected(criteria, fused, push)) ==
      multiset(t0) + (multiset{CriteriaItem(criteria)} + multiset(t1)) + (if push then multiset(t3) else multiset{});
  }

  // --------------------------------------------------------------------- budget

  /** The choices already made do not depend on what is offered later. */
  lemma GreedyPrefix(order: seq<FusedItem>, used: nat, budget: int)
    requires order != []
    ensures var n, g := |order| - 1, Greedy(order, used, budget);
      && g[..n] == Greedy(order[..n], used, budget)
      && (g[n] <==> used + Sum(Pick(order[..n], g[..n], true)) + Tokens(order[n]) <= budget)
      && Sum(Pick(order, g, true)) == Sum(Pick(order[..n], g[..n], true)) + (if g[n] then Tokens(order[n]) else 0)
  {
    var n, g := |order| - 1, Greedy(order, used, budget);
    assert g[..n] == Greedy(order[..n], used, budget);
    SumSnoc(Pick(order[..n], g[..n], true), order[n]);
  }

  lemma {:induction false} GreedyFits(order: seq<FusedItem>, used: nat, budget: int)
    requires used <= budget
    ensures var g := Greedy(order, used, budget);
      && used + Sum(Pick(order, g, true)) <= budget
      && forall f | f in Pick(order, g, false) :: used + Sum(Pick(order, g, true)) + Tokens(f) > budget
    decreases |order|
  {
    if order != [] {
      GreedyPrefix(order, used, budget);
      GreedyFits(order[..|order|-1], used, budget);
    }
  }

  /** BUDGET. Assembly overflows exactly when the protected items alone exceed the budget;
      otherwise the reported total is the size of what is included, stays within the budget,
      and no evicted item would fit into what is left. */
  lemma AssemblyWithinBudget(criteria: seq<string>, fused: seq<FusedItem>, budget: int, push: bool)
    ensures var r := Assemble(criteria, fused, budget, push);
      && (r.BudgetExceeded? <==> Sum(Protected(criteria, fused, push)) > budget)
      && (r.BudgetExceeded? ==> r.required == Sum(Protected(criteria, fused, push)))
      && (r.Fits? ==>
            && r.assembled.total == Sum(r.assembled.included) <= budget
            && (forall f | f in r.assembled.evicted :: r.assembled.total + Tokens(f) > budget)
            && (forall f | f in Protected(criteria, fused, push) :: f in r.assembled.included))
  {
    var fixed, order := Protected(criteria, fused, push), Order(fused, push);
    if Sum(fixed) <= budget {
      var v := Greedy(order, Sum(fixed), budget);
      SumConcat(fixed, Pick(order, v, true));
      GreedyFits(order, Sum(fixed), budget);
    }
  }

  /** What push can place up front, pull can place too. */
  lemma PushFitsImpliesPullFits(criteria: seq<string>, fused: seq<FusedItem>, budget: int)
    requires Assemble(criteria, fused, budget, true).Fits?
    ensures Assemble(criteria, fused, budget, false).Fits?
  {
    var common := InTier(fused, 0) + ([CriteriaItem(criteria)] + InTier(fused, 1));
    SumConcat(common, InTier(fused, 3));
    assert Protected(criteria, fused, false) == common;
  }

  // ------------------------------------------------------------------ optimality

  /** `v` does not come after `g` in the dictionary order that prefers taking early items. */
  ghost predicate LexAtMost(v: seq<bool>, g: seq<bool>)
    requires |v| == |g|
  {
    v == g || exists i | 0 <= i < |v| :: FirstGain(v, g, i)
  }

  /** Both agree before position `i`, where only `g` takes the item. */
  predicate FirstGain(v: seq<bool>, g: seq<bool>, i: nat)
    requires i < |v| == |g|
  {
    (forall k | 0 <= k < i :: v[k] == g[k]) && !v[i] && g[i]
  }

  lemma LexExtend(v: seq<bool>, g: seq<bool>)
    requires |v| == |g| && v != []
    requires var n := |v| - 1; LexAtMost(v[..n], g[..n]) && (v[..n] == g[..n] && v[n] ==> g[n])
    ensures LexAtMost(v, g)
  {
    var n := |v| - 1;
    if v[..n] == g[..n] {
      assert v == v[..n] + [v[n]] && g == g[..n] + [g[n]];
      forall k | 0 <= k < n ensures v[k] == g[k] { assert v[k] == v[..n][k] && g[k] == g[..n][k]; }
      if v != g { assert FirstGain(v, g, n); }
    } else {
      var i :| 0 <= i < n && FirstGain(v[..n], g[..n], i);
      forall k | 0 <= k < i ensures v[k] == g[k] { assert v[k] == v[..n][k] && g[k] == g[..n][k]; }
      assert FirstGain(v, g, i);
    }
  }

  predicate Feasible(order: seq<FusedItem>, v: seq<bool>, used: nat, budget: int) {
    |v| == |order| && used + Sum(Pick(order, v, true)) <= budget
  }

  lemma PickTotal(order: seq<FusedItem>, v: seq<bool>)
    requires |v| == |order| && order != []
    ensures var n := |order| - 1;
      Sum(Pick(order, v, true)) == Sum(Pick(order[..n], v[..n], true)) + (if v[n] then Tokens(order[n]) else 0)
  {
    var n := |order| - 1;
    SumSnoc(Pick(order[..n], v[..n], true), order[n]);
  }

  /** OPTIMALITY. Among all selections that respect the budget, the greedy one is greatest in
      dictionary order of the processing order: no other selection takes an item it leaves out
      without first giving up an earlier one. */
  lemma {:induction false} GreedyIsLexGreatest(order: seq<FusedItem>, v: seq<bool>, used: nat, budget: int)
    requires Feasible(order, v, used, budget)
    ensures LexAtMost(v, Greedy(order, used, budget))
    decreases |order|
  {
    if order != [] {
      var n, g := |order| - 1, Greedy(order, used, budget);
      PickTotal(order, v);
      GreedyPrefix(order, used, budget);
      GreedyIsLexGreatest(order[..n], v[..n], used, budget);
      LexExtend(v, g);
    }
  }

  /** Within a tier, an item is offered budget before every item with a smaller score; other code is
      offered budget before architecture. */
  lemma OrderRespectsScores(fused: seq<FusedItem>, push: bool, i: nat, j: nat)
    requires i < j < |Order(fused, push)|
    ensures var o := Order(fused, push);
      && Tier(o[i].item) >= Tier(o[j].item)
      && (Tier(o[i].item) == Tier(o[j].item) ==> o[i].score >= o[j].score)
  {
    var high, low := SortBy(InTier(fused, 5), Loss), SortBy(InTier(fused, 3), Loss);
    SortedMembers(fused, 5);
    SortedMembers(fused, 3);
    if j < |high| { assert Loss(high[i]) <= Loss(high[j]); }
    else if i >= |high| { assert Loss(low[i - |high|]) <= Loss(low[j - |high|]); }
  }

  /** Items of one tier with the same score are offered budget in the order they came in. */
  lemma OrderKeepsTies(fused: seq<FusedItem>, push: bool, tier: nat, score: real)
    requires tier == 5 || (tier == 3 && !push)
    ensures WithKey(InTier(Order(fused, push), tier), Loss, -score) == WithKey(InTier(fused, tier), Loss, -score)
  {
    TierOfOrder(fused, push, tier);
    SortIsStable(InTier(fused, tier), Loss, -score);
  }

  lemma TierOfOrder(fused: seq<FusedItem>, push: bool, tier: nat)
    requires tier == 5 || (tier == 3 && !push)
    ensures InTier(Order(fused, push), tier) == SortBy(InTier(fused, tier), Loss)
  {
    var high, low := SortBy(InTier(fused, 5), Loss), if push then [] else SortBy(InTier(fused, 3), Loss);
    SortedTier(fused, 5, tier);
    SortedTier(fused, 3, tier);
    assert InTier([], tier) == [];
    InTierConcat(high, low, tier);
  }

  lemma {:induction false} InTierConcat(a: seq<FusedItem>, b: seq<FusedItem>, tier: nat)
    ensures InTier(a + b, tier) == InTier(a, tier) + InTier(b, tier)
    decreases |b|
  {
    if b == [] {
      assert a + b == a;
    } else {
      InTierConcat(a, b[..|b|-1], tier);
      assert (a + b)[..|a + b| - 1] == a + b[..|b|-1];
    }
  }

  lemma {:induction false} InTierOfTier(s: seq<FusedItem>, have: nat, tier: nat)
    requires forall f | f in s :: Tier(f.item) == have
    ensures InTier(s, tier) == if have == tier then s else []
    decreases |s|
  {
    if s != [] {
      InTierOfTier(s[..|s|-1], have, tier);
      assert s[|s|-1] in s && s == s[..|s|-1] + [s[|s|-1]];
    }
  }

  lemma SortedTier(fused: seq<FusedItem>, have: nat, tier: nat)
    ensures var sorted := SortBy(InTier(fused, have), Loss); InTier(sorted, tier) == if have == tier then sorted else []
  {
    SortedMembers(fused, have);
    InTierOfTier(SortBy(InTier(fused, have), Loss), have, tier);
  }

  lemma SortedMembers(fused: seq<FusedItem>, have: nat)
    ensures var sorted := SortBy(InTier(fused, have), Loss);
      Ascending(sorted, Loss) && forall k | 0 <= k < |sorted| :: Tier(sorted[k].item) == have
  {
    var sorted := SortBy(InTier(fused, have), Loss);
    SortIsSorted(InTier(fused, have), Loss);
    forall k | 0 <= k < |sorted| ensures Tier(sorted[k].item) == have {
      assert sorted[k] in multiset(sorted) && sorted[k] in multiset(InTier(fused, have));
      MembersOfTier(fused, have, sorted[k]);
    }
  }

  lemma {:induction false} MembersOfTier(s: seq<FusedItem>, tier: nat, f: FusedItem)
    ensures f in InTier(s, tier) <==> f in s && Tier(f.item) == tier
    decreases |s|
  {
    if s != [] {
      MembersOfTier(s[..|s|-1], tier, f);
      assert s == s[..|s|-1] + [s[|s|-1]];
    }
  }

  // --------------------------------------------------------------- the procedure

  /** The eviction loop: `included`, `evicted` and `total` grow item by item. */
  method Fill(start: seq<FusedItem>, order: seq<FusedItem>, used: nat, budget: int)
    returns (included: seq<FusedItem>, evicted: seq<FusedItem>, total: nat)
    ensures var v := Greedy(order, used, budget);
      included == start + Pick(order, v, true) && evicted == Pick(order, v, false) && total == used + Sum(Pick(order, v, true))
  {
    included, evicted, total := start, [], used;
    ghost var taken := [];
    for i := 0 to |order|
      invariant Filled(order, i, used, budget, taken, evicted)
      invariant included == start + taken && total == used + Sum(taken)
    {
      var fused := order[i];
      FillStep(order, i, used, budget, taken, evicted);
      SumSnoc(taken, fused);
      if total + Tokens(fused) <= budget {
        included := included + [fused];
        taken := taken + [fused];
        total := total + Tokens(fused);
      } else {
        evicted := evicted + [fused];
      }
    }
    assert order[..|order|] == order;
  }

  /** `taken` and `left` are the greedy choice among the first `i` items. */
  predicate Filled(order: seq<FusedItem>, i: int, used: nat, budget: int, taken: seq<FusedItem>, left: seq<FusedItem>) {
    0 <= i <= |order| &&
    var v := Greedy(order[..i], used, budget);
    taken == Pick(order[..i], v, true) && left == Pick(order[..i], v, false)
  }

  lemma FillStep(order: seq<FusedItem>, i: nat, used: nat, budget: int, taken: seq<FusedItem>, left: seq<FusedItem>)
    requires i < |order| && Filled(order, i, used, budget, taken, left)
    ensures if used + Sum(taken) + Tokens(order[i]) <= budget then Filled(order, i + 1, used, budget, taken + [order[i]], left)
            else Filled(order, i + 1, used, budget, taken, left + [order[i]])
  {
    assert order[..i+1][..i] == order[..i];
    GreedyPrefix(order[..i+1], used, budget);
  }

  /** `assemble` with its `tiered` dictionary and running total. */
  method AssembleContext(criteria: seq<string>, fused: seq<FusedItem>, budget: int, push: bool) returns (r: AssemblyResult)
    ensures r == Assemble(criteria, fused, budget, push)
  {
    var tiered: map<nat, seq<FusedItem>> := map[0 := [], 1 := [CriteriaItem(criteria)], 3 := [], 5 := []];
    for i := 0 to |fused|
      invariant tiered.Keys == {0, 1, 3, 5}
      invariant tiered[0] == InTier(fused[..i], 0) && tiered[1] == [CriteriaItem(criteria)] + InTier(fused[..i], 1)
      invariant tiered[3] == InTier(fused[..i], 3) && tiered[5] == InTier(fused[..i], 5)
    {
      assert fused[..i+1][..i] == fused[..i];
      var tier := Tier(fused[i].item);
      tiered := tiered[tier := tiered[tier] + [fused[i]]];
    }
    assert fused[..|fused|] == fused;
    var unevictable := tiered[0] + tiered[1];
    if push { unevictable := unevictable + tiered[3]; }
    assert unevictable == Protected(criteria, fused, push);
    var required := Sum(unevictable);
    if required > budget { return BudgetExceeded(required); }
    var order := SortBy(tiered[5], Loss);
    if !push { order := order + SortBy(tiered[3], Loss); }
    assert order == Order(fused, push);
    var included, evicted, total := Fill(unevictable, order, required, budget);
    r := Fits(Assembled(included, evicted, total));
  }
}
