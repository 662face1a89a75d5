/** The context critic (engine/context/critic.py) and the pipeline that calls it
    (engine/context/service.py): assemble, judge coverage, and recover evicted evidence for
    partial categories when it fits. */
module ContextCritic {
  import opened Wrappers
  import opened StableSort
  import opened ContextAssembly
  import opened ContextCoverage

  const CRITIC_BASE_COST := 50

  /** `required_statuses` by category name. */
  function StatusOf(r: Report, category: string): Option<Status> {
    if category == "authoritative_requirements" then Some(r.requirements)
    else if category == "applicable_domain_rules" then Some(r.domainRules)
    else if category == "impacted_code_and_deps" then Some(r.code)
    else if category == ARCHITECTURE then Some(r.architecture)
    else if category == SECURITY then Some(r.security)
    else if category == "verification_obligations" then Some(r.verification)
    else None
  }

  predicate IsPartial(r: Report, category: string) { StatusOf(r, category) == Some(Partial) }

  predicate AnyPartial(r: Report) {
    r.requirements == Partial || r.domainRules == Partial || r.code == Partial
    || r.architecture == Partial || r.security == Partial || r.verification == Partial
  }

  /** Evicted evidence for some partial category. */
  predicate Wanted(r: Report, f: FusedItem) { exists c | c in f.item.categories :: IsPartial(r, c) }

  function Candidates(r: Report, evicted: seq<FusedItem>): seq<FusedItem> { Keep(evicted, (f: FusedItem) => Wanted(r, f)) }

  datatype Outcome = RaisedFinding(cost: nat) | Reassembled(assembled: Assembled, cost: nat)

  /** `run_critic`. */
  function RunCritic(r: Report, a: Assembled, budget: int): Outcome {
    var candidates := Candidates(r, a.evicted);
    if candidates == [] then RaisedFinding(CRITIC_BASE_COST)
    else if a.total + Sum(candidates) > budget then RaisedFinding(CRITIC_BASE_COST + Sum(candidates))
    else
      Reassembled(
        Assembled(a.included + candidates, Keep(a.evicted, (f: FusedItem) => f !in candidates), a.total + Sum(candidates)),
        CRITIC_BASE_COST + Sum(candidates))
  }

  // ------------------------------------------------------------------- triggers

  const RISK_CLASSES: seq<string> := ["low", "medium", "high", "critical"]
  const BLAST_RADII: seq<string> := ["none", "local", "module", "cross_module", "systemic"]

  datatype Signals = Signals(riskClass: string, blastRadius: string, taskClass: string, previousFailure: bool, threshold: real)

  datatype Reason = HighRisk | WideBlast | CoveragePartial | RepairOfContextFailure | LowConfidence(confidence: real)

  function Relevance(s: seq<FusedItem>): real { if s == [] then 0.0 else Relevance(s[..|s|-1]) + s[|s|-1].item.relevance }

  /** `_mean_relevance`. */
  function MeanRelevance(included: seq<FusedItem>): real {
    if included == [] then 0.0 else Relevance(included) / (|included| as real)
  }

  /** `evaluate_trigger`: every condition is checked, none short-circuits another. */
  function TriggerReasons(s: Signals, r: Report, included: seq<FusedItem>): seq<Reason> {
    (if s.riskClass in RISK_CLASSES[2..] then [HighRisk] else [])
    + (if s.blastRadius in BLAST_RADII[3..] then [WideBlast] else [])
    + (if AnyPartial(r) then [CoveragePartial] else [])
    + (if s.taskClass == "repair" && s.previousFailure then [RepairOfContextFailure] else [])
    + (var confidence := MeanRelevance(included); if confidence < s.threshold then [LowConfidence(confidence)] else [])
  }

  // -------------------------------------------------------------- reassembly laws

  lemma {:induction false} KeepSplit(s: seq<FusedItem>, p: FusedItem -> bool, q: FusedItem -> bool)
    requires forall f | f in s :: p(f) <==> !q(f)
    ensures multiset(Keep(s, p)) + multiset(Keep(s, q)) == multiset(s)
    decreases |s|
  {
    if s != [] {
      var before, x := s[..|s|-1], s[|s|-1];
      KeepSplit(before, p, q);
      Snoc(s);
      assert x in s;
      assert multiset(Keep(s, p)) == multiset(Keep(before, p)) + if p(x) then multiset{x} else multiset{};
      assert multiset(Keep(s, q)) == multiset(Keep(before, q)) + if p(x) then multiset{} else multiset{x};
    }
  }

  lemma CandidatesAre(r: Report, evicted: seq<FusedItem>)
    ensures forall f :: f in Candidates(r, evicted) <==> f in evicted && Wanted(r, f)
  {
    KeepAll(evicted, (f: FusedItem) => Wanted(r, f));
  }

  /** A reassembly conserves items, reports the size of what it includes, and fits the budget it
      was given; it only moves items from evicted to included. */
  lemma ReassemblyConserves(r: Report, a: Assembled, budget: int)
    requires a.total == Sum(a.included)
    requires RunCritic(r, a, budget).Reassembled?
    ensures var b := RunCritic(r, a, budget).assembled;
      && multiset(b.included) + multiset(b.evicted) == multiset(a.included) + multiset(a.evicted)
      && b.total == Sum(b.included) <= budget
      && (forall f | f in a.included :: f in b.included)
  {
    var candidates := Candidates(r, a.evicted);
    CandidatesAre(r, a.evicted);
    KeepSplit(a.evicted, (f: FusedItem) => Wanted(r, f), (f: FusedItem) => f !in candidates);
    SumConcat(a.included, candidates);
  }

  /** What assembly guarantees about its result, all the critic's laws need. */
  ghost predicate Packed(a: Assembled, criteria: seq<string>, fused: seq<FusedItem>, budget: int) {
    && a.total == Sum(a.included) <= budget
    && (forall f | f in a.evicted :: a.total + Tokens(f) > budget)
    && multiset(a.included) + multiset(a.evicted) == multiset(fused) + multiset{CriteriaItem(criteria)}
  }

  lemma AssemblyIsPacked(criteria: seq<string>, fused: seq<FusedItem>, budget: int, push: bool)
    requires Assemble(criteria, fused, budget, push).Fits?
    ensures Packed(Assemble(criteria, fused, budget, push).assembled, criteria, fused, budget)
  {
    AssemblyWithinBudget(criteria, fused, budget, push);
    AssemblyConserves(criteria, fused, budget, push);
  }

  /** Whatever the critic could recover was evicted for lack of room, so it overruns the room. */
  lemma WantedNeverFits(a: Assembled, criteria: seq<string>, fused: seq<FusedItem>, room: int, r: Report)
    requires Packed(a, criteria, fused, room) && Candidates(r, a.evicted) != []
    ensures a.total + Sum(Candidates(r, a.evicted)) > room
  {
    var wanted := Candidates(r, a.evicted);
    CandidatesAre(r, a.evicted);
    assert wanted[0] in wanted;
    SumAtLeastMember(wanted, wanted[0]);
  }

  /** NO FREE LUNCH. With a budget no larger than the one the context was assembled under, the
      critic never reassembles. */
  lemma SameBudgetNeverReassembles(a: Assembled, criteria: seq<string>, fused: seq<FusedItem>, room: int, r: Report, budget: int)
    requires Packed(a, criteria, fused, room) && budget <= room
    ensures RunCritic(r, a, budget).RaisedFinding?
  {
    if Candidates(r, a.evicted) != [] { WantedNeverFits(a, criteria, fused, room, r); }
  }

  lemma EvictedEvidenceIsWanted(a: Assembled, criteria: seq<string>, fused: seq<FusedItem>, room: int, r: Report, category: string)
    requires Packed(a, criteria, fused, room) && IsPartial(r, category)
    requires Evidenced(fused, category) && !Evidenced(a.included, category)
    ensures Evidenced(Candidates(r, a.evicted), category)
  {
    var f :| f in fused && category in f.item.categories;
    assert f in multiset(fused) + multiset{CriteriaItem(criteria)};
    assert f in multiset(a.included) + multiset(a.evicted);
    assert f in a.evicted;
    CandidatesAre(r, a.evicted);
    assert Wanted(r, f);
  }

  /** RECOVERY. After a reassembly every category that was partial because its evidence had been
      evicted is satisfied, and no status got worse. */
  lemma ReassemblyRepairs(t: Task, fused: seq<FusedItem>, a: Assembled, room: int, budget: int)
    requires Packed(a, t.criteria, fused, room)
    requires RunCritic(Coverage(t, fused, a.included), a, budget).Reassembled?
    ensures var before := Coverage(t, fused, a.included);
      var after := Coverage(t, fused, RunCritic(before, a, budget).assembled.included);
      && NotWorse(before, after)
      && (before.architecture == Partial ==> after.architecture == Satisfied)
      && (before.security == Partial ==> after.security == Satisfied)
  {
    var before := Coverage(t, fused, a.included);
    var wanted := Candidates(before, a.evicted);
    CoverageMonotone(t, fused, a.included, a.included + wanted);
    forall c | (c == ARCHITECTURE || c == SECURITY) && IsPartial(before, c)
      ensures CategoryStatus(c, a.included + wanted, fused) == Satisfied
    {
      EvictedEvidenceIsWanted(a, t.criteria, fused, room, before, c);
      EvidenceMonotone(c, wanted, a.included + wanted);
    }
  }

  /** What every retriever sets: an item with a path is marked exactly when the path is in the declared
      write scope. */
  predicate ScopeMarked(t: Task, fused: seq<FusedItem>) {
    forall f | f in fused && f.item.sourcePath.Some? ::
      f.item.writeScopeMatch <==> exists s | s in t.writeScope :: Touches(f.item.sourcePath.value, s)
  }

  lemma SameCode(t: Task, fused: seq<FusedItem>, included: seq<FusedItem>)
    requires ScopeMarked(t, fused)
    requires forall f | f in fused && f.item.writeScopeMatch :: f in included
    requires forall f | f in included && f.item.sourcePath.Some? :: f in fused
    ensures CodeStatus(t, included) == CodeStatus(t, fused)
  {
    forall s | s in t.writeScope ensures Covers(included, s) <==> Covers(fused, s) {
      if Covers(included, s) {
        var f :| f in included && ItemTouches(f, s);
        assert f in fused;
      }
      if Covers(fused, s) {
        var f :| f in fused && ItemTouches(f, s);
        assert Touches(f.item.sourcePath.value, s) && f in included;
      }
    }
    CodeStatusMeans(t, included);
    CodeStatusMeans(t, fused);
  }

  /** CODE IS NEVER LOST. Items in the write scope are protected, so neither eviction nor reassembly
      changes how the code category was covered by what was retrieved: it needs no repair. */
  lemma EvictionSparesCode(t: Task, fused: seq<FusedItem>, room: int, push: bool, budget: int)
    requires Assemble(t.criteria, fused, room, push).Fits? && ScopeMarked(t, fused)
    ensures var a := Assemble(t.criteria, fused, room, push).assembled;
      var before := Coverage(t, fused, a.included);
      && before.code == CodeStatus(t, fused)
      && (RunCritic(before, a, budget).Reassembled? ==>
        Coverage(t, fused, RunCritic(before, a, budget).assembled.included).code == CodeStatus(t, fused))
  {
    var a := Assemble(t.criteria, fused, room, push).assembled;
    AssemblyIsPacked(t.criteria, fused, room, push);
    ScopeIsIncluded(t, fused, room, push);
    CodeStays(t, fused, a, a.included);
    CodeStaysReassembled(t, fused, a, budget);
  }

  lemma CodeStays(t: Task, fused: seq<FusedItem>, a: Assembled, included: seq<FusedItem>)
    requires ScopeMarked(t, fused) && forall f | f in fused && f.item.writeScopeMatch :: f in included
    requires multiset(a.included) + multiset(a.evicted) == multiset(fused) + multiset{CriteriaItem(t.criteria)}
    requires forall f | f in included :: f in a.included || f in a.evicted
    ensures CodeStatus(t, included) == CodeStatus(t, fused)
  {
    OnlyRetrieved(t.criteria, fused, a, included);
    SameCode(t, fused, included);
  }

  lemma CodeStaysReassembled(t: Task, fused: seq<FusedItem>, a: Assembled, budget: int)
    requires ScopeMarked(t, fused) && forall f | f in fused && f.item.writeScopeMatch :: f in a.included
    requires multiset(a.included) + multiset(a.evicted) == multiset(fused) + multiset{CriteriaItem(t.criteria)}
    ensures var before := Coverage(t, fused, a.included);
      RunCritic(before, a, budget).Reassembled? ==>
        CodeStatus(t, RunCritic(before, a, budget).assembled.included) == CodeStatus(t, fused)
  {
    var before := Coverage(t, fused, a.included);
    CandidatesAre(before, a.evicted);
    CodeStays(t, fused, a, a.included + Candidates(before, a.evicted));
  }

  lemma ScopeIsIncluded(t: Task, fused: seq<FusedItem>, room: int, push: bool)
    requires Assemble(t.criteria, fused, room, push).Fits?
    ensures forall f | f in fused && f.item.writeScopeMatch :: f in Assemble(t.criteria, fused, room, push).assembled.included
  {
    AssemblyWithinBudget(t.criteria, fused, room, push);
    forall f | f in fused && f.item.writeScopeMatch ensures f in Protected(t.criteria, fused, push) { MembersOfTier(fused, 0, f); }
  }

  lemma OnlyRetrieved(criteria: seq<string>, fused: seq<FusedItem>, a: Assembled, included: seq<FusedItem>)
    requires multiset(a.included) + multiset(a.evicted) == multiset(fused) + multiset{CriteriaItem(criteria)}
    requires forall f | f in included :: f in a.included || f in a.evicted
    ensures forall f | f in included && f.item.sourcePath.Some? :: f in fused
  {
    forall f | f in included && f.item.sourcePath.Some? ensures f in fused {
      assert f in multiset(a.included) + multiset(a.evicted);
      assert f in multiset(fused) + multiset{CriteriaItem(criteria)};
      assert f in multiset(fused);
    }
  }

  // ------------------------------------------------------------------ the pipeline

  datatype Package = Package(assembled: Assembled, coverage: Report, critic: Option<Outcome>, tokens: nat)

  /** From an assembled context to a package: judge, maybe trigger the critic, judge again. */
  function Finish(t: Task, s: Signals, fused: seq<FusedItem>, a: Assembled, budget: int, ext: nat, conflicted: bool): Package {
    var coverage := Coverage(t, fused, a.included);
    if conflicted || TriggerReasons(s, coverage, a.included) == [] then Package(a, coverage, None, a.total + ext)
    else
      match RunCritic(coverage, a, budget)
      case RaisedFinding(cost) => Package(a, coverage, Some(RaisedFinding(cost)), a.total + ext)
      case Reassembled(b, cost) => Package(b, Coverage(t, fused, b.included), Some(Reassembled(b, cost)), b.total + ext)
  }

  /** The part of `ContextService.compile` that spends the budget: extensions reserve their tokens
      first, assembly gets the rest, and the critic is called with the whole budget. */
  function Compile(t: Task, s: Signals, fused: seq<FusedItem>, budget: int, ext: nat, push: bool, conflicted: bool)
    : Result<Package, nat>
  {
    if ext > budget then Failure(ext)
    else
      match Assemble(t.criteria, fused, budget - ext, push)
      case BudgetExceeded(required) => Failure(required + ext)
      case Fits(a) => Success(Finish(t, s, fused, a, budget, ext, conflicted))
  }

  predicate Reassembles(p: Package) { p.critic.Some? && p.critic.value.Reassembled? }

  lemma FinishOverruns(t: Task, s: Signals, fused: seq<FusedItem>, a: Assembled, budget: int, ext: nat, conflicted: bool)
    requires Packed(a, t.criteria, fused, budget - ext)
    ensures var p := Finish(t, s, fused, a, budget, ext, conflicted);
      && (p.tokens > budget <==> Reassembles(p))
      && (ext == 0 ==> p.tokens <= budget)
      && p.assembled.total == Sum(p.assembled.included)
      && multiset(p.assembled.included) + multiset(p.assembled.evicted) == multiset(fused) + multiset{CriteriaItem(t.criteria)}
  {
    var p := Finish(t, s, fused, a, budget, ext, conflicted);
    var coverage := Coverage(t, fused, a.included);
    if Reassembles(p) {
      ReassemblyConserves(coverage, a, budget);
      WantedNeverFits(a, t.criteria, fused, budget - ext, coverage);
    }
  }

  /** THE PIPELINE AND ITS BUDGET. "Extensions reserve their token footprint inside the same worker
      context budget" is not kept: a package exceeds the budget exactly when the critic
      reassembled it, and without extensions that never happens. Items are conserved either way. */
  lemma PackageOverrunsIffReassembled(t: Task, s: Signals, fused: seq<FusedItem>, budget: int, ext: nat, push: bool, conflicted: bool)
    ensures var r := Compile(t, s, fused, budget, ext, push, conflicted);
      && (r.Success? <==> ext <= budget && Sum(Protected(t.criteria, fused, push)) + ext <= budget)
      && (r.Success? ==>
        var p := r.value;
        && (p.tokens > budget <==> Reassembles(p))
        && (ext == 0 ==> p.tokens <= budget)
        && p.assembled.total == Sum(p.assembled.included)
        && multiset(p.assembled.included) + multiset(p.assembled.evicted) == multiset(fused) + multiset{CriteriaItem(t.criteria)})
  {
    AssemblyWithinBudget(t.criteria, fused, budget - ext, push);
    if Compile(t, s, fused, budget, ext, push, conflicted).Success? {
      AssemblyIsPacked(t.criteria, fused, budget - ext, push);
      FinishOverruns(t, s, fused, Assemble(t.criteria, fused, budget - ext, push).assembled, budget, ext, conflicted);
    }
  }

  lemma PartialTriggers(s: Signals, r: Report, included: seq<FusedItem>)
    requires AnyPartial(r)
    ensures CoveragePartial in TriggerReasons(s, r, included)
  {}

  lemma WantedMeansPartial(r: Report, evicted: seq<FusedItem>)
    requires Candidates(r, evicted) != []
    ensures AnyPartial(r)
  {
    CandidatesAre(r, evicted);
    var f := Candidates(r, evicted)[0];
    assert f in Candidates(r, evicted);
    var c :| c in f.item.categories && IsPartial(r, c);
  }

  /** The condition a caller can check beforehand: some evicted evidence of a partial category
      exists and all of it fits the whole budget on top of what was assembled. A partial category
      always triggers the critic, so only a detected conflict can still prevent the overrun. */
  lemma OverrunCondition(t: Task, s: Signals, fused: seq<FusedItem>, a: Assembled, budget: int, ext: nat)
    requires Packed(a, t.criteria, fused, budget - ext)
    ensures var wanted := Candidates(Coverage(t, fused, a.included), a.evicted);
      Finish(t, s, fused, a, budget, ext, false).tokens > budget <==> wanted != [] && a.total + Sum(wanted) <= budget
    ensures Finish(t, s, fused, a, budget, ext, true).tokens <= budget
  {
    var coverage := Coverage(t, fused, a.included);
    var wanted := Candidates(coverage, a.evicted);
    FinishOverruns(t, s, fused, a, budget, ext, false);
    FinishOverruns(t, s, fused, a, budget, ext, true);
    if wanted != [] {
      WantedMeansPartial(coverage, a.evicted);
      PartialTriggers(s, coverage, a.included);
    }
  }

  /** A concrete overrun: a budget of 10, an extension of 3, and one four-token architecture item
      that does not fit beside the success criteria and is then taken back in, for 11 tokens. */
  lemma OverrunWitness()
    ensures var f := FusedItem(ContextItem("lexical", "AGENTS.md", [ARCHITECTURE], 1.0, false, "0123456789abcdef", None), 1.0);
      var p := Compile(Task([], [], [], false, [], map[], map[]), Signals("low", "none", "feature", false, 0.0), [f], 10, 3, false, false);
      p.Success? && p.value.tokens == 11
  {
    var f := FusedItem(ContextItem("lexical", "AGENTS.md", [ARCHITECTURE], 1.0, false, "0123456789abcdef", None), 1.0);
    assert Tier(f.item) == 3 && Tokens(f) == 4;
    OneItemOverruns(Task([], [], [], false, [], map[], map[]), Signals("low", "none", "feature", false, 0.0), f);
  }

  lemma OneItemOverruns(t: Task, s: Signals, f: FusedItem)
    requires t.criteria == [] && f.item.categories == [ARCHITECTURE] && Tier(f.item) == 3 && Tokens(f) == 4
    ensures var p := Compile(t, s, [f], 10, 3, false, false); p.Success? && p.value.tokens == 11
  {
    WitnessAssembly(f);
    WitnessCoverage(t, f);
    FinishRecovers(t, s, [f], Assembled([CriteriaItem([])], [f], 4), 10, 3);
  }

  /** What a reassembled package costs. */
  lemma FinishRecovers(t: Task, s: Signals, fused: seq<FusedItem>, a: Assembled, budget: int, ext: nat)
    requires var wanted := Candidates(Coverage(t, fused, a.included), a.evicted); wanted != [] && a.total + Sum(wanted) <= budget
    ensures var wanted := Candidates(Coverage(t, fused, a.included), a.evicted);
      Finish(t, s, fused, a, budget, ext, false).tokens == a.total + Sum(wanted) + ext
  {
    var coverage := Coverage(t, fused, a.included);
    WantedMeansPartial(coverage, a.evicted);
    PartialTriggers(s, coverage, a.included);
  }

  lemma SumOne(f: FusedItem)
    ensures Sum([f]) == Tokens(f)
  {
    SumCons(f, []);
    assert [f] + [] == [f];
  }

  lemma WitnessAssembly(f: FusedItem)
    requires Tier(f.item) == 3 && Tokens(f) == 4
    ensures Assemble([], [f], 7, false) == Fits(Assembled([CriteriaItem([])], [f], 4))
  {
    var c := CriteriaItem([]);
    SumOne(c);
    assert |c.item.content| == 18 && [f][..0] == [];
    assert InTier([f], 3) == InTier([f][..0], 3) + [f] == [f];
    forall t: nat | t != 3 ensures InTier([f], t) == [] {
      assert InTier([f], t) == InTier([f][..0], t) + [];
    }
    assert Protected([], [f], false) == [c];
    assert Order([f], false) == [f];
    GreedyPrefix([f], 4, 7);
    assert Greedy([f], 4, 7) == [false];
    assert Pick([f], [false], true) == [] && Pick([f], [false], false) == [f];
  }

  lemma WitnessCoverage(t: Task, f: FusedItem)
    requires f.item.categories == [ARCHITECTURE]
    ensures var coverage := Coverage(t, [f], [CriteriaItem([])]);
      coverage.architecture == Partial && Candidates(coverage, [f]) == [f] && Sum([f]) == Tokens(f)
  {
    var coverage := Coverage(t, [f], [CriteriaItem([])]);
    assert ARCHITECTURE in f.item.categories && f in [f];
    assert IsPartial(coverage, ARCHITECTURE) && Wanted(coverage, f);
    SumOne(f);
    CandidatesAre(coverage, [f]);
    var wanted := Candidates(coverage, [f]);
    KeepAll([f], (x: FusedItem) => Wanted(coverage, x));
    assert |wanted| == 1 && wanted[0] in wanted;
  }
}
