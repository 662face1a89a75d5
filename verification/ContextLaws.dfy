/** What the context pipeline decides, said on the items and the task alone: which items stay, in which
    order the others are tried, what each coverage status and question means, and what the critic does. */
module ContextLaws {
  import opened Wrappers
  import opened StableSort
  import opened ContextAssembly
  import opened ContextCoverage
  import opened ContextCritic

  // ------------------------------------------------------------ assembly

  /** Architecture or security evidence. */
  predicate Guidance(f: FusedItem) {
    exists c | c in f.item.categories :: c == "architecture_constraints" || c == "security_constraints"
  }

  /** Never evicted: the write scope, the authority rows and the task, and under push the guidance. */
  predicate MustStay(f: FusedItem, push: bool) {
    f.item.writeScopeMatch || f.item.retriever == "authority" || f.item.retriever == "task" || (push && Guidance(f))
  }

  /** The tokens of the items that must stay. */
  function Owed(fused: seq<FusedItem>, push: bool): nat {
    if fused == [] then 0 else (if MustStay(fused[0], push) then Tokens(fused[0]) else 0) + Owed(fused[1..], push)
  }

  lemma TierMeans(f: FusedItem)
    ensures Tier(f.item) in {0, 1, 3, 5}
    ensures MustStay(f, false) <==> Tier(f.item) == 0 || Tier(f.item) == 1
    ensures MustStay(f, true) <==> Tier(f.item) != 5
    ensures !MustStay(f, false) ==> (Guidance(f) <==> Tier(f.item) == 3)
  {
    assert Guidance(f) <==> ARCHITECTURE in f.item.categories || SECURITY in f.item.categories;
  }

  lemma {:induction false} OwedConcat(a: seq<FusedItem>, b: seq<FusedItem>, push: bool)
    ensures Owed(a + b, push) == Owed(a, push) + Owed(b, push)
    decreases |a|
  {
    if a == [] {
      assert a + b == b;
    } else {
      OwedConcat(a[1..], b, push);
      assert (a + b)[1..] == a[1..] + b;
    }
  }

  lemma {:induction false} OwedIsProtected(criteria: seq<string>, fused: seq<FusedItem>, push: bool)
    ensures Sum(InTier(fused, 0)) + Sum(InTier(fused, 1)) + (if push then Sum(InTier(fused, 3)) else 0) == Owed(fused, push)
    decreases |fused|
  {
    if fused != [] {
      var before, x := fused[..|fused|-1], fused[|fused|-1];
      OwedIsProtected(criteria, before, push);
      TierMeans(x);
      assert fused == before + [x];
      OwedConcat(before, [x], push);
      assert [x][1..] == [];
      forall t: nat ensures Sum(InTier(fused, t)) == Sum(InTier(before, t)) + (if Tier(x.item) == t then Tokens(x) else 0) {
        if Tier(x.item) == t { SumSnoc(InTier(before, t), x); } else { assert InTier(before, t) + [] == InTier(before, t); }
      }
    }
  }

  lemma ProtectedCosts(criteria: seq<string>, fused: seq<FusedItem>, push: bool)
    ensures Sum(Protected(criteria, fused, push)) == Tokens(CriteriaItem(criteria)) + Owed(fused, push)
  {
    var t0, t1, t3 := InTier(fused, 0), InTier(fused, 1), InTier(fused, 3);
    OwedIsProtected(criteria, fused, push);
    SumCons(CriteriaItem(criteria), t1);
    SumConcat(t0, [CriteriaItem(criteria)] + t1);
    var common := t0 + ([CriteriaItem(criteria)] + t1);
    if push { SumConcat(common, t3); } else { assert common + [] == common; }
  }

  lemma InOrder(fused: seq<FusedItem>, push: bool, f: FusedItem)
    ensures f in Order(fused, push) <==> f in fused && !MustStay(f, push)
  {
    OrderIsRest(fused, push);
    TierMeans(f);
    MembersOfTier(fused, 5, f);
    MembersOfTier(fused, 3, f);
    assert f in Order(fused, push) <==> f in multiset(Order(fused, push));
  }

  /** ASSEMBLY, ON THE ITEMS. It overflows exactly when the success criteria and the items that must stay
      cost more than the budget, and then names that cost; otherwise all of those are included, so no
      write-scope, authority or task item is ever evicted. */
  lemma AssembleMeans(criteria: seq<string>, fused: seq<FusedItem>, budget: int, push: bool)
    ensures var r := Assemble(criteria, fused, budget, push); var owed := Tokens(CriteriaItem(criteria)) + Owed(fused, push);
      && (r.BudgetExceeded? <==> owed > budget)
      && (r.BudgetExceeded? ==> r.required == owed)
      && (r.Fits? ==> CriteriaItem(criteria) in r.assembled.included)
      && (r.Fits? ==> forall f | f in fused && MustStay(f, push) :: f in r.assembled.included)
      && (r.Fits? ==> forall f | f in r.assembled.evicted :: f in fused && !MustStay(f, push))
  {
    ProtectedCosts(criteria, fused, push);
    AssemblyWithinBudget(criteria, fused, budget, push);
    var r := Assemble(criteria, fused, budget, push);
    if r.Fits? {
      forall f | f in fused && MustStay(f, push) ensures f in r.assembled.included {
        TierMeans(f);
        MembersOfTier(fused, 0, f);
        MembersOfTier(fused, 1, f);
        MembersOfTier(fused, 3, f);
        assert f in Protected(criteria, fused, push);
      }
      forall f | f in r.assembled.evicted ensures f in fused && !MustStay(f, push) { EvictedWasOffered(criteria, fused, budget, push, f); }
    }
  }

  lemma EvictedWasOffered(criteria: seq<string>, fused: seq<FusedItem>, budget: int, push: bool, f: FusedItem)
    requires var r := Assemble(criteria, fused, budget, push); r.Fits? && f in r.assembled.evicted
    ensures f in fused && !MustStay(f, push)
  {
    var order := Order(fused, push);
    var v := Greedy(order, Sum(Protected(criteria, fused, push)), budget);
    PickPartition(order, v);
    assert f in multiset(Pick(order, v, true)) + multiset(Pick(order, v, false));
    assert f in multiset(order);
    InOrder(fused, push, f);
  }

  /** THE ORDER. The evictable items are offered budget with other code before architecture and security,
      and within each of the two by descending score. */
  lemma OfferedOrder(fused: seq<FusedItem>, push: bool, i: nat, j: nat)
    requires i < j < |Order(fused, push)|
    ensures var o := Order(fused, push);
      && (Guidance(o[i]) ==> Guidance(o[j]))
      && (Guidance(o[i]) == Guidance(o[j]) ==> o[i].score >= o[j].score)
  {
    var o := Order(fused, push);
    OrderRespectsScores(fused, push, i, j);
    InOrder(fused, push, o[i]);
    InOrder(fused, push, o[j]);
    TierMeans(o[i]);
    TierMeans(o[j]);
  }

  /** Every success criterion is in the text of the criteria item, on a line of its own. */
  lemma {:induction false} CriterionIsShown(criteria: seq<string>, i: nat) returns (before: string, after: string)
    requires i < |criteria|
    ensures Bullets(criteria) == before + "- " + criteria[i] + after
    ensures (i == 0 <==> before == "") && (i == |criteria| - 1 <==> after == "")
    ensures i > 0 ==> before[|before|-1] == '\n'
    ensures i < |criteria| - 1 ==> after[0] == '\n'
    decreases |criteria|
  {
    var n := |criteria| - 1;
    if i == n {
      before, after := if n == 0 then "" else Bullets(criteria[..n]) + "\n", "";
      if n > 0 { assert Bullets(criteria) == (Bullets(criteria[..n]) + "\n") + "- " + criteria[n]; }
    } else {
      before, after := CriterionIsShown(criteria[..n], i);
      after := after + "\n- " + criteria[n];
    }
  }

  // ------------------------------------------------------------ coverage

  /** An authority category: satisfied when every target is there and in the wanted state, missing when
      there are targets and none is there. */
  ghost predicate Judged(st: Status, refs: seq<string>, target: string -> bool, rows: map<string, string>, wanted: string) {
    && (st == Satisfied <==> forall r | r in refs && target(r) :: r in rows && rows[r] == wanted)
    && (st == Missing <==> (exists r :: r in refs && target(r)) && forall r | r in refs && target(r) :: r !in rows)
  }

  /** An evidence category: satisfied when something included carries it, missing when nothing retrieved
      or included does. */
  ghost predicate Shown(st: Status, category: string, fused: seq<FusedItem>, included: seq<FusedItem>) {
    && (st == Satisfied <==> exists f :: f in included && category in f.item.categories)
    && (st == Missing <==> forall f | f in included || f in fused :: category !in f.item.categories)
  }

  lemma JudgedTargets(refs: seq<string>, target: string -> bool, rows: map<string, string>, wanted: string)
    ensures Judged(AuthorityStatus(Keep(refs, target), rows, wanted), refs, target, rows, wanted)
  {
    KeepAll(refs, target);
    AuthorityStatusMeans(Keep(refs, target), rows, wanted);
    if Keep(refs, target) != [] { assert Keep(refs, target)[0] in refs; }
  }

  lemma ShownCategory(category: string, fused: seq<FusedItem>, included: seq<FusedItem>)
    ensures Shown(CategoryStatus(category, included, fused), category, fused, included)
  {
  }

  function IsRequirement(t: Task): string -> bool { (ref: string) => ref !in t.edrs }

  function IsDecision(t: Task): string -> bool { (ref: string) => ref in t.edrs || EdrLike(ref) }

  /** Paths compare by whole segments: a plain path is in a plain scope when it is that scope or continues it
      after a slash. */
  lemma TouchesPlain(path: string, scope: string)
    requires Plain(path) && Plain(scope)
    ensures Touches(path, scope) <==> path == scope || (|scope| < |path| && path[..|scope|] == scope && path[|scope|] == '/')
  {
    PlainStays(path);
    PlainStays(scope);
    if |scope| < |path| && path[..|scope|] == scope && path[|scope|] == '/' { assert path == (scope + "/") + path[|scope|+1..]; }
    if scope + "/" <= path { assert path[..|scope|] == (scope + "/")[..|scope|] && path[|scope|] == (scope + "/")[|scope|]; }
  }

  /** No backslash, and no slash at the end. */
  predicate Plain(path: string) { '\\' !in path && (path != "" ==> path[|path|-1] != '/') }

  lemma {:induction false} PosixStays(path: string)
    requires '\\' !in path
    ensures ToPosix(path) == path
    decreases |path|
  {
    if path != "" {
      PosixStays(path[..|path|-1]);
      assert path == path[..|path|-1] + [path[|path|-1]];
    }
  }

  lemma PlainStays(path: string)
    requires Plain(path)
    ensures StripSlashes(ToPosix(path)) == path
  {
    PosixStays(path);
  }

  /** How a path is spelled does not matter: neither a slash at the end, nor which way any slash leans. */
  lemma SpellingIsIgnored(path: string, other: string, scope: string)
    requires |path| == |other| && forall i | 0 <= i < |path| :: path[i] == other[i] || {path[i], other[i]} == {'/', '\\'}
    ensures Touches(path, scope) <==> Touches(other, scope)
    ensures Touches(scope, path) <==> Touches(scope, other)
    ensures Touches(path + "/", scope) <==> Touches(path, scope)
    ensures Touches(scope, path + "/") <==> Touches(scope, path)
  {
    SamePosix(path, other);
    assert (path + "/")[..|path|] == path;
    assert ToPosix(path + "/") == ToPosix(path) + "/";
    assert (ToPosix(path) + "/")[..|ToPosix(path)|] == ToPosix(path);
  }

  lemma {:induction false} SamePosix(path: string, other: string)
    requires |path| == |other| && forall i | 0 <= i < |path| :: path[i] == other[i] || {path[i], other[i]} == {'/', '\\'}
    ensures ToPosix(path) == ToPosix(other)
    decreases |path|
  {
    if path != "" {
      var n := |path| - 1;
      SamePosix(path[..n], other[..n]);
      assert path[n] == other[n] || {path[n], other[n]} == {'/', '\\'};
      if path[n] != other[n] { assert path[n] in {'/', '\\'} && other[n] in {'/', '\\'}; }
    }
  }

  function Upper(c: char): char { if 'a' <= c <= 'z' then (c as int - 32) as char else c }

  /** A reference looks like a decision record when it starts with EDR- in any case. */
  lemma EdrLikeMeans(ref: string)
    ensures EdrLike(ref) <==> |ref| >= 4 && forall i | 0 <= i < 4 :: Upper(ref[i]) == "EDR-"[i]
  {
    if |ref| >= 4 {
      assert "EDR-"[0] == 'E' && "EDR-"[1] == 'D' && "EDR-"[2] == 'R' && "EDR-"[3] == '-';
      assert EdrLike(ref) <==> Upper(ref[0]) == 'E' && Upper(ref[1]) == 'D' && Upper(ref[2]) == 'R' && Upper(ref[3]) == '-';
    }
  }

  /** THE SIX STATUSES. Each is what the task, the retrieved and the included items say. */
  lemma CoverageMeans(t: Task, fused: seq<FusedItem>, included: seq<FusedItem>)
    ensures var r := Coverage(t, fused, included);
      && Judged(r.requirements, t.requirementRefs, IsRequirement(t), t.requirements, "approved")
      && Judged(r.domainRules, t.requirementRefs, IsDecision(t), t.edrs, "accepted")
      && (r.code == Satisfied <==> forall s | s in t.writeScope :: Covers(included, s))
      && (r.code == Missing <==> t.writeScope != [] && forall s | s in t.writeScope :: !Covers(included, s))
      && Shown(r.architecture, "architecture_constraints", fused, included)
      && (if t.securityRelevant then Shown(r.security, "security_constraints", fused, included) else r.security == Satisfied)
      && r.verification == (if t.criteria == [] then Missing else Satisfied)
  {
    JudgedTargets(t.requirementRefs, IsRequirement(t), t.requirements, "approved");
    JudgedTargets(t.requirementRefs, IsDecision(t), t.edrs, "accepted");
    KeepSame(t.requirementRefs, IsRequirement(t), (ref: string) => ref !in t.edrs);
    KeepSame(t.requirementRefs, IsDecision(t), (ref: string) => ref in t.edrs || EdrLike(ref));
    CodeStatusMeans(t, included);
    ShownCategory(ARCHITECTURE, fused, included);
    ShownCategory(SECURITY, fused, included);
  }

  lemma {:induction false} KeepSame<T>(s: seq<T>, p: T -> bool, q: T -> bool)
    requires forall x | x in s :: p(x) <==> q(x)
    ensures Keep(s, p) == Keep(s, q)
    decreases |s|
  {
    if s != [] { KeepSame(s[..|s|-1], p, q); }
  }

  /** When a question is asked. */
  ghost predicate Asked(t: Task, r: Report, included: seq<FusedItem>, q: Question) {
    match q
    case UnresolvedRequirement(ref) => ref in t.requirementRefs && IsRequirement(t)(ref) && ref !in t.requirements
    case UnapprovedRequirement(ref) =>
      ref in t.requirementRefs && IsRequirement(t)(ref) && ref in t.requirements && t.requirements[ref] != "approved"
    case UnresolvedEdr(ref) => ref in t.requirementRefs && IsDecision(t)(ref) && ref !in t.edrs
    case UnacceptedEdr(ref) => ref in t.requirementRefs && IsDecision(t)(ref) && ref in t.edrs && t.edrs[ref] != "accepted"
    case UncoveredScope(scope) => scope in t.writeScope && !Covers(included, scope)
    case EvidenceEvicted(c) =>
      (c == "architecture_constraints" && r.architecture == Partial) || (c == "security_constraints" && r.security == Partial)
    case NoEvidence(c) => (c == "architecture_constraints" && r.architecture == Missing) || (c == "security_constraints" && r.security == Missing)
    case NoSuccessCriteria => t.criteria == []
    case UnresolvedPath(path) => path in t.unresolvedPaths
  }

  lemma {:induction false} RequirementQuestions(targets: seq<string>, rows: map<string, string>, q: Question)
    ensures q in AskRequirements(targets, rows) <==>
      || (q.UnresolvedRequirement? && q.ref in targets && q.ref !in rows)
      || (q.UnapprovedRequirement? && q.ref in targets && q.ref in rows && rows[q.ref] != "approved")
    decreases |targets|
  {
    if targets != [] {
      RequirementQuestions(targets[..|targets|-1], rows, q);
      assert targets == targets[..|targets|-1] + [targets[|targets|-1]];
    }
  }

  lemma {:induction false} EdrQuestions(targets: seq<string>, rows: map<string, string>, q: Question)
    ensures q in AskEdrs(targets, rows) <==>
      || (q.UnresolvedEdr? && q.ref in targets && q.ref !in rows)
      || (q.UnacceptedEdr? && q.ref in targets && q.ref in rows && rows[q.ref] != "accepted")
    decreases |targets|
  {
    if targets != [] {
      EdrQuestions(targets[..|targets|-1], rows, q);
      assert targets == targets[..|targets|-1] + [targets[|targets|-1]];
    }
  }

  lemma {:induction false} ScopeQuestions(scopes: seq<string>, included: seq<FusedItem>, q: Question)
    ensures q in AskScopes(scopes, included) <==> q.UncoveredScope? && q.scope in scopes && !Covers(included, q.scope)
    decreases |scopes|
  {
    if scopes != [] {
      ScopeQuestions(scopes[..|scopes|-1], included, q);
      assert scopes == scopes[..|scopes|-1] + [scopes[|scopes|-1]];
    }
  }

  lemma PathQuestions(paths: seq<string>, q: Question)
    ensures q in AskPaths(paths) <==> q.UnresolvedPath? && q.path in paths
  {
    if q.UnresolvedPath? && q.path in paths {
      var i :| 0 <= i < |paths| && paths[i] == q.path;
      assert AskPaths(paths)[i] == q;
    }
  }

  lemma Targets(t: Task, ref: string)
    ensures ref in RequirementTargets(t) <==> ref in t.requirementRefs && IsRequirement(t)(ref)
    ensures ref in EdrTargets(t) <==> ref in t.requirementRefs && IsDecision(t)(ref)
  {
    KeepAll(t.requirementRefs, (ref: string) => ref !in t.edrs);
    KeepAll(t.requirementRefs, (ref: string) => ref in t.edrs || EdrLike(ref));
  }

  /** The question names a reference, and which. */
  function Names(q: Question): Option<string> {
    match q
    case UnresolvedRequirement(ref) => Some(ref)
    case UnapprovedRequirement(ref) => Some(ref)
    case UnresolvedEdr(ref) => Some(ref)
    case UnacceptedEdr(ref) => Some(ref)
    case _ => None
  }

  lemma CategoryQuestions(category: string, st: Status, q: Question)
    ensures q in AskCategory(category, st) <==>
      (st == Partial && q == EvidenceEvicted(category)) || (st == Missing && q == NoEvidence(category))
  {
  }

  /** The questions are those of the seven groups. */
  lemma Groups(t: Task, fused: seq<FusedItem>, included: seq<FusedItem>, q: Question)
    ensures var r := Coverage(t, fused, included); q in r.questions <==>
      || q in AskRequirements(RequirementTargets(t), t.requirements) || q in AskEdrs(EdrTargets(t), t.edrs)
      || q in AskScopes(t.writeScope, included) || q in AskCategory(ARCHITECTURE, r.architecture)
      || q in AskCategory(SECURITY, r.security) || (q == NoSuccessCriteria && t.criteria == []) || q in AskPaths(t.unresolvedPaths)
  {
  }

  /** THE QUESTIONS. One is asked exactly when its gap is there. */
  lemma QuestionsMean(t: Task, fused: seq<FusedItem>, included: seq<FusedItem>, q: Question)
    ensures var r := Coverage(t, fused, included); q in r.questions <==> Asked(t, r, included, q)
  {
    var r := Coverage(t, fused, included);
    Groups(t, fused, included, q);
    RequirementQuestions(RequirementTargets(t), t.requirements, q);
    EdrQuestions(EdrTargets(t), t.edrs, q);
    ScopeQuestions(t.writeScope, included, q);
    CategoryQuestions(ARCHITECTURE, r.architecture, q);
    CategoryQuestions(SECURITY, r.security, q);
    PathQuestions(t.unresolvedPaths, q);
    if Names(q).Some? { Targets(t, Names(q).value); }
  }

  // ------------------------------------------------------------ the critic

  /** The item carries a category that is partial. */
  predicate OfPartialCategory(r: Report, f: FusedItem) {
    || ("authoritative_requirements" in f.item.categories && r.requirements == Partial)
    || ("applicable_domain_rules" in f.item.categories && r.domainRules == Partial)
    || ("impacted_code_and_deps" in f.item.categories && r.code == Partial)
    || ("architecture_constraints" in f.item.categories && r.architecture == Partial)
    || ("security_constraints" in f.item.categories && r.security == Partial)
    || ("verification_obligations" in f.item.categories && r.verification == Partial)
  }

  lemma WantedMeans(r: Report, f: FusedItem)
    ensures Wanted(r, f) <==> OfPartialCategory(r, f)
  {
    assert forall c | c in f.item.categories :: IsPartial(r, c) ==> OfPartialCategory(r, f);
    if OfPartialCategory(r, f) {
      assert IsPartial(r, "authoritative_requirements") <==> r.requirements == Partial;
      assert IsPartial(r, "applicable_domain_rules") <==> r.domainRules == Partial;
      assert IsPartial(r, "impacted_code_and_deps") <==> r.code == Partial;
      assert IsPartial(r, ARCHITECTURE) <==> r.architecture == Partial;
      assert IsPartial(r, SECURITY) <==> r.security == Partial;
      assert IsPartial(r, "verification_obligations") <==> r.verification == Partial;
    }
  }

  /** What the critic could bring back. */
  function Recoverable(r: Report, evicted: seq<FusedItem>): seq<FusedItem> {
    Keep(evicted, (f: FusedItem) => OfPartialCategory(r, f))
  }

  /** THE CRITIC brings back every evicted item of a partial category, or, when there is none or they do not
      all fit, nothing; it charges 50 tokens and what it found either way. */
  lemma CriticAnswers(r: Report, a: Assembled, budget: int)
    ensures var o, extra := RunCritic(r, a, budget), Recoverable(r, a.evicted);
      && (o.Reassembled? <==> extra != [] && a.total + Sum(extra) <= budget)
      && o.cost == 50 + Sum(extra)
      && (o.Reassembled? ==>
        && o.assembled.included == a.included + extra && o.assembled.total == a.total + Sum(extra)
        && forall f :: f in o.assembled.evicted <==> f in a.evicted && !OfPartialCategory(r, f))
  {
    var candidates := Candidates(r, a.evicted);
    forall f | f in a.evicted ensures Wanted(r, f) <==> OfPartialCategory(r, f) { WantedMeans(r, f); }
    KeepSame(a.evicted, (f: FusedItem) => Wanted(r, f), (f: FusedItem) => OfPartialCategory(r, f));
    CandidatesAre(r, a.evicted);
    KeepAll(a.evicted, (f: FusedItem) => f !in candidates);
  }

  predicate Fires(x: Reason, s: Signals, r: Report, included: seq<FusedItem>) {
    match x
    case HighRisk => s.riskClass in RISK_CLASSES[2..]
    case WideBlast => s.blastRadius in BLAST_RADII[3..]
    case CoveragePartial => AnyPartial(r)
    case RepairOfContextFailure => s.taskClass == "repair" && s.previousFailure
    case LowConfidence(c) => c == MeanRelevance(included) && c < s.threshold
  }

  lemma ReasonFires(s: Signals, r: Report, included: seq<FusedItem>, x: Reason)
    ensures x in TriggerReasons(s, r, included) <==> Fires(x, s, r, included)
  {
  }

  /** THE TRIGGER names every condition that holds. */
  lemma TriggerMeans(s: Signals, r: Report, included: seq<FusedItem>)
    ensures var reasons := TriggerReasons(s, r, included);
      && (HighRisk in reasons <==> s.riskClass == "high" || s.riskClass == "critical")
      && (WideBlast in reasons <==> s.blastRadius == "cross_module" || s.blastRadius == "systemic")
      && (CoveragePartial in reasons <==> Partial in [r.requirements, r.domainRules, r.code, r.architecture, r.security, r.verification])
      && (RepairOfContextFailure in reasons <==> s.taskClass == "repair" && s.previousFailure)
      && (forall c :: LowConfidence(c) in reasons <==> c == MeanRelevance(included) && c < s.threshold)
  {
    assert RISK_CLASSES[2..] == ["high", "critical"];
    assert BLAST_RADII[3..] == ["cross_module", "systemic"];
    var reasons := TriggerReasons(s, r, included);
    forall x ensures x in reasons <==> Fires(x, s, r, included) { ReasonFires(s, r, included, x); }
  }

  /** The mean relevance times the number of items is the sum of their relevances, in any grouping. */
  lemma {:induction false} RelevanceAdds(a: seq<FusedItem>, b: seq<FusedItem>)
    ensures Relevance(a + b) == Relevance(a) + Relevance(b)
    ensures |a| == 1 ==> Relevance(a) == a[0].item.relevance
    ensures if a == [] then MeanRelevance(a) == 0.0 else MeanRelevance(a) * (|a| as real) == Relevance(a)
    decreases |b|
  {
    if |a| == 1 { assert a[..0] == []; }
    if b == [] {
      assert a + b == a;
    } else {
      RelevanceAdds(a, b[..|b|-1]);
      assert (a + b)[..|a + b| - 1] == a + b[..|b|-1];
    }
  }

  /** THE PACKAGE. Its coverage is that of what it includes. The critic was called exactly when nothing was
      in conflict and a trigger fired, on the coverage of the assembled context and with the whole budget;
      the package is then what it brought back, else the assembled context. */
  lemma PackageMeans(t: Task, s: Signals, fused: seq<FusedItem>, a: Assembled, budget: int, ext: nat, conflicted: bool)
    ensures var p, first := Finish(t, s, fused, a, budget, ext, conflicted), Coverage(t, fused, a.included);
      && p.coverage == Coverage(t, fused, p.assembled.included)
      && p.tokens == p.assembled.total + ext
      && (p.critic.Some? <==> !conflicted && TriggerReasons(s, first, a.included) != [])
      && (p.critic.Some? ==> p.critic.value == RunCritic(first, a, budget))
      && p.assembled == (if Reassembles(p) then p.critic.value.assembled else a)
  {
  }
}
