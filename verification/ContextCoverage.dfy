/** The coverage contract (engine/context/coverage.py): six statuses computed from what was
    retrieved and what was actually included, with a question for every gap. */
module ContextCoverage {
  import opened Wrappers
  import opened ContextAssembly

  datatype Status = Satisfied | Partial | Missing

  datatype Question =
    | UnresolvedRequirement(ref: string) | UnapprovedRequirement(ref: string)
    | UnresolvedEdr(ref: string) | UnacceptedEdr(ref: string)
    | UncoveredScope(scope: string)
    | EvidenceEvicted(category: string) | NoEvidence(category: string)
    | NoSuccessCriteria | UnresolvedPath(path: string)

  /** What the task declares, what discovery found, and the authority rows it resolved to:
      the status of each requirement and of each decision record, by slug. */
  datatype Task = Task(
    requirementRefs: seq<string>, writeScope: seq<string>, criteria: seq<string>, securityRelevant: bool,
    unresolvedPaths: seq<string>, requirements: map<string, string>, edrs: map<string, string>)

  datatype Report = Report(
    requirements: Status, domainRules: Status, code: Status, architecture: Status, security: Status,
    verification: Status, questions: seq<Question>)

  // ------------------------------------------------------------- path matching

  function ToPosix(path: string): string {
    if path == "" then "" else ToPosix(path[..|path|-1]) + [if path[|path|-1] == '\\' then '/' else path[|path|-1]]
  }

  function StripSlashes(path: string): string {
    if path != "" && path[|path|-1] == '/' then StripSlashes(path[..|path|-1]) else path
  }

  /** `touches_scope` for one declared prefix. */
  predicate Touches(path: string, scope: string) {
    var p, prefix := StripSlashes(ToPosix(path)), StripSlashes(ToPosix(scope));
    p == prefix || prefix + "/" <= p
  }

  predicate ItemTouches(f: FusedItem, scope: string) { f.item.sourcePath.Some? && Touches(f.item.sourcePath.value, scope) }

  // ------------------------------------------------------------------ statuses

  function Keep<T>(s: seq<T>, p: T -> bool): seq<T> {
    if s == [] then [] else if p(s[|s|-1]) then Keep(s[..|s|-1], p) + [s[|s|-1]] else Keep(s[..|s|-1], p)
  }

  /** `ref.upper().startswith("EDR-")`. */
  predicate EdrLike(ref: string) {
    |ref| >= 4 && ref[0] in "Ee" && ref[1] in "Dd" && ref[2] in "Rr" && ref[3] == '-'
  }

  /** References judged against one authority table: all resolved in the wanted state, none
      resolved, or something in between. */
  function AuthorityStatus(targets: seq<string>, rows: map<string, string>, wanted: string): Status {
    if targets == [] then Satisfied
    else
      var found := Keep(targets, (ref: string) => ref in rows);
      var good := Keep(found, (ref: string) => ref in rows && rows[ref] == wanted);
      if found == [] then Missing else if |good| == |targets| then Satisfied else Partial
  }

  function RequirementTargets(t: Task): seq<string> { Keep(t.requirementRefs, (ref: string) => ref !in t.edrs) }

  function EdrTargets(t: Task): seq<string> { Keep(t.requirementRefs, (ref: string) => ref in t.edrs || EdrLike(ref)) }

  predicate Covers(included: seq<FusedItem>, scope: string) { exists f | f in included :: ItemTouches(f, scope) }

  function CodeStatus(t: Task, included: seq<FusedItem>): Status {
    if t.writeScope == [] then Satisfied
    else
      var covered := Keep(t.writeScope, (scope: string) => Covers(included, scope));
      if |covered| == |t.writeScope| then Satisfied else if covered != [] then Partial else Missing
  }

  predicate Evidenced(items: seq<FusedItem>, category: string) { exists f | f in items :: category in f.item.categories }

  /** `_category_status`. */
  function CategoryStatus(category: string, included: seq<FusedItem>, fused: seq<FusedItem>): Status {
    if Evidenced(included, category) then Satisfied
    else if Evidenced(fused, category) then Partial
    else Missing
  }

  // ------------------------------------------------------------------ questions

  function AskRequirements(targets: seq<string>, rows: map<string, string>): seq<Question> {
    if targets == [] then []
    else
      var n := |targets| - 1;
      var ref := targets[n];
      var earlier := AskRequirements(targets[..n], rows);
      if ref !in rows then earlier + [UnresolvedRequirement(ref)]
      else if rows[ref] != "approved" then earlier + [UnapprovedRequirement(ref)]
      else earlier
  }

  function AskEdrs(targets: seq<string>, rows: map<string, string>): seq<Question> {
    if targets == [] then []
    else
      var n := |targets| - 1;
      var ref := targets[n];
      var earlier := AskEdrs(targets[..n], rows);
      if ref !in rows then earlier + [UnresolvedEdr(ref)]
      else if rows[ref] != "accepted" then earlier + [UnacceptedEdr(ref)]
      else earlier
  }

  function AskScopes(scopes: seq<string>, included: seq<FusedItem>): seq<Question> {
    if scopes == [] then []
    else
      var n := |scopes| - 1;
      var earlier := AskScopes(scopes[..n], included);
      if Covers(included, scopes[n]) then earlier else earlier + [UncoveredScope(scopes[n])]
  }

  function AskCategory(category: string, status: Status): seq<Question> {
    match status
    case Satisfied => []
    case Partial => [EvidenceEvicted(category)]
    case Missing => [NoEvidence(category)]
  }

  function AskPaths(paths: seq<string>): (q: seq<Question>)
    ensures |q| == |paths|
  {
    seq(|paths|, i requires 0 <= i < |paths| => UnresolvedPath(paths[i]))
  }

  function SecurityStatus(t: Task, included: seq<FusedItem>, fused: seq<FusedItem>): Status {
    if t.securityRelevant then CategoryStatus(SECURITY, included, fused) else Satisfied
  }

  /** `compute_coverage`. */
  function Coverage(t: Task, fused: seq<FusedItem>, included: seq<FusedItem>): Report {
    var architecture := CategoryStatus(ARCHITECTURE, included, fused);
    var security := SecurityStatus(t, included, fused);
    Report(
      AuthorityStatus(RequirementTargets(t), t.requirements, "approved"),
      AuthorityStatus(EdrTargets(t), t.edrs, "accepted"),
      CodeStatus(t, included),
      architecture,
      security,
      if t.criteria != [] then Satisfied else Missing,
      AskRequirements(RequirementTargets(t), t.requirements)
        + AskEdrs(EdrTargets(t), t.edrs)
        + AskScopes(t.writeScope, included)
        + AskCategory(ARCHITECTURE, architecture)
        + AskCategory(SECURITY, security)
        + (if t.criteria != [] then [] else [NoSuccessCriteria])
        + AskPaths(t.unresolvedPaths))
  }

  // ------------------------------------------------------- honesty of the report

  lemma {:induction false} KeepAll<T>(s: seq<T>, p: T -> bool)
    ensures |Keep(s, p)| <= |s|
    ensures |Keep(s, p)| == |s| <==> forall x | x in s :: p(x)
    ensures Keep(s, p) == [] <==> forall x | x in s :: !p(x)
    ensures forall x :: x in Keep(s, p) <==> x in s && p(x)
    decreases |s|
  {
    if s != [] {
      KeepAll(s[..|s|-1], p);
      assert s == s[..|s|-1] + [s[|s|-1]];
    }
  }

  /** What the counting code decides, as quantifiers. */
  lemma AuthorityStatusMeans(targets: seq<string>, rows: map<string, string>, wanted: string)
    ensures var st := AuthorityStatus(targets, rows, wanted);
      && (st == Satisfied <==> forall r | r in targets :: r in rows && rows[r] == wanted)
      && (st == Missing <==> targets != [] && forall r | r in targets :: r !in rows)
  {
    var inRows := (ref: string) => ref in rows;
    var wantedRow := (ref: string) => ref in rows && rows[ref] == wanted;
    KeepAll(targets, inRows);
    KeepAll(Keep(targets, inRows), wantedRow);
    if targets != [] { assert targets[0] in targets; }
  }

  lemma CodeStatusMeans(t: Task, included: seq<FusedItem>)
    ensures var st := CodeStatus(t, included);
      && (st == Satisfied <==> forall s | s in t.writeScope :: Covers(included, s))
      && (st == Missing <==> t.writeScope != [] && forall s | s in t.writeScope :: !Covers(included, s))
  {
    KeepAll(t.writeScope, (scope: string) => Covers(included, scope));
    if t.writeScope != [] { assert t.writeScope[0] in t.writeScope; }
  }

  lemma {:induction false} NoRequirementQuestions(targets: seq<string>, rows: map<string, string>)
    ensures AskRequirements(targets, rows) == [] <==> forall r | r in targets :: r in rows && rows[r] == "approved"
    decreases |targets|
  {
    if targets != [] {
      NoRequirementQuestions(targets[..|targets|-1], rows);
      assert targets == targets[..|targets|-1] + [targets[|targets|-1]];
    }
  }

  lemma {:induction false} NoEdrQuestions(targets: seq<string>, rows: map<string, string>)
    ensures AskEdrs(targets, rows) == [] <==> forall r | r in targets :: r in rows && rows[r] == "accepted"
    decreases |targets|
  {
    if targets != [] {
      NoEdrQuestions(targets[..|targets|-1], rows);
      assert targets == targets[..|targets|-1] + [targets[|targets|-1]];
    }
  }

  lemma {:induction false} NoScopeQuestions(scopes: seq<string>, included: seq<FusedItem>)
    ensures AskScopes(scopes, included) == [] <==> forall s | s in scopes :: Covers(included, s)
    decreases |scopes|
  {
    if scopes != [] {
      NoScopeQuestions(scopes[..|scopes|-1], included);
      assert scopes == scopes[..|scopes|-1] + [scopes[|scopes|-1]];
    }
  }

  predicate AllSatisfied(r: Report) {
    && r.requirements == Satisfied && r.domainRules == Satisfied && r.code == Satisfied
    && r.architecture == Satisfied && r.security == Satisfied && r.verification == Satisfied
  }

  /** HONESTY. The report asks no question exactly when every category is satisfied and every
      declared path was found. */
  lemma NoQuestionsIffNoGaps(t: Task, fused: seq<FusedItem>, included: seq<FusedItem>)
    ensures var r := Coverage(t, fused, included);
      r.questions == [] <==> AllSatisfied(r) && t.unresolvedPaths == []
  {
    AuthorityStatusMeans(RequirementTargets(t), t.requirements, "approved");
    AuthorityStatusMeans(EdrTargets(t), t.edrs, "accepted");
    CodeStatusMeans(t, included);
    NoRequirementQuestions(RequirementTargets(t), t.requirements);
    NoEdrQuestions(EdrTargets(t), t.edrs);
    NoScopeQuestions(t.writeScope, included);
  }

  // --------------------------------------------------------------- monotonicity

  function Rank(s: Status): nat { match s case Missing => 0 case Partial => 1 case Satisfied => 2 }

  predicate NotWorse(a: Report, b: Report) {
    && b.requirements == a.requirements && b.domainRules == a.domainRules && b.verification == a.verification
    && Rank(a.code) <= Rank(b.code) && Rank(a.architecture) <= Rank(b.architecture) && Rank(a.security) <= Rank(b.security)
  }

  /** MONOTONICITY. Including more never lowers a status. */
  lemma CoverageMonotone(t: Task, fused: seq<FusedItem>, a: seq<FusedItem>, b: seq<FusedItem>)
    requires forall f | f in a :: f in b
    ensures NotWorse(Coverage(t, fused, a), Coverage(t, fused, b))
  {
    CodeStatusMeans(t, a);
    CodeStatusMeans(t, b);
    forall s | Covers(a, s) ensures Covers(b, s) {
      var f :| f in a && ItemTouches(f, s);
      assert f in b;
    }
    EvidenceMonotone(ARCHITECTURE, a, b);
    EvidenceMonotone(SECURITY, a, b);
  }

  lemma EvidenceMonotone(category: string, a: seq<FusedItem>, b: seq<FusedItem>)
    requires forall f | f in a :: f in b
    ensures Evidenced(a, category) ==> Evidenced(b, category)
  {
    if Evidenced(a, category) {
      var f :| f in a && category in f.item.categories;
      assert f in b;
    }
  }

  /** PUSH. When architecture and security evidence is protected, neither category can be
      partial: whatever was retrieved is included. */
  lemma PushIsNeverPartial(t: Task, fused: seq<FusedItem>, budget: int)
    requires Assemble(t.criteria, fused, budget, true).Fits?
    ensures var r := Coverage(t, fused, Assemble(t.criteria, fused, budget, true).assembled.included);
      r.architecture != Partial && r.security != Partial
  {
    PushIncludesCategory(t.criteria, fused, budget, ARCHITECTURE);
    PushIncludesCategory(t.criteria, fused, budget, SECURITY);
  }

  lemma PushIncludesCategory(criteria: seq<string>, fused: seq<FusedItem>, budget: int, category: string)
    requires category == ARCHITECTURE || category == SECURITY
    requires Assemble(criteria, fused, budget, true).Fits?
    ensures Evidenced(fused, category) ==> Evidenced(Assemble(criteria, fused, budget, true).assembled.included, category)
  {
    if Evidenced(fused, category) {
      var f :| f in fused && category in f.item.categories;
      MembersOfTier(fused, 0, f);
      MembersOfTier(fused, 1, f);
      MembersOfTier(fused, 3, f);
      assert f in Protected(criteria, fused, true);
      AssemblyWithinBudget(criteria, fused, budget, true);
    }
  }

  // --------------------------------------------------------------- the procedure

  /** `compute_coverage` with its growing list of questions. */
  method ComputeCoverage(t: Task, fused: seq<FusedItem>, included: seq<FusedItem>) returns (r: Report)
    ensures r == Coverage(t, fused, included)
  {
    var questions: seq<Question> := [];
    var targets := RequirementTargets(t);
    for i := 0 to |targets|
      invariant questions == AskRequirements(targets[..i], t.requirements)
    {
      assert targets[..i+1][..i] == targets[..i];
      if targets[i] !in t.requirements { questions := questions + [UnresolvedRequirement(targets[i])]; }
      else if t.requirements[targets[i]] != "approved" { questions := questions + [UnapprovedRequirement(targets[i])]; }
    }
    assert targets[..|targets|] == targets;
    ghost var asked := questions;
    var edrTargets := EdrTargets(t);
    for i := 0 to |edrTargets|
      invariant questions == asked + AskEdrs(edrTargets[..i], t.edrs)
    {
      assert edrTargets[..i+1][..i] == edrTargets[..i];
      if edrTargets[i] !in t.edrs { questions := questions + [UnresolvedEdr(edrTargets[i])]; }
      else if t.edrs[edrTargets[i]] != "accepted" { questions := questions + [UnacceptedEdr(edrTargets[i])]; }
    }
    assert edrTargets[..|edrTargets|] == edrTargets;
    asked := questions;
    for i := 0 to |t.writeScope|
      invariant questions == asked + AskScopes(t.writeScope[..i], included)
    {
      assert t.writeScope[..i+1][..i] == t.writeScope[..i];
      if !Covers(included, t.writeScope[i]) { questions := questions + [UncoveredScope(t.writeScope[i])]; }
    }
    assert t.writeScope[..|t.writeScope|] == t.writeScope;
    var architecture := CategoryStatus(ARCHITECTURE, included, fused);
    questions := questions + AskCategory(ARCHITECTURE, architecture);
    var security := SecurityStatus(t, included, fused);
    questions := questions + AskCategory(SECURITY, security);
    var verification := Satisfied;
    if t.criteria == [] {
      verification := Missing;
      questions := questions + [NoSuccessCriteria];
    }
    questions := questions + AskPaths(t.unresolvedPaths);
    r := Report(AuthorityStatus(targets, t.requirements, "approved"), AuthorityStatus(edrTargets, t.edrs, "accepted"),
                CodeStatus(t, included), architecture, security, verification, questions);
  }
}
