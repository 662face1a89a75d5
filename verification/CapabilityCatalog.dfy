/** The versioned capability catalogue (engine/capabilities/service.py, states.py).
    A descriptor's id is its position in the table, so ids are fresh by construction
    and a smaller id means an earlier registration. */
module CapabilityCatalog {
  import opened Wrappers

  datatype Lifecycle = Active | Deprecated | Retired

  datatype Certification = Pending | Certified | Rejected | Stale

  /** The content that `descriptor_hash` covers; certification is deliberately not part of it. */
  datatype Definition = Definition(
    capability: string, version: string, riskClass: string,
    sideEffectClass: string, enforcementTier: string, body: string)

  datatype Descriptor = Descriptor(
    id: nat, def: Definition, certification: Certification, lifecycle: Lifecycle,
    supersedes: Option<nat>, supersededBy: Option<nat>,
    deprecatedAt: Option<int>, retiredAt: Option<int>)

  type Catalog = seq<Descriptor>

  datatype CatalogError = Rejected(reason: string) | UnknownDescriptor | IllegalTransition

  const RISK_CLASSES := {"low", "medium", "high", "critical"}
  const SIDE_EFFECT_CLASSES :=
    {"PURE_READ", "WORKSPACE_LOCAL", "EXTERNAL_IDEMPOTENT", "EXTERNAL_NON_IDEMPOTENT", "IRREVERSIBLE"}
  const ENFORCEMENT_TIERS := {"T1", "T2"}

  /** LIFECYCLE_TRANSITIONS. */
  predicate LifecycleEdge(from: Lifecycle, to: Lifecycle) {
    match from
    case Active => to == Deprecated || to == Retired
    case Deprecated => to == Retired
    case Retired => false
  }

  predicate Admissible(def: Definition) {
    && def.capability != "" && def.version != ""
    && def.sideEffectClass in SIDE_EFFECT_CLASSES
    && def.riskClass in RISK_CLASSES
    && def.enforcementTier in ENFORCEMENT_TIERS
  }

  predicate IsVersion(d: Descriptor, capability: string, version: string) {
    d.def.capability == capability && d.def.version == version
  }

  predicate IsActive(d: Descriptor, capability: string) {
    d.def.capability == capability && d.lifecycle == Active
  }

  /** get_by_capability_and_version: the first matching row. */
  function FindVersion(c: Catalog, capability: string, version: string): (r: Option<nat>)
    ensures r.Some? ==> r.value < |c| && IsVersion(c[r.value], capability, version)
    ensures r.None? ==> forall i | 0 <= i < |c| :: !IsVersion(c[i], capability, version)
  {
    if c == [] then None
    else
      var earlier := FindVersion(c[..|c|-1], capability, version);
      if earlier.Some? then earlier
      else if IsVersion(c[|c|-1], capability, version) then Some(|c|-1)
      else None
  }

  /** get_active_by_capability_id: the first ACTIVE row of the capability. */
  function FindActive(c: Catalog, capability: string): (r: Option<nat>)
    ensures r.Some? ==> r.value < |c| && IsActive(c[r.value], capability)
    ensures r.None? ==> forall i | 0 <= i < |c| :: !IsActive(c[i], capability)
  {
    if c == [] then None
    else
      var earlier := FindActive(c[..|c|-1], capability);
      if earlier.Some? then earlier
      else if IsActive(c[|c|-1], capability) then Some(|c|-1)
      else None
  }

  /** The row `register` inserts, after it has deprecated the ACTIVE row it supersedes. */
  function Supersede(c: Catalog, def: Definition, cert: Certification, now: int): Catalog {
    var previous := FindActive(c, def.capability);
    var newRow := Descriptor(|c|, def, cert, Active, previous, None, None, None);
    match previous
    case None => c + [newRow]
    case Some(p) =>
      c[p := c[p].(lifecycle := Deprecated, supersededBy := Some(|c|), deprecatedAt := Some(now))] + [newRow]
  }

  /** `CapabilityRegistryService.register`: idempotent for identical content, a refusal
      for different content under the same version, otherwise a supersession. */
  function Register(c: Catalog, def: Definition, cert: Certification, now: int)
    : (Catalog, Result<Descriptor, CatalogError>)
  {
    if !Admissible(def) then (c, Failure(CatalogError.Rejected("inadmissible definition")))
    else
      match FindVersion(c, def.capability, def.version)
      case Some(i) =>
        if c[i].def == def then (c, Success(c[i]))
        else (c, Failure(CatalogError.Rejected("different content under the same version")))
      case None =>
        var c' := Supersede(c, def, cert, now);
        assert |c'| == |c| + 1;
        (c', Success(c'[|c|]))
  }

  /** `deprecate` and `retire`: one lifecycle edge on one row. */
  function MoveLifecycle(c: Catalog, id: nat, target: Lifecycle, now: int)
    : (Catalog, Result<Descriptor, CatalogError>)
  {
    if id >= |c| then (c, Failure(UnknownDescriptor))
    else if !LifecycleEdge(c[id].lifecycle, target) then (c, Failure(IllegalTransition))
    else
      var moved := c[id].(lifecycle := target);
      var stamped := if target == Deprecated then moved.(deprecatedAt := Some(now)) else moved.(retiredAt := Some(now));
      (c[id := stamped], Success(stamped))
  }

  // ---------------------------------------------------------------- invariant

  /** The two supersession pointers are inverse to each other and point backwards in time. */
  ghost predicate LinksAgree(c: Catalog) {
    forall i, j | 0 <= i < |c| && 0 <= j < |c| ::
      c[i].supersedes == Some(j) <==> c[j].supersededBy == Some(i)
  }

  ghost predicate LinksPointBack(c: Catalog) {
    forall i | 0 <= i < |c| ::
      && (c[i].supersedes.Some? ==>
            && c[i].supersedes.value < i
            && c[c[i].supersedes.value].def.capability == c[i].def.capability)
      && (c[i].supersededBy.Some? ==> i < c[i].supersededBy.value < |c| && c[i].lifecycle != Active)
  }

  ghost predicate OneVersionRow(c: Catalog) {
    forall i, j | 0 <= i < |c| && 0 <= j < |c| && IsVersion(c[i], c[j].def.capability, c[j].def.version) :: i == j
  }

  ghost predicate OneActive(c: Catalog) {
    forall i, j | 0 <= i < |c| && 0 <= j < |c| && IsActive(c[i], c[j].def.capability) && c[j].lifecycle == Active :: i == j
  }

  ghost predicate Valid(c: Catalog) {
    && (forall i | 0 <= i < |c| :: c[i].id == i)
    && OneVersionRow(c)
    && OneActive(c)
    && LinksAgree(c)
    && LinksPointBack(c)
  }

  /** What no registry operation may change about an existing row, and the only
      direction its lifecycle may take. */
  ghost predicate Extends(c: Catalog, c': Catalog) {
    && |c| <= |c'|
    && forall i | 0 <= i < |c| ::
         && c'[i].id == c[i].id && c'[i].def == c[i].def && c'[i].certification == c[i].certification
         && c'[i].supersedes == c[i].supersedes
         && (c[i].supersededBy.Some? ==> c'[i].supersededBy == c[i].supersededBy)
         && (c'[i].lifecycle == c[i].lifecycle || LifecycleEdge(c[i].lifecycle, c'[i].lifecycle))
  }

  /** What a supersession does to each row: the superseded one is closed and linked
      forward, the new one is linked back, every other row is untouched. */
  lemma SupersedeRows(c: Catalog, def: Definition, cert: Certification, now: int)
    ensures var c', p := Supersede(c, def, cert, now), FindActive(c, def.capability);
      && |c'| == |c| + 1
      && c'[|c|] == Descriptor(|c|, def, cert, Active, p, None, None, None)
      && (forall i | 0 <= i < |c| && p != Some(i) :: c'[i] == c[i])
      && (p.Some? ==> c'[p.value] == c[p.value].(lifecycle := Deprecated, supersededBy := Some(|c|), deprecatedAt := Some(now)))
  {}

  lemma SupersedeKeepsOneActive(c: Catalog, def: Definition, cert: Certification, now: int)
    requires Valid(c)
    ensures OneActive(Supersede(c, def, cert, now))
  {
    SupersedeRows(c, def, cert, now);
    var c' := Supersede(c, def, cert, now);
    forall i | 0 <= i < |c| ensures !IsActive(c'[i], def.capability) {
      var p := FindActive(c, def.capability);
      if p.Some? && IsActive(c[i], def.capability) { assert IsActive(c[i], c[p.value].def.capability); }
    }
    forall i, j | 0 <= i < |c'| && 0 <= j < |c'| && IsActive(c'[i], c'[j].def.capability) && c'[j].lifecycle == Active
      ensures i == j
    {
      if i < |c| && j < |c| {
        assert IsActive(c[i], c[j].def.capability);
      } else {
        assert j < |c| ==> IsActive(c'[j], def.capability);
      }
    }
  }

  lemma SupersedeKeepsLinks(c: Catalog, def: Definition, cert: Certification, now: int)
    requires Valid(c)
    ensures LinksAgree(Supersede(c, def, cert, now)) && LinksPointBack(Supersede(c, def, cert, now))
  {
    SupersedeRows(c, def, cert, now);
    var c' := Supersede(c, def, cert, now);
    forall i, j | 0 <= i < |c'| && 0 <= j < |c'|
      ensures c'[i].supersedes == Some(j) <==> c'[j].supersededBy == Some(i)
    {
      if i < |c| && j < |c| {
        assert c[i].supersedes == Some(j) <==> c[j].supersededBy == Some(i);
      }
    }
    forall i | 0 <= i < |c'| && c'[i].supersedes.Some?
      ensures c'[i].supersedes.value < i && c'[c'[i].supersedes.value].def.capability == c'[i].def.capability
    {}
  }

  lemma SupersedeKeepsValid(c: Catalog, def: Definition, cert: Certification, now: int)
    requires Valid(c) && FindVersion(c, def.capability, def.version).None?
    ensures Valid(Supersede(c, def, cert, now)) && Extends(c, Supersede(c, def, cert, now))
  {
    SupersedeRows(c, def, cert, now);
    SupersedeKeepsOneActive(c, def, cert, now);
    SupersedeKeepsLinks(c, def, cert, now);
    var c' := Supersede(c, def, cert, now);
    forall i | 0 <= i < |c| ensures c'[i].def == c[i].def && !IsVersion(c'[i], def.capability, def.version) {
      assert !IsVersion(c[i], def.capability, def.version);
    }
    forall i, j | 0 <= i < |c'| && 0 <= j < |c'| && IsVersion(c'[i], c'[j].def.capability, c'[j].def.version)
      ensures i == j
    {
      if i < |c| && j < |c| {
        assert IsVersion(c[i], c[j].def.capability, c[j].def.version);
      }
    }
  }

  /** Every registration keeps the catalogue valid and only extends it. */
  lemma RegisterKeepsValid(c: Catalog, def: Definition, cert: Certification, now: int)
    requires Valid(c)
    ensures Valid(Register(c, def, cert, now).0) && Extends(c, Register(c, def, cert, now).0)
  {
    if Admissible(def) && FindVersion(c, def.capability, def.version).None? {
      SupersedeKeepsValid(c, def, cert, now);
    }
  }

  /** So does every explicit deprecation or retirement. */
  lemma MoveKeepsValid(c: Catalog, id: nat, target: Lifecycle, now: int)
    requires Valid(c)
    ensures Valid(MoveLifecycle(c, id, target, now).0) && Extends(c, MoveLifecycle(c, id, target, now).0)
  {
    MoveChangesOne(c, id, target, now);
    SameRowsOneVersion(c, MoveLifecycle(c, id, target, now).0);
    SameRowsLinks(c, MoveLifecycle(c, id, target, now).0);
    SameRowsOneActive(c, MoveLifecycle(c, id, target, now).0);
  }

  /** The same rows with the same links, of which none became ACTIVE. */
  ghost predicate SameRows(c: Catalog, d: Catalog) {
    |d| == |c| && forall i | 0 <= i < |c| ::
      && d[i].id == c[i].id && d[i].def == c[i].def && d[i].supersedes == c[i].supersedes && d[i].supersededBy == c[i].supersededBy
      && (d[i].lifecycle == Active ==> c[i].lifecycle == Active)
  }

  lemma MoveChangesOne(c: Catalog, id: nat, target: Lifecycle, now: int)
    requires Valid(c)
    ensures var d := MoveLifecycle(c, id, target, now).0; SameRows(c, d) && Extends(c, d)
  {
    var d := MoveLifecycle(c, id, target, now).0;
    if d != c { RowMoves(c, d, id, target); }
  }

  lemma RowMoves(c: Catalog, d: Catalog, id: nat, target: Lifecycle)
    requires id < |c| && |d| == |c| && d == c[id := d[id]] && LifecycleEdge(c[id].lifecycle, target) && target != Active
    requires d[id].id == c[id].id && d[id].def == c[id].def && d[id].certification == c[id].certification && d[id].lifecycle == target
    requires d[id].supersedes == c[id].supersedes && d[id].supersededBy == c[id].supersededBy
    ensures SameRows(c, d) && Extends(c, d)
  {
  }

  lemma SameRowsOneActive(c: Catalog, d: Catalog)
    requires SameRows(c, d) && OneActive(c)
    ensures OneActive(d)
  {
    forall i, j | 0 <= i < |d| && 0 <= j < |d| && IsActive(d[i], d[j].def.capability) && d[j].lifecycle == Active ensures i == j {
      assert IsActive(c[i], c[j].def.capability);
    }
  }

  lemma SameRowsOneVersion(c: Catalog, d: Catalog)
    requires SameRows(c, d) && OneVersionRow(c)
    ensures OneVersionRow(d)
  {
    forall i, j | 0 <= i < |d| && 0 <= j < |d| && IsVersion(d[i], d[j].def.capability, d[j].def.version) ensures i == j {
      assert IsVersion(c[i], c[j].def.capability, c[j].def.version);
    }
  }

  lemma SameRowsLinks(c: Catalog, d: Catalog)
    requires SameRows(c, d) && LinksAgree(c) && LinksPointBack(c)
    ensures LinksAgree(d) && LinksPointBack(d)
  {
    forall i, j | 0 <= i < |d| && 0 <= j < |d| ensures d[i].supersedes == Some(j) <==> d[j].supersededBy == Some(i) {
      assert c[i].supersedes == Some(j) <==> c[j].supersededBy == Some(i);
    }
  }

  // ------------------------------------------------------- what an operation answers

  predicate SameVersion(d: Descriptor, def: Definition) { d.def.capability == def.capability && d.def.version == def.version }

  predicate ActiveOf(d: Descriptor, capability: string) { d.def.capability == capability && d.lifecycle == Active }

  /** A definition is admitted with a capability, a version and the listed classes. */
  lemma AdmissibleMeans(def: Definition)
    ensures Admissible(def) <==>
      && def.capability != "" && def.version != ""
      && (def.riskClass == "low" || def.riskClass == "medium" || def.riskClass == "high" || def.riskClass == "critical")
      && (def.enforcementTier == "T1" || def.enforcementTier == "T2")
      && (def.sideEffectClass == "PURE_READ" || def.sideEffectClass == "WORKSPACE_LOCAL" || def.sideEffectClass == "EXTERNAL_IDEMPOTENT"
        || def.sideEffectClass == "EXTERNAL_NON_IDEMPOTENT" || def.sideEffectClass == "IRREVERSIBLE")
  {
  }

  /** A registration under a version that exists changes nothing: it returns the existing row for identical
      content and is refused for any other. */
  lemma RegisterAgainAnswers(c: Catalog, def: Definition, cert: Certification, now: int, i: nat)
    requires Valid(c) && i < |c| && SameVersion(c[i], def)
    ensures var (after, r) := Register(c, def, cert, now);
      after == c && (if Admissible(def) && c[i].def == def then r == Success(c[i]) else r.Failure?)
  {
    var found := FindVersion(c, def.capability, def.version);
    assert IsVersion(c[i], def.capability, def.version);
    assert found.Some? && IsVersion(c[found.value], c[i].def.capability, c[i].def.version);
  }

  function Superseded(d: Descriptor, by_: nat, now: int): Descriptor {
    d.(lifecycle := Deprecated, supersededBy := Some(by_), deprecatedAt := Some(now))
  }

  /** A registration of a new version appends one ACTIVE row with that content and certification, which
      supersedes the ACTIVE row of the capability if there is one; that row, and no other, becomes
      DEPRECATED and names its successor. An inadmissible definition is refused without a change. */
  lemma RegisterNewAnswers(c: Catalog, def: Definition, cert: Certification, now: int)
    requires Valid(c) && forall i | 0 <= i < |c| :: !SameVersion(c[i], def)
    ensures var (after, r) := Register(c, def, cert, now);
      && (!Admissible(def) ==> after == c && r.Failure?)
      && (Admissible(def) ==>
        && |after| == |c| + 1 && r == Success(after[|c|])
        && after[|c|] == Descriptor(|c|, def, cert, Active, after[|c|].supersedes, None, None, None)
        && (after[|c|].supersedes.None? <==> forall i | 0 <= i < |c| :: !ActiveOf(c[i], def.capability))
        && (after[|c|].supersedes.Some? ==> after[|c|].supersedes.value < |c| && ActiveOf(c[after[|c|].supersedes.value], def.capability))
        && forall i | 0 <= i < |c| :: after[i] == if ActiveOf(c[i], def.capability) then Superseded(c[i], |c|, now) else c[i])
  {
    var active := FindActive(c, def.capability);
    if active.Some? {
      forall i | 0 <= i < |c| && ActiveOf(c[i], def.capability) ensures i == active.value {
        assert IsActive(c[i], c[active.value].def.capability);
      }
    }
  }

  /** A lifecycle move succeeds exactly from ACTIVE to DEPRECATED or RETIRED and from DEPRECATED to RETIRED,
      and writes the status and its stamp to that row alone. */
  lemma MoveAnswers(c: Catalog, id: nat, target: Lifecycle, now: int)
    ensures var (after, r) := MoveLifecycle(c, id, target, now);
      if id < |c| && target != Active && (c[id].lifecycle == Active || (c[id].lifecycle == Deprecated && target == Retired))
      then
        && r == Success(if target == Deprecated then c[id].(lifecycle := Deprecated, deprecatedAt := Some(now))
                        else c[id].(lifecycle := Retired, retiredAt := Some(now)))
        && after == c[id := r.value]
      else after == c && r == Failure(if id < |c| then IllegalTransition else UnknownDescriptor)
  {
  }

  // ------------------------------------------------------- supersession chains

  /** The rows reached from `i` by following `supersedes`, newest first. */
  function Ancestors(c: Catalog, i: nat): (chain: seq<nat>)
    requires i < |c|
    ensures chain != [] && chain[0] == i
    decreases i
  {
    if c[i].supersedes.Some? && c[i].supersedes.value < i then [i] + Ancestors(c, c[i].supersedes.value) else [i]
  }

  /** A supersession chain never revisits a row, stays within one capability, holds
      at most one ACTIVE row (its newest), and `superseded_by` walks it back. */
  lemma {:induction false} ChainIsAcyclic(c: Catalog, i: nat)
    requires Valid(c) && i < |c|
    ensures var chain := Ancestors(c, i);
      && (forall k | 0 <= k < |chain| :: chain[k] < |c| && c[chain[k]].def.capability == c[i].def.capability)
      && (forall k, m | 0 <= k < m < |chain| :: chain[m] < chain[k])
      && (forall k | 0 <= k < |chain| - 1 :: c[chain[k+1]].supersededBy == Some(chain[k]))
      && (forall k | 1 <= k < |chain| :: c[chain[k]].lifecycle != Active)
      && c[chain[|chain|-1]].supersedes.None?
  {
    if c[i].supersedes.Some? {
      var p := c[i].supersedes.value;
      ChainIsAcyclic(c, p);
      var rest := Ancestors(c, p);
      var chain := Ancestors(c, i);
      assert chain == [i] + rest;
      assert c[i].supersedes == Some(p) <==> c[p].supersededBy == Some(i);
      forall k | 1 <= k < |chain| ensures chain[k] == rest[k-1] {}
      forall k | 0 <= k < |chain| - 1 ensures c[chain[k+1]].supersededBy == Some(chain[k]) {
        if k > 0 { assert c[rest[k]].supersededBy == Some(rest[k-1]); }
      }
      forall k | 1 <= k < |chain| ensures c[chain[k]].lifecycle != Active {
        if k > 1 { assert c[rest[k-1]].lifecycle != Active; }
      }
      forall k, m | 0 <= k < m < |chain| ensures chain[m] < chain[k] {
        if k == 0 { assert rest[m-1] <= p; } else { assert rest[m-1] < rest[k-1]; }
      }
    }
  }
}
