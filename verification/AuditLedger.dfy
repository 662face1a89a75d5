/** The hash-chained audit ledger: one chain per tenant, interleaved in one store. */
module AuditLedger {
  import opened Wrappers
  import opened StableSort

  type Hash = string

  /** What an entry hash is computed over. */
  datatype Preimage = Preimage(prev: Option<Hash>, id: nat, eventType: string, payload: string)
  datatype Event = Event(id: nat, tenant: string, eventType: string, sequence: nat, prev: Option<Hash>, hash: Hash, payload: string)

  function Signed(e: Event, prev: Option<Hash>): Preimage { Preimage(prev, e.id, e.eventType, e.payload) }

  function OfTenant(entries: seq<Event>, tenant: string): seq<Event> {
    if entries == [] then []
    else
      var rest := OfTenant(entries[..|entries|-1], tenant);
      if entries[|entries|-1].tenant == tenant then rest + [entries[|entries|-1]] else rest
  }

  function Sequence(e: Event): real { e.sequence as real }

  function ForTenant(entries: seq<Event>, tenant: string): seq<Event> { SortBy(OfTenant(entries, tenant), Sequence) }

  function LastHash(chain: seq<Event>): Option<Hash> { if chain == [] then None else Some(chain[|chain|-1].hash) }

  /** Every entry names its predecessor's hash and carries its own. */
  predicate Verifies(chain: seq<Event>, h: Preimage -> Hash) {
    chain == [] ||
    var n := |chain| - 1;
    Verifies(chain[..n], h) && Follows(chain[n], LastHash(chain[..n]), h)
  }

  predicate Follows(e: Event, prev: Option<Hash>, h: Preimage -> Hash) { e.prev == prev && e.hash == h(Signed(e, prev)) }

  predicate Numbered(chain: seq<Event>) { forall i | 0 <= i < |chain| :: chain[i].sequence == i + 1 }

  function NewEvent(entries: seq<Event>, tenant: string, eventType: string, payload: string, h: Preimage -> Hash): Event {
    var chain := ForTenant(entries, tenant);
    var prev := LastHash(chain);
    Event(|entries|, tenant, eventType, if chain == [] then 1 else chain[|chain|-1].sequence + 1, prev,
          h(Preimage(prev, |entries|, eventType, payload)), payload)
  }

  datatype Entry = Entry(tenant: string, eventType: string, payload: string)

  function After(entries: seq<Event>, appended: seq<Entry>, h: Preimage -> Hash): seq<Event> {
    if appended == [] then entries
    else
      var before, last := After(entries, appended[..|appended|-1], h), appended[|appended|-1];
      before + [NewEvent(before, last.tenant, last.eventType, last.payload, h)]
  }

  // ------------------------------------------------------------ every run of appends verifies

  lemma OfTenantAppend(entries: seq<Event>, e: Event, tenant: string)
    ensures OfTenant(entries + [e], tenant) == if e.tenant == tenant then OfTenant(entries, tenant) + [e] else OfTenant(entries, tenant)
  {
    assert (entries + [e])[..|entries|] == entries;
  }

  lemma NumberedIsSorted(chain: seq<Event>)
    requires Numbered(chain)
    ensures SortBy(chain, Sequence) == chain
  {
    SortOfSorted(chain, Sequence);
  }

  predicate Sound(entries: seq<Event>, tenant: string, h: Preimage -> Hash) {
    var chain := OfTenant(entries, tenant);
    Numbered(chain) && Verifies(chain, h)
  }

  lemma AppendKeepsSound(entries: seq<Event>, entry: Entry, tenant: string, h: Preimage -> Hash)
    requires Sound(entries, tenant, h)
    ensures Sound(entries + [NewEvent(entries, entry.tenant, entry.eventType, entry.payload, h)], tenant, h)
  {
    var e := NewEvent(entries, entry.tenant, entry.eventType, entry.payload, h);
    OfTenantAppend(entries, e, tenant);
    if entry.tenant == tenant {
      var chain := OfTenant(entries, tenant);
      NumberedIsSorted(chain);
      var longer := chain + [e];
      assert longer[..|chain|] == chain;
    }
  }

  /** After any appends for any tenants in any order, every tenant's chain verifies and is numbered
      1..n without gaps. */
  lemma {:induction false} ChainsVerify(appended: seq<Entry>, tenant: string, h: Preimage -> Hash)
    ensures var chain := ForTenant(After([], appended, h), tenant);
      && Verifies(chain, h) && Numbered(chain)
      && chain == OfTenant(After([], appended, h), tenant)
      && Sound(After([], appended, h), tenant, h)
    decreases |appended|
  {
    if appended != [] {
      ChainsVerify(appended[..|appended|-1], tenant, h);
      AppendKeepsSound(After([], appended[..|appended|-1], h), appended[|appended|-1], tenant, h);
    }
    NumberedIsSorted(OfTenant(After([], appended, h), tenant));
  }

  function Requests(appended: seq<Entry>, tenant: string): seq<Entry> {
    if appended == [] then []
    else
      var rest := Requests(appended[..|appended|-1], tenant);
      if appended[|appended|-1].tenant == tenant then rest + [appended[|appended|-1]] else rest
  }

  function Recorded(chain: seq<Event>): seq<Entry> {
    if chain == [] then []
    else
      var e := chain[|chain|-1];
      Recorded(chain[..|chain|-1]) + [Entry(e.tenant, e.eventType, e.payload)]
  }

  lemma {:induction false} RowsHoldWhatWasAppended(appended: seq<Entry>, tenant: string, h: Preimage -> Hash)
    ensures Recorded(OfTenant(After([], appended, h), tenant)) == Requests(appended, tenant)
    decreases |appended|
  {
    if appended != [] {
      var earlier, last := appended[..|appended|-1], appended[|appended|-1];
      RowsHoldWhatWasAppended(earlier, tenant, h);
      var before := After([], earlier, h);
      var e := NewEvent(before, last.tenant, last.eventType, last.payload, h);
      OfTenantAppend(before, e, tenant);
      var rows := OfTenant(before, tenant);
      assert (rows + [e])[..|rows|] == rows;
    }
  }

  /** A tenant's chain holds exactly the entries appended for that tenant, in order. */
  lemma ChainHoldsWhatWasAppended(appended: seq<Entry>, tenant: string, h: Preimage -> Hash)
    ensures Recorded(ForTenant(After([], appended, h), tenant)) == Requests(appended, tenant)
  {
    ChainsVerify(appended, tenant, h);
    RowsHoldWhatWasAppended(appended, tenant, h);
  }

  // ------------------------------------------------------------ tamper evidence

  ghost predicate Injective(h: Preimage -> Hash) { forall x, y | h(x) == h(y) :: x == y }

  /** Two chains with the same ids, types, payloads and hashes, entry by entry. */
  predicate SameContents(a: seq<Event>, b: seq<Event>) {
    |a| == |b| && forall i | 0 <= i < |a| :: SameContent(a[i], b[i])
  }

  predicate SameContent(x: Event, y: Event) {
    x.id == y.id && x.eventType == y.eventType && x.payload == y.payload && x.prev == y.prev && x.hash == y.hash
  }

  lemma {:induction false} PrefixVerifies(chain: seq<Event>, n: nat, h: Preimage -> Hash)
    requires Verifies(chain, h) && n <= |chain|
    ensures Verifies(chain[..n], h)
    decreases |chain|
  {
    if n == |chain| {
      assert chain[..n] == chain;
    } else {
      PrefixVerifies(chain[..|chain|-1], n, h);
      assert chain[..|chain|-1][..n] == chain[..n];
    }
  }

  lemma BrokenPrefix(chain: seq<Event>, n: nat, h: Preimage -> Hash)
    requires n <= |chain| && !Verifies(chain[..n], h)
    ensures !Verifies(chain, h)
  {
    if Verifies(chain, h) { PrefixVerifies(chain, n, h); }
  }

  /** Entry `i`, with this id, is where the chain first fails to verify. */
  predicate FirstBreak(chain: seq<Event>, i: nat, id: nat, h: Preimage -> Hash) {
    i < |chain| && chain[i].id == id && Verifies(chain[..i], h) && !Verifies(chain[..i+1], h)
  }

  lemma SamePreimage(x: Preimage, y: Preimage, h: Preimage -> Hash)
    requires Injective(h) && h(x) == h(y)
    ensures x == y
  {
  }

  lemma LastAgrees(a: seq<Event>, b: seq<Event>, h: Preimage -> Hash)
    requires Injective(h) && Verifies(a, h) && Verifies(b, h) && a != [] && LastHash(a) == LastHash(b)
    ensures b != []
    ensures var m, n := |a| - 1, |b| - 1;
      && SameContent(a[m], b[n]) && LastHash(a[..m]) == LastHash(b[..n])
  {
    var m, n := |a| - 1, |b| - 1;
    SamePreimage(Signed(a[m], LastHash(a[..m])), Signed(b[n], LastHash(b[..n])), h);
  }

  /** With an injective hash, verifying chains with the same last hash have the same length and the
      same ids, types and payloads: whoever remembers one hash can tell every other history apart. */
  lemma {:induction false} TamperEvident(a: seq<Event>, b: seq<Event>, h: Preimage -> Hash)
    requires Injective(h) && Verifies(a, h) && Verifies(b, h) && LastHash(a) == LastHash(b)
    ensures SameContents(a, b)
    decreases |a|
  {
    if a != [] {
      var m, n := |a| - 1, |b| - 1;
      LastAgrees(a, b, h);
      TamperEvident(a[..m], b[..n], h);
      forall i | 0 <= i < m ensures SameContent(a[i], b[i]) {
        assert SameContent(a[..m][i], b[..n][i]);
      }
    }
  }

  /** So a store that still verifies for a tenant and ends in the recorded hash holds exactly what was
      appended for that tenant, whatever else was done to it. */
  lemma RewrittenStoreIsCaught(appended: seq<Entry>, tampered: seq<Event>, tenant: string, h: Preimage -> Hash)
    requires Injective(h) && Verifies(ForTenant(tampered, tenant), h)
    requires LastHash(ForTenant(tampered, tenant)) == LastHash(ForTenant(After([], appended, h), tenant))
    ensures SameContents(ForTenant(tampered, tenant), ForTenant(After([], appended, h), tenant))
  {
    ChainsVerify(appended, tenant, h);
    TamperEvident(ForTenant(tampered, tenant), ForTenant(After([], appended, h), tenant), h);
  }

  /** What verification cannot see: cutting off the newest entries of a chain that verifies leaves one
      that verifies, so the last hash has to be remembered. */
  lemma TruncationVerifies(entries: seq<Event>, n: nat, tenant: string, h: Preimage -> Hash)
    requires Sound(entries, tenant, h) && n <= |OfTenant(entries, tenant)|
    ensures Verifies(ForTenant(OfTenant(entries, tenant)[..n], tenant), h)
  {
    var kept := OfTenant(entries, tenant)[..n];
    PrefixVerifies(OfTenant(entries, tenant), n, h);
    OfTenantOnly(entries, tenant);
    AllOfTenant(kept, tenant);
    NumberedIsSorted(kept);
  }

  lemma {:induction false} OfTenantOnly(entries: seq<Event>, tenant: string)
    ensures forall i | 0 <= i < |OfTenant(entries, tenant)| :: OfTenant(entries, tenant)[i].tenant == tenant
    decreases |entries|
  {
    if entries != [] { OfTenantOnly(entries[..|entries|-1], tenant); }
  }

  lemma {:induction false} AllOfTenant(entries: seq<Event>, tenant: string)
    requires forall i | 0 <= i < |entries| :: entries[i].tenant == tenant
    ensures OfTenant(entries, tenant) == entries
    decreases |entries|
  {
    if entries != [] {
      AllOfTenant(entries[..|entries|-1], tenant);
      assert entries == entries[..|entries|-1] + [entries[|entries|-1]];
    }
  }

  // ------------------------------------------------------------ the ledger

  class Ledger {
    var entries: seq<Event>
    const hash: Preimage -> Hash

    constructor (hash: Preimage -> Hash)
      ensures entries == [] && this.hash == hash
    {
      entries := [];
      this.hash := hash;
    }

    method Append(tenant: string, eventType: string, payload: string) returns (record: Event)
      modifies this
      ensures record == NewEvent(old(entries), tenant, eventType, payload, hash)
      ensures entries == old(entries) + [record]
    {
      var chain := ForTenant(entries, tenant);
      var prev, sequence := None, 1;
      if chain != [] {
        prev, sequence := Some(chain[|chain|-1].hash), chain[|chain|-1].sequence + 1;
      }
      var id := |entries|;
      record := Event(id, tenant, eventType, sequence, prev, hash(Preimage(prev, id, eventType, payload)), payload);
      entries := entries + [record];
    }

    /** The id of the first entry that breaks the chain, if there is one. */
    method VerifyChain(tenant: string) returns (broken: Option<nat>)
      ensures broken.None? <==> Verifies(ForTenant(entries, tenant), hash)
      ensures broken.Some? ==> exists i :: FirstBreak(ForTenant(entries, tenant), i, broken.value, hash)
    {
      var chain := ForTenant(entries, tenant);
      var prev := None;
      for i := 0 to |chain|
        invariant prev == LastHash(chain[..i])
        invariant Verifies(chain[..i], hash)
      {
        var e := chain[i];
        assert chain[..i+1][..i] == chain[..i];
        if e.prev != prev || e.hash != hash(Signed(e, prev)) {
          BrokenPrefix(chain, i + 1, hash);
          assert FirstBreak(chain, i, e.id, hash);
          return Some(e.id);
        }
        prev := Some(e.hash);
      }
      assert chain[..|chain|] == chain;
      broken := None;
    }
  }
}
