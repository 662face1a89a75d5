/** Python's `sorted` with a numeric key: a stable ascending sort, with the facts that
    determine its result. */
module StableSort {

  /** `x` goes behind every element whose key does not exceed its own. */
  function InsertBy<T>(s: seq<T>, x: T, key: T -> real): seq<T> {
    if s == [] || key(s[|s|-1]) <= key(x) then s + [x]
    else InsertBy(s[..|s|-1], x, key) + [s[|s|-1]]
  }

  function SortBy<T>(s: seq<T>, key: T -> real): seq<T> {
    if s == [] then [] else InsertBy(SortBy(s[..|s|-1], key), s[|s|-1], key)
  }

  predicate Ascending<T>(s: seq<T>, key: T -> real) {
    forall i, j | 0 <= i < j < |s| :: key(s[i]) <= key(s[j])
  }

  /** The elements with one particular key, in order. */
  function WithKey<T>(s: seq<T>, key: T -> real, v: real): seq<T> {
    if s == [] then []
    else WithKey(s[..|s|-1], key, v) + (if key(s[|s|-1]) == v then [s[|s|-1]] else [])
  }

  predicate Below<T>(s: seq<T>, key: T -> real, bound: real) { forall i | 0 <= i < |s| :: key(s[i]) <= bound }

  lemma {:induction false} InsertBelow<T>(s: seq<T>, x: T, key: T -> real, bound: real)
    requires Below(s, key, bound) && key(x) <= bound
    ensures Below(InsertBy(s, x, key), key, bound)
    decreases |s|
  {
    if s != [] && key(s[|s|-1]) > key(x) {
      InsertBelow(s[..|s|-1], x, key, bound);
    }
  }

  lemma {:induction false} InsertMultiset<T>(s: seq<T>, x: T, key: T -> real)
    ensures multiset(InsertBy(s, x, key)) == multiset(s) + multiset{x}
    decreases |s|
  {
    if s != [] && key(s[|s|-1]) > key(x) {
      InsertMultiset(s[..|s|-1], x, key);
      assert s == s[..|s|-1] + [s[|s|-1]];
    }
  }

  lemma {:induction false} InsertAscending<T>(s: seq<T>, x: T, key: T -> real)
    requires Ascending(s, key)
    ensures Ascending(InsertBy(s, x, key), key)
    decreases |s|
  {
    if s != [] && key(s[|s|-1]) > key(x) {
      var n := |s| - 1;
      InsertAscending(s[..n], x, key);
      InsertBelow(s[..n], x, key, key(s[n]));
    }
  }

  /** The result is an ascending rearrangement of the input. */
  lemma {:induction false} SortIsSorted<T>(s: seq<T>, key: T -> real)
    ensures Ascending(SortBy(s, key), key)
    ensures multiset(SortBy(s, key)) == multiset(s)
    ensures |SortBy(s, key)| == |s|
    decreases |s|
  {
    if s != [] {
      var n := |s| - 1;
      SortIsSorted(s[..n], key);
      InsertAscending(SortBy(s[..n], key), s[n], key);
      InsertMultiset(SortBy(s[..n], key), s[n], key);
      Snoc(s);
    }
    SameLength(SortBy(s, key), s);
  }

  lemma SameLength<T>(s: seq<T>, t: seq<T>)
    requires multiset(s) == multiset(t)
    ensures |s| == |t|
  {
    assert |multiset(s)| == |multiset(t)|;
  }

  lemma WithKeyAppend<T>(s: seq<T>, x: T, key: T -> real, v: real)
    ensures WithKey(s + [x], key, v) == WithKey(s, key, v) + (if key(x) == v then [x] else [])
  {
    assert (s + [x])[..|s|] == s;
  }

  lemma {:induction false} InsertIsStable<T>(s: seq<T>, x: T, key: T -> real, v: real)
    ensures WithKey(InsertBy(s, x, key), key, v) == WithKey(s + [x], key, v)
    decreases |s|
  {
    if s != [] && key(s[|s|-1]) > key(x) {
      var n := |s| - 1;
      var r := InsertBy(s[..n], x, key);
      InsertIsStable(s[..n], x, key, v);
      WithKeyAppend(r, s[n], key, v);
      WithKeyAppend(s[..n], x, key, v);
      WithKeyAppend(s, x, key, v);
      assert InsertBy(s, x, key) == r + [s[n]];
      assert key(s[n]) == v ==> key(x) != v;
    }
  }

  /** Elements with equal keys keep their input order. */
  lemma {:induction false} SortIsStable<T>(s: seq<T>, key: T -> real, v: real)
    ensures WithKey(SortBy(s, key), key, v) == WithKey(s, key, v)
    decreases |s|
  {
    if s != [] {
      var n := |s| - 1;
      SortIsStable(s[..n], key, v);
      var r := SortBy(s[..n], key);
      InsertIsStable(r, s[n], key, v);
      WithKeyAppend(r, s[n], key, v);
    }
  }

  /** A sequence that is already ascending is left alone. */
  lemma {:induction false} SortOfSorted<T>(s: seq<T>, key: T -> real)
    requires Ascending(s, key)
    ensures SortBy(s, key) == s
    decreases |s|
  {
    if s != [] {
      SortOfSorted(s[..|s|-1], key);
      assert s == s[..|s|-1] + [s[|s|-1]];
    }
  }

  lemma Snoc<T>(s: seq<T>)
    requires s != []
    ensures s == s[..|s|-1] + [s[|s|-1]] && multiset(s) == multiset(s[..|s|-1]) + multiset{s[|s|-1]}
  {
    assert s == s[..|s|-1] + [s[|s|-1]];
  }

  predicate StrictlyAscending<T>(s: seq<T>, key: T -> real) {
    forall i, j | 0 <= i < j < |s| :: key(s[i]) < key(s[j])
  }

  /** With distinct keys the ascending arrangement of given elements is unique. */
  lemma {:induction false} SortIsUnique<T>(s: seq<T>, t: seq<T>, key: T -> real)
    requires StrictlyAscending(t, key) && multiset(s) == multiset(t)
    ensures SortBy(s, key) == t
  {
    SortIsSorted(s, key);
    SameElementsSameOrder(SortBy(s, key), t, key);
  }

  lemma SameGreatest<T>(s: seq<T>, t: seq<T>, key: T -> real)
    requires Ascending(s, key) && StrictlyAscending(t, key) && multiset(s) == multiset(t) && t != []
    ensures |s| == |t| && s[|s|-1] == t[|t|-1]
  {
    assert |multiset(s)| == |multiset(t)|;
    var n := |t| - 1;
    assert s[n] in multiset(t) && t[n] in multiset(s);
    var i :| 0 <= i < |t| && t[i] == s[n];
    var j :| 0 <= j < |s| && s[j] == t[n];
    assert key(s[j]) <= key(s[n]);
  }

  lemma DropLast<T>(s: seq<T>)
    requires s != []
    ensures multiset(s[..|s|-1]) == multiset(s) - multiset{s[|s|-1]}
  {
    assert s == s[..|s|-1] + [s[|s|-1]];
  }

  lemma {:induction false} SameElementsSameOrder<T>(s: seq<T>, t: seq<T>, key: T -> real)
    requires Ascending(s, key) && StrictlyAscending(t, key) && multiset(s) == multiset(t)
    ensures s == t
    decreases |t|
  {
    assert |multiset(s)| == |multiset(t)|;
    if t != [] {
      SameGreatest(s, t, key);
      DropLast(s);
      DropLast(t);
      SameElementsSameOrder(s[..|s|-1], t[..|t|-1], key);
      Snoc(s);
      Snoc(t);
    }
  }
}
