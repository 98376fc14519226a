/** The ordering LINQ gives `OrderBy(key1).ThenBy(key2)`: a stable sort by an
    integer key, then by a string key compared ordinally. Elements are paired
    with their keys; equal keys keep their input order. */
module Sorting {
  import opened Text

  datatype SortKey = SortKey(index: int, name: string)

  predicate KeyLe(a: SortKey, b: SortKey) {
    a.index < b.index || (a.index == b.index && OrdinalLessOrEqual(a.name, b.name))
  }

  lemma {:induction false} OrdinalReflexive(a: string)
    ensures OrdinalLessOrEqual(a, a)
  {
    if a != [] {
      OrdinalReflexive(a[1..]);
    }
  }

  lemma KeyLeTotal(a: SortKey, b: SortKey)
    ensures KeyLe(a, b) || KeyLe(b, a)
  {
    OrdinalTotal(a.name, b.name);
  }

  lemma KeyLeTransitive(a: SortKey, b: SortKey, c: SortKey)
    requires KeyLe(a, b) && KeyLe(b, c)
    ensures KeyLe(a, c)
  {
    if a.index == b.index == c.index {
      OrdinalTransitive(a.name, b.name, c.name);
    }
  }

  lemma KeyLeAntisymmetric(a: SortKey, b: SortKey)
    requires KeyLe(a, b) && KeyLe(b, a)
    ensures a == b
  {
    OrdinalAntisymmetric(a.name, b.name);
  }

  predicate SortedByKey<T>(xs: seq<(SortKey, T)>) {
    forall i, j :: 0 <= i < j < |xs| ==> KeyLe(xs[i].0, xs[j].0)
  }

  /** Inserts x after every element whose key is at most x's. */
  function InsertByKey<T>(x: (SortKey, T), s: seq<(SortKey, T)>): seq<(SortKey, T)> {
    if s == [] || KeyLe(s[|s| - 1].0, x.0) then s + [x]
    else InsertByKey(x, s[..|s| - 1]) + [s[|s| - 1]]
  }

  function SortByKey<T>(xs: seq<(SortKey, T)>): seq<(SortKey, T)> {
    if xs == [] then [] else InsertByKey(xs[|xs| - 1], SortByKey(xs[..|xs| - 1]))
  }

  /** The elements with key k, in order. */
  function KeyClass<T>(xs: seq<(SortKey, T)>, k: SortKey): seq<(SortKey, T)> {
    if xs == [] then []
    else KeyClass(xs[..|xs| - 1], k) + (if xs[|xs| - 1].0 == k then [xs[|xs| - 1]] else [])
  }

  lemma {:induction false} KeyClassConcat<T>(a: seq<(SortKey, T)>, b: seq<(SortKey, T)>, k: SortKey)
    ensures KeyClass(a + b, k) == KeyClass(a, k) + KeyClass(b, k)
    decreases |b|
  {
    if b == [] {
      assert a + b == a;
    } else {
      assert (a + b)[..|a + b| - 1] == a + b[..|b| - 1];
      KeyClassConcat(a, b[..|b| - 1], k);
    }
  }

  lemma {:induction false} KeyClassNone<T>(xs: seq<(SortKey, T)>, k: SortKey)
    requires forall i :: 0 <= i < |xs| ==> xs[i].0 != k
    ensures KeyClass(xs, k) == []
  {
    if xs != [] {
      KeyClassNone(xs[..|xs| - 1], k);
    }
  }

  /** Where InsertByKey puts x: after the elements whose key is at most x's
      key, before the others. */
  lemma {:induction false} InsertPosition<T>(x: (SortKey, T), s: seq<(SortKey, T)>) returns (p: nat)
    requires SortedByKey(s)
    ensures p <= |s| && InsertByKey(x, s) == s[..p] + [x] + s[p..]
    ensures forall i :: 0 <= i < p ==> KeyLe(s[i].0, x.0)
    ensures forall i :: p <= i < |s| ==> !KeyLe(s[i].0, x.0)
    decreases |s|
  {
    if s == [] || KeyLe(s[|s| - 1].0, x.0) {
      p := |s|;
      forall i | 0 <= i < |s| - 1 ensures KeyLe(s[i].0, x.0) {
        KeyLeTransitive(s[i].0, s[|s| - 1].0, x.0);
      }
    } else {
      var front := s[..|s| - 1];
      p := InsertPosition(x, front);
      assert front[..p] == s[..p];
      assert front[p..] + [s[|s| - 1]] == s[p..];
    }
  }

  lemma InsertByKeySorted<T>(x: (SortKey, T), s: seq<(SortKey, T)>)
    requires SortedByKey(s)
    ensures SortedByKey(InsertByKey(x, s))
  {
    var p := InsertPosition(x, s);
    var r := InsertByKey(x, s);
    forall i, j | 0 <= i < j < |r| ensures KeyLe(r[i].0, r[j].0) {
      if j == p {
        assert r[i] == s[i];
      } else if i == p {
        assert r[j] == s[j - 1];
        KeyLeTotal(s[j - 1].0, x.0);
      } else {
        var i' := if i < p then i else i - 1;
        var j' := if j < p then j else j - 1;
        assert r[i] == s[i'] && r[j] == s[j'];
      }
    }
  }

  lemma InsertByKeyPermutation<T>(x: (SortKey, T), s: seq<(SortKey, T)>)
    requires SortedByKey(s)
    ensures multiset(InsertByKey(x, s)) == multiset(s) + multiset{x}
  {
    var p := InsertPosition(x, s);
    assert s == s[..p] + s[p..];
  }

  lemma InsertByKeyClass<T>(x: (SortKey, T), s: seq<(SortKey, T)>, k: SortKey)
    requires SortedByKey(s)
    ensures KeyClass(InsertByKey(x, s), k) == KeyClass(s, k) + (if x.0 == k then [x] else [])
  {
    var p := InsertPosition(x, s);
    assert s == s[..p] + s[p..];
    KeyClassConcat(s[..p] + [x], s[p..], k);
    KeyClassConcat(s[..p], [x], k);
    KeyClassConcat(s[..p], s[p..], k);
    assert KeyClass([x], k) == KeyClass([], k) + (if x.0 == k then [x] else []);
    if x.0 == k {
      forall i | 0 <= i < |s[p..]| ensures s[p..][i].0 != k {
        OrdinalReflexive(x.0.name);
        assert !KeyLe(s[p + i].0, x.0);
      }
      KeyClassNone(s[p..], k);
    }
  }

  /** SortByKey orders by key, keeps every element (a permutation), and keeps
      the input order among elements with the same key (stability). */
  lemma {:induction false} SortByKeyFacts<T>(xs: seq<(SortKey, T)>)
    ensures SortedByKey(SortByKey(xs))
    ensures multiset(SortByKey(xs)) == multiset(xs)
    ensures forall k :: KeyClass(SortByKey(xs), k) == KeyClass(xs, k)
  {
    if xs != [] {
      var front := xs[..|xs| - 1];
      SortByKeyFacts(front);
      var last := xs[|xs| - 1];
      InsertByKeySorted(last, SortByKey(front));
      InsertByKeyPermutation(last, SortByKey(front));
      assert xs == front + [last];
      forall k ensures KeyClass(SortByKey(xs), k) == KeyClass(xs, k) {
        InsertByKeyClass(last, SortByKey(front), k);
      }
    }
  }

  /** The elements without their keys. */
  function Values<T>(xs: seq<(SortKey, T)>): (vs: seq<T>)
    ensures |vs| == |xs| && forall k :: 0 <= k < |xs| ==> vs[k] == xs[k].1
  {
    if xs == [] then [] else Values(xs[..|xs| - 1]) + [xs[|xs| - 1].1]
  }

  lemma {:induction false} ValuesAppend<T>(a: seq<(SortKey, T)>, b: seq<(SortKey, T)>)
    ensures Values(a + b) == Values(a) + Values(b)
  {
    assert |Values(a + b)| == |Values(a) + Values(b)|;
  }

  lemma InsertByKeyValues<T>(x: (SortKey, T), s: seq<(SortKey, T)>)
    requires SortedByKey(s)
    ensures multiset(Values(InsertByKey(x, s))) == multiset(Values(s)) + multiset{x.1}
  {
    var p := InsertPosition(x, s);
    ValuesAppend(s[..p] + [x], s[p..]);
    ValuesAppend(s[..p], [x]);
    ValuesAppend(s[..p], s[p..]);
    assert s[..p] + s[p..] == s;
  }

  /** Sorting keeps the multiset of values. */
  lemma {:induction false} SortByKeyValues<T>(xs: seq<(SortKey, T)>)
    ensures multiset(Values(SortByKey(xs))) == multiset(Values(xs))
  {
    if xs != [] {
      var front := xs[..|xs| - 1];
      SortByKeyValues(front);
      SortByKeyFacts(front);
      InsertByKeyValues(xs[|xs| - 1], SortByKey(front));
    }
  }

  /** Sorting input that is already in key order changes nothing. */
  lemma {:induction false} SortByKeySorted<T>(xs: seq<(SortKey, T)>)
    requires SortedByKey(xs)
    ensures SortByKey(xs) == xs
  {
    if xs != [] {
      var front := xs[..|xs| - 1];
      assert SortedByKey(front);
      SortByKeySorted(front);
      assert front + [xs[|xs| - 1]] == xs;
    }
  }
}
