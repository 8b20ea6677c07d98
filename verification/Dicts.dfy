/** String-keyed dictionaries that remember insertion order, as JavaScript
    objects (with keys that are not array indices) and Maps do. */
module Dicts {

  datatype RawDict<V> = RawDict(keys: seq<string>, vals: map<string, V>)

  ghost predicate Differ(s: seq<string>, i: int, j: int) {
    0 <= i < j < |s| ==> s[i] != s[j]
  }

  ghost predicate Distinct(s: seq<string>) {
    forall i, j :: Differ(s, i, j)
  }

  lemma DistinctFrom(s: seq<string>, k: nat)
    requires Distinct(s) && k < |s|
    ensures s[k] !in s[..k]
    ensures Distinct(s[..k])
  {
    forall i | 0 <= i < k
      ensures s[i] != s[k]
    {
      assert Differ(s, i, k);
    }
    forall i, j | 0 <= i < j < k
      ensures s[..k][i] != s[..k][j]
    {
      assert Differ(s, i, j);
    }
  }

  /** The first k elements are the first k - 1 and one they do not contain. */
  lemma TakeNext(s: seq<string>, k: nat, x: string)
    requires Distinct(s) && 0 < k <= |s|
    ensures x in s[..k] <==> x in s[..k - 1] || x == s[k - 1]
    ensures s[k - 1] !in s[..k - 1]
  {
    DistinctFrom(s, k - 1);
    assert s[..k] == s[..k - 1] + [s[k - 1]];
  }

  lemma DistinctAdd(s: seq<string>, x: string)
    requires Distinct(s) && x !in s
    ensures Distinct(s + [x])
  {
    forall i, j | 0 <= i < j < |s + [x]|
      ensures (s + [x])[i] != (s + [x])[j]
    {
      assert Differ(s, i, j);
    }
  }

  ghost predicate Ordered<V>(d: RawDict<V>) {
    && Distinct(d.keys)
    && (forall k :: k in d.keys <==> k in d.vals)
  }

  type Dict<V> = d: RawDict<V> | Ordered(d) witness RawDict([], map[])

  function Empty<V>(): Dict<V> {
    RawDict([], map[])
  }

  /** Assignment: a new key goes last, an old one keeps its place. */
  function Put<V>(d: Dict<V>, k: string, v: V): (r: Dict<V>)
    ensures r.vals == d.vals[k := v]
  {
    if k !in d.keys then (DistinctAdd(d.keys, k); RawDict(d.keys + [k], d.vals[k := v]))
    else RawDict(d.keys, d.vals[k := v])
  }

  /** The elements of s other than x, in order (a filter). */
  function Without(s: seq<string>, x: string): (r: seq<string>)
    ensures forall k :: k in r <==> k in s && k != x
    ensures x !in s ==> r == s
  {
    if s == [] then []
    else if s[|s| - 1] == x then Without(s[..|s| - 1], x)
    else Without(s[..|s| - 1], x) + [s[|s| - 1]]
  }

  lemma {:induction false} WithoutDistinct(s: seq<string>, x: string)
    requires Distinct(s)
    ensures Distinct(Without(s, x))
  {
    if s != [] {
      var front, last := s[..|s| - 1], s[|s| - 1];
      DistinctFrom(s, |front|);
      WithoutDistinct(front, x);
      if last != x {
        DistinctAdd(Without(front, x), last);
      }
    }
  }

  /** Deletion. */
  function Del<V>(d: Dict<V>, k: string): (r: Dict<V>)
    ensures r.vals == d.vals - {k}
  {
    WithoutDistinct(d.keys, k);
    RawDict(Without(d.keys, k), d.vals - {k})
  }
}
