/** `Array.prototype.sort((a, b) => key(b) - key(a))`: a stable sort into
    non-increasing order of a numeric key. Query results that an index
    returns in key order are modelled with it too. */
module Sorting {
  import opened Common

  predicate NonIncreasing<T>(s: seq<T>, key: T -> real) {
    forall i, j :: 0 <= i < j < |s| ==> key(s[i]) >= key(s[j])
  }

  /** Puts `x` in front of the first element whose key is smaller, so that
      `x` goes before the elements with an equal key. */
  function Insert<T>(x: T, s: seq<T>, key: T -> real): (r: seq<T>)
    requires NonIncreasing(s, key)
    ensures NonIncreasing(r, key)
    ensures multiset(r) == multiset(s) + multiset{x}
    ensures |r| == |s| + 1
    ensures forall j :: 0 <= j < |r| ==> r[j] == x || r[j] in s
  {
    if s == [] then [x]
    else if key(x) >= key(s[0]) then [x] + s
    else
      var rest := Insert(x, s[1..], key);
      InsertBehind(x, s, rest, key);
      [s[0]] + rest
  }

  /** Putting the head back in front of `x` inserted into the tail. */
  lemma InsertBehind<T>(x: T, s: seq<T>, rest: seq<T>, key: T -> real)
    requires |s| > 0 && NonIncreasing(s, key) && key(x) < key(s[0])
    requires NonIncreasing(rest, key)
    requires multiset(rest) == multiset(s[1..]) + multiset{x}
    requires forall j :: 0 <= j < |rest| ==> rest[j] == x || rest[j] in s[1..]
    ensures NonIncreasing([s[0]] + rest, key)
    ensures multiset([s[0]] + rest) == multiset(s) + multiset{x}
    ensures forall j :: 0 <= j < |rest| + 1 ==> ([s[0]] + rest)[j] == x || ([s[0]] + rest)[j] in s
  {
    assert s == [s[0]] + s[1..];
    HeadBounds(s, key);
    var r := [s[0]] + rest;
    forall i, j | 0 <= i < j < |r| ensures key(r[i]) >= key(r[j]) {
      if i > 0 {
        assert r[i] == rest[i - 1] && r[j] == rest[j - 1];
      } else {
        assert r[j] == rest[j - 1];
      }
    }
  }

  lemma HeadBounds<T>(s: seq<T>, key: T -> real)
    requires |s| > 0 && NonIncreasing(s, key)
    ensures forall e :: e in s[1..] ==> key(s[0]) >= key(e)
  {
    forall e | e in s[1..] ensures key(s[0]) >= key(e) {
      var j :| 0 <= j < |s[1..]| && s[1..][j] == e;
      assert s[j + 1] == e;
    }
  }

  /** Insertion sort: every element is inserted in front of the already
      sorted later ones, which keeps elements with equal keys in their
      original order. */
  function SortDesc<T>(s: seq<T>, key: T -> real): (r: seq<T>)
    ensures NonIncreasing(r, key)
    ensures multiset(r) == multiset(s)
    ensures |r| == |s|
  {
    if s == [] then []
    else
      assert s == [s[0]] + s[1..];
      Insert(s[0], SortDesc(s[1..], key), key)
  }

  lemma SortedElements<T>(s: seq<T>, key: T -> real, x: T)
    ensures x in SortDesc(s, key) <==> x in s
  {
    var r := SortDesc(s, key);
    assert x in r <==> x in multiset(r);
    assert x in s <==> x in multiset(s);
  }

  /** Dropping elements keeps a sequence in order. */
  lemma {:induction false} FilterNonIncreasing<T(!new)>(s: seq<T>, p: T -> bool, key: T -> real)
    requires NonIncreasing(s, key)
    ensures NonIncreasing(Filter(s, p), key)
  {
    if s != [] {
      FilterNonIncreasing(s[1..], p, key);
      HeadBounds(s, key);
    }
  }

  /** A slice of a sequence in order is in order. */
  lemma SliceNonIncreasing<T>(s: seq<T>, lo: nat, hi: nat, key: T -> real)
    requires NonIncreasing(s, key)
    ensures NonIncreasing(Slice(s, lo, hi), key)
  {
    var r := Slice(s, lo, hi);
    forall i, j | 0 <= i < j < |r| ensures key(r[i]) >= key(r[j]) {
      assert r[i] == s[lo + i] && r[j] == s[lo + j];
    }
  }

  /** No two elements share an `id`. */
  predicate DistinctBy<T, K(==)>(s: seq<T>, id: T -> K) {
    forall i, j :: 0 <= i < j < |s| ==> id(s[i]) != id(s[j])
  }

  lemma RemoveAtDistinct<T, K>(b: seq<T>, k: nat, b': seq<T>, id: T -> K)
    requires k < |b| && DistinctBy(b, id) && b' == b[..k] + b[k + 1..]
    ensures DistinctBy(b', id)
    ensures forall m :: 0 <= m < |b'| ==> id(b'[m]) != id(b[k])
  {
    assert forall m :: 0 <= m < |b'| ==> b'[m] == if m < k then b[m] else b[m + 1];
  }

  lemma MultisetRemoveAt<T>(s: seq<T>, k: nat)
    requires k < |s|
    ensures multiset(s) == multiset(s[..k] + s[k + 1..]) + multiset{s[k]}
  {
    assert s == s[..k] + [s[k]] + s[k + 1..];
  }

  lemma HeadDistinct<T, K>(a: seq<T>, rest: seq<T>, x: K, id: T -> K)
    requires |a| > 0 && id(a[0]) == x && DistinctBy(a[1..], id) && multiset(a[1..]) == multiset(rest)
    requires forall m :: 0 <= m < |rest| ==> id(rest[m]) != x
    ensures DistinctBy(a, id)
  {
    forall j | 1 <= j < |a| ensures id(a[j]) != x {
      assert a[j] == a[1..][j - 1];
      assert a[j] in multiset(rest);
      var m :| 0 <= m < |rest| && rest[m] == a[j];
    }
    forall i, j | 0 <= i < j < |a| ensures id(a[i]) != id(a[j]) {
      if 0 < i {
        assert a[i] == a[1..][i - 1] && a[j] == a[1..][j - 1];
      }
    }
  }

  lemma MultisetCancel<T>(m: multiset<T>, n: multiset<T>, x: T)
    requires m + multiset{x} == n + multiset{x}
    ensures m == n
  {
    forall y ensures m[y] == n[y] {
      assert (m + multiset{x})[y] == (n + multiset{x})[y];
    }
  }

  /** A permutation of a sequence without repeated ids has no repeated ids;
      in particular a sort keeps them distinct. */
  lemma {:induction false} PermutationKeepsDistinct<T, K>(a: seq<T>, b: seq<T>, id: T -> K)
    requires multiset(a) == multiset(b) && DistinctBy(b, id)
    ensures DistinctBy(a, id)
  {
    if a != [] {
      var x := a[0];
      assert x in multiset(b);
      var k :| 0 <= k < |b| && b[k] == x;
      var b' := b[..k] + b[k + 1..];
      MultisetRemoveAt(b, k);
      MultisetRemoveAt(a, 0);
      assert a[..0] + a[1..] == a[1..];
      MultisetCancel(multiset(a[1..]), multiset(b'), x);
      RemoveAtDistinct(b, k, b', id);
      PermutationKeepsDistinct(a[1..], b', id);
      HeadDistinct(a, b', id(x), id);
    }
  }
}
