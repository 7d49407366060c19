/** Values shared by every store: optional values, results, table ids and the
    small list operations the queries use (JavaScript's slice/take). */
module Common {

  datatype Option<+T> = None | Some(value: T)

  datatype Result<+T, +E> = Ok(value: T) | Err(error: E)

  /** Document ids are opaque in the backend; here they are numbers. */
  type UserId = nat
  type TrackId = nat
  type StorageId = nat

  /** The unit value returned by handlers that return nothing. */
  datatype Unit = Unit

  /** JavaScript truthiness of an optional string argument: an absent
      value and the empty string are both falsy. */
  predicate Truthy(o: Option<string>) {
    o.Some? && o.value != ""
  }

  /** `o || d` on an optional string. */
  function OrElse(o: Option<string>, d: string): (r: string)
    ensures Truthy(o) ==> r == o.value
    ensures !Truthy(o) ==> r == d
  {
    if Truthy(o) then o.value else d
  }

  /** `n || d` on an optional count: an absent value and 0 are both falsy. */
  function CountOrElse(o: Option<nat>, d: nat): (r: nat)
    ensures o.Some? && o.value > 0 ==> r == o.value
    ensures (o.None? || o.value == 0) ==> r == d
  {
    if o.Some? && o.value > 0 then o.value else d
  }

  function Min(a: int, b: int): int { if a <= b then a else b }

  function Max(a: int, b: int): int { if a >= b then a else b }

  /** `s.slice(lo, hi)` for non-negative bounds: out-of-range bounds are
      clamped to the length of `s`. */
  function Slice<T>(s: seq<T>, lo: nat, hi: nat): (r: seq<T>)
    ensures |r| == if lo >= hi || lo >= |s| then 0 else Min(hi, |s|) - lo
    ensures forall i :: 0 <= i < |r| ==> r[i] == s[lo + i]
  {
    if lo >= hi || lo >= |s| then [] else s[lo..Min(hi, |s|)]
  }

  /** `take(n)` of a query: the first `n` rows, or all when there are fewer. */
  function Take<T>(s: seq<T>, n: nat): (r: seq<T>)
    ensures |r| == Min(n, |s|)
    ensures r == s[..Min(n, |s|)]
  {
    Slice(s, 0, n)
  }

  function Reverse<T>(s: seq<T>): (r: seq<T>)
    ensures |r| == |s|
    ensures forall i :: 0 <= i < |s| ==> r[i] == s[|s| - 1 - i]
  {
    if s == [] then [] else Reverse(s[1..]) + [s[0]]
  }

  /** No element occurs twice. */
  predicate Distinct<T(==)>(s: seq<T>) {
    forall i, j :: 0 <= i < j < |s| ==> s[i] != s[j]
  }

  /** `s.filter(p)`: the elements that satisfy `p`, in their order. */
  function Filter<T(!new)>(s: seq<T>, p: T -> bool): (r: seq<T>)
    ensures |r| <= |s|
    ensures forall i :: 0 <= i < |r| ==> p(r[i])
    ensures forall x :: x in r <==> x in s && p(x)
  {
    if s == [] then []
    else if p(s[0]) then [s[0]] + Filter(s[1..], p)
    else Filter(s[1..], p)
  }

  lemma {:induction false} FilterAppend<T(!new)>(a: seq<T>, b: seq<T>, p: T -> bool)
    ensures Filter(a + b, p) == Filter(a, p) + Filter(b, p)
  {
    if a == [] {
      assert a + b == b;
    } else {
      assert (a + b)[1..] == a[1..] + b;
      FilterAppend(a[1..], b, p);
    }
  }

  /** Filtering a sequence with one more element at the end. */
  lemma FilterSnoc<T(!new)>(s: seq<T>, x: T, p: T -> bool)
    ensures Filter(s + [x], p) == Filter(s, p) + (if p(x) then [x] else [])
  {
    FilterAppend(s, [x], p);
    assert [x][1..] == [];
  }

  lemma {:induction false} FilterAll<T(!new)>(s: seq<T>, p: T -> bool)
    requires forall i :: 0 <= i < |s| ==> p(s[i])
    ensures Filter(s, p) == s
  {
    if s != [] {
      FilterAll(s[1..], p);
    }
  }

  lemma {:induction false} FilterNone<T(!new)>(s: seq<T>, p: T -> bool)
    requires forall i :: 0 <= i < |s| ==> !p(s[i])
    ensures Filter(s, p) == []
  {
    if s != [] {
      FilterNone(s[1..], p);
    }
  }

  /** Removing an element that the filter drops does not change the result. */
  lemma FilterSplice<T(!new)>(s: seq<T>, i: nat, p: T -> bool)
    requires i < |s| && !p(s[i])
    ensures Filter(s[..i] + s[i + 1..], p) == Filter(s, p)
  {
    var front, back := s[..i], s[i + 1..];
    assert s == front + ([s[i]] + back);
    FilterAppend(front, [s[i]] + back, p);
    FilterAppend([s[i]], back, p);
    FilterAppend(front, back, p);
  }

  /** Replacing an element the filter drops by another it drops does not
      change the result. */
  lemma FilterReplace<T(!new)>(s: seq<T>, i: nat, x: T, p: T -> bool)
    requires i < |s| && !p(s[i]) && !p(x)
    ensures Filter(s[i := x], p) == Filter(s, p)
  {
    var front, back := s[..i], s[i + 1..];
    assert s == front + ([s[i]] + back);
    assert s[i := x] == front + ([x] + back);
    FilterAppend(front, [s[i]] + back, p);
    FilterAppend([s[i]], back, p);
    FilterAppend(front, [x] + back, p);
    FilterAppend([x], back, p);
  }

  /** A filter that rejects exactly the element at `i` removes that one
      position and keeps the others in order. */
  lemma {:induction false} FilterRemovesOne<T(!new)>(s: seq<T>, i: nat, p: T -> bool)
    requires i < |s| && !p(s[i])
    requires forall k :: 0 <= k < |s| && k != i ==> p(s[k])
    ensures Filter(s, p) == s[..i] + s[i + 1..]
  {
    var tail := s[1..];
    if i == 0 {
      forall k | 0 <= k < |tail| ensures p(tail[k]) {
        assert tail[k] == s[k + 1];
      }
      FilterAll(tail, p);
      assert s[..0] + s[1..] == tail;
    } else {
      forall k | 0 <= k < |tail| && k != i - 1 ensures p(tail[k]) {
        assert tail[k] == s[k + 1];
      }
      assert tail[i - 1] == s[i];
      FilterRemovesOne(tail, i - 1, p);
      SpliceTail(s, i);
    }
  }

  lemma SpliceTail<T>(s: seq<T>, i: nat)
    requires 0 < i < |s|
    ensures s[..i] + s[i + 1..] == [s[0]] + (s[1..][..i - 1] + s[1..][i..])
  {
    assert s[1..][..i - 1] == s[1..i];
    assert s[1..][i..] == s[i + 1..];
    assert s[..i] == [s[0]] + s[1..i];
  }

  /** Dropping elements keeps them distinct. */
  lemma {:induction false} FilterDistinct<T(!new)>(s: seq<T>, p: T -> bool)
    requires Distinct(s)
    ensures Distinct(Filter(s, p))
  {
    if s != [] {
      assert Distinct(s[1..]) by {
        forall i, j | 0 <= i < j < |s[1..]| ensures s[1..][i] != s[1..][j] {
          assert s[1..][i] == s[i + 1] && s[1..][j] == s[j + 1];
        }
      }
      FilterDistinct(s[1..], p);
    }
  }

  /** `Reverse` keeps every element, as many times as it occurs. */
  lemma {:induction false} ReversePermutation<T>(s: seq<T>)
    ensures multiset(Reverse(s)) == multiset(s)
  {
    if s != [] {
      ReversePermutation(s[1..]);
      assert s == [s[0]] + s[1..];
    }
  }

  /** Keys that grow strictly along the sequence, as ids handed out in
      creation order do along a table. */
  predicate IncreasingBy<T>(s: seq<T>, key: T -> int) {
    forall i, j :: 0 <= i < j < |s| ==> key(s[i]) < key(s[j])
  }

  /** Dropping elements keeps keys strictly increasing. */
  lemma {:induction false} FilterIncreasing<T(!new)>(s: seq<T>, p: T -> bool, key: T -> int)
    requires IncreasingBy(s, key)
    ensures IncreasingBy(Filter(s, p), key)
  {
    if s != [] {
      assert IncreasingBy(s[1..], key) by {
        forall i, j | 0 <= i < j < |s[1..]| ensures key(s[1..][i]) < key(s[1..][j]) {
          assert s[1..][i] == s[i + 1] && s[1..][j] == s[j + 1];
        }
      }
      FilterIncreasing(s[1..], p, key);
      var tail := Filter(s[1..], p);
      forall k | 0 <= k < |tail| ensures key(s[0]) < key(tail[k]) {
        assert tail[k] in s[1..];
      }
    }
  }

  /** Read backwards, strictly increasing keys strictly decrease. */
  lemma ReverseDecreasing<T>(s: seq<T>, key: T -> int)
    requires IncreasingBy(s, key)
    ensures forall i, j :: 0 <= i < j < |Reverse(s)| ==> key(Reverse(s)[i]) > key(Reverse(s)[j])
  {
    var r := Reverse(s);
    forall i, j | 0 <= i < j < |r| ensures key(r[i]) > key(r[j]) {
      assert r[i] == s[|s| - 1 - i] && r[j] == s[|s| - 1 - j];
    }
  }

  /** Every element of a slice is an element of the sequence. */
  lemma SliceElements<T>(s: seq<T>, lo: nat, hi: nat)
    ensures forall x :: x in Slice(s, lo, hi) ==> x in s
  {
    var r := Slice(s, lo, hi);
    forall x | x in r ensures x in s {
      var k :| 0 <= k < |r| && r[k] == x;
      assert s[lo + k] == x;
    }
  }

  /** `Reverse` has the elements of its input. */
  lemma ReverseElements<T>(s: seq<T>)
    ensures forall x :: x in Reverse(s) <==> x in s
  {
    ReversePermutation(s);
    assert forall x :: x in Reverse(s) <==> x in multiset(Reverse(s));
    assert forall x :: x in s <==> x in multiset(s);
  }

  /** A filter keeps every occurrence of an element it accepts and none of
      one it rejects. */
  lemma {:induction false} FilterMultiset<T(!new)>(s: seq<T>, p: T -> bool, x: T)
    ensures multiset(Filter(s, p))[x] == if p(x) then multiset(s)[x] else 0
  {
    if s != [] {
      FilterMultiset(s[1..], p, x);
      assert s == [s[0]] + s[1..];
    }
  }

  /** Filtering two permutations of each other gives permutations of each
      other. */
  lemma FilterPermutation<T(!new)>(a: seq<T>, b: seq<T>, p: T -> bool)
    requires multiset(a) == multiset(b)
    ensures multiset(Filter(a, p)) == multiset(Filter(b, p))
  {
    forall x ensures multiset(Filter(a, p))[x] == multiset(Filter(b, p))[x] {
      FilterMultiset(a, p, x);
      FilterMultiset(b, p, x);
    }
  }

  /** `s.take(lim + off)` followed by `.slice(off)` is the page
      `s.slice(off, off + lim)`. */
  lemma TakeThenSlice<T>(s: seq<T>, lim: nat, off: nat)
    ensures var taken := Take(s, lim + off); Slice(taken, off, |taken|) == Slice(s, off, off + lim)
  {
    var taken := Take(s, lim + off);
    var a, b := Slice(taken, off, |taken|), Slice(s, off, off + lim);
    assert |a| == |b|;
    forall i | 0 <= i < |a| ensures a[i] == b[i] {
      assert a[i] == taken[off + i];
    }
  }

  /** The number of elements of a page `s.slice(off, off + lim)`. */
  lemma PageLength<T>(s: seq<T>, lim: nat, off: nat)
    ensures |Slice(s, off, off + lim)| == Min(lim, Max(0, |s| - off))
  {
  }

  /** The decimal digits of `n`, as `String(n)` renders an integer. */
  function NatToString(n: nat): (r: string)
    ensures |r| >= 1
    ensures forall i :: 0 <= i < |r| ==> '0' <= r[i] <= '9'
    decreases n
  {
    var d := [(('0' as int) + n % 10) as char];
    if n < 10 then d else NatToString(n / 10) + d
  }

  /** The position of the first element satisfying `p` (`.first()` of a
      query read in table order). */
  function FirstWhere<T>(s: seq<T>, p: T -> bool): (r: Option<nat>)
    ensures r.Some? ==> r.value < |s| && p(s[r.value]) && forall j :: 0 <= j < r.value ==> !p(s[j])
    ensures r.None? <==> forall j :: 0 <= j < |s| ==> !p(s[j])
  {
    if s == [] then None
    else if p(s[0]) then Some(0)
    else match FirstWhere(s[1..], p)
      case None => None
      case Some(k) => Some(k + 1)
  }

  /** The first match is the one at `k` when nothing before `k` matches. */
  lemma FirstWhereAt<T>(s: seq<T>, p: T -> bool, k: nat)
    requires k < |s| && p(s[k]) && forall j :: 0 <= j < k ==> !p(s[j])
    ensures FirstWhere(s, p) == Some(k)
  {
  }

  /** `[...new Set(s)]`: the elements of `s` without repetitions, each at
      the place of its first occurrence. */
  function Unique<T(==, !new)>(s: seq<T>): (r: seq<T>)
    ensures Distinct(r)
    ensures forall x :: x in r <==> x in s
    ensures |r| <= |s|
  {
    if s == [] then []
    else
      var u := Unique(s[..|s| - 1]);
      assert forall x :: x in s <==> x in s[..|s| - 1] || x == s[|s| - 1] by {
        assert s == s[..|s| - 1] + [s[|s| - 1]];
      }
      if s[|s| - 1] in u then u else u + [s[|s| - 1]]
  }

  /** `x` occurs in `s` before every occurrence of `y`. */
  predicate FirstBefore<T(==)>(s: seq<T>, x: T, y: T) {
    exists a :: 0 <= a < |s| && s[a] == x && forall b :: 0 <= b < |s| && s[b] == y ==> a < b
  }

  /** `Unique` lists the elements in the order of their first occurrence. */
  lemma {:induction false} UniqueOrder<T(!new)>(s: seq<T>)
    ensures forall i, j :: 0 <= i < j < |Unique(s)| ==> FirstBefore(s, Unique(s)[i], Unique(s)[j])
  {
    if s != [] {
      var n := |s| - 1;
      var p, x := s[..n], s[n];
      var u := Unique(p);
      var r := Unique(s);
      assert r == if x in u then u else u + [x];
      UniqueOrder(p);
      forall i, j | 0 <= i < j < |r| ensures FirstBefore(s, r[i], r[j]) {
        if j < |u| {
          assert r[i] == u[i] && r[j] == u[j];
          assert FirstBefore(p, u[i], u[j]);
          var a :| 0 <= a < |p| && p[a] == u[i] && forall b :: 0 <= b < |p| && p[b] == u[j] ==> a < b;
          assert s[a] == r[i];
          forall b | 0 <= b < |s| && s[b] == r[j] ensures a < b {
            if b < n {
              assert p[b] == s[b];
            }
          }
        } else {
          assert r[j] == x && x !in u && r[i] == u[i];
          assert u[i] in p;
          var a :| 0 <= a < |p| && p[a] == u[i];
          assert s[a] == r[i];
          assert forall b :: 0 <= b < n ==> s[b] == p[b];
          assert forall b :: 0 <= b < |s| && s[b] == x ==> a < b;
        }
      }
    }
  }
}
