/** `Array.prototype.filter` and the counts the dashboard derives from it. */
module Seqs {

  /** `r` can be obtained from `s` by deleting elements: it keeps their relative order. */
  predicate IsSubsequence<T(==)>(r: seq<T>, s: seq<T>)
    decreases |s|
  {
    |r| == 0 || (|s| > 0 && ((r[0] == s[0] && IsSubsequence(r[1..], s[1..])) || IsSubsequence(r, s[1..])))
  }

  /** The positions of `s` whose element satisfies `p`. */
  function IndicesWhere<T>(s: seq<T>, p: T -> bool): set<nat> {
    set i: nat | i < |s| && p(s[i])
  }

  /** `s.filter(p)`: the elements satisfying `p`, in their original order. */
  function Filter<T(==, !new)>(s: seq<T>, p: T -> bool): (r: seq<T>)
    ensures |r| == |IndicesWhere(s, p)| && |r| <= |s|
    ensures forall i :: 0 <= i < |r| ==> r[i] in s && p(r[i])
    ensures forall i :: 0 <= i < |s| && p(s[i]) ==> s[i] in r
    ensures IsSubsequence(r, s)
  {
    if |s| == 0 then
      assert IndicesWhere(s, p) == {};
      []
    else
      var rest := Filter(s[1..], p);
      assert s == [s[0]] + s[1..];
      IndicesOfTail(s, p);
      if p(s[0]) then
        assert ([s[0]] + rest)[1..] == rest;
        [s[0]] + rest
      else rest
  }

  /** Filtering keeps every copy of a qualifying element and no copy of any other. */
  lemma {:induction false} FilterMultiplicity<T(!new)>(s: seq<T>, p: T -> bool, x: T)
    ensures multiset(Filter(s, p))[x] == if p(x) then multiset(s)[x] else 0
  {
    if |s| > 0 {
      var tail := s[1..];
      FilterMultiplicity(tail, p, x);
      FilterCons(s, p);
      assert s == [s[0]] + tail;
      MultiplicityStep(s[0], tail, Filter(tail, p), Filter(s, p), x, p(s[0]), p(x));
    }
  }

  /** Filtering never adds a copy of anything. */
  lemma FilterSubMultiset<T(!new)>(s: seq<T>, p: T -> bool)
    ensures multiset(Filter(s, p)) <= multiset(s)
  {
    forall x
      ensures multiset(Filter(s, p))[x] <= multiset(s)[x]
    {
      FilterMultiplicity(s, p, x);
    }
  }

  /** One step of `Filter`: the head is kept exactly when it satisfies `p`. */
  lemma FilterCons<T(!new)>(s: seq<T>, p: T -> bool)
    requires |s| > 0
    ensures Filter(s, p) == if p(s[0]) then [s[0]] + Filter(s[1..], p) else Filter(s[1..], p)
  {
  }

  /**
    The counting step of `FilterMultiplicity`, stated without `Filter`: `keep`
    is whether the head `y` qualifies and `keepX` whether `x` does.
   */
  lemma MultiplicityStep<T>(y: T, tail: seq<T>, kept: seq<T>, r: seq<T>, x: T, keep: bool, keepX: bool)
    requires r == if keep then [y] + kept else kept
    requires multiset(kept)[x] == if keepX then multiset(tail)[x] else 0
    requires y == x ==> keep == keepX
    ensures multiset(r)[x] == if keepX then multiset([y] + tail)[x] else 0
  {
    assert multiset([y] + tail) == multiset{y} + multiset(tail);
    if keep {
      assert multiset(r) == multiset{y} + multiset(kept);
    }
  }

  /** The positions in `s` are those of its tail, shifted by one, plus 0 when `s[0]` qualifies. */
  lemma IndicesOfTail<T>(s: seq<T>, p: T -> bool)
    requires |s| > 0
    ensures |IndicesWhere(s, p)| == |IndicesWhere(s[1..], p)| + (if p(s[0]) then 1 else 0)
  {
    var tail := IndicesWhere(s[1..], p);
    ShiftedSize(tail);
    IndicesSplit(s, p);
    assert 0 !in Shift(tail);
  }

  /** The positions in `s`: 0 when `s[0]` qualifies, and the tail's positions shifted by one. */
  lemma IndicesSplit<T>(s: seq<T>, p: T -> bool)
    requires |s| > 0
    ensures IndicesWhere(s, p) == (if p(s[0]) then {0} else {}) + Shift(IndicesWhere(s[1..], p))
  {
    var tail := IndicesWhere(s[1..], p);
    var shifted := Shift(tail);
    var head: set<nat> := if p(s[0]) then {0} else {};
    forall i: nat | i in IndicesWhere(s, p)
      ensures i in head + shifted
    {
      if i > 0 {
        assert s[1..][i - 1] == s[i];
        assert i - 1 in tail;
      }
    }
    forall i | i in shifted
      ensures i in IndicesWhere(s, p)
    {
      var j :| j in tail && i == j + 1;
      assert s[i] == s[1..][j];
    }
  }

  /** Every element of `a` moved up by one. */
  function Shift(a: set<nat>): set<nat> {
    set i | i in a :: i + 1
  }

  /** Moving every element up by one keeps the size of a set. */
  lemma {:induction false} ShiftedSize(a: set<nat>)
    ensures |Shift(a)| == |a|
    decreases a
  {
    if a != {} {
      var x :| x in a;
      var b := a - {x};
      ShiftedSize(b);
      assert Shift(a) == Shift(b) + {x + 1} by {
        forall y | y in Shift(a)
          ensures y in Shift(b) + {x + 1}
        {
          var i :| i in a && y == i + 1;
          if i != x {
            assert i in b;
          }
        }
        forall y | y in Shift(b) + {x + 1}
          ensures y in Shift(a)
        {
          if y == x + 1 {
            assert x in a;
          } else {
            var i :| i in b && y == i + 1;
            assert i in a;
          }
        }
      }
      assert x + 1 !in Shift(b);
      assert |a| == |b| + 1;
    }
  }

  /** `s.filter(p).length`: how many positions hold an element satisfying `p`. */
  function Count<T(==, !new)>(s: seq<T>, p: T -> bool): (n: nat)
    ensures n == |IndicesWhere(s, p)|
    ensures n <= |s|
    ensures n == 0 <==> forall i :: 0 <= i < |s| ==> !p(s[i])
    ensures n == |s| <==> forall i :: 0 <= i < |s| ==> p(s[i])
  {
    var r := Filter(s, p);
    assert |r| > 0 ==> r[0] in s;
    FilterLengthAll(s, p);
    |r|
  }

  /** Filtering keeps everything exactly when every element satisfies the predicate. */
  lemma {:induction false} FilterAll<T(!new)>(s: seq<T>, p: T -> bool)
    ensures Filter(s, p) == s <==> forall i :: 0 <= i < |s| ==> p(s[i])
  {
    if |s| > 0 {
      FilterAll(s[1..], p);
      assert s == [s[0]] + s[1..];
      if p(s[0]) {
        assert Filter(s, p) == [s[0]] + Filter(s[1..], p);
        assert (forall i :: 0 <= i < |s| ==> p(s[i])) <==> (forall i :: 0 <= i < |s[1..]| ==> p(s[1..][i]));
      } else {
        assert |Filter(s, p)| < |s|;
      }
    }
  }

  /** Counting distributes over concatenation. */
  lemma {:induction false} CountConcat<T(!new)>(a: seq<T>, b: seq<T>, p: T -> bool)
    ensures Count(a + b, p) == Count(a, p) + Count(b, p)
  {
    if |a| > 0 {
      assert (a + b)[1..] == a[1..] + b;
      CountConcat(a[1..], b, p);
    } else {
      assert a + b == b;
    }
  }

  /** Filtering by two predicates that agree on every element gives the same result. */
  lemma {:induction false} FilterSamePredicate<T(!new)>(s: seq<T>, p: T -> bool, q: T -> bool)
    requires forall i :: 0 <= i < |s| ==> p(s[i]) == q(s[i])
    ensures Filter(s, p) == Filter(s, q)
  {
    if |s| > 0 {
      FilterSamePredicate(s[1..], p, q);
    }
  }

  /** Two predicates that agree on every element give the same count. */
  lemma {:induction false} CountSamePredicate<T(!new)>(s: seq<T>, p: T -> bool, q: T -> bool)
    requires forall i :: 0 <= i < |s| ==> p(s[i]) == q(s[i])
    ensures Count(s, p) == Count(s, q)
  {
    if |s| > 0 {
      CountSamePredicate(s[1..], p, q);
    }
  }

  /** Filtering keeps the whole length exactly when every element satisfies the predicate. */
  lemma {:induction false} FilterLengthAll<T(!new)>(s: seq<T>, p: T -> bool)
    ensures |Filter(s, p)| == |s| <==> forall i :: 0 <= i < |s| ==> p(s[i])
  {
    if |s| > 0 {
      var tail := s[1..];
      FilterLengthAll(tail, p);
      AllOfCons(s, p);
      if p(s[0]) {
        assert |Filter(s, p)| == 1 + |Filter(tail, p)| by {
          assert s == [s[0]] + tail;
        }
      } else {
        assert |Filter(s, p)| == |Filter(tail, p)| by {
          assert s == [s[0]] + tail;
        }
      }
    }
  }

  /** Every element satisfies `p` exactly when the head and every element of the tail do. */
  lemma AllOfCons<T>(s: seq<T>, p: T -> bool)
    requires |s| > 0
    ensures (forall i :: 0 <= i < |s| ==> p(s[i])) <==> p(s[0]) && forall i :: 0 <= i < |s[1..]| ==> p(s[1..][i])
  {
    if p(s[0]) && forall i :: 0 <= i < |s[1..]| ==> p(s[1..][i]) {
      forall i | 0 < i < |s|
        ensures p(s[i])
      {
        assert s[i] == s[1..][i - 1];
      }
    }
  }

  /** No two elements share a key. */
  predicate DistinctBy<T, K(==)>(s: seq<T>, key: T -> K) {
    forall i, j :: 0 <= i < j < |s| ==> key(s[i]) != key(s[j])
  }

  /** A prefix holds no element more often than the whole sequence does. */
  lemma PrefixMultiset<T>(s: seq<T>, n: nat)
    requires n <= |s|
    ensures multiset(s[..n]) <= multiset(s)
  {
    assert s == s[..n] + s[n..];
  }

  /** Dropping the element at `k` removes one copy of it. */
  lemma MultisetRemove<T>(a: seq<T>, k: nat)
    requires k < |a|
    ensures multiset(a[..k] + a[k + 1..]) == multiset(a) - multiset{a[k]}
  {
    assert a == a[..k] + [a[k]] + a[k + 1..];
  }

  /** Dropping the element at `k` keeps keys distinct, and none of the rest shares its key. */
  lemma DistinctByRemove<T, K>(a: seq<T>, k: nat, rest: seq<T>, key: T -> K)
    requires k < |a| && DistinctBy(a, key)
    requires rest == a[..k] + a[k + 1..]
    ensures DistinctBy(rest, key)
    ensures forall m :: 0 <= m < |rest| ==> key(rest[m]) != key(a[k])
  {
    assert forall m :: 0 <= m < |rest| ==> rest[m] == a[if m < k then m else m + 1];
  }

  /** Reordering a sequence keeps its keys distinct. */
  lemma {:induction false} DistinctByPermutation<T, K>(a: seq<T>, b: seq<T>, key: T -> K)
    requires multiset(a) == multiset(b)
    requires DistinctBy(a, key)
    ensures DistinctBy(b, key)
    decreases |b|
  {
    if |b| > 0 {
      var x := b[0];
      var tail := b[1..];
      var k, rest := RemoveFirstOf(a, b);
      DistinctByRemove(a, k, rest, key);
      DistinctByPermutation(rest, tail, key);
      KeyAbsentFromPermutation(rest, tail, key, key(x));
      assert b == [x] + tail;
      DistinctByCons(x, tail, key);
    }
  }

  /** Takes `b`'s first element out of its reordering `a`; what is left reorders the rest of `b`. */
  lemma RemoveFirstOf<T>(a: seq<T>, b: seq<T>) returns (k: nat, rest: seq<T>)
    requires multiset(a) == multiset(b) && |b| > 0
    ensures k < |a| && a[k] == b[0] && rest == a[..k] + a[k + 1..]
    ensures multiset(rest) == multiset(b[1..])
  {
    k := IndexOf(a, b[0]);
    rest := a[..k] + a[k + 1..];
    MultisetRemove(a, k);
    MultisetOfTail(b);
  }

  /** A position holding `x`, for an `x` that occurs in `a`. */
  lemma IndexOf<T>(a: seq<T>, x: T) returns (k: nat)
    requires x in multiset(a)
    ensures k < |a| && a[k] == x
  {
    assert x in a;
    k :| 0 <= k < |a| && a[k] == x;
  }

  /** Dropping the head removes one copy of it. */
  lemma MultisetOfTail<T>(b: seq<T>)
    requires |b| > 0
    ensures multiset(b[1..]) == multiset(b) - multiset{b[0]}
  {
    assert b == [b[0]] + b[1..];
  }

  /** A key no element of `a` has is not had by any element of a reordering of `a`. */
  lemma KeyAbsentFromPermutation<T, K>(a: seq<T>, b: seq<T>, key: T -> K, kx: K)
    requires multiset(a) == multiset(b)
    requires forall m :: 0 <= m < |a| ==> key(a[m]) != kx
    ensures forall j :: 0 <= j < |b| ==> key(b[j]) != kx
  {
    forall j | 0 <= j < |b|
      ensures key(b[j]) != kx
    {
      assert b[j] in multiset(a);
      var m :| 0 <= m < |a| && a[m] == b[j];
    }
  }

  /** Putting an element with a new key in front keeps keys distinct. */
  lemma DistinctByCons<T, K>(x: T, tail: seq<T>, key: T -> K)
    requires DistinctBy(tail, key)
    requires forall j :: 0 <= j < |tail| ==> key(tail[j]) != key(x)
    ensures DistinctBy([x] + tail, key)
  {
    var b := [x] + tail;
    forall i, j | 0 <= i < j < |b|
      ensures key(b[i]) != key(b[j])
    {
      assert b[j] == tail[j - 1];
      if i > 0 {
        assert b[i] == tail[i - 1];
      }
    }
  }
}
