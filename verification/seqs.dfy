/** The array methods the pages are built from (`filter`, `find`, `findIndex`,
    `reduce` to a sum, `slice`), over immutable sequences. */
module Seqs {
  import opened Wrappers

  /** `a` can be obtained from `b` by deleting elements: `a` keeps `b`'s order. */
  predicate IsSubsequence<T(==)>(a: seq<T>, b: seq<T>)
    decreases |b|
  {
    if |a| == 0 then true
    else if |b| == 0 then false
    else if a[0] == b[0] then IsSubsequence(a[1..], b[1..])
    else IsSubsequence(a, b[1..])
  }

  /** Number of elements satisfying `p`: `s.filter(p).length`. */
  function Count<T>(s: seq<T>, p: T -> bool): (n: nat)
    ensures n <= |s|
  {
    if |s| == 0 then 0 else (if p(s[0]) then 1 else 0) + Count(s[1..], p)
  }

  /** `s.filter(p)` */
  function Filter<T(==)>(s: seq<T>, p: T -> bool): (r: seq<T>)
    ensures forall i :: 0 <= i < |r| ==> r[i] in s && p(r[i])
    ensures forall i :: 0 <= i < |s| && p(s[i]) ==> s[i] in r
    ensures IsSubsequence(r, s)
    ensures |r| == Count(s, p)
  {
    if |s| == 0 then []
    else if p(s[0]) then [s[0]] + Filter(s[1..], p)
    else Filter(s[1..], p)
  }

  /** A filter whose predicate holds of every element removes nothing. */
  lemma {:induction false} FilterKeepsAll<T>(s: seq<T>, p: T -> bool)
    requires forall i :: 0 <= i < |s| ==> p(s[i])
    ensures Filter(s, p) == s
  {
    if |s| > 0 {
      FilterKeepsAll(s[1..], p);
    }
  }

  /** Filters agreeing on the elements present give the same result. */
  lemma {:induction false} FilterCongruent<T>(s: seq<T>, p: T -> bool, q: T -> bool)
    requires forall i :: 0 <= i < |s| ==> (p(s[i]) <==> q(s[i]))
    ensures Filter(s, p) == Filter(s, q)
  {
    if |s| > 0 {
      FilterCongruent(s[1..], p, q);
    }
  }

  /** Two predicates that never hold together count at most every element once. */
  lemma {:induction false} CountDisjoint<T>(s: seq<T>, p: T -> bool, q: T -> bool)
    requires forall i :: 0 <= i < |s| ==> !(p(s[i]) && q(s[i]))
    ensures Count(s, p) + Count(s, q) <= |s|
  {
    if |s| > 0 {
      CountDisjoint(s[1..], p, q);
    }
  }

  /** Filtering a sequence with one more element at the end. */
  lemma {:induction false} FilterAppend<T>(s: seq<T>, x: T, p: T -> bool)
    ensures Filter(s + [x], p) == Filter(s, p) + (if p(x) then [x] else [])
  {
    if |s| == 0 {
      assert s + [x] == [x];
      assert [x][1..] == [];
    } else {
      assert (s + [x])[1..] == s[1..] + [x];
      FilterAppend(s[1..], x, p);
    }
  }

  lemma CountAppend<T>(s: seq<T>, x: T, p: T -> bool)
    ensures Count(s + [x], p) == Count(s, p) + (if p(x) then 1 else 0)
  {
    FilterAppend(s, x, p);
  }

  /** A kept element lands in the filter at the number of kept elements before it. */
  lemma {:induction false} FilterAt<T>(s: seq<T>, p: T -> bool, k: nat)
    requires k < |s| && p(s[k])
    ensures Count(s[..k], p) < |Filter(s, p)| && Filter(s, p)[Count(s[..k], p)] == s[k]
    decreases k
  {
    if k > 0 {
      FilterAt(s[1..], p, k - 1);
      assert s[..k][1..] == s[1..][..k - 1];
      assert s[1..][k - 1] == s[k];
    }
  }

  /** Counting over a concatenation adds the two counts. */
  lemma {:induction false} CountConcat<T>(a: seq<T>, b: seq<T>, p: T -> bool)
    ensures Count(a + b, p) == Count(a, p) + Count(b, p)
  {
    if |a| == 0 {
      assert a + b == b;
    } else {
      assert (a + b)[0] == a[0];
      assert (a + b)[1..] == a[1..] + b;
      CountConcat(a[1..], b, p);
    }
  }

  /** FilterAt for every kept element at once. */
  lemma FilterPositions<T>(s: seq<T>, p: T -> bool)
    ensures forall k :: 0 <= k < |s| && p(s[k]) ==>
              Count(s[..k], p) < |Filter(s, p)| && Filter(s, p)[Count(s[..k], p)] == s[k]
  {
    forall k | 0 <= k < |s| && p(s[k])
      ensures Count(s[..k], p) < |Filter(s, p)| && Filter(s, p)[Count(s[..k], p)] == s[k]
    {
      FilterAt(s, p, k);
    }
  }

  /** A filter keeps nothing exactly when no element satisfies the predicate. */
  lemma FilterEmpty<T>(s: seq<T>, p: T -> bool)
    ensures Filter(s, p) == [] <==> forall i :: 0 <= i < |s| ==> !p(s[i])
  {
    var r := Filter(s, p);
    if r != [] {
      assert r[0] in s && p(r[0]);
    }
  }

  /** `s.findIndex(p)`: the first index whose element satisfies `p`, or -1. */
  function FirstIndex<T>(s: seq<T>, p: T -> bool): (i: int)
    ensures -1 <= i < |s|
    ensures 0 <= i ==> p(s[i])
    ensures forall j :: 0 <= j < |s| && (i == -1 || j < i) ==> !p(s[j])
  {
    if |s| == 0 then -1
    else if p(s[0]) then 0
    else
      var k := FirstIndex(s[1..], p);
      if k == -1 then -1 else k + 1
  }

  /** `s.find(p)`: the first element satisfying `p`, or `None` (`undefined`). */
  function Find<T>(s: seq<T>, p: T -> bool): (r: Option<T>)
    ensures r.None? <==> forall i :: 0 <= i < |s| ==> !p(s[i])
    ensures r.Some? ==> exists i :: 0 <= i < |s| && s[i] == r.value && p(s[i]) &&
                          forall j :: 0 <= j < i ==> !p(s[j])
  {
    var i := FirstIndex(s, p);
    if i == -1 then None else Some(s[i])
  }

  /** `find` over a sequence with one more element at the end: an earlier match wins. */
  lemma FindAppend<T>(s: seq<T>, x: T, p: T -> bool)
    ensures Find(s + [x], p) ==
              if Find(s, p).Some? then Find(s, p) else if p(x) then Some(x) else None
  {
    var t := s + [x];
    assert forall i :: 0 <= i < |s| ==> t[i] == s[i];
    if Find(s, p).Some? {
      var i :| 0 <= i < |s| && s[i] == Find(s, p).value && p(s[i]) && forall j :: 0 <= j < i ==> !p(s[j]);
      assert t[i] == s[i];
      var r := Find(t, p);
      var k :| 0 <= k < |t| && t[k] == r.value && p(t[k]) && forall j :: 0 <= j < k ==> !p(t[j]);
      assert k == i;
    } else if p(x) {
      assert t[|s|] == x;
      var r := Find(t, p);
      var k :| 0 <= k < |t| && t[k] == r.value && p(t[k]) && forall j :: 0 <= j < k ==> !p(t[j]);
      assert k == |s|;
    }
  }

  /** The first element a filter keeps is the one `find` returns. */
  lemma {:induction false} FilterHeadIsFind<T>(s: seq<T>, p: T -> bool)
    ensures Filter(s, p) == [] <==> Find(s, p).None?
    ensures Filter(s, p) != [] ==> Find(s, p) == Some(Filter(s, p)[0])
  {
    if |s| > 0 {
      FilterHeadIsFind(s[1..], p);
      if !p(s[0]) {
        assert Find(s, p) == Find(s[1..], p) by {
          assert FirstIndex(s, p) == (if FirstIndex(s[1..], p) == -1 then -1 else FirstIndex(s[1..], p) + 1);
        }
      }
    }
  }

  /** Dropping the head of `b` never hurts: a subsequence of `b[1..]` is one of `b`. */
  lemma {:induction false} SubsequenceOfTail<T>(a: seq<T>, b: seq<T>)
    requires |b| > 0 && IsSubsequence(a, b[1..])
    ensures IsSubsequence(a, b)
    decreases |b|, |a|
  {
    if |a| > 0 && a[0] == b[0] {
      DropHead(a, b[1..]);
    }
  }

  /** Dropping the head of `a` keeps it a subsequence. */
  lemma {:induction false} DropHead<T>(a: seq<T>, c: seq<T>)
    requires |a| > 0 && IsSubsequence(a, c)
    ensures IsSubsequence(a[1..], c)
    decreases |c|, |a|
  {
    if a[0] == c[0] {
      if |a[1..]| > 0 {
        SubsequenceOfTail(a[1..], c);
      }
    } else {
      DropHead(a, c[1..]);
      if |a[1..]| > 0 {
        SubsequenceOfTail(a[1..], c);
      }
    }
  }

  /** `s.map(f)` */
  function Map<T, U>(s: seq<T>, f: T -> U): (r: seq<U>)
    ensures |r| == |s|
    ensures forall i :: 0 <= i < |s| ==> r[i] == f(s[i])
  {
    seq(|s|, i requires 0 <= i < |s| => f(s[i]))
  }

  /** `s.reduce((sum, x) => sum + f(x), 0)` */
  function Sum<T>(s: seq<T>, f: T -> int): int
  {
    if |s| == 0 then 0 else f(s[0]) + Sum(s[1..], f)
  }

  lemma {:induction false} SumConcat<T>(a: seq<T>, b: seq<T>, f: T -> int)
    ensures Sum(a + b, f) == Sum(a, f) + Sum(b, f)
  {
    if |a| == 0 {
      assert a + b == b;
    } else {
      assert (a + b)[1..] == a[1..] + b;
      SumConcat(a[1..], b, f);
    }
  }

  lemma MapConcat<T, U>(a: seq<T>, b: seq<T>, f: T -> U)
    ensures Map(a + b, f) == Map(a, f) + Map(b, f)
  {
    assert |Map(a + b, f)| == |Map(a, f) + Map(b, f)|;
  }

  lemma SumAppend<T>(s: seq<T>, x: T, f: T -> int)
    ensures Sum(s + [x], f) == Sum(s, f) + f(x)
  {
    SumConcat(s, [x], f);
  }

  /** Replacing one element changes the sum by the difference of the summands. */
  lemma {:induction false} SumUpdate<T>(s: seq<T>, i: nat, x: T, f: T -> int)
    requires i < |s|
    ensures Sum(s[i := x], f) == Sum(s, f) - f(s[i]) + f(x)
  {
    if i > 0 {
      assert s[i := x][1..] == s[1..][i - 1 := x];
      SumUpdate(s[1..], i - 1, x, f);
    } else {
      assert s[i := x][1..] == s[1..];
    }
  }

  /** Sums are additive in the summand. */
  lemma {:induction false} SumAdd<T>(s: seq<T>, f: T -> int, g: T -> int, h: T -> int)
    requires forall i :: 0 <= i < |s| ==> h(s[i]) == f(s[i]) + g(s[i])
    ensures Sum(s, h) == Sum(s, f) + Sum(s, g)
  {
    if |s| > 0 {
      SumAdd(s[1..], f, g, h);
    }
  }

  /** Sums are monotone: a pointwise smaller summand gives a smaller sum. */
  lemma {:induction false} SumMonotone<T>(s: seq<T>, f: T -> int, g: T -> int)
    requires forall i :: 0 <= i < |s| ==> f(s[i]) <= g(s[i])
    ensures Sum(s, f) <= Sum(s, g)
  {
    if |s| > 0 {
      SumMonotone(s[1..], f, g);
    }
  }

  /** `s.slice(0, n)` for `n >= 0`. */
  function Take<T>(s: seq<T>, n: nat): (r: seq<T>)
    ensures |r| == if n < |s| then n else |s|
    ensures r <= s
  {
    if n < |s| then s[..n] else s
  }

  /** `s.slice(-n)` for `n > 0`: the last `n` elements (all of them when fewer). */
  function TakeLast<T>(s: seq<T>, n: nat): (r: seq<T>)
    ensures |r| == if n < |s| then n else |s|
    ensures forall i :: 0 <= i < |r| ==> r[i] == s[|s| - |r| + i]
  {
    if n < |s| then s[|s| - n..] else s
  }

  /** `s.slice(start, end)` for non-negative bounds: both are clamped to the length
      and an empty range gives the empty sequence. */
  function Slice<T>(s: seq<T>, start: nat, end: nat): (r: seq<T>)
    ensures start >= |s| || end <= start ==> r == []
    ensures start < end <= |s| ==> r == s[start..end]
    ensures start < |s| < end ==> r == s[start..]
  {
    var lo := if start < |s| then start else |s|;
    var hi := if end < |s| then end else |s|;
    if hi <= lo then [] else s[lo..hi]
  }
}
