/** Sequence combinators shared by every list operation of the dashboard:
    `Array.prototype.filter`, `reduce` for sums, `slice(0, n)` and the stable
    `Array.prototype.sort`, together with the facts the rest of the model
    needs about them. */
module Seqs {

  /** `a` can be obtained from `b` by deleting elements: an order-preserving
      subsequence. */
  predicate IsSubseq<T(==)>(a: seq<T>, b: seq<T>)
    decreases |b|
  {
    |a| <= |b| &&
    (|a| == 0 || (if a[0] == b[0] then IsSubseq(a[1..], b[1..]) else IsSubseq(a, b[1..])))
  }

  /** `xs.filter(p)`. */
  function Filter<T(==)>(s: seq<T>, p: T -> bool): (r: seq<T>)
    ensures |r| <= |s|
    ensures forall i :: 0 <= i < |r| ==> r[i] in s && p(r[i])
    ensures forall i :: 0 <= i < |s| && p(s[i]) ==> s[i] in r
    ensures IsSubseq(r, s)
  {
    if |s| == 0 then []
    else
      assert s == [s[0]] + s[1..];
      if p(s[0]) then [s[0]] + Filter(s[1..], p)
      else Filter(s[1..], p)
  }

  /** One step of `filter`: the head, if it passes, then the filtered tail. */
  lemma FilterCons<T>(s: seq<T>, p: T -> bool)
    requires |s| > 0
    ensures Filter(s, p) == (if p(s[0]) then [s[0]] else []) + Filter(s[1..], p)
  {
  }

  /** The copies of one value that a filter keeps: all of them when the
      value passes, none when it fails. */
  lemma {:induction false} FilterCount<T>(s: seq<T>, p: T -> bool, x: T)
    ensures multiset(Filter(s, p))[x] == if p(x) then multiset(s)[x] else 0
  {
    if |s| > 0 {
      var t := Filter(s[1..], p);
      FilterCount(s[1..], p, x);
      FilterCons(s, p);
      assert s == [s[0]] + s[1..];
      assert multiset(s) == multiset{s[0]} + multiset(s[1..]);
      if p(s[0]) {
        assert multiset(Filter(s, p)) == multiset{s[0]} + multiset(t);
      } else {
        assert Filter(s, p) == t;
      }
    }
  }

  /** Every passing element keeps all its copies; a failing one keeps none. */
  lemma FilterMultiplicity<T>(s: seq<T>, p: T -> bool)
    ensures forall x :: x in s ==> multiset(Filter(s, p))[x] == if p(x) then multiset(s)[x] else 0
  {
    forall x | x in s
      ensures multiset(Filter(s, p))[x] == if p(x) then multiset(s)[x] else 0
    {
      FilterCount(s, p, x);
    }
  }

  lemma {:induction false} SubseqRefl<T>(s: seq<T>)
    ensures IsSubseq(s, s)
  {
    if |s| > 0 {
      SubseqRefl(s[1..]);
    }
  }

  /** A filter that every element passes returns its input unchanged. */
  lemma {:induction false} FilterKeepsAll<T>(s: seq<T>, p: T -> bool)
    requires forall i :: 0 <= i < |s| ==> p(s[i])
    ensures Filter(s, p) == s
  {
    if |s| > 0 {
      FilterKeepsAll(s[1..], p);
    }
  }

  lemma {:induction false} FilterConcat<T>(a: seq<T>, b: seq<T>, p: T -> bool)
    ensures Filter(a + b, p) == Filter(a, p) + Filter(b, p)
  {
    if |a| > 0 {
      assert (a + b)[1..] == a[1..] + b;
      FilterConcat(a[1..], b, p);
    } else {
      assert a + b == b;
    }
  }

  /** Filtering twice is filtering once by the conjunction: a conjunctive
      filter may be evaluated criterion by criterion. */
  lemma {:induction false} FilterFilter<T>(s: seq<T>, p: T -> bool, q: T -> bool, pq: T -> bool)
    requires forall x :: pq(x) == (p(x) && q(x))
    ensures Filter(Filter(s, p), q) == Filter(s, pq)
  {
    if |s| > 0 {
      FilterFilter(s[1..], p, q, pq);
    }
  }

  /** Filters with pointwise-equal predicates on the elements agree. */
  lemma {:induction false} FilterExt<T>(s: seq<T>, p: T -> bool, q: T -> bool)
    requires forall i :: 0 <= i < |s| ==> p(s[i]) == q(s[i])
    ensures Filter(s, p) == Filter(s, q)
  {
    if |s| > 0 {
      FilterExt(s[1..], p, q);
    }
  }

  /** Splits `b` around an occurrence of `a[0]`, leaving the rest of `b` a
      permutation of the rest of `a`. */
  lemma PermSplit<T>(a: seq<T>, b: seq<T>) returns (j: nat)
    requires |a| > 0 && multiset(a) == multiset(b)
    ensures j < |b| && b[j] == a[0]
    ensures b == b[..j] + [a[0]] + b[j+1..]
    ensures multiset(a[1..]) == multiset(b[..j] + b[j+1..])
  {
    assert a[0] in multiset(b);
    j :| 0 <= j < |b| && b[j] == a[0];
    assert b == b[..j] + [a[0]] + b[j+1..];
    assert a == [a[0]] + a[1..];
    assert multiset(a) == multiset{a[0]} + multiset(a[1..]);
    assert multiset(b) == multiset(b[..j]) + multiset{a[0]} + multiset(b[j+1..]);
    assert multiset(b[..j] + b[j+1..]) == multiset(b[..j]) + multiset(b[j+1..]);
    assert multiset(a[1..]) == multiset(a) - multiset{a[0]};
  }

  /** Filtering respects permutations: equal multisets in, equal multisets out. */
  lemma FilterPerm<T>(a: seq<T>, b: seq<T>, p: T -> bool)
    requires multiset(a) == multiset(b)
    ensures multiset(Filter(a, p)) == multiset(Filter(b, p))
  {
    FilterMultiplicity(a, p);
    FilterMultiplicity(b, p);
    forall x
      ensures multiset(Filter(a, p))[x] == multiset(Filter(b, p))[x]
    {
      if x in a {
        assert x in multiset(b);
      } else {
        assert x !in multiset(b);
        assert x !in Filter(a, p) && x !in Filter(b, p);
      }
    }
  }

  /** `xs.reduce((sum, x) => sum + f(x), 0)`: a left fold. */
  function SumOf<T>(s: seq<T>, f: T -> real): real
  {
    if |s| == 0 then 0.0 else SumOf(s[..|s|-1], f) + f(s[|s|-1])
  }

  lemma {:induction false} SumConcat<T>(a: seq<T>, b: seq<T>, f: T -> real)
    ensures SumOf(a + b, f) == SumOf(a, f) + SumOf(b, f)
    decreases |b|
  {
    if |b| == 0 {
      assert a + b == a;
    } else {
      assert (a + b)[..|a + b| - 1] == a + b[..|b| - 1];
      SumConcat(a, b[..|b| - 1], f);
    }
  }

  lemma SumSingleton<T>(x: T, f: T -> real)
    ensures SumOf([x], f) == f(x)
  {
    assert [x][..0] == [];
  }

  /** The sum does not depend on the order of the elements. */
  lemma {:induction false} SumPerm<T>(a: seq<T>, b: seq<T>, f: T -> real)
    requires multiset(a) == multiset(b)
    ensures SumOf(a, f) == SumOf(b, f)
    decreases |a|
  {
    if |a| == 0 {
      assert |multiset(b)| == 0;
      assert b == [];
    } else {
      var j := PermSplit(a, b);
      var x, pre, post := a[0], b[..j], b[j+1..];
      SumPerm(a[1..], pre + post, f);
      SumConcat([x], a[1..], f);
      SumSingleton(x, f);
      SumConcat(pre + [x], post, f);
      SumConcat(pre, [x], f);
      SumConcat(pre, post, f);
      assert a == [x] + a[1..];
    }
  }

  /** `xs.slice(0, n)`. */
  function Take<T>(s: seq<T>, n: nat): (r: seq<T>)
    ensures |r| <= n && |r| <= |s|
    ensures |r| == if |s| < n then |s| else n
    ensures forall i :: 0 <= i < |r| ==> r[i] == s[i]
  {
    if |s| <= n then s else s[..n]
  }

  /** Sign of a comparator value: `Array.prototype.sort` only looks at whether
      the comparator is negative, zero or positive (and reads `NaN` as zero). */
  function Sign(x: real): int
  {
    if x < 0.0 then -1 else if x > 0.0 then 1 else 0
  }

  /** A comparator is a total preorder on the elements of `s`. */
  ghost predicate PreorderOn<T(!new)>(cmp: (T, T) -> int, s: seq<T>)
  {
    && (forall a, b :: a in s && b in s ==> cmp(a, b) <= 0 || cmp(b, a) <= 0)
    && (forall a, b, c :: a in s && b in s && c in s && cmp(a, b) <= 0 && cmp(b, c) <= 0 ==> cmp(a, c) <= 0)
  }

  ghost predicate SortedBy<T>(cmp: (T, T) -> int, s: seq<T>)
  {
    forall i, j :: 0 <= i < j < |s| ==> cmp(s[i], s[j]) <= 0
  }

  /** Inserts `x` in front of the first element it does not exceed: elements
      that compare equal to `x` and came later in the input stay after it. */
  function Insert<T(==)>(x: T, t: seq<T>, cmp: (T, T) -> int): (r: seq<T>)
    ensures multiset(r) == multiset(t) + multiset{x}
    ensures |r| == |t| + 1
  {
    if |t| == 0 then [x]
    else if cmp(x, t[0]) <= 0 then [x] + t
    else
      assert t == [t[0]] + t[1..];
      [t[0]] + Insert(x, t[1..], cmp)
  }

  /** A stable sort: `[...xs].sort(cmp)` as insertion sort. */
  function SortBy<T(==)>(s: seq<T>, cmp: (T, T) -> int): (r: seq<T>)
    ensures multiset(r) == multiset(s)
    ensures |r| == |s|
  {
    if |s| == 0 then []
    else
      assert s == [s[0]] + s[1..];
      Insert(s[0], SortBy(s[1..], cmp), cmp)
  }

  lemma InsertSortedFront<T(!new)>(x: T, t: seq<T>, cmp: (T, T) -> int, u: seq<T>)
    requires PreorderOn(cmp, u)
    requires x in u && forall y :: y in t ==> y in u
    requires SortedBy(cmp, t)
    requires |t| > 0 && cmp(x, t[0]) <= 0
    ensures SortedBy(cmp, [x] + t)
  {
    var r := [x] + t;
    forall i, j | 0 <= i < j < |r|
      ensures cmp(r[i], r[j]) <= 0
    {
      if i == 0 {
        assert r[j] == t[j-1];
        if j > 1 {
          assert cmp(t[0], t[j-1]) <= 0;
        }
      } else {
        assert r[i] == t[i-1] && r[j] == t[j-1];
      }
    }
  }

  /** The head of a sorted sequence is at most every element of it and at
      most anything it was found not to exceed. */
  lemma HeadBelowInserted<T(!new)>(x: T, t: seq<T>, cmp: (T, T) -> int, y: T)
    requires SortedBy(cmp, t)
    requires |t| > 0 && cmp(t[0], x) <= 0
    requires y in multiset(t[1..]) + multiset{x}
    ensures cmp(t[0], y) <= 0
  {
    if y != x {
      assert y in t[1..];
      var k :| 0 <= k < |t[1..]| && t[1..][k] == y;
      assert t[k+1] == y;
    }
  }

  lemma InsertSortedBehind<T(!new)>(x: T, t: seq<T>, cmp: (T, T) -> int, u: seq<T>)
    requires PreorderOn(cmp, u)
    requires x in u && forall y :: y in t ==> y in u
    requires SortedBy(cmp, t)
    requires |t| > 0 && cmp(t[0], x) <= 0
    requires SortedBy(cmp, Insert(x, t[1..], cmp))
    ensures SortedBy(cmp, [t[0]] + Insert(x, t[1..], cmp))
  {
    var ins := Insert(x, t[1..], cmp);
    var r := [t[0]] + ins;
    forall i, j | 0 <= i < j < |r|
      ensures cmp(r[i], r[j]) <= 0
    {
      if i == 0 {
        assert r[j] == ins[j-1];
        assert ins[j-1] in multiset(ins);
        HeadBelowInserted(x, t, cmp, ins[j-1]);
      } else {
        assert r[i] == ins[i-1] && r[j] == ins[j-1];
      }
    }
  }

  lemma {:induction false} InsertSorted<T(!new)>(x: T, t: seq<T>, cmp: (T, T) -> int, u: seq<T>)
    requires PreorderOn(cmp, u)
    requires x in u && forall y :: y in t ==> y in u
    requires SortedBy(cmp, t)
    ensures SortedBy(cmp, Insert(x, t, cmp))
  {
    if |t| > 0 {
      if cmp(x, t[0]) <= 0 {
        InsertSortedFront(x, t, cmp, u);
      } else {
        assert cmp(t[0], x) <= 0;
        assert SortedBy(cmp, t[1..]) by {
          forall i, j | 0 <= i < j < |t[1..]|
            ensures cmp(t[1..][i], t[1..][j]) <= 0
          {
            assert t[1..][i] == t[i+1] && t[1..][j] == t[j+1];
          }
        }
        InsertSorted(x, t[1..], cmp, u);
        InsertSortedBehind(x, t, cmp, u);
      }
    }
  }

  /** With a comparator that is a total preorder on its elements, the sort
      yields an ordered sequence. */
  lemma {:induction false} SortBySorted<T(!new)>(s: seq<T>, cmp: (T, T) -> int, u: seq<T>)
    requires PreorderOn(cmp, u)
    requires forall y :: y in s ==> y in u
    ensures SortedBy(cmp, SortBy(s, cmp))
  {
    if |s| > 0 {
      SortBySorted(s[1..], cmp, u);
      var t := SortBy(s[1..], cmp);
      forall y | y in t
        ensures y in u
      {
        assert y in multiset(t);
        assert y in multiset(s[1..]);
      }
      InsertSorted(s[0], t, cmp, u);
    }
  }

  /** A comparator that calls every pair equal leaves the order untouched:
      the sort is stable. */
  lemma {:induction false} SortByAllEqual<T>(s: seq<T>, cmp: (T, T) -> int)
    requires forall a, b :: cmp(a, b) == 0
    ensures SortBy(s, cmp) == s
  {
    if |s| > 0 {
      SortByAllEqual(s[1..], cmp);
      var t := SortBy(s[1..], cmp);
      if |t| > 0 {
        assert cmp(s[0], t[0]) == 0;
      }
      assert s == [s[0]] + s[1..];
    }
  }
}
