/** Sequence operations the components use: `Array.prototype.filter` and the
    facts about it that the list operations rely on. */
module Seqs {

  /** `xs.filter(p)`: the elements of `xs` that satisfy `p`, in their order. */
  function Filter<T>(p: T -> bool, xs: seq<T>): (r: seq<T>)
    ensures |r| <= |xs|
    ensures forall i :: 0 <= i < |r| ==> p(r[i]) && r[i] in xs
    ensures forall i :: 0 <= i < |xs| && p(xs[i]) ==> xs[i] in r
  {
    if xs == [] then []
    else (if p(xs[0]) then [xs[0]] else []) + Filter(p, xs[1..])
  }

  /** `sub` is obtained from `xs` by deleting elements, keeping the order of the rest. */
  ghost predicate IsSubsequence<T>(sub: seq<T>, xs: seq<T>)
    decreases |xs|
  {
    sub == [] ||
    (xs != [] &&
     ((sub[0] == xs[0] && IsSubsequence(sub[1..], xs[1..])) || IsSubsequence(sub, xs[1..])))
  }

  /** The indices at which `xs` satisfies `p`. */
  ghost function IndicesWhere<T>(p: T -> bool, xs: seq<T>): set<nat>
  {
    set i: nat | i < |xs| && p(xs[i])
  }

  lemma {:induction false} FilterAppend<T>(p: T -> bool, a: seq<T>, b: seq<T>)
    ensures Filter(p, a + b) == Filter(p, a) + Filter(p, b)
  {
    if a == [] {
      assert a + b == b;
    } else {
      assert (a + b)[0] == a[0];
      assert (a + b)[1..] == a[1..] + b;
      FilterAppend(p, a[1..], b);
    }
  }

  /** Filtering keeps the order of the kept elements. */
  lemma {:induction false} FilterIsSubsequence<T>(p: T -> bool, xs: seq<T>)
    ensures IsSubsequence(Filter(p, xs), xs)
  {
    if xs != [] {
      FilterIsSubsequence(p, xs[1..]);
      var r := Filter(p, xs);
      if p(xs[0]) {
        assert r == [xs[0]] + Filter(p, xs[1..]);
        assert r[0] == xs[0] && r[1..] == Filter(p, xs[1..]);
      } else {
        assert r == Filter(p, xs[1..]);
      }
    }
  }

  /** Filtering keeps every copy of a kept element and no copy of a dropped one. */
  lemma {:induction false} FilterMultiplicity<T>(p: T -> bool, xs: seq<T>, x: T)
    ensures multiset(Filter(p, xs))[x] == if p(x) then multiset(xs)[x] else 0
  {
    if xs != [] {
      FilterMultiplicity(p, xs[1..], x);
      assert xs == [xs[0]] + xs[1..];
      assert multiset(xs) == multiset([xs[0]]) + multiset(xs[1..]);
    }
  }

  /** Two complementary filters split a sequence: their lengths add up to its length. */
  lemma {:induction false} FilterPartition<T>(p: T -> bool, q: T -> bool, xs: seq<T>)
    requires forall x :: q(x) == !p(x)
    ensures |Filter(p, xs)| + |Filter(q, xs)| == |xs|
  {
    if xs != [] {
      FilterPartition(p, q, xs[1..]);
    }
  }

  /** Filtering an already filtered sequence changes nothing. */
  lemma {:induction false} FilterIdempotent<T>(p: T -> bool, xs: seq<T>)
    ensures Filter(p, Filter(p, xs)) == Filter(p, xs)
  {
    if xs != [] {
      FilterIdempotent(p, xs[1..]);
      var rest := Filter(p, xs[1..]);
      if p(xs[0]) {
        var r := [xs[0]] + rest;
        assert Filter(p, xs) == r;
        assert r[0] == xs[0] && r[1..] == rest;
        assert Filter(p, r) == [xs[0]] + Filter(p, rest);
      } else {
        assert Filter(p, xs) == rest;
      }
    }
  }

  /** A filter that every element passes is the identity. */
  lemma {:induction false} FilterKeepsAll<T>(p: T -> bool, xs: seq<T>)
    requires forall i :: 0 <= i < |xs| ==> p(xs[i])
    ensures Filter(p, xs) == xs
  {
    if xs != [] {
      FilterKeepsAll(p, xs[1..]);
      assert xs == [xs[0]] + xs[1..];
    }
  }

  /** A filter that no element passes yields the empty sequence. */
  lemma {:induction false} FilterDropsAll<T>(p: T -> bool, xs: seq<T>)
    requires forall i :: 0 <= i < |xs| ==> !p(xs[i])
    ensures Filter(p, xs) == []
  {
    if xs != [] {
      FilterDropsAll(p, xs[1..]);
    }
  }

  /** Two sequences that agree on which positions pass, and agree at every
      passing position, filter to the same sequence. */
  lemma {:induction false} FilterPointwise<T>(p: T -> bool, xs: seq<T>, ys: seq<T>)
    requires |xs| == |ys|
    requires forall i :: 0 <= i < |xs| ==> p(xs[i]) == p(ys[i])
    requires forall i :: 0 <= i < |xs| && p(xs[i]) ==> xs[i] == ys[i]
    ensures Filter(p, xs) == Filter(p, ys)
    decreases |xs|
  {
    if xs != [] {
      FilterPointwise(p, xs[1..], ys[1..]);
    }
  }

  /** The length of a filter is the number of positions whose element passes it. */
  lemma {:induction false} FilterLengthCountsIndices<T>(p: T -> bool, xs: seq<T>)
    ensures |Filter(p, xs)| == |IndicesWhere(p, xs)|
    decreases |xs|
  {
    if xs == [] {
      assert IndicesWhere(p, xs) == {};
    } else {
      var n := |xs| - 1;
      var init, last := xs[..n], xs[n];
      assert xs == init + [last];
      FilterLengthCountsIndices(p, init);
      FilterAppend(p, init, [last]);
      assert Filter(p, [last]) == if p(last) then [last] else [] by {
        assert [last][1..] == [];
      }
      var before := IndicesWhere(p, init);
      assert n !in before;
      if p(last) {
        assert IndicesWhere(p, xs) == before + {n};
      } else {
        assert IndicesWhere(p, xs) == before;
      }
    }
  }
}
