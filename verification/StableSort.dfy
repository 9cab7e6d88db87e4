/** Python's `sorted(..., reverse=True)` on a two-part numeric key: descending and stable. */
module StableSort {
  import opened Seqs

  datatype Rank = Rank(score: real, quality: real)

  predicate AtLeast(a: Rank, b: Rank) {
    a.score > b.score || (a.score == b.score && a.quality >= b.quality)
  }

  ghost predicate Descending<T>(rank: T -> Rank, xs: seq<T>) {
    forall i, j | 0 <= i < j < |xs| :: AtLeast(rank(xs[i]), rank(xs[j]))
  }

  /** Put `x` behind everything that ranks at least as high, so equal elements keep their order. */
  function Insert<T>(rank: T -> Rank, xs: seq<T>, x: T): seq<T> {
    if xs == [] || AtLeast(rank(xs[|xs| - 1]), rank(x)) then xs + [x]
    else Insert(rank, xs[..|xs| - 1], x) + [xs[|xs| - 1]]
  }

  function SortDescending<T>(rank: T -> Rank, xs: seq<T>): seq<T> {
    if xs == [] then []
    else Insert(rank, SortDescending(rank, xs[..|xs| - 1]), xs[|xs| - 1])
  }

  /** The elements whose rank is exactly `r`, in order. */
  function OfRank<T>(rank: T -> Rank, xs: seq<T>, r: Rank): seq<T> {
    if xs == [] then []
    else OfRank(rank, xs[..|xs| - 1], r) + (if rank(xs[|xs| - 1]) == r then [xs[|xs| - 1]] else [])
  }

  /** Where `Insert` puts the new element: everything before ranks at least as high, everything after lower. */
  lemma {:induction false} InsertSplits<T>(rank: T -> Rank, xs: seq<T>, x: T) returns (p: nat)
    requires Descending(rank, xs)
    ensures p <= |xs| && Insert(rank, xs, x) == xs[..p] + [x] + xs[p..]
    ensures forall i | 0 <= i < p :: AtLeast(rank(xs[i]), rank(x))
    ensures forall i | p <= i < |xs| :: !AtLeast(rank(xs[i]), rank(x))
  {
    if xs == [] || AtLeast(rank(xs[|xs| - 1]), rank(x)) {
      p := |xs|;
    } else {
      var init, last := xs[..|xs| - 1], xs[|xs| - 1];
      p := InsertSplits(rank, init, x);
      assert xs == init + [last];
      assert init[..p] == xs[..p] && init[p..] + [last] == xs[p..];
    }
  }

  lemma {:induction false} InsertKeepsOrder<T>(rank: T -> Rank, xs: seq<T>, x: T)
    requires Descending(rank, xs)
    ensures Descending(rank, Insert(rank, xs, x))
    ensures multiset(Insert(rank, xs, x)) == multiset(xs) + multiset{x}
  {
    var p := InsertSplits(rank, xs, x);
    InsertedIsDescending(rank, xs, x, p);
    InsertedMembers(xs, x, p);
  }

  lemma InsertedMembers<T>(xs: seq<T>, x: T, p: nat)
    requires p <= |xs|
    ensures multiset(xs[..p] + [x] + xs[p..]) == multiset(xs) + multiset{x}
  {
    SplitAt(xs, p);
  }

  lemma InsertedIsDescending<T>(rank: T -> Rank, xs: seq<T>, x: T, p: nat)
    requires p <= |xs| && Descending(rank, xs)
    requires forall i | 0 <= i < p :: AtLeast(rank(xs[i]), rank(x))
    requires forall i | p <= i < |xs| :: !AtLeast(rank(xs[i]), rank(x))
    ensures Descending(rank, xs[..p] + [x] + xs[p..])
  {
  }

  lemma {:induction false} SortIsDescendingPermutation<T>(rank: T -> Rank, xs: seq<T>)
    ensures Descending(rank, SortDescending(rank, xs))
    ensures multiset(SortDescending(rank, xs)) == multiset(xs)
  {
    if xs == [] {
    } else {
      var init, last := xs[..|xs| - 1], xs[|xs| - 1];
      SortIsDescendingPermutation(rank, init);
      InsertKeepsOrder(rank, SortDescending(rank, init), last);
      assert xs == init + [last];
    }
  }

  lemma {:induction false} OfRankAppend<T>(rank: T -> Rank, xs: seq<T>, ys: seq<T>, r: Rank)
    ensures OfRank(rank, xs + ys, r) == OfRank(rank, xs, r) + OfRank(rank, ys, r)
  {
    if ys == [] {
      assert xs + ys == xs;
    } else {
      OfRankAppend(rank, xs, ys[..|ys| - 1], r);
      assert (xs + ys)[..|xs + ys| - 1] == xs + ys[..|ys| - 1];
    }
  }

  lemma {:induction false} OfRankEmpty<T>(rank: T -> Rank, xs: seq<T>, r: Rank)
    requires forall i | 0 <= i < |xs| :: rank(xs[i]) != r
    ensures OfRank(rank, xs, r) == []
  {
    if xs == [] {
    } else {
      OfRankEmpty(rank, xs[..|xs| - 1], r);
    }
  }

  lemma InsertIsStable<T>(rank: T -> Rank, xs: seq<T>, x: T, r: Rank)
    requires Descending(rank, xs)
    ensures OfRank(rank, Insert(rank, xs, x), r) == OfRank(rank, xs, r) + OfRank(rank, [x], r)
  {
    var p := InsertSplits(rank, xs, x);
    var above, below := xs[..p], xs[p..];
    assert xs == above + below;
    calc {
      OfRank(rank, above + [x] + below, r);
      { OfRankAppend(rank, above + [x], below, r); OfRankAppend(rank, above, [x], r); }
      OfRank(rank, above, r) + OfRank(rank, [x], r) + OfRank(rank, below, r);
      { if rank(x) == r { OfRankEmpty(rank, below, r); } else { OfRankEmpty(rank, [x], r); } }
      OfRank(rank, above, r) + OfRank(rank, below, r) + OfRank(rank, [x], r);
      { OfRankAppend(rank, above, below, r); }
      OfRank(rank, xs, r) + OfRank(rank, [x], r);
    }
  }

  /** Elements of equal rank keep the order they had in the input. */
  lemma {:induction false} SortIsStable<T>(rank: T -> Rank, xs: seq<T>, r: Rank)
    ensures OfRank(rank, SortDescending(rank, xs), r) == OfRank(rank, xs, r)
  {
    if xs == [] {
    } else {
      var init, x := xs[..|xs| - 1], xs[|xs| - 1];
      var s := SortDescending(rank, init);
      assert xs == init + [x];
      calc {
        OfRank(rank, SortDescending(rank, xs), r);
        OfRank(rank, Insert(rank, s, x), r);
        { SortIsDescendingPermutation(rank, init); InsertIsStable(rank, s, x, r); }
        OfRank(rank, s, r) + OfRank(rank, [x], r);
        { SortIsStable(rank, init, r); }
        OfRank(rank, init, r) + OfRank(rank, [x], r);
        { OfRankAppend(rank, init, [x], r); }
        OfRank(rank, xs, r);
      }
    }
  }

  /** Sorting a list that is already in order returns it unchanged. */
  lemma {:induction false} SortOfDescending<T>(rank: T -> Rank, xs: seq<T>)
    requires Descending(rank, xs)
    ensures SortDescending(rank, xs) == xs
  {
    if xs == [] {
    } else {
      var init, last := xs[..|xs| - 1], xs[|xs| - 1];
      DescendingInit(rank, xs);
      SortOfDescending(rank, init);
      calc {
        SortDescending(rank, xs);
        Insert(rank, init, last);
        { InsertAtEnd(rank, init, last); }
        init + [last];
        xs;
      }
    }
  }

  lemma DescendingInit<T>(rank: T -> Rank, xs: seq<T>)
    requires xs != [] && Descending(rank, xs)
    ensures Descending(rank, xs[..|xs| - 1])
    ensures |xs| == 1 || AtLeast(rank(xs[|xs| - 2]), rank(xs[|xs| - 1]))
  {
  }

  lemma InsertAtEnd<T>(rank: T -> Rank, xs: seq<T>, x: T)
    requires xs == [] || AtLeast(rank(xs[|xs| - 1]), rank(x))
    ensures Insert(rank, xs, x) == xs + [x]
  {
  }

  /** Two rankings that agree on the elements of a list sort it alike. */
  lemma {:induction false} InsertCongruence<T>(rank: T -> Rank, rank': T -> Rank, xs: seq<T>, x: T)
    requires rank(x) == rank'(x) && forall i | 0 <= i < |xs| :: rank(xs[i]) == rank'(xs[i])
    ensures Insert(rank, xs, x) == Insert(rank', xs, x)
  {
    if xs == [] {
    } else {
      InsertCongruence(rank, rank', xs[..|xs| - 1], x);
    }
  }

  lemma {:induction false} SortCongruence<T>(rank: T -> Rank, rank': T -> Rank, xs: seq<T>)
    requires forall x | x in xs :: rank(x) == rank'(x)
    ensures SortDescending(rank, xs) == SortDescending(rank', xs)
  {
    if xs == [] {
    } else {
      var init := xs[..|xs| - 1];
      var s := SortDescending(rank, init);
      SortCongruence(rank, rank', init);
      SortIsDescendingPermutation(rank, init);
      forall i | 0 <= i < |s| ensures rank(s[i]) == rank'(s[i]) {
        assert s[i] in multiset(s);
      }
      InsertCongruence(rank, rank', s, xs[|xs| - 1]);
    }
  }

  /** The sort of `xs + ys` inserts `ys` one by one into the sort of `xs`. */
  lemma SortSnoc<T>(rank: T -> Rank, xs: seq<T>, y: T)
    ensures SortDescending(rank, xs + [y]) == Insert(rank, SortDescending(rank, xs), y)
  {
    assert (xs + [y])[..|xs + [y]| - 1] == xs;
  }
}
