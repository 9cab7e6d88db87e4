/** The greedy pass of case retrieval: at most `cap` cases per non-empty root-cause set, at most
    `limit` in all. `Select` says declaratively what is kept; `DedupeByRootCause` is the loop. */
module Diversity {
  import opened StableSort

  type RootKey = set<string>

  function Count<T>(key: T -> RootKey, xs: seq<T>, k: RootKey): (n: nat)
    ensures n <= |xs|
  {
    if xs == [] then 0 else (if key(xs[0]) == k then 1 else 0) + Count(key, xs[1..], k)
  }

  /** The elements of `xs` kept when `seen` came before them: those without a root cause, and those
      whose root cause occurred fewer than `cap` times before, counting kept and dropped alike. */
  function Kept<T>(key: T -> RootKey, seen: seq<T>, xs: seq<T>, cap: int): (r: seq<T>)
    ensures |r| <= |xs|
    decreases |xs|
  {
    if xs == [] then []
    else
      var x := xs[0];
      var rest := Kept(key, seen + [x], xs[1..], cap);
      if key(x) == {} || Count(key, seen, key(x)) < cap then [x] + rest else rest
  }

  /** The loop tests the limit only after it has appended, so a limit below one still keeps one. */
  function Take<T>(xs: seq<T>, limit: int): seq<T> {
    var n := if limit >= 1 then limit else 1;
    if n <= |xs| then xs[..n] else xs
  }

  function Select<T>(key: T -> RootKey, xs: seq<T>, limit: int, cap: int): seq<T> {
    Take(Kept(key, [], xs, cap), limit)
  }

  // ---- counting -------------------------------------------------------------------------------

  lemma {:induction false} CountAppend<T>(key: T -> RootKey, xs: seq<T>, ys: seq<T>, k: RootKey)
    ensures Count(key, xs + ys, k) == Count(key, xs, k) + Count(key, ys, k)
  {
    if xs == [] {
      assert xs + ys == ys;
    } else {
      assert (xs + ys)[1..] == xs[1..] + ys;
      CountAppend(key, xs[1..], ys, k);
    }
  }

  lemma {:induction false} CountPositive<T>(key: T -> RootKey, xs: seq<T>, i: nat)
    requires i < |xs|
    ensures Count(key, xs, key(xs[i])) > 0
  {
    if i == 0 {
    } else {
      CountPositive(key, xs[1..], i - 1);
    }
  }

  lemma {:induction false} CountFinds<T>(key: T -> RootKey, xs: seq<T>, k: RootKey) returns (i: nat)
    requires Count(key, xs, k) > 0
    ensures i < |xs| && key(xs[i]) == k
  {
    if key(xs[0]) == k {
      i := 0;
    } else {
      i := CountFinds(key, xs[1..], k);
      i := i + 1;
    }
  }

  function Without<T>(xs: seq<T>, i: nat): seq<T>
    requires i < |xs|
  {
    xs[..i] + xs[i + 1..]
  }

  lemma CountWithout<T>(key: T -> RootKey, xs: seq<T>, i: nat, k: RootKey)
    requires i < |xs|
    ensures Count(key, xs, k) == Count(key, Without(xs, i), k) + (if key(xs[i]) == k then 1 else 0)
  {
    assert xs == xs[..i] + ([xs[i]] + xs[i + 1..]);
    CountAppend(key, xs[..i], [xs[i]] + xs[i + 1..], k);
    CountAppend(key, [xs[i]], xs[i + 1..], k);
    CountAppend(key, xs[..i], xs[i + 1..], k);
  }

  lemma MultisetWithout<T>(xs: seq<T>, i: nat)
    requires i < |xs|
    ensures multiset(xs) == multiset(Without(xs, i)) + multiset{xs[i]}
  {
    assert xs == xs[..i] + ([xs[i]] + xs[i + 1..]);
  }

  lemma MultisetCancel<T>(a: multiset<T>, b: multiset<T>, x: T)
    requires a + multiset{x} <= b + multiset{x}
    ensures a <= b
  {
    forall y | y in a ensures a[y] <= b[y] {
      assert (a + multiset{x})[y] <= (b + multiset{x})[y];
    }
  }

  /** Counts depend only on the multiset of elements, monotonically. */
  lemma {:induction false} CountMonotone<T>(key: T -> RootKey, xs: seq<T>, ys: seq<T>, k: RootKey)
    requires multiset(xs) <= multiset(ys)
    ensures Count(key, xs, k) <= Count(key, ys, k)
    decreases |xs|
  {
    if xs == [] {
    } else {
      var x := xs[0];
      assert x in multiset(xs);
      var j :| 0 <= j < |ys| && ys[j] == x;
      MultisetWithout(ys, j);
      MultisetWithout(xs, 0);
      assert Without(xs, 0) == xs[1..];
      MultisetCancel(multiset(xs[1..]), multiset(Without(ys, j)), x);
      CountWithout(key, ys, j, k);
      CountMonotone(key, xs[1..], Without(ys, j), k);
    }
  }

  // ---- structure of Kept ----------------------------------------------------------------------

  /** `Kept` can be computed on a prefix first. */
  lemma {:induction false} KeptAppend<T>(key: T -> RootKey, seen: seq<T>, xs: seq<T>, ys: seq<T>, cap: int)
    ensures Kept(key, seen, xs + ys, cap) == Kept(key, seen, xs, cap) + Kept(key, seen + xs, ys, cap)
    decreases |xs|
  {
    if xs == [] {
      assert xs + ys == ys && seen + xs == seen;
    } else {
      assert (xs + ys)[1..] == xs[1..] + ys;
      assert seen + [xs[0]] + xs[1..] == seen + xs;
      KeptAppend(key, seen + [xs[0]], xs[1..], ys, cap);
    }
  }

  /** Of each root cause exactly the first `cap` occurrences are kept. */
  lemma {:induction false} KeptCount<T>(key: T -> RootKey, seen: seq<T>, xs: seq<T>, cap: int, k: RootKey)
    requires k != {}
    ensures var free := cap - Count(key, seen, k);
            Count(key, Kept(key, seen, xs, cap), k)
              == (if free <= 0 then 0 else if free <= Count(key, xs, k) then free else Count(key, xs, k))
    decreases |xs|
  {
    if xs == [] {
    } else {
      var x := xs[0];
      KeptCount(key, seen + [x], xs[1..], cap, k);
      CountAppend(key, seen, [x], k);
      if key(x) == {} || Count(key, seen, key(x)) < cap {
        CountAppend(key, [x], Kept(key, seen + [x], xs[1..], cap), k);
      }
    }
  }

  lemma {:induction false} KeptSubset<T>(key: T -> RootKey, seen: seq<T>, xs: seq<T>, cap: int)
    ensures multiset(Kept(key, seen, xs, cap)) <= multiset(xs)
    decreases |xs|
  {
    if xs == [] {
    } else {
      KeptSubset(key, seen + [xs[0]], xs[1..], cap);
      assert xs == [xs[0]] + xs[1..];
    }
  }

  /** Two histories decide alike when they agree on every root cause that is not already exhausted. */
  ghost predicate SameCaps<T>(key: T -> RootKey, a: seq<T>, b: seq<T>, cap: int) {
    forall k: RootKey | k != {} ::
      Count(key, a, k) == Count(key, b, k) || (Count(key, a, k) >= cap && Count(key, b, k) >= cap)
  }

  lemma {:induction false} KeptCongruence<T>(key: T -> RootKey, a: seq<T>, b: seq<T>, xs: seq<T>, cap: int)
    requires SameCaps(key, a, b, cap)
    ensures Kept(key, a, xs, cap) == Kept(key, b, xs, cap)
    decreases |xs|
  {
    if xs == [] {
    } else {
      forall k: RootKey | k != {}
        ensures Count(key, a + [xs[0]], k) == Count(key, b + [xs[0]], k)
             || (Count(key, a + [xs[0]], k) >= cap && Count(key, b + [xs[0]], k) >= cap)
      {
        CountAppend(key, a, [xs[0]], k);
        CountAppend(key, b, [xs[0]], k);
      }
      KeptCongruence(key, a + [xs[0]], b + [xs[0]], xs[1..], cap);
    }
  }

  /** What is kept could be kept again: no root cause is over its cap. */
  ghost predicate WithinCap<T>(key: T -> RootKey, xs: seq<T>, cap: int) {
    forall k: RootKey | k != {} && Count(key, xs, k) > 0 :: Count(key, xs, k) <= cap
  }

  lemma KeptWithinCap<T>(key: T -> RootKey, xs: seq<T>, cap: int)
    ensures WithinCap(key, Kept(key, [], xs, cap), cap)
  {
    forall k: RootKey | k != {} && Count(key, Kept(key, [], xs, cap), k) > 0
      ensures Count(key, Kept(key, [], xs, cap), k) <= cap
    {
      KeptCount(key, [], xs, cap, k);
    }
  }

  lemma {:induction false} KeptAll<T>(key: T -> RootKey, seen: seq<T>, xs: seq<T>, cap: int)
    requires WithinCap(key, seen + xs, cap)
    ensures Kept(key, seen, xs, cap) == xs
    decreases |xs|
  {
    if xs == [] {
    } else {
      var x := xs[0];
      assert seen + xs == seen + [x] + xs[1..];
      CountAppend(key, seen, xs, key(x));
      CountPositive(key, xs, 0);
      KeptAll(key, seen + [x], xs[1..], cap);
    }
  }

  // ---- the loop -------------------------------------------------------------------------------

  /** The dictionary holds the number of selected cases of each root cause met so far. */
  ghost predicate Tallies<T>(key: T -> RootKey, counts: map<RootKey, int>, selected: seq<T>) {
    forall k: RootKey | k != {} :: (if k in counts then counts[k] else 0) == Count(key, selected, k)
  }

  method DedupeByRootCause<T>(key: T -> RootKey, cases: seq<T>, limit: int, cap: int)
    returns (selected: seq<T>)
    ensures selected == Select(key, cases, limit, cap)
  {
    selected := [];
    var counts: map<RootKey, int> := map[];
    var i := 0;
    while i < |cases|
      invariant i <= |cases|
      invariant selected == Kept(key, [], cases[..i], cap)
      invariant |selected| < (if limit >= 1 then limit else 1)
      invariant Tallies(key, counts, selected)
    {
      var c := cases[i];
      var root := key(c);
      KeptStep(key, cases, i, cap);
      i := i + 1;
      if root != {} {
        var count := if root in counts then counts[root] else 0;
        KeptCount(key, [], cases[..i - 1], cap, root);
        if count >= cap {
          continue;
        }
        counts := counts[root := count + 1];
      }
      TalliesStep(key, counts, selected, c);
      selected := selected + [c];
      if |selected| >= limit {
        TakeFromPrefix(key, cases, i, limit, cap);
        return;
      }
    }
    assert cases[..i] == cases;
  }

  lemma TalliesStep<T>(key: T -> RootKey, counts: map<RootKey, int>, selected: seq<T>, c: T)
    requires forall k: RootKey | k != {} && k != key(c) ::
               (if k in counts then counts[k] else 0) == Count(key, selected, k)
    requires key(c) != {} ==> key(c) in counts && counts[key(c)] == Count(key, selected, key(c)) + 1
    ensures Tallies(key, counts, selected + [c])
  {
    forall k: RootKey | k != {}
      ensures (if k in counts then counts[k] else 0) == Count(key, selected + [c], k)
    {
      CountAppend(key, selected, [c], k);
    }
  }

  /** Once the limit is reached the remaining cases cannot matter. */
  lemma TakeFromPrefix<T>(key: T -> RootKey, cases: seq<T>, i: nat, limit: int, cap: int)
    requires i <= |cases|
    requires |Kept(key, [], cases[..i], cap)| == if limit >= 1 then limit else 1
    ensures Select(key, cases, limit, cap) == Kept(key, [], cases[..i], cap)
  {
    assert cases == cases[..i] + cases[i..];
    KeptAppend(key, [], cases[..i], cases[i..], cap);
  }

  lemma KeptStep<T>(key: T -> RootKey, cases: seq<T>, i: nat, cap: int)
    requires i < |cases|
    ensures Kept(key, [], cases[..i + 1], cap)
         == Kept(key, [], cases[..i], cap)
            + (if key(cases[i]) == {} || Count(key, cases[..i], key(cases[i])) < cap then [cases[i]] else [])
  {
    assert cases[..i + 1] == cases[..i] + [cases[i]];
    KeptAppend(key, [], cases[..i], [cases[i]], cap);
    assert [] + cases[..i] == cases[..i];
  }

  // ---- optimality -----------------------------------------------------------------------------

  function Total<T>(w: T -> real, xs: seq<T>): real {
    if xs == [] then 0.0 else w(xs[0]) + Total(w, xs[1..])
  }

  lemma {:induction false} TotalAppend<T>(w: T -> real, xs: seq<T>, ys: seq<T>)
    ensures Total(w, xs + ys) == Total(w, xs) + Total(w, ys)
  {
    if xs == [] {
      assert xs + ys == ys;
    } else {
      assert (xs + ys)[1..] == xs[1..] + ys;
      TotalAppend(w, xs[1..], ys);
    }
  }

  lemma TotalWithout<T>(w: T -> real, xs: seq<T>, i: nat)
    requires i < |xs|
    ensures Total(w, xs) == Total(w, Without(xs, i)) + w(xs[i])
  {
    var before, x, after := xs[..i], xs[i], xs[i + 1..];
    assert xs == before + ([x] + after);
    TotalAppend(w, before, [x] + after);
    assert ([x] + after)[1..] == after;
    TotalAppend(w, before, after);
  }

  lemma {:induction false} TotalNonNegative<T>(w: T -> real, xs: seq<T>)
    requires forall x | x in xs :: w(x) >= 0.0
    ensures Total(w, xs) >= 0.0
  {
    if xs == [] {
    } else {
      TotalNonNegative(w, xs[1..]);
    }
  }

  /** `sel` still fits under the caps after the elements of `seen` have used their share. */
  ghost predicate Fits<T>(key: T -> RootKey, seen: seq<T>, sel: seq<T>, cap: int) {
    forall k: RootKey | k != {} && Count(key, sel, k) > 0 :: Count(key, sel, k) + Count(key, seen, k) <= cap
  }

  ghost predicate ByWeight<T>(w: T -> real, xs: seq<T>) {
    && (forall x | x in xs :: w(x) >= 0.0)
    && (forall i, j | 0 <= i < j < |xs| :: w(xs[i]) >= w(xs[j]))
  }

  ghost predicate Candidate<T>(key: T -> RootKey, seen: seq<T>, xs: seq<T>, sel: seq<T>, room: nat, cap: int) {
    multiset(sel) <= multiset(xs) && |sel| <= room && Fits(key, seen, sel, cap)
  }

  function FirstOf<T>(xs: seq<T>, n: nat): seq<T> {
    if n <= |xs| then xs[..n] else xs
  }

  /** Dropped head: no candidate can contain it, so candidates live in the rest. */
  lemma SkipStep<T>(key: T -> RootKey, seen: seq<T>, xs: seq<T>, sel: seq<T>, room: nat, cap: int)
    requires xs != [] && key(xs[0]) != {} && Count(key, seen, key(xs[0])) >= cap
    requires Candidate(key, seen, xs, sel, room, cap)
    ensures Candidate(key, seen + [xs[0]], xs[1..], sel, room, cap)
  {
    var x := xs[0];
    if x in sel {
      var i :| 0 <= i < |sel| && sel[i] == x;
      CountPositive(key, sel, i);
      assert false;
    }
    assert xs == [x] + xs[1..];
    forall k: RootKey | k != {} && Count(key, sel, k) > 0
      ensures Count(key, sel, k) + Count(key, seen + [x], k) <= cap
    {
      CountAppend(key, seen, [x], k);
    }
  }

  /** Kept head: which element of the candidate it replaces. */
  lemma Exchange<T>(key: T -> RootKey, xs: seq<T>, sel: seq<T>) returns (i: nat)
    requires xs != [] && sel != [] && multiset(sel) <= multiset(xs)
    ensures i < |sel| && multiset(Without(sel, i)) <= multiset(xs[1..])
    ensures key(sel[i]) == key(xs[0]) || Count(key, sel, key(xs[0])) == 0
    ensures sel[i] in xs
  {
    var x := xs[0];
    assert xs == [x] + xs[1..];
    if x in sel {
      i :| 0 <= i < |sel| && sel[i] == x;
    } else if Count(key, sel, key(x)) > 0 {
      i := CountFinds(key, sel, key(x));
    } else {
      i := 0;
    }
    MultisetWithout(sel, i);
    assert multiset(xs) == multiset{x} + multiset(xs[1..]);
    if x in sel {
      MultisetCancel(multiset(Without(sel, i)), multiset(xs[1..]), x);
    } else {
      forall y | y in multiset(Without(sel, i)) ensures multiset(Without(sel, i))[y] <= multiset(xs[1..])[y] {
        assert y in multiset(sel) && multiset(sel)[y] <= multiset(xs)[y];
      }
    }
    assert sel[i] in multiset(sel);
  }

  lemma TakeStep<T>(key: T -> RootKey, seen: seq<T>, xs: seq<T>, sel: seq<T>, room: nat, cap: int, i: nat)
    requires xs != [] && i < |sel| && multiset(Without(sel, i)) <= multiset(xs[1..])
    requires key(sel[i]) == key(xs[0]) || Count(key, sel, key(xs[0])) == 0
    requires Candidate(key, seen, xs, sel, room, cap)
    ensures room >= 1 && Candidate(key, seen + [xs[0]], xs[1..], Without(sel, i), room - 1, cap)
  {
    forall k: RootKey | k != {} && Count(key, Without(sel, i), k) > 0
      ensures Count(key, Without(sel, i), k) + Count(key, seen + [xs[0]], k) <= cap
    {
      CountAppend(key, seen, [xs[0]], k);
      CountWithout(key, sel, i, k);
    }
  }

  lemma NothingToSelect<T>(key: T -> RootKey, w: T -> real, seen: seq<T>, xs: seq<T>, sel: seq<T>, room: nat, cap: int)
    requires ByWeight(w, xs) && Candidate(key, seen, xs, sel, room, cap) && (sel == [] || xs == [])
    ensures Total(w, sel) <= Total(w, FirstOf(Kept(key, seen, xs, cap), room))
  {
    var kept := Kept(key, seen, xs, cap);
    assert |multiset(sel)| == |sel| && |multiset(xs)| == |xs|;
    KeptSubset(key, seen, xs, cap);
    forall x | x in FirstOf(kept, room) ensures w(x) >= 0.0 {
      assert x in kept && x in multiset(kept);
    }
    TotalNonNegative(w, FirstOf(kept, room));
  }

  /** Exchanging an element for one that is at least as heavy, with the best choice for the rest. */
  lemma TakingIsBest<T>(w: T -> real, sel: seq<T>, i: nat, x: T, rest: seq<T>, room: nat)
    requires i < |sel| && room >= 1 && w(sel[i]) <= w(x)
    requires Total(w, Without(sel, i)) <= Total(w, FirstOf(rest, room - 1))
    ensures Total(w, sel) <= Total(w, FirstOf([x] + rest, room))
  {
    TotalWithout(w, sel, i);
    assert FirstOf([x] + rest, room) == [x] + FirstOf(rest, room - 1);
    TotalAppend(w, [x], FirstOf(rest, room - 1));
    assert Total(w, [x]) == w(x);
  }

  /** Whatever `room` and caps allow, nothing weighs more than the first `room` kept elements. */
  lemma {:induction false} GreedyIsBest<T>(key: T -> RootKey, w: T -> real, seen: seq<T>, xs: seq<T>,
                                           sel: seq<T>, room: nat, cap: int)
    requires ByWeight(w, xs) && Candidate(key, seen, xs, sel, room, cap)
    ensures Total(w, sel) <= Total(w, FirstOf(Kept(key, seen, xs, cap), room))
    decreases |xs|
  {
    if sel == [] || xs == [] {
      NothingToSelect(key, w, seen, xs, sel, room, cap);
    } else {
      var x := xs[0];
      var rest := Kept(key, seen + [x], xs[1..], cap);
      if key(x) == {} || Count(key, seen, key(x)) < cap {
        var i := Exchange(key, xs, sel);
        TakeStep(key, seen, xs, sel, room, cap, i);
        GreedyIsBest(key, w, seen + [x], xs[1..], Without(sel, i), room - 1, cap);
        HeadIsHeaviest(w, xs, sel[i]);
        TakingIsBest(w, sel, i, x, rest, room);
      } else {
        SkipStep(key, seen, xs, sel, room, cap);
        GreedyIsBest(key, w, seen + [x], xs[1..], sel, room, cap);
      }
    }
  }

  lemma HeadIsHeaviest<T>(w: T -> real, xs: seq<T>, y: T)
    requires xs != [] && ByWeight(w, xs) && y in xs
    ensures w(xs[0]) >= w(y)
  {
    var j :| 0 <= j < |xs| && xs[j] == y;
  }

  /** No feasible selection has more members than `Kept`: the greedy pass is a basis. */
  lemma KeptIsLargest<T>(key: T -> RootKey, xs: seq<T>, sel: seq<T>, cap: int)
    requires multiset(sel) <= multiset(xs) && WithinCap(key, sel, cap)
    ensures |sel| <= |Kept(key, [], xs, cap)|
  {
    var one := (x: T) => 1.0;
    GreedyIsBest(key, one, [], xs, sel, |sel|, cap);
    TotalOfOnes(sel);
    TotalOfOnes(FirstOf(Kept(key, [], xs, cap), |sel|));
  }

  lemma {:induction false} TotalOfOnes<T>(xs: seq<T>)
    ensures Total((x: T) => 1.0, xs) == |xs| as real
  {
    if xs == [] {
    } else {
      TotalOfOnes(xs[1..]);
    }
  }

  lemma PrefixWithinCap<T>(key: T -> RootKey, xs: seq<T>, n: nat, cap: int)
    requires n <= |xs| && WithinCap(key, xs, cap)
    ensures WithinCap(key, xs[..n], cap)
  {
    forall k: RootKey | k != {} && Count(key, xs[..n], k) > 0 ensures Count(key, xs[..n], k) <= cap {
      assert xs == xs[..n] + xs[n..];
      CountAppend(key, xs[..n], xs[n..], k);
    }
  }

  /** What is selected stays within the caps and the limit. */
  lemma SelectIsFeasible<T>(key: T -> RootKey, xs: seq<T>, limit: int, cap: int)
    requires limit >= 1
    ensures multiset(Select(key, xs, limit, cap)) <= multiset(xs)
    ensures WithinCap(key, Select(key, xs, limit, cap), cap)
    ensures |Select(key, xs, limit, cap)| <= limit
  {
    var kept := Kept(key, [], xs, cap);
    var taken := Take(kept, limit);
    KeptSubset(key, [], xs, cap);
    KeptWithinCap(key, xs, cap);
    PrefixWithinCap(key, kept, |taken|, cap);
    assert kept == kept[..|taken|] + kept[|taken|..];
  }

  /** The cap on the number of results holds exactly when the limit is at least one, or the limit
      is zero and no case is admissible: otherwise the loop overshoots by one. */
  lemma LimitIsRespectedIff<T>(key: T -> RootKey, xs: seq<T>, limit: int, cap: int)
    ensures |Select(key, xs, limit, cap)| <= limit
       <==> limit >= 1 || (limit == 0 && forall x | x in xs :: key(x) != {} && cap <= 0)
  {
    if limit == 0 {
      KeptNothingIff(key, [], xs, cap);
    }
  }

  lemma {:induction false} KeptNothingIff<T>(key: T -> RootKey, seen: seq<T>, xs: seq<T>, cap: int)
    requires cap > 0 ==> seen == []
    ensures Kept(key, seen, xs, cap) == [] <==> forall x | x in xs :: key(x) != {} && cap <= 0
    decreases |xs|
  {
    if xs == [] {
    } else {
      var x := xs[0];
      if key(x) != {} && cap <= 0 {
        KeptNothingIff(key, seen + [x], xs[1..], cap);
        assert forall y :: y in xs <==> y == x || y in xs[1..];
      } else {
        assert x in xs;
      }
    }
  }
}
