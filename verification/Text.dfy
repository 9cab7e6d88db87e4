/** Strings as Python sees them: white space, stripping, searching and ordering by code point. */
module Text {
  import opened Seqs

  /** The characters for which `str.isspace` holds. */
  predicate IsSpace(c: char) {
    || '\U{9}' <= c <= '\U{D}'
    || '\U{1C}' <= c <= '\U{20}'
    || c == '\U{85}' || c == '\U{A0}' || c == '\U{1680}'
    || '\U{2000}' <= c <= '\U{200A}'
    || c == '\U{2028}' || c == '\U{2029}' || c == '\U{202F}' || c == '\U{205F}' || c == '\U{3000}'
  }

  function LStrip(s: string): (r: string)
    ensures |r| <= |s|
  {
    if s != [] && IsSpace(s[0]) then LStrip(s[1..]) else s
  }

  function RStrip(s: string): (r: string)
    ensures |r| <= |s|
  {
    if s != [] && IsSpace(s[|s| - 1]) then RStrip(s[..|s| - 1]) else s
  }

  function Strip(s: string): string {
    LStrip(RStrip(s))
  }

  /** `a <= b` in the order of `sorted` on strings. */
  predicate AtMost(a: string, b: string) {
    a == [] || (b != [] && (a[0] < b[0] || (a[0] == b[0] && AtMost(a[1..], b[1..]))))
  }

  /** `a` and `b` share their first `k` characters, and `a` has the smaller one next. */
  ghost predicate FirstDifference(a: string, b: string, k: nat) {
    k < |a| && k < |b| && a[..k] == b[..k] && a[k] < b[k]
  }

  lemma FirstDifferenceOfRest(a: string, b: string, k: nat)
    requires a != [] && b != [] && a[0] == b[0]
    ensures FirstDifference(a, b, k + 1) <==> FirstDifference(a[1..], b[1..], k)
  {
    if k < |a[1..]| && k < |b[1..]| {
      assert a[..k + 1] == [a[0]] + a[1..][..k] && b[..k + 1] == [b[0]] + b[1..][..k];
      assert a[1..][..k] == a[..k + 1][1..] && b[1..][..k] == b[..k + 1][1..];
    }
  }

  /** Text is ordered by its first difference, a prefix coming before what extends it. */
  lemma {:induction false} AtMostIff(a: string, b: string)
    ensures AtMost(a, b) <==> a <= b || exists k: nat :: FirstDifference(a, b, k)
    decreases |a|
  {
    if a == [] {
    } else if b == [] || a[0] != b[0] {
      assert b != [] && a[0] < b[0] ==> FirstDifference(a, b, 0);
    } else {
      AtMostIff(a[1..], b[1..]);
      assert a <= b <==> a[1..] <= b[1..];
      if k: nat :| FirstDifference(a[1..], b[1..], k) {
        FirstDifferenceOfRest(a, b, k);
      }
      if k: nat :| FirstDifference(a, b, k) {
        assert k > 0;
        FirstDifferenceOfRest(a, b, k - 1);
      }
    }
  }

  lemma {:induction false} AtMostAntisymmetric(a: string, b: string)
    requires AtMost(a, b) && AtMost(b, a)
    ensures a == b
  {
    if a == [] {
    } else {
      AtMostAntisymmetric(a[1..], b[1..]);
      assert a == [a[0]] + a[1..] && b == [b[0]] + b[1..];
    }
  }

  lemma {:induction false} AtMostTotal(a: string, b: string)
    ensures AtMost(a, b) || AtMost(b, a)
  {
    if a == [] || b == [] {
    } else {
      AtMostTotal(a[1..], b[1..]);
    }
  }

  lemma {:induction false} AtMostTransitive(a: string, b: string, c: string)
    requires AtMost(a, b) && AtMost(b, c)
    ensures AtMost(a, c)
  {
    if a == [] {
    } else if a[0] == b[0] == c[0] {
      AtMostTransitive(a[1..], b[1..], c[1..]);
    }
  }

  /** `sorted` on a list of strings. */
  function InsertSorted(xs: seq<string>, x: string): seq<string> {
    if xs == [] || AtMost(x, xs[0]) then [x] + xs else [xs[0]] + InsertSorted(xs[1..], x)
  }

  function Sorted(xs: seq<string>): seq<string> {
    if xs == [] then [] else InsertSorted(Sorted(xs[1..]), xs[0])
  }

  ghost predicate Ascending(xs: seq<string>) {
    forall i, j | 0 <= i < j < |xs| :: AtMost(xs[i], xs[j])
  }

  ghost predicate AtMostAll(x: string, xs: seq<string>) { forall j | 0 <= j < |xs| :: AtMost(x, xs[j]) }

  lemma AscendingIff(x: string, xs: seq<string>)
    ensures Ascending([x] + xs) <==> AtMostAll(x, xs) && Ascending(xs)
  {
    var all := [x] + xs;
    assert forall j | 0 <= j < |xs| :: all[j + 1] == xs[j];
    assert forall j | 1 <= j < |all| :: all[j] == xs[j - 1];
    if Ascending(all) {
      forall j | 0 <= j < |xs| ensures AtMost(x, xs[j]) {
        assert AtMost(all[0], all[j + 1]);
      }
      forall i, j | 0 <= i < j < |xs| ensures AtMost(xs[i], xs[j]) {
        assert AtMost(all[i + 1], all[j + 1]);
      }
    }
  }

  lemma {:induction false} InsertSortedMembers(xs: seq<string>, x: string)
    ensures multiset(InsertSorted(xs, x)) == multiset(xs) + multiset{x}
  {
    if xs == [] || AtMost(x, xs[0]) {
    } else {
      InsertSortedMembers(xs[1..], x);
      HeadAndRest(xs);
    }
  }

  lemma AtMostAllTransitive(x: string, y: string, xs: seq<string>)
    requires AtMost(x, y) && AtMostAll(y, xs)
    ensures AtMostAll(x, xs)
  {
    forall j | 0 <= j < |xs| ensures AtMost(x, xs[j]) {
      AtMostTransitive(x, y, xs[j]);
    }
  }

  lemma InsertKeepsBound(bound: string, xs: seq<string>, x: string)
    requires AtMostAll(bound, xs) && AtMost(bound, x)
    ensures AtMostAll(bound, InsertSorted(xs, x))
  {
    var r := InsertSorted(xs, x);
    InsertSortedMembers(xs, x);
    forall j | 0 <= j < |r| ensures AtMost(bound, r[j]) {
      assert r[j] in multiset(r);
    }
  }

  lemma {:induction false} InsertSortedCorrect(xs: seq<string>, x: string)
    requires Ascending(xs)
    ensures Ascending(InsertSorted(xs, x)) && multiset(InsertSorted(xs, x)) == multiset(xs) + multiset{x}
  {
    InsertSortedMembers(xs, x);
    if xs == [] {
    } else {
      HeadAndRest(xs);
      AscendingIff(xs[0], xs[1..]);
      if AtMost(x, xs[0]) {
        AtMostAllTransitive(x, xs[0], xs[1..]);
        AtMostAllOfCons(x, xs);
        AscendingIff(x, xs);
      } else {
        AtMostTotal(x, xs[0]);
        InsertSortedCorrect(xs[1..], x);
        InsertKeepsBound(xs[0], xs[1..], x);
        AscendingIff(xs[0], InsertSorted(xs[1..], x));
      }
    }
  }

  lemma AtMostAllOfCons(x: string, xs: seq<string>)
    requires xs != [] && AtMost(x, xs[0]) && AtMostAll(x, xs[1..])
    ensures AtMostAll(x, xs)
  {
    forall j | 1 <= j < |xs| ensures AtMost(x, xs[j]) {
      assert xs[j] == xs[1..][j - 1];
    }
  }

  lemma {:induction false} SortedCorrect(xs: seq<string>)
    ensures Ascending(Sorted(xs)) && multiset(Sorted(xs)) == multiset(xs)
  {
    if xs == [] {
    } else {
      SortedCorrect(xs[1..]);
      InsertSortedCorrect(Sorted(xs[1..]), xs[0]);
      HeadAndRest(xs);
    }
  }

  lemma SortedMembers(xs: seq<string>)
    ensures forall x :: x in Sorted(xs) <==> x in xs
  {
    SortedCorrect(xs);
    forall x ensures x in Sorted(xs) <==> x in xs {
      assert x in Sorted(xs) <==> x in multiset(Sorted(xs));
    }
  }

  ghost predicate Distinct(xs: seq<string>) {
    forall i, j | 0 <= i < j < |xs| :: xs[i] != xs[j]
  }

  lemma DistinctIffOnce(xs: seq<string>)
    ensures Distinct(xs) <==> forall x | x in multiset(xs) :: multiset(xs)[x] == 1
  {
    if Distinct(xs) {
      forall x | x in multiset(xs) ensures multiset(xs)[x] == 1 {
        var k :| 0 <= k < |xs| && xs[k] == x;
        CountAround(xs, k);
        assert x !in xs[..k] && x !in xs[k + 1..];
      }
    } else {
      var i, j :| 0 <= i < j < |xs| && xs[i] == xs[j];
      CountAround(xs, i);
      assert xs[i + 1..][j - i - 1] == xs[i];
      assert xs[i] in multiset(xs);
    }
  }

  lemma CountAround(xs: seq<string>, k: nat)
    requires k < |xs|
    ensures multiset(xs)[xs[k]] == multiset(xs[..k])[xs[k]] + 1 + multiset(xs[k + 1..])[xs[k]]
  {
    SplitAt(xs, k);
    HeadAndRest(xs[k..]);
    assert xs[k..][1..] == xs[k + 1..];
  }

  lemma SortedKeepsDistinct(xs: seq<string>)
    requires Distinct(xs)
    ensures Distinct(Sorted(xs))
  {
    SortedCorrect(xs);
    DistinctIffOnce(xs);
    DistinctIffOnce(Sorted(xs));
  }

  /** The least element of a set of strings. */
  ghost predicate IsLeast(x: string, s: set<string>) {
    x in s && forall y | y in s :: AtMost(x, y)
  }
}
