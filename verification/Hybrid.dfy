/** Hybrid case retrieval: rule candidates plus vector hits, scored again. Its main theorem: hits
    that carry no new information change nothing, although candidates cut off or capped away in the
    first pass come back and everything is sorted again. */
module Hybrid {
  import opened Options
  import opened StableSort
  import opened Diversity
  import opened Cases

  datatype Hit = Hit(caseId: string, vectorScore: real)

  /** `retrieve_cases_for_query` is called without a cap of its own: two cases per root cause. */
  const MAX_SAME_ROOT_CAUSE := 2

  /** Python's `xs[:n]`, where a negative `n` counts from the end. */
  function SliceTo<T>(xs: seq<T>, n: int): seq<T> {
    if n >= 0 then FirstOf(xs, n)
    else if |xs| + n >= 0 then xs[..|xs| + n] else []
  }

  function Max(a: int, b: int): int { if a >= b then a else b }

  /** `{case.case_id: case for case in cases}`: the last case of an id wins. */
  function CaseIndex(cases: seq<Case>): map<string, Case> {
    if cases == [] then map[]
    else CaseIndex(cases[..|cases| - 1])[cases[|cases| - 1].id := cases[|cases| - 1]]
  }

  function IdsOf(cases: seq<Case>): set<string> { set c | c in cases :: c.id }

  /** An insertion-ordered dictionary keyed by case id, as the sequence of its values. */
  function Put(entries: seq<Case>, c: Case): seq<Case> {
    if entries == [] then [c]
    else if entries[0].id == c.id then [c] + entries[1..]
    else [entries[0]] + Put(entries[1..], c)
  }

  function PutAll(cases: seq<Case>): seq<Case> {
    if cases == [] then [] else Put(PutAll(cases[..|cases| - 1]), cases[|cases| - 1])
  }

  function SetDefault(entries: seq<Case>, c: Case): seq<Case> {
    if c.id in IdsOf(entries) then entries else entries + [c]
  }

  datatype Pool = Pool(candidates: seq<Case>, overrides: Overrides)

  function AbsorbHit(index: map<string, Case>, pool: Pool, hit: Hit): Pool {
    if hit.caseId !in index then pool
    else
      var c := index[hit.caseId];
      Pool(SetDefault(pool.candidates, c),
           pool.overrides[c.id := Override(None, Some(hit.vectorScore), None)])
  }

  function AbsorbHits(index: map<string, Case>, pool: Pool, hits: seq<Hit>): Pool {
    if hits == [] then pool
    else AbsorbHit(index, AbsorbHits(index, pool, hits[..|hits| - 1]), hits[|hits| - 1])
  }

  function RuleCandidates(norm: Norm, library: seq<Case>, candidateLimit: int, q: Query, limit: int): seq<Case> {
    RetrieveCases(norm, library, q, Max(limit, Max(1, candidateLimit)), MAX_SAME_ROOT_CAUSE, map[])
  }

  function HybridCases(norm: Norm, library: seq<Case>, candidateLimit: int, q: Query, limit: int,
                       hits: seq<Hit>): seq<Case> {
    var rule := RuleCandidates(norm, library, candidateLimit, q, limit);
    if hits == [] then SliceTo(rule, limit)
    else
      var pool := AbsorbHits(CaseIndex(library), Pool(PutAll(rule), map[]), hits);
      RetrieveCases(norm, pool.candidates, q, limit, MAX_SAME_ROOT_CAUSE, pool.overrides)
  }

  /** The retriever of the program; `hits` is empty when there is no text to embed, no vector store,
      or either call failed. */
  class PgVectorCaseRetriever {
    const norm: Norm
    const library: seq<Case>
    const candidateLimit: int

    constructor (norm: Norm, library: seq<Case>, candidateLimit: int)
      ensures this.norm == norm && this.library == library
      ensures this.candidateLimit == Max(1, candidateLimit)
    {
      this.norm := norm;
      this.library := library;
      this.candidateLimit := Max(1, candidateLimit);
    }

    method Retrieve(q: Query, limit: int, hits: seq<Hit>) returns (r: seq<Case>)
      ensures r == HybridCases(norm, library, candidateLimit, q, limit, hits)
    {
      var rule := RetrieveCases(norm, library, q, Max(limit, Max(1, candidateLimit)), MAX_SAME_ROOT_CAUSE, map[]);
      if hits == [] {
        return SliceTo(rule, limit);
      }
      var index := CaseIndex(library);
      var candidates := PutAll(rule);
      var overrides: Overrides := map[];
      for i := 0 to |hits|
        invariant Pool(candidates, overrides) == AbsorbHits(index, Pool(PutAll(rule), map[]), hits[..i])
      {
        assert hits[..i + 1][..i] == hits[..i];
        if hits[i].caseId in index {
          var c := index[hits[i].caseId];
          candidates := SetDefault(candidates, c);
          overrides := overrides[c.id := Override(None, Some(hits[i].vectorScore), None)];
        }
      }
      assert hits[..|hits|] == hits;
      r := RetrieveCases(norm, candidates, q, limit, MAX_SAME_ROOT_CAUSE, overrides);
    }
  }

  // ---- rejected candidates stay rejected ------------------------------------------------------

  /** An element of the ranked list that the first pass dropped was either capped, or came after
      `n` kept elements; `above` is what was kept before it. */
  lemma WhyDropped<T>(key: T -> RootKey, ranked: seq<T>, n: nat, cap: int, q: nat) returns (above: seq<T>)
    requires n >= 1 && q < |ranked| && ranked[q] !in Take(Kept(key, [], ranked, cap), n)
    ensures above == FirstOf(Kept(key, [], ranked[..q], cap), n)
    ensures multiset(above) <= multiset(Take(Kept(key, [], ranked, cap), n)) && multiset(above) <= multiset(ranked[..q])
    ensures WithinCap(key, above, cap)
    ensures |above| == n || (key(ranked[q]) != {} && cap <= Count(key, above, key(ranked[q])))
                         || (key(ranked[q]) != {} && cap <= 0)
  {
    var x := ranked[q];
    var before, kept := Kept(key, [], ranked[..q], cap), Kept(key, [], ranked, cap);
    above := FirstOf(before, n);
    var here := Kept(key, ranked[..q], [x], cap);
    var later := Kept(key, ranked[..q] + [x], ranked[q + 1..], cap);
    KeptThrough(key, ranked, q, cap);
    PrefixOfTake(before, here + later, n);
    KeptSubset(key, [], ranked[..q], cap);
    assert before == above + before[|above|..];
    KeptWithinCap(key, ranked[..q], cap);
    PrefixWithinCap(key, before, |above|, cap);
    if |above| < n {
      NotTaken(before, here, later, n, x);
      KeptCount(key, [], ranked[..q], cap, key(x));
    }
  }

  lemma KeptThrough<T>(key: T -> RootKey, ranked: seq<T>, q: nat, cap: int)
    requires q < |ranked|
    ensures Kept(key, [], ranked, cap) == Kept(key, [], ranked[..q], cap)
              + (Kept(key, ranked[..q], [ranked[q]], cap) + Kept(key, ranked[..q] + [ranked[q]], ranked[q + 1..], cap))
  {
    var x, rest := ranked[q], ranked[q + 1..];
    assert ranked == ranked[..q] + ([x] + rest);
    KeptAppend(key, [], ranked[..q], [x] + rest, cap);
    assert [] + ranked[..q] == ranked[..q];
    KeptAppend(key, ranked[..q], [x], rest, cap);
  }

  lemma PrefixOfTake<T>(before: seq<T>, rest: seq<T>, n: nat)
    requires n >= 1
    ensures multiset(FirstOf(before, n)) <= multiset(Take(before + rest, n))
  {
    var above, taken := FirstOf(before, n), Take(before + rest, n);
    assert taken == above + taken[|above|..];
  }

  lemma NotTaken<T>(before: seq<T>, here: seq<T>, later: seq<T>, n: nat, x: T)
    requires |before| < n && |here| <= 1 && x !in Take(before + (here + later), n)
    ensures x !in here
  {
    var taken := Take(before + (here + later), n);
    assert taken[..|before + here|] == before + here;
    assert forall y | y in here :: y in before + here;
    assert forall y | y in before + here :: y in taken;
  }

  /** Everything that ranks at least as high as `x` sits before the place where `x` is inserted. */
  lemma HigherRanksComeFirst<T>(rank: T -> Rank, s: seq<T>, p: nat, x: T, above: seq<T>)
    requires p <= |s| && multiset(above) <= multiset(s)
    requires forall i | p <= i < |s| :: !AtLeast(rank(s[i]), rank(x))
    requires forall y | y in above :: AtLeast(rank(y), rank(x))
    ensures multiset(above) <= multiset(s[..p])
  {
    assert s == s[..p] + s[p..];
    forall y | y in multiset(above) ensures multiset(above)[y] <= multiset(s[..p])[y] {
      assert y in above && y !in s[p..];
      assert multiset(s[p..])[y] == 0;
      assert multiset(s)[y] == multiset(s[..p])[y] + multiset(s[p..])[y];
    }
  }

  /** Inserting a saturated element changes nothing of what is kept. */
  lemma SaturatedChangesNothing<T>(key: T -> RootKey, a: seq<T>, x: T, b: seq<T>, cap: int)
    requires key(x) != {} && Count(key, a, key(x)) >= cap
    ensures Kept(key, [], a + [x] + b, cap) == Kept(key, [], a + b, cap)
  {
    KeptAppend(key, [], a + [x], b, cap);
    KeptAppend(key, [], a, [x], cap);
    KeptAppend(key, [], a, b, cap);
    assert [] + (a + [x]) == a + [x] && [] + a == a;
    forall k: RootKey | k != {}
      ensures Count(key, a + [x], k) == Count(key, a, k) || (Count(key, a + [x], k) >= cap && Count(key, a, k) >= cap)
    {
      CountAppend(key, a, [x], k);
    }
    KeptCongruence(key, a + [x], a, b, cap);
  }

  /** Whatever comes behind `limit` kept elements is never taken. */
  lemma BehindLimit<T>(key: T -> RootKey, a: seq<T>, b: seq<T>, limit: nat, cap: int)
    requires 1 <= limit <= |Kept(key, [], a, cap)|
    ensures Take(Kept(key, [], a + b, cap), limit) == Kept(key, [], a, cap)[..limit]
  {
    KeptAppend(key, [], a, b, cap);
  }

  lemma DroppedStaysDropped<T>(key: T -> RootKey, rank: T -> Rank, ranked: seq<T>, n: nat, limit: nat, cap: int,
                               s: seq<T>, x: T)
    requires Descending(rank, ranked) && Descending(rank, s) && 1 <= limit <= n
    requires x in ranked && x !in Take(Kept(key, [], ranked, cap), n)
    requires multiset(Take(Kept(key, [], ranked, cap), n)) <= multiset(s)
    ensures Take(Kept(key, [], Insert(rank, s, x), cap), limit) == Take(Kept(key, [], s, cap), limit)
  {
    var q :| 0 <= q < |ranked| && ranked[q] == x;
    var above := WhyDropped(key, ranked, n, cap, q);
    forall y | y in above ensures AtLeast(rank(y), rank(x)) {
      assert y in multiset(above) && y in ranked[..q];
    }
    var p := InsertSplits(rank, s, x);
    HigherRanksComeFirst(rank, s, p, x, above);
    InsertedAtP(key, s, p, x, above, n, limit, cap);
  }

  lemma InsertedAtP<T>(key: T -> RootKey, s: seq<T>, p: nat, x: T, above: seq<T>, n: nat, limit: nat, cap: int)
    requires p <= |s| && 1 <= limit <= n && multiset(above) <= multiset(s[..p]) && WithinCap(key, above, cap)
    requires |above| == n || (key(x) != {} && cap <= Count(key, above, key(x))) || (key(x) != {} && cap <= 0)
    ensures Take(Kept(key, [], s[..p] + [x] + s[p..], cap), limit) == Take(Kept(key, [], s, cap), limit)
  {
    var a, b := s[..p], s[p..];
    assert s == a + b;
    if |above| == n {
      KeptIsLargest(key, a, above, cap);
      BehindLimit(key, a, b, limit, cap);
      assert a + [x] + b == a + ([x] + b);
      BehindLimit(key, a, [x] + b, limit, cap);
    } else {
      CountMonotone(key, above, a, key(x));
      SaturatedChangesNothing(key, a, x, b, cap);
    }
  }

  /** Sorting the first pass together with any dropped elements selects what the first pass did. */
  lemma {:induction false} ReRankIsStable<T>(key: T -> RootKey, rank: T -> Rank, ranked: seq<T>, first: seq<T>, n: nat,
                                             limit: nat, cap: int, extras: seq<T>)
    requires Descending(rank, ranked) && 1 <= limit <= n && first == Take(Kept(key, [], ranked, cap), n)
    requires forall i | 0 <= i < |extras| :: extras[i] in ranked && extras[i] !in first
    ensures Select(key, SortDescending(rank, first + extras), limit, cap) == Select(key, ranked, limit, cap)
  {
    if extras == [] {
      assert first + extras == first;
      FirstPassIsFixed(key, rank, ranked, n, cap);
      TakeTwice(Kept(key, [], ranked, cap), n, limit);
    } else {
      var init, x := extras[..|extras| - 1], extras[|extras| - 1];
      assert first + extras == first + init + [x];
      ReRankStep(key, rank, ranked, first, n, limit, cap, init, x);
      ReRankIsStable(key, rank, ranked, first, n, limit, cap, init);
    }
  }

  lemma TakeTwice<T>(xs: seq<T>, n: nat, limit: nat)
    requires 1 <= limit <= n
    ensures Take(Take(xs, n), limit) == Take(xs, limit)
  {
  }

  lemma ReRankStep<T>(key: T -> RootKey, rank: T -> Rank, ranked: seq<T>, first: seq<T>, n: nat, limit: nat, cap: int,
                      init: seq<T>, x: T)
    requires Descending(rank, ranked) && 1 <= limit <= n && first == Take(Kept(key, [], ranked, cap), n)
    requires x in ranked && x !in first
    ensures Select(key, SortDescending(rank, first + init + [x]), limit, cap)
         == Select(key, SortDescending(rank, first + init), limit, cap)
  {
    var s := SortDescending(rank, first + init);
    SortIsDescendingPermutation(rank, first + init);
    SortSnoc(rank, first + init, x);
    DroppedStaysDropped(key, rank, ranked, n, limit, cap, s, x);
  }

  lemma FirstPassIsFixed<T>(key: T -> RootKey, rank: T -> Rank, ranked: seq<T>, n: nat, cap: int)
    requires Descending(rank, ranked) && n >= 1
    ensures SortDescending(rank, Take(Kept(key, [], ranked, cap), n)) == Take(Kept(key, [], ranked, cap), n)
    ensures Kept(key, [], Take(Kept(key, [], ranked, cap), n), cap) == Take(Kept(key, [], ranked, cap), n)
  {
    var kept := Kept(key, [], ranked, cap);
    KeptIsDescending(key, rank, [], ranked, cap);
    PrefixIsSorted(rank, kept, |Take(kept, n)|);
    KeptWithinCap(key, ranked, cap);
    PrefixIsKept(key, kept, |Take(kept, n)|, cap);
    assert kept[..|Take(kept, n)|] == Take(kept, n);
  }

  lemma PrefixIsSorted<T>(rank: T -> Rank, xs: seq<T>, m: nat)
    requires m <= |xs| && Descending(rank, xs)
    ensures SortDescending(rank, xs[..m]) == xs[..m]
  {
    SortOfDescending(rank, xs[..m]);
  }

  lemma PrefixIsKept<T>(key: T -> RootKey, xs: seq<T>, m: nat, cap: int)
    requires m <= |xs| && WithinCap(key, xs, cap)
    ensures Kept(key, [], xs[..m], cap) == xs[..m]
  {
    PrefixWithinCap(key, xs, m, cap);
    assert [] + xs[..m] == xs[..m];
    KeptAll(key, [], xs[..m], cap);
  }

  lemma {:induction false} KeptIsDescending<T>(key: T -> RootKey, rank: T -> Rank, seen: seq<T>, xs: seq<T>, cap: int)
    requires Descending(rank, xs)
    ensures Descending(rank, Kept(key, seen, xs, cap))
    decreases |xs|
  {
    if xs == [] {
    } else {
      var rest := Kept(key, seen + [xs[0]], xs[1..], cap);
      KeptIsDescending(key, rank, seen + [xs[0]], xs[1..], cap);
      KeptSubset(key, seen + [xs[0]], xs[1..], cap);
      forall y | y in rest ensures AtLeast(rank(xs[0]), rank(y)) {
        assert y in multiset(rest) && y in xs[1..];
      }
    }
  }

  // ---- refinement -----------------------------------------------------------------------------

  ghost predicate DistinctIds(cases: seq<Case>) {
    forall i, j | 0 <= i < j < |cases| :: cases[i].id != cases[j].id
  }

  /** A hit adds nothing when it repeats the vector score stored with its case (after clamping). */
  ghost predicate Uninformative(library: seq<Case>, hits: seq<Hit>) {
    forall h, c | h in hits && c in library && h.caseId == c.id :: Clamp(h.vectorScore) == Clamp(c.vectorScore)
  }

  lemma {:induction false} IndexLooksUp(cases: seq<Case>, id: string)
    ensures id in CaseIndex(cases) ==> CaseIndex(cases)[id] in cases && CaseIndex(cases)[id].id == id
  {
    if cases == [] {
    } else {
      IndexLooksUp(cases[..|cases| - 1], id);
    }
  }

  lemma {:induction false} PutIsAppend(entries: seq<Case>, c: Case)
    requires c.id !in IdsOf(entries)
    ensures Put(entries, c) == entries + [c]
  {
    if entries == [] {
    } else {
      assert entries[0].id in IdsOf(entries);
      forall d | d in entries[1..] ensures d.id in IdsOf(entries) {}
      PutIsAppend(entries[1..], c);
    }
  }

  lemma {:induction false} PutAllOfDistinct(cases: seq<Case>)
    requires DistinctIds(cases)
    ensures PutAll(cases) == cases
  {
    if cases == [] {
    } else {
      var init, c := cases[..|cases| - 1], cases[|cases| - 1];
      PutAllOfDistinct(init);
      PutIsAppend(init, c);
    }
  }

  lemma {:induction false} SurvivorsSubset(norm: Norm, p: Profile, cases: seq<Case>)
    ensures multiset(Survivors(norm, p, cases)) <= multiset(cases)
  {
    if cases == [] {
    } else {
      SurvivorsSubset(norm, p, cases[1..]);
      assert cases == [cases[0]] + cases[1..];
    }
  }

  lemma DistinctOnce(cases: seq<Case>, c: Case)
    requires DistinctIds(cases)
    ensures multiset(cases)[c] <= 1
  {
    if c in cases {
      var a :| 0 <= a < |cases| && cases[a] == c;
      assert cases == cases[..a] + [c] + cases[a + 1..];
      assert c !in cases[..a] && c !in cases[a + 1..];
    }
  }

  lemma DistinctInherited(xs: seq<Case>, ys: seq<Case>)
    requires DistinctIds(ys) && multiset(xs) <= multiset(ys)
    ensures DistinctIds(xs)
  {
    forall i, j | 0 <= i < j < |xs| ensures xs[i].id != xs[j].id {
      assert xs == xs[..i] + [xs[i]] + xs[i + 1..];
      assert xs[j] in xs[i + 1..];
      assert xs[i] in multiset(xs) && xs[j] in multiset(xs);
      DistinctOnce(ys, xs[i]);
    }
  }

  lemma RuleIdsDistinct(norm: Norm, library: seq<Case>, q: Query, n: int)
    requires DistinctIds(library) && n >= 1
    ensures DistinctIds(RetrieveCases(norm, library, q, n, MAX_SAME_ROOT_CAUSE, map[]))
  {
    var r := RetrieveCases(norm, library, q, n, MAX_SAME_ROOT_CAUSE, map[]);
    RetrievedIsSelection(norm, library, q, n, MAX_SAME_ROOT_CAUSE, map[]);
    SurvivorsSubset(norm, ProfileOf(norm, q), library);
    DistinctInherited(r, library);
  }

  ghost predicate Extends(library: seq<Case>, first: seq<Case>, pool: Pool, extras: seq<Case>) {
    && pool.candidates == first + extras
    && (forall c | c in extras :: c in library && c !in first)
    && (forall c | c in library && c.id in pool.overrides ::
          && pool.overrides[c.id].keyword.None? && pool.overrides[c.id].rerank.None?
          && pool.overrides[c.id].vector.Some?
          && Clamp(pool.overrides[c.id].vector.value) == Clamp(c.vectorScore))
  }

  lemma {:induction false} HitsOnlyExtend(library: seq<Case>, first: seq<Case>, hits: seq<Hit>)
    returns (extras: seq<Case>)
    requires Uninformative(library, hits)
    ensures Extends(library, first, AbsorbHits(CaseIndex(library), Pool(first, map[]), hits), extras)
  {
    var index := CaseIndex(library);
    if hits == [] {
      extras := [];
      assert first == first + [];
    } else {
      var init, hit := hits[..|hits| - 1], hits[|hits| - 1];
      extras := HitsOnlyExtend(library, first, init);
      var pool := AbsorbHits(index, Pool(first, map[]), init);
      IndexLooksUp(library, hit.caseId);
      if hit.caseId in index {
        var c := index[hit.caseId];
        assert hit in hits;
        if c.id !in IdsOf(pool.candidates) {
          assert c !in first by {
            assert c in first ==> c in pool.candidates;
          }
          assert first + extras + [c] == first + (extras + [c]);
          extras := extras + [c];
        }
      }
    }
  }

  lemma {:induction false} SurvivorsAppend(norm: Norm, p: Profile, xs: seq<Case>, ys: seq<Case>)
    ensures Survivors(norm, p, xs + ys) == Survivors(norm, p, xs) + Survivors(norm, p, ys)
  {
    if xs == [] {
      assert xs + ys == ys;
    } else {
      assert (xs + ys)[1..] == xs[1..] + ys;
      SurvivorsAppend(norm, p, xs[1..], ys);
    }
  }

  lemma {:induction false} SurvivorsMembers(norm: Norm, p: Profile, cases: seq<Case>, c: Case)
    ensures c in Survivors(norm, p, cases) <==> c in cases && PassesHardFilters(norm, p, c)
  {
    if cases == [] {
    } else {
      SurvivorsMembers(norm, p, cases[1..], c);
      assert cases == [cases[0]] + cases[1..];
    }
  }

  lemma {:induction false} SurvivorsOfPassing(norm: Norm, p: Profile, cases: seq<Case>)
    requires forall c | c in cases :: PassesHardFilters(norm, p, c)
    ensures Survivors(norm, p, cases) == cases
  {
    if cases == [] {
    } else {
      SurvivorsOfPassing(norm, p, cases[1..]);
    }
  }

  /** Candidates of the first pass are distinct survivors of the library. */
  lemma RuleCandidatesAreSurvivors(norm: Norm, library: seq<Case>, q: Query, n: int)
    requires n >= 1
    ensures forall c | c in RetrieveCases(norm, library, q, n, MAX_SAME_ROOT_CAUSE, map[]) ::
              c in library && PassesHardFilters(norm, ProfileOf(norm, q), c)
  {
    var r := RetrieveCases(norm, library, q, n, MAX_SAME_ROOT_CAUSE, map[]);
    RetrievedIsSelection(norm, library, q, n, MAX_SAME_ROOT_CAUSE, map[]);
    forall c | c in r ensures c in library && PassesHardFilters(norm, ProfileOf(norm, q), c) {
      assert c in multiset(r);
      SurvivorsMembers(norm, ProfileOf(norm, q), library, c);
    }
  }

  lemma OverridesKeepRank(norm: Norm, p: Profile, overrides: Overrides, c: Case)
    requires c.id in overrides ==>
               && overrides[c.id].keyword.None? && overrides[c.id].rerank.None? && overrides[c.id].vector.Some?
               && Clamp(overrides[c.id].vector.value) == Clamp(c.vectorScore)
    ensures RankWith(norm, p, overrides)(c) == RankWith(norm, p, map[])(c)
  {
    if c.id in overrides {
      var o := overrides[c.id];
      assert RetrievalScore(c, o) == RetrievalScore(c, NO_OVERRIDE);
      assert ScoreCase(norm, p, c, o) == ScoreCase(norm, p, c, NO_OVERRIDE);
    }
    assert ScoreWith(norm, p, overrides)(c) == ScoreCase(norm, p, c, NO_OVERRIDE);
    assert ScoreWith(norm, p, map[])(c) == ScoreCase(norm, p, c, NO_OVERRIDE);
    assert RankWith(norm, p, overrides)(c) == Rank(ScoreCase(norm, p, c, NO_OVERRIDE), c.qualityScore);
  }

  /** With distinct ids and a limit of at least one, hits that repeat stored scores (no hits among
      them) leave the rule-only result untouched, order included. */
  lemma HybridRefinesRuleOnly(norm: Norm, library: seq<Case>, candidateLimit: int, q: Query, limit: int, hits: seq<Hit>)
    requires DistinctIds(library) && limit >= 1 && Uninformative(library, hits)
    ensures HybridCases(norm, library, candidateLimit, q, limit, hits)
         == RetrieveCases(norm, library, q, limit, MAX_SAME_ROOT_CAUSE, map[])
  {
    var p, key := ProfileOf(norm, q), RootKeyOf(norm);
    var n := Max(limit, Max(1, candidateLimit));
    var rule := RuleCandidates(norm, library, candidateLimit, q, limit);
    if hits != [] {
      RuleIdsDistinct(norm, library, q, n);
      PutAllOfDistinct(rule);
      var extras := HitsOnlyExtend(library, rule, hits);
      var pool := AbsorbHits(CaseIndex(library), Pool(rule, map[]), hits);
      RuleCandidatesAreSurvivors(norm, library, q, n);
      SecondPass(norm, library, q, n, limit, rule, pool, extras);
    }
  }

  lemma RankedIsDescending(norm: Norm, library: seq<Case>, q: Query)
    ensures Descending(RankWith(norm, ProfileOf(norm, q), map[]), Ranked(norm, library, q, map[]))
  {
    var p := ProfileOf(norm, q);
    SortIsDescendingPermutation(RankWith(norm, p, map[]), Survivors(norm, p, library));
  }

  lemma RankedMembers(norm: Norm, library: seq<Case>, q: Query, c: Case)
    requires c in library && PassesHardFilters(norm, ProfileOf(norm, q), c)
    ensures c in Ranked(norm, library, q, map[])
  {
    var p := ProfileOf(norm, q);
    var survivors := Survivors(norm, p, library);
    SurvivorsMembers(norm, p, library, c);
    SortIsDescendingPermutation(RankWith(norm, p, map[]), survivors);
    assert c in multiset(survivors);
  }

  lemma SecondPass(norm: Norm, library: seq<Case>, q: Query, n: nat, limit: nat, rule: seq<Case>, pool: Pool,
                   extras: seq<Case>)
    requires 1 <= limit <= n && rule == RetrieveCases(norm, library, q, n, MAX_SAME_ROOT_CAUSE, map[])
    requires Extends(library, rule, pool, extras)
    requires forall c | c in rule :: c in library && PassesHardFilters(norm, ProfileOf(norm, q), c)
    ensures RetrieveCases(norm, pool.candidates, q, limit, MAX_SAME_ROOT_CAUSE, pool.overrides)
         == RetrieveCases(norm, library, q, limit, MAX_SAME_ROOT_CAUSE, map[])
  {
    var p := ProfileOf(norm, q);
    var back := Survivors(norm, p, extras);
    SurvivorsAppend(norm, p, rule, extras);
    SurvivorsOfPassing(norm, p, rule);
    RankedIsDescending(norm, library, q);
    forall c | c in back ensures c in library && c !in rule && c in Ranked(norm, library, q, map[]) {
      SurvivorsMembers(norm, p, extras, c);
      RankedMembers(norm, library, q, c);
    }
    forall c | c in rule + back ensures RankWith(norm, p, pool.overrides)(c) == RankWith(norm, p, map[])(c) {
      OverridesKeepRank(norm, p, pool.overrides, c);
    }
    SortCongruence(RankWith(norm, p, pool.overrides), RankWith(norm, p, map[]), rule + back);
    ReRankIsStable(RootKeyOf(norm), RankWith(norm, p, map[]), Ranked(norm, library, q, map[]), rule, n, limit,
                   MAX_SAME_ROOT_CAUSE, back);
  }

  // ---- the rule candidates --------------------------------------------------------------------

  lemma TakeOfMore<T>(xs: seq<T>, n: nat, m: nat)
    requires 1 <= n <= m
    ensures Take(xs, n) == FirstOf(Take(xs, m), n)
  {
  }

  /** The first pass keeps the best of the capped ranking: as many as the result may hold, the candidate
      limit allows, or one, whichever is most. */
  lemma RuleCandidatesAreFirst(norm: Norm, library: seq<Case>, candidateLimit: int, q: Query, limit: int, n: nat,
                               m: nat)
    requires n in {limit, candidateLimit, 1} && n >= limit && n >= candidateLimit && n >= 1 && m >= n
    ensures RuleCandidates(norm, library, candidateLimit, q, limit)
         == FirstOf(RetrieveCases(norm, library, q, m, 2, map[]), n)
  {
    TakeOfMore(Kept(RootKeyOf(norm), [], Ranked(norm, library, q, map[]), 2), n, m);
  }

  /** Without hits the rule candidates are cut to the limit; a negative one cuts that many off the end. */
  lemma WithoutHits(norm: Norm, library: seq<Case>, candidateLimit: int, q: Query, limit: int)
    ensures var rule := RuleCandidates(norm, library, candidateLimit, q, limit);
            var kept := if limit >= 0 then limit else |rule| + limit;
            HybridCases(norm, library, candidateLimit, q, limit, [])
            == rule[..if kept < 0 then 0 else if kept < |rule| then kept else |rule|]
  {
    var rule := RuleCandidates(norm, library, candidateLimit, q, limit);
    assert rule[..|rule|] == rule && rule[..0] == [];
  }

  // ---- informative hits -----------------------------------------------------------------------

  /** The score of the last hit for an id. */
  function LastScore(hits: seq<Hit>, id: string): Option<real> {
    if hits == [] then None
    else if hits[|hits| - 1].caseId == id then Some(hits[|hits| - 1].vectorScore)
    else LastScore(hits[..|hits| - 1], id)
  }

  /** The pool holds the first candidates and every library case that a hit names; the vector score of
      a named case is replaced by that of its last hit, its other scores are not. */
  ghost predicate Gathers(library: seq<Case>, first: seq<Case>, hits: seq<Hit>, pool: Pool) {
    && (forall c :: c in pool.candidates <==> c in first || (c in library && LastScore(hits, c.id).Some?))
    && (forall c | c in library ::
          if LastScore(hits, c.id).Some?
          then c.id in pool.overrides && pool.overrides[c.id] == Override(None, LastScore(hits, c.id), None)
          else c.id !in pool.overrides)
  }

  lemma {:induction false} IndexFinds(cases: seq<Case>, c: Case)
    requires DistinctIds(cases) && c in cases
    ensures c.id in CaseIndex(cases) && CaseIndex(cases)[c.id] == c
  {
    var init, last := cases[..|cases| - 1], cases[|cases| - 1];
    if c != last {
      assert cases == init + [last];
      IndexFinds(init, c);
      assert c.id != last.id;
    }
  }

  lemma GatherOne(library: seq<Case>, first: seq<Case>, hits: seq<Hit>, pool: Pool, hit: Hit)
    requires DistinctIds(library) && (forall c | c in first :: c in library) && Gathers(library, first, hits, pool)
    ensures Gathers(library, first, hits + [hit], AbsorbHit(CaseIndex(library), pool, hit))
  {
    assert (hits + [hit])[..|hits|] == hits;
    forall c | c in library ensures c.id in CaseIndex(library) && CaseIndex(library)[c.id] == c {
      IndexFinds(library, c);
    }
    IndexLooksUp(library, hit.caseId);
  }

  lemma {:induction false} HitsGather(library: seq<Case>, first: seq<Case>, hits: seq<Hit>)
    requires DistinctIds(library) && forall c | c in first :: c in library
    ensures Gathers(library, first, hits, AbsorbHits(CaseIndex(library), Pool(first, map[]), hits))
  {
    if hits == [] {
    } else {
      var init, hit := hits[..|hits| - 1], hits[|hits| - 1];
      HitsGather(library, first, init);
      GatherOne(library, first, init, AbsorbHits(CaseIndex(library), Pool(first, map[]), init), hit);
      assert hits == init + [hit];
    }
  }

  lemma {:induction false} HitsKeepIdsDistinct(library: seq<Case>, pool: Pool, hits: seq<Hit>)
    requires DistinctIds(pool.candidates)
    ensures DistinctIds(AbsorbHits(CaseIndex(library), pool, hits).candidates)
  {
    if hits == [] {
    } else {
      var before := AbsorbHits(CaseIndex(library), pool, hits[..|hits| - 1]).candidates;
      HitsKeepIdsDistinct(library, pool, hits[..|hits| - 1]);
      forall i | 0 <= i < |before| ensures before[i].id in IdsOf(before) {
        assert before[i] in before;
      }
    }
  }

  /** With any hits at all, the result is the best selection from the gathered pool under the hits'
      scores. */
  lemma HybridIsBestOfPool(norm: Norm, library: seq<Case>, candidateLimit: int, q: Query, limit: int, hits: seq<Hit>,
                           sel: seq<Case>) returns (pool: Pool)
    requires DistinctIds(library) && limit >= 1 && hits != []
    ensures Gathers(library, RuleCandidates(norm, library, candidateLimit, q, limit), hits, pool)
    ensures DistinctIds(pool.candidates)
    ensures Selection(norm, pool.candidates, q, limit, MAX_SAME_ROOT_CAUSE,
                      HybridCases(norm, library, candidateLimit, q, limit, hits))
    ensures Selection(norm, pool.candidates, q, limit, MAX_SAME_ROOT_CAUSE, sel) ==>
              var score := ScoreWith(norm, ProfileOf(norm, q), pool.overrides);
              Total(score, sel) <= Total(score, HybridCases(norm, library, candidateLimit, q, limit, hits))
  {
    var n := Max(limit, Max(1, candidateLimit));
    var rule := RuleCandidates(norm, library, candidateLimit, q, limit);
    RuleIdsDistinct(norm, library, q, n);
    PutAllOfDistinct(rule);
    RuleIsFromLibrary(norm, library, q, n);
    HitsGather(library, rule, hits);
    HitsKeepIdsDistinct(library, Pool(rule, map[]), hits);
    pool := AbsorbHits(CaseIndex(library), Pool(rule, map[]), hits);
    RetrievedIsSelection(norm, pool.candidates, q, limit, MAX_SAME_ROOT_CAUSE, pool.overrides);
    if Selection(norm, pool.candidates, q, limit, MAX_SAME_ROOT_CAUSE, sel) {
      RetrievedIsOptimal(norm, pool.candidates, q, limit, MAX_SAME_ROOT_CAUSE, pool.overrides, sel);
    }
  }

  lemma RuleIsFromLibrary(norm: Norm, library: seq<Case>, q: Query, n: nat)
    requires n >= 1
    ensures forall c | c in RetrieveCases(norm, library, q, n, MAX_SAME_ROOT_CAUSE, map[]) :: c in library
  {
    var r := RetrieveCases(norm, library, q, n, MAX_SAME_ROOT_CAUSE, map[]);
    RetrievedIsSelection(norm, library, q, n, MAX_SAME_ROOT_CAUSE, map[]);
    SurvivorsSubset(norm, ProfileOf(norm, q), library);
    forall c | c in r ensures c in library {
      assert c in multiset(r) && c in multiset(library);
    }
  }
}
