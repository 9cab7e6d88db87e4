/** Optimization cases, the hard filter and the weighted score of case retrieval.
    Normalising a tag (strip, lower, blanks to underscores) is the parameter `norm` throughout. */
module Cases {
  import opened Options
  import opened StableSort
  import opened Diversity

  type Norm = string -> string

  datatype Case = Case(
    id: string,
    dbType: string,
    versionMajor: Option<string>,
    sqlType: Option<string>,
    workloadType: Option<string>,
    scenarioTags: seq<string>,
    planSymptomTags: seq<string>,
    rootCauseTags: seq<string>,
    tablesCountBucket: Option<string>,
    estimatedRowsBucket: Option<string>,
    keywordScore: real,
    vectorScore: real,
    rerankScore: real,
    qualityScore: real)

  datatype Query = Query(
    dbType: string,
    scenarioTags: seq<string>,
    versionMajor: Option<string>,
    sqlType: Option<string>,
    planSymptomTags: seq<string>,
    rootCauseTags: seq<string>,
    estimatedRowsBucket: Option<string>,
    tablesCountBucket: Option<string>,
    workloadType: Option<string>)

  datatype Override = Override(keyword: Option<real>, vector: Option<real>, rerank: Option<real>)

  datatype Profile = Profile(
    dbType: string,
    versionMajor: Option<string>,
    sqlType: Option<string>,
    scenarioTags: set<string>,
    planSymptomTags: set<string>,
    rootCauseTags: set<string>,
    estimatedRowsBucket: Option<string>,
    tablesCountBucket: Option<string>,
    workloadType: Option<string>)

  const SOFT_SCENARIO_TAGS: set<string> := {
    "aggregate", "any_all_subquery", "delete_all", "derived_table", "distinct", "exists_subquery",
    "function_predicate", "having", "in_subquery", "left_join", "max_min_subquery", "not_in_subquery",
    "null_check", "or_predicate", "projection", "where_filter", "equality_predicate", "range_predicate"
  }

  function NormalizeSet(norm: Norm, values: seq<string>): set<string> {
    set v | v in values && norm(v) != "" :: norm(v)
  }

  function NormalizeOptional(norm: Norm, value: Option<string>): Option<string> {
    var normalized := norm(if value.Some? then value.value else "");
    if normalized == "" then None else Some(normalized)
  }

  function ProfileOf(norm: Norm, q: Query): Profile {
    Profile(norm(q.dbType), NormalizeOptional(norm, q.versionMajor), NormalizeOptional(norm, q.sqlType),
            NormalizeSet(norm, q.scenarioTags), NormalizeSet(norm, q.planSymptomTags),
            NormalizeSet(norm, q.rootCauseTags), NormalizeOptional(norm, q.estimatedRowsBucket),
            NormalizeOptional(norm, q.tablesCountBucket), NormalizeOptional(norm, q.workloadType))
  }

  function RootKeyOf(norm: Norm): Case -> RootKey {
    (c: Case) => NormalizeSet(norm, c.rootCauseTags)
  }

  // ---- hard filter ----------------------------------------------------------------------------

  predicate IsHardTag(tag: string) { tag != "" && tag !in SOFT_SCENARIO_TAGS }

  /** The tags that a case must share with the query. */
  function HardTags(norm: Norm, values: set<string>): set<string> {
    set v | v in values && IsHardTag(norm(v)) :: norm(v)
  }

  /** Each hard tag once, in order of first appearance. */
  function HardTagList(norm: Norm, values: seq<string>): seq<string> {
    if values == [] then []
    else
      var before, tag := HardTagList(norm, values[..|values| - 1]), norm(values[|values| - 1]);
      if IsHardTag(tag) && tag !in before then before + [tag] else before
  }

  method HardFilterScenarioTags(norm: Norm, values: seq<string>) returns (tags: seq<string>)
    ensures tags == HardTagList(norm, values)
  {
    tags := [];
    for i := 0 to |values|
      invariant tags == HardTagList(norm, values[..i])
    {
      var tag := norm(values[i]);
      assert values[..i + 1][..i] == values[..i];
      if tag != "" && tag !in SOFT_SCENARIO_TAGS && tag !in tags {
        tags := tags + [tag];
      }
    }
    assert values[..|values|] == values;
  }

  /** The list holds exactly the hard tags, without repeats. */
  lemma {:induction false} HardTagListIsExact(norm: Norm, values: seq<string>)
    ensures forall t :: t in HardTagList(norm, values) <==> t in HardTags(norm, set v | v in values)
    ensures forall i, j | 0 <= i < j < |HardTagList(norm, values)| ::
              HardTagList(norm, values)[i] != HardTagList(norm, values)[j]
  {
    if values == [] {
    } else {
      var init, last := values[..|values| - 1], values[|values| - 1];
      HardTagListIsExact(norm, init);
      assert values == init + [last];
    }
  }

  predicate Conflicts(wanted: Option<string>, actual: Option<string>) {
    wanted.Some? && actual.Some? && actual != wanted
  }

  predicate PassesHardFilters(norm: Norm, p: Profile, c: Case) {
    var actualTags := NormalizeSet(norm, c.scenarioTags);
    var hardTags := HardTags(norm, p.scenarioTags);
    && norm(c.dbType) == p.dbType
    && !Conflicts(p.versionMajor, NormalizeOptional(norm, c.versionMajor))
    && !Conflicts(p.sqlType, NormalizeOptional(norm, c.sqlType))
    && (hardTags != {} && actualTags != {} ==> hardTags * actualTags != {})
  }

  function Survivors(norm: Norm, p: Profile, cases: seq<Case>): seq<Case> {
    if cases == [] then []
    else (if PassesHardFilters(norm, p, cases[0]) then [cases[0]] else []) + Survivors(norm, p, cases[1..])
  }

  // ---- score ----------------------------------------------------------------------------------

  predicate InUnit(r: real) { 0.0 <= r <= 1.0 }

  function Sum(values: seq<real>): real {
    if values == [] then 0.0 else values[0] + Sum(values[1..])
  }

  function Average(values: seq<real>): real {
    if values == [] then 0.0 else Sum(values) / |values| as real
  }

  function Clamp(value: real): real {
    var atLeastZero := if value > 0.0 then value else 0.0;
    if atLeastZero < 1.0 then atLeastZero else 1.0
  }

  function EffectiveScore(override: Option<real>, fallback: real): real {
    if override.Some? then override.value else fallback
  }

  function TagOverlapScore(wanted: set<string>, actual: set<string>): real {
    if wanted == {} || actual == {} then 0.0
    else |wanted * actual| as real / |wanted| as real
  }

  function ExactMatchScore(norm: Norm, wanted: string, actual: Option<string>): real {
    var normalized := NormalizeOptional(norm, actual);
    if normalized.Some? && normalized.value == wanted then 1.0 else 0.0
  }

  function MatchIfWanted(norm: Norm, wanted: Option<string>, actual: Option<string>): seq<real> {
    if wanted.Some? then [ExactMatchScore(norm, wanted.value, actual)] else []
  }

  function EnvironmentScore(norm: Norm, p: Profile, c: Case): real {
    Average([if norm(c.dbType) == p.dbType then 1.0 else 0.0]
            + MatchIfWanted(norm, p.versionMajor, c.versionMajor)
            + MatchIfWanted(norm, p.sqlType, c.sqlType)
            + MatchIfWanted(norm, p.workloadType, c.workloadType))
  }

  function PlanScore(norm: Norm, p: Profile, c: Case): real {
    Average((if p.planSymptomTags == {} then []
             else [TagOverlapScore(p.planSymptomTags, NormalizeSet(norm, c.planSymptomTags))])
            + MatchIfWanted(norm, p.estimatedRowsBucket, c.estimatedRowsBucket)
            + MatchIfWanted(norm, p.tablesCountBucket, c.tablesCountBucket))
  }

  const NO_OVERRIDE := Override(None, None, None)

  function RetrievalScore(c: Case, o: Override): real {
    Average([Clamp(EffectiveScore(o.keyword, c.keywordScore)),
             Clamp(EffectiveScore(o.vector, c.vectorScore)),
             Clamp(EffectiveScore(o.rerank, c.rerankScore))])
  }

  function ScoreCase(norm: Norm, p: Profile, c: Case, o: Override): real {
    0.20 * EnvironmentScore(norm, p, c)
    + 0.15 * TagOverlapScore(p.scenarioTags, NormalizeSet(norm, c.scenarioTags))
    + 0.30 * PlanScore(norm, p, c)
    + 0.20 * TagOverlapScore(p.rootCauseTags, NormalizeSet(norm, c.rootCauseTags))
    + 0.10 * RetrievalScore(c, o)
    + 0.05 * Clamp(c.qualityScore)
  }

  lemma {:induction false} SumInRange(values: seq<real>)
    requires forall v | v in values :: InUnit(v)
    ensures 0.0 <= Sum(values) <= |values| as real
  {
    if values == [] {
    } else {
      assert values[0] in values;
      SumInRange(values[1..]);
    }
  }

  lemma QuotientInUnit(a: real, b: real)
    requires 0.0 <= a <= b && b > 0.0
    ensures InUnit(a / b)
  {
    assert a / b <= b / b == 1.0;
  }

  lemma AverageInUnit(values: seq<real>)
    requires forall v | v in values :: InUnit(v)
    ensures InUnit(Average(values))
  {
    SumInRange(values);
    if values != [] {
      QuotientInUnit(Sum(values), |values| as real);
    }
  }

  lemma OverlapInUnit(wanted: set<string>, actual: set<string>)
    ensures InUnit(TagOverlapScore(wanted, actual))
  {
    if wanted != {} && actual != {} {
      SubsetIsSmaller(wanted * actual, wanted);
      QuotientInUnit(|wanted * actual| as real, |wanted| as real);
    }
  }

  lemma SubsetIsSmaller<T>(a: set<T>, b: set<T>)
    requires a <= b
    ensures |a| <= |b|
  {
    assert b == a + (b - a);
  }

  /** The six weights add up to one over components in [0, 1]: so does every score. */
  lemma ScoreInUnit(norm: Norm, p: Profile, c: Case, o: Override)
    ensures InUnit(ScoreCase(norm, p, c, o))
  {
    OverlapInUnit(p.scenarioTags, NormalizeSet(norm, c.scenarioTags));
    OverlapInUnit(p.rootCauseTags, NormalizeSet(norm, c.rootCauseTags));
    PartsInUnit(norm, p, c, o);
  }

  lemma PartsInUnit(norm: Norm, p: Profile, c: Case, o: Override)
    ensures InUnit(EnvironmentScore(norm, p, c))
    ensures InUnit(PlanScore(norm, p, c))
    ensures InUnit(RetrievalScore(c, o))
  {
    OverlapInUnit(p.planSymptomTags, NormalizeSet(norm, c.planSymptomTags));
    AverageInUnit([if norm(c.dbType) == p.dbType then 1.0 else 0.0]
                  + MatchIfWanted(norm, p.versionMajor, c.versionMajor)
                  + MatchIfWanted(norm, p.sqlType, c.sqlType)
                  + MatchIfWanted(norm, p.workloadType, c.workloadType));
    AverageInUnit((if p.planSymptomTags == {} then []
                   else [TagOverlapScore(p.planSymptomTags, NormalizeSet(norm, c.planSymptomTags))])
                  + MatchIfWanted(norm, p.estimatedRowsBucket, c.estimatedRowsBucket)
                  + MatchIfWanted(norm, p.tablesCountBucket, c.tablesCountBucket));
    AverageInUnit([Clamp(EffectiveScore(o.keyword, c.keywordScore)),
                   Clamp(EffectiveScore(o.vector, c.vectorScore)),
                   Clamp(EffectiveScore(o.rerank, c.rerankScore))]);
  }

  // ---- retrieval ------------------------------------------------------------------------------

  type Overrides = map<string, Override>

  function ScoreWith(norm: Norm, p: Profile, overrides: Overrides): Case -> real {
    (c: Case) => ScoreCase(norm, p, c, if c.id in overrides then overrides[c.id] else NO_OVERRIDE)
  }

  function RankWith(norm: Norm, p: Profile, overrides: Overrides): Case -> Rank {
    (c: Case) => Rank(ScoreWith(norm, p, overrides)(c), c.qualityScore)
  }

  function Ranked(norm: Norm, cases: seq<Case>, q: Query, overrides: Overrides): seq<Case> {
    var p := ProfileOf(norm, q);
    SortDescending(RankWith(norm, p, overrides), Survivors(norm, p, cases))
  }

  function RetrieveCases(norm: Norm, cases: seq<Case>, q: Query, limit: int, cap: int,
                         overrides: Overrides): seq<Case> {
    Select(RootKeyOf(norm), Ranked(norm, cases, q, overrides), limit, cap)
  }

  /** A selection the retrieval could have returned: survivors only, root causes within the cap,
      no more than the limit. */
  ghost predicate Selection(norm: Norm, cases: seq<Case>, q: Query, limit: int, cap: int, sel: seq<Case>) {
    && multiset(sel) <= multiset(Survivors(norm, ProfileOf(norm, q), cases))
    && WithinCap(RootKeyOf(norm), sel, cap)
    && |sel| <= limit
  }

  lemma RankedIsByWeight(norm: Norm, cases: seq<Case>, q: Query, overrides: Overrides)
    ensures ByWeight(ScoreWith(norm, ProfileOf(norm, q), overrides), Ranked(norm, cases, q, overrides))
    ensures multiset(Ranked(norm, cases, q, overrides)) == multiset(Survivors(norm, ProfileOf(norm, q), cases))
  {
    var p := ProfileOf(norm, q);
    var ranked, score := Ranked(norm, cases, q, overrides), ScoreWith(norm, p, overrides);
    SortIsDescendingPermutation(RankWith(norm, p, overrides), Survivors(norm, p, cases));
    forall c | c in ranked ensures score(c) >= 0.0 {
      ScoreInUnit(norm, p, c, if c.id in overrides then overrides[c.id] else NO_OVERRIDE);
    }
    forall i, j | 0 <= i < j < |ranked| ensures score(ranked[i]) >= score(ranked[j]) {
      assert AtLeast(RankWith(norm, p, overrides)(ranked[i]), RankWith(norm, p, overrides)(ranked[j]));
    }
  }

  /** The result is itself a selection ... */
  lemma RetrievedIsSelection(norm: Norm, cases: seq<Case>, q: Query, limit: int, cap: int, overrides: Overrides)
    requires limit >= 1
    ensures Selection(norm, cases, q, limit, cap, RetrieveCases(norm, cases, q, limit, cap, overrides))
  {
    RankedIsByWeight(norm, cases, q, overrides);
    SelectIsFeasible(RootKeyOf(norm), Ranked(norm, cases, q, overrides), limit, cap);
  }

  /** ... and no selection has a greater total score. */
  lemma RetrievedIsOptimal(norm: Norm, cases: seq<Case>, q: Query, limit: int, cap: int, overrides: Overrides,
                           sel: seq<Case>)
    requires limit >= 1 && Selection(norm, cases, q, limit, cap, sel)
    ensures var score := ScoreWith(norm, ProfileOf(norm, q), overrides);
            Total(score, sel) <= Total(score, RetrieveCases(norm, cases, q, limit, cap, overrides))
  {
    RankedIsByWeight(norm, cases, q, overrides);
    GreedyIsBest(RootKeyOf(norm), ScoreWith(norm, ProfileOf(norm, q), overrides), [],
                 Ranked(norm, cases, q, overrides), sel, limit, cap);
  }
}
