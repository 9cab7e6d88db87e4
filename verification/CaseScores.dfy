/** What the filter and the score of case retrieval say about a match, in terms of the tags and fields of
    query and case alone: what each match is worth, and that more of it never ranks a case lower. */
module CaseScores {
  import opened Options
  import opened StableSort
  import opened Diversity
  import opened Cases

  // ---- what matches ---------------------------------------------------------------------------

  /** The tags a list of labels stands for. */
  ghost function Tags(norm: Norm, labels: seq<string>): set<string> { (set l | l in labels :: norm(l)) - {""} }

  function Text(norm: Norm, field: Option<string>): string {
    norm(match field case None => "" case Some(text) => text)
  }

  predicate Asked(norm: Norm, field: Option<string>) { Text(norm, field) != "" }

  predicate Hit(norm: Norm, asked: Option<string>, field: Option<string>) {
    Asked(norm, asked) && Text(norm, field) == Text(norm, asked)
  }

  function One(b: bool): nat { if b then 1 else 0 }

  ghost function Covered(norm: Norm, asked: seq<string>, labels: seq<string>): nat {
    |Tags(norm, asked) * Tags(norm, labels)|
  }

  /** A score cut to the unit interval. */
  function Cut(score: real): real {
    if score < 0.0 then 0.0 else if score > 1.0 then 1.0 else score
  }

  function Given(override: Option<real>, score: real): real {
    match override case Some(given) => given case None => score
  }

  /** How much a query asks for: fields of the environment, tags, and criteria on the plan. */
  datatype Wanted = Wanted(fields: nat, scenario: nat, planTags: nat, planCriteria: nat, rootCause: nat)

  function FieldsAsked(norm: Norm, q: Query): nat {
    1 + One(Asked(norm, q.versionMajor)) + One(Asked(norm, q.sqlType)) + One(Asked(norm, q.workloadType))
  }

  ghost function PlanAsked(norm: Norm, q: Query): nat {
    One(Tags(norm, q.planSymptomTags) != {}) + One(Asked(norm, q.estimatedRowsBucket))
    + One(Asked(norm, q.tablesCountBucket))
  }

  ghost function WantedOf(norm: Norm, q: Query): Wanted {
    Wanted(FieldsAsked(norm, q), |Tags(norm, q.scenarioTags)|, |Tags(norm, q.planSymptomTags)|, PlanAsked(norm, q),
           |Tags(norm, q.rootCauseTags)|)
  }

  /** How much of it a case has, and its own scores. */
  datatype Found = Found(fields: nat, scenario: nat, planTags: nat, planFields: nat, rootCause: nat,
                         keyword: real, vector: real, rerank: real, quality: real)

  function FieldHits(norm: Norm, q: Query, c: Case): nat {
    One(norm(c.dbType) == norm(q.dbType)) + One(Hit(norm, q.versionMajor, c.versionMajor))
    + One(Hit(norm, q.sqlType, c.sqlType)) + One(Hit(norm, q.workloadType, c.workloadType))
  }

  function PlanHits(norm: Norm, q: Query, c: Case): nat {
    One(Hit(norm, q.estimatedRowsBucket, c.estimatedRowsBucket))
    + One(Hit(norm, q.tablesCountBucket, c.tablesCountBucket))
  }

  ghost function FoundIn(norm: Norm, q: Query, c: Case, o: Override): Found {
    Found(FieldHits(norm, q, c),
          Covered(norm, q.scenarioTags, c.scenarioTags),
          Covered(norm, q.planSymptomTags, c.planSymptomTags),
          PlanHits(norm, q, c),
          Covered(norm, q.rootCauseTags, c.rootCauseTags),
          Cut(Given(o.keyword, c.keywordScore)), Cut(Given(o.vector, c.vectorScore)),
          Cut(Given(o.rerank, c.rerankScore)), Cut(c.qualityScore))
  }

  function Part(k: nat, n: nat): real { if n == 0 then 0.0 else k as real / n as real }

  /** The share of the plan tags and the fields that match, averaged over the criteria. */
  function PlanShare(k: nat, n: nat, hits: nat, criteria: nat): real {
    if criteria == 0 then 0.0 else (Part(k, n) + hits as real) / criteria as real
  }

  function PlanPart(w: Wanted, f: Found): real { PlanShare(f.planTags, w.planTags, f.planFields, w.planCriteria) }

  /** The worth of a match. */
  function Worth(w: Wanted, f: Found): real {
    0.20 * Part(f.fields, w.fields) + 0.15 * Part(f.scenario, w.scenario) + 0.30 * PlanPart(w, f)
    + 0.20 * Part(f.rootCause, w.rootCause) + 0.10 * ((f.keyword + f.vector + f.rerank) / 3.0) + 0.05 * f.quality
  }

  // ---- the score is that worth ----------------------------------------------------------------

  lemma {:induction false} SumAppend(a: seq<real>, b: seq<real>)
    ensures Sum(a + b) == Sum(a) + Sum(b)
  {
    if a == [] {
      assert a + b == b;
    } else {
      assert (a + b)[1..] == a[1..] + b;
      SumAppend(a[1..], b);
    }
  }

  lemma SumOfOne(v: real)
    ensures Sum([v]) == v
  {
    assert Sum([v][1..]) == 0.0;
  }

  lemma TagsAreNormalized(norm: Norm, labels: seq<string>)
    ensures NormalizeSet(norm, labels) == Tags(norm, labels)
  {
  }

  lemma OverlapOfSets(wanted: set<string>, actual: set<string>)
    ensures TagOverlapScore(wanted, actual) == Part(|wanted * actual|, |wanted|)
  {
    if actual == {} {
      assert wanted * actual == {};
    }
  }

  lemma OverlapIsPart(norm: Norm, asked: seq<string>, labels: seq<string>)
    ensures TagOverlapScore(NormalizeSet(norm, asked), NormalizeSet(norm, labels))
         == Part(Covered(norm, asked, labels), |Tags(norm, asked)|)
  {
    TagsAreNormalized(norm, asked);
    TagsAreNormalized(norm, labels);
    OverlapOfSets(Tags(norm, asked), Tags(norm, labels));
  }

  lemma FieldIsHit(norm: Norm, asked: Option<string>, field: Option<string>)
    ensures var values := MatchIfWanted(norm, NormalizeOptional(norm, asked), field);
            |values| == One(Asked(norm, asked)) && Sum(values) == One(Hit(norm, asked, field)) as real
  {
    if Asked(norm, asked) {
      SumOfOne(One(Hit(norm, asked, field)) as real);
    }
  }

  lemma SumOfThree(a: seq<real>, b: seq<real>, c: seq<real>)
    ensures Sum(a + b + c) == Sum(a) + Sum(b) + Sum(c)
  {
    SumAppend(a, b);
    SumAppend(a + b, c);
  }

  lemma SumOfFour(a: seq<real>, b: seq<real>, c: seq<real>, d: seq<real>)
    ensures Sum(a + b + c + d) == Sum(a) + Sum(b) + Sum(c) + Sum(d)
  {
    SumOfThree(a, b, c);
    SumAppend(a + b + c, d);
  }

  lemma AverageIsPart(values: seq<real>, k: nat)
    requires Sum(values) == k as real && values != []
    ensures Average(values) == Part(k, |values|)
  {
  }

  /** The fields of the environment that are compared. */
  function Compared(norm: Norm, q: Query, c: Case): seq<real> {
    [One(norm(c.dbType) == norm(q.dbType)) as real]
    + MatchIfWanted(norm, NormalizeOptional(norm, q.versionMajor), c.versionMajor)
    + MatchIfWanted(norm, NormalizeOptional(norm, q.sqlType), c.sqlType)
    + MatchIfWanted(norm, NormalizeOptional(norm, q.workloadType), c.workloadType)
  }

  lemma EnvironmentIsCompared(norm: Norm, q: Query, c: Case)
    ensures EnvironmentScore(norm, ProfileOf(norm, q), c) == Average(Compared(norm, q, c))
  {
    assert (if norm(c.dbType) == norm(q.dbType) then 1.0 else 0.0) == One(norm(c.dbType) == norm(q.dbType)) as real;
  }

  lemma ComparedAdd(norm: Norm, q: Query, c: Case)
    ensures |Compared(norm, q, c)| == FieldsAsked(norm, q)
    ensures Sum(Compared(norm, q, c)) == FieldHits(norm, q, c) as real
  {
    FieldIsHit(norm, q.versionMajor, c.versionMajor);
    FieldIsHit(norm, q.sqlType, c.sqlType);
    FieldIsHit(norm, q.workloadType, c.workloadType);
    SumOfOne(One(norm(c.dbType) == norm(q.dbType)) as real);
    SumOfFour([One(norm(c.dbType) == norm(q.dbType)) as real],
              MatchIfWanted(norm, NormalizeOptional(norm, q.versionMajor), c.versionMajor),
              MatchIfWanted(norm, NormalizeOptional(norm, q.sqlType), c.sqlType),
              MatchIfWanted(norm, NormalizeOptional(norm, q.workloadType), c.workloadType));
  }

  lemma EnvironmentIsPart(norm: Norm, q: Query, c: Case, o: Override)
    ensures EnvironmentScore(norm, ProfileOf(norm, q), c)
         == Part(FoundIn(norm, q, c, o).fields, WantedOf(norm, q).fields)
  {
    EnvironmentIsCompared(norm, q, c);
    ComparedAdd(norm, q, c);
    AverageIsPart(Compared(norm, q, c), FoundIn(norm, q, c, o).fields);
  }

  /** The share of the plan tags, as a criterion when there are any. */
  function TagCriterion(k: nat, n: nat): seq<real> { if n == 0 then [] else [Part(k, n)] }

  lemma PlanTagsAreCriterion(norm: Norm, q: Query, c: Case)
    ensures (if NormalizeSet(norm, q.planSymptomTags) == {} then []
             else [TagOverlapScore(NormalizeSet(norm, q.planSymptomTags), NormalizeSet(norm, c.planSymptomTags))])
         == TagCriterion(Covered(norm, q.planSymptomTags, c.planSymptomTags), |Tags(norm, q.planSymptomTags)|)
  {
    TagsAreNormalized(norm, q.planSymptomTags);
    OverlapIsPart(norm, q.planSymptomTags, c.planSymptomTags);
  }

  lemma CriterionCounts(k: nat, n: nat)
    ensures |TagCriterion(k, n)| == One(n > 0) && Sum(TagCriterion(k, n)) == Part(k, n)
  {
    SumOfOne(Part(k, n));
  }

  lemma AverageOfPlan(tags: seq<real>, bucket: seq<real>, tables: seq<real>, share: real, hits: nat, n: nat)
    requires |tags| + |bucket| + |tables| == n && Sum(tags) == share && Sum(bucket) + Sum(tables) == hits as real
    ensures Average(tags + bucket + tables) == if n == 0 then 0.0 else (share + hits as real) / n as real
  {
    SumOfThree(tags, bucket, tables);
    AverageIs(tags + bucket + tables, share + hits as real);
  }

  lemma AverageIs(values: seq<real>, sum: real)
    requires Sum(values) == sum
    ensures Average(values) == if |values| == 0 then 0.0 else sum / |values| as real
  {
  }

  /** The criteria on the plan that are compared. */
  ghost function PlanCompared(norm: Norm, q: Query, c: Case): seq<real> {
    TagCriterion(Covered(norm, q.planSymptomTags, c.planSymptomTags), |Tags(norm, q.planSymptomTags)|)
    + MatchIfWanted(norm, NormalizeOptional(norm, q.estimatedRowsBucket), c.estimatedRowsBucket)
    + MatchIfWanted(norm, NormalizeOptional(norm, q.tablesCountBucket), c.tablesCountBucket)
  }

  lemma PlanIsCompared(norm: Norm, q: Query, c: Case)
    ensures PlanScore(norm, ProfileOf(norm, q), c) == Average(PlanCompared(norm, q, c))
  {
    PlanTagsAreCriterion(norm, q, c);
  }

  lemma PlanIsPart(norm: Norm, q: Query, c: Case, o: Override)
    ensures PlanScore(norm, ProfileOf(norm, q), c) == PlanPart(WantedOf(norm, q), FoundIn(norm, q, c, o))
  {
    PlanIsCompared(norm, q, c);
    PlanComparedAverage(norm, q, c, Covered(norm, q.planSymptomTags, c.planSymptomTags),
                        |Tags(norm, q.planSymptomTags)|);
  }

  lemma PlanComparedAverage(norm: Norm, q: Query, c: Case, k: nat, n: nat)
    requires k == Covered(norm, q.planSymptomTags, c.planSymptomTags) && n == |Tags(norm, q.planSymptomTags)|
    ensures Average(PlanCompared(norm, q, c)) == PlanShare(k, n, PlanHits(norm, q, c), PlanAsked(norm, q))
  {
    EmptyCount(Tags(norm, q.planSymptomTags));
    CriterionCounts(k, n);
    FieldIsHit(norm, q.estimatedRowsBucket, c.estimatedRowsBucket);
    FieldIsHit(norm, q.tablesCountBucket, c.tablesCountBucket);
    AverageOfPlan(TagCriterion(k, n),
                  MatchIfWanted(norm, NormalizeOptional(norm, q.estimatedRowsBucket), c.estimatedRowsBucket),
                  MatchIfWanted(norm, NormalizeOptional(norm, q.tablesCountBucket), c.tablesCountBucket), Part(k, n),
                  PlanHits(norm, q, c), PlanAsked(norm, q));
  }

  lemma EmptyCount(s: set<string>)
    ensures |s| == 0 <==> s == {}
  {
  }

  lemma ClampIsCut(score: real)
    ensures Clamp(score) == Cut(score)
  {
  }

  lemma RetrievalIsMean(c: Case, o: Override)
    ensures RetrievalScore(c, o)
         == (Cut(Given(o.keyword, c.keywordScore)) + Cut(Given(o.vector, c.vectorScore))
             + Cut(Given(o.rerank, c.rerankScore))) / 3.0
  {
    var keyword := Clamp(EffectiveScore(o.keyword, c.keywordScore));
    var vector := Clamp(EffectiveScore(o.vector, c.vectorScore));
    var rerank := Clamp(EffectiveScore(o.rerank, c.rerankScore));
    SumOfOne(keyword);
    SumOfOne(vector);
    SumOfOne(rerank);
    SumAppend([keyword], [vector]);
    SumAppend([keyword] + [vector], [rerank]);
    assert [keyword] + [vector] + [rerank] == [keyword, vector, rerank];
  }

  /** The score of every case for every query, from tags, fields and scores alone. */
  lemma ScoreIsWorth(norm: Norm, q: Query, c: Case, o: Override)
    ensures ScoreCase(norm, ProfileOf(norm, q), c, o) == Worth(WantedOf(norm, q), FoundIn(norm, q, c, o))
  {
    EnvironmentIsPart(norm, q, c, o);
    OverlapIsPart(norm, q.scenarioTags, c.scenarioTags);
    PlanIsPart(norm, q, c, o);
    OverlapIsPart(norm, q.rootCauseTags, c.rootCauseTags);
    RetrievalIsMean(c, o);
    ClampIsCut(c.qualityScore);
  }

  // ---- what one more match is worth -----------------------------------------------------------

  /** How much more case `x` is worth than `y`, each under its override. */
  ghost predicate WorthMore(norm: Norm, q: Query, x: Case, ox: Override, y: Case, oy: Override, gain: real) {
    ScoreCase(norm, ProfileOf(norm, q), x, ox) == ScoreCase(norm, ProfileOf(norm, q), y, oy) + gain
  }

  lemma GainOfFound(norm: Norm, q: Query, x: Case, ox: Override, y: Case, oy: Override, f: Found, g: Found, gain: real)
    requires f == FoundIn(norm, q, x, ox) && g == FoundIn(norm, q, y, oy)
    requires Worth(WantedOf(norm, q), f) == Worth(WantedOf(norm, q), g) + gain
    ensures WorthMore(norm, q, x, ox, y, oy, gain)
  {
    ScoreIsWorth(norm, q, x, ox);
    ScoreIsWorth(norm, q, y, oy);
  }

  lemma PartGrows(k: nat, more: nat, n: nat)
    requires n > 0
    ensures Part(k + more, n) == Part(k, n) + more as real / n as real
  {
    QuotientOfSum(k as real, more as real, n as real);
  }

  lemma QuotientOfSum(a: real, b: real, n: real)
    requires n > 0.0
    ensures (a + b) / n == a / n + b / n
  {
  }

  lemma WorthOfRootCause(w: Wanted, f: Found, k: nat)
    requires w.rootCause > 0
    ensures Worth(w, f.(rootCause := f.rootCause + k)) == Worth(w, f) + 0.20 * (k as real / w.rootCause as real)
  {
    PartGrows(f.rootCause, k, w.rootCause);
  }

  lemma WorthOfScenario(w: Wanted, f: Found, k: nat)
    requires w.scenario > 0
    ensures Worth(w, f.(scenario := f.scenario + k)) == Worth(w, f) + 0.15 * (k as real / w.scenario as real)
  {
    PartGrows(f.scenario, k, w.scenario);
  }

  lemma WorthOfField(w: Wanted, f: Found)
    requires w.fields > 0
    ensures Worth(w, f.(fields := f.fields + 1)) == Worth(w, f) + 0.20 * (1.0 / w.fields as real)
  {
    PartGrows(f.fields, 1, w.fields);
  }

  lemma WorthOfPlanTags(w: Wanted, f: Found, k: nat)
    requires w.planTags > 0 && w.planCriteria > 0
    ensures Worth(w, f.(planTags := f.planTags + k))
         == Worth(w, f) + 0.30 * (k as real / w.planTags as real / w.planCriteria as real)
  {
    PartGrows(f.planTags, k, w.planTags);
    QuotientOfSum(Part(f.planTags, w.planTags) + f.planFields as real, k as real / w.planTags as real,
                  w.planCriteria as real);
  }

  lemma WorthOfPlanField(w: Wanted, f: Found)
    requires w.planCriteria > 0
    ensures Worth(w, f.(planFields := f.planFields + 1)) == Worth(w, f) + 0.30 * (1.0 / w.planCriteria as real)
  {
    QuotientOfSum(Part(f.planTags, w.planTags) + f.planFields as real, 1.0, w.planCriteria as real);
  }

  lemma WorthOfScores(w: Wanted, f: Found, keyword: real, vector: real, rerank: real, quality: real)
    ensures Worth(w, f.(keyword := keyword, vector := vector, rerank := rerank, quality := quality))
         == Worth(w, f) + (0.10 * ((keyword - f.keyword + (vector - f.vector) + (rerank - f.rerank)) / 3.0)
                           + 0.05 * (quality - f.quality))
  {
  }

  lemma RootCauseFound(norm: Norm, q: Query, c: Case, labels: seq<string>, id: string, o: Override)
    ensures FoundIn(norm, q, c.(rootCauseTags := labels, id := id), o)
         == FoundIn(norm, q, c, o).(rootCause := Covered(norm, q.rootCauseTags, labels))
  {
    var x := c.(rootCauseTags := labels, id := id);
    assert FieldHits(norm, q, x) == FieldHits(norm, q, c) && PlanHits(norm, q, x) == PlanHits(norm, q, c);
  }

  /** A case that only differs by covering `k` more of the root causes asked for. */
  lemma RootCauseGain(norm: Norm, q: Query, c: Case, labels: seq<string>, id: string, o: Override, k: nat)
    requires Tags(norm, q.rootCauseTags) != {}
    requires Covered(norm, q.rootCauseTags, labels) == Covered(norm, q.rootCauseTags, c.rootCauseTags) + k
    ensures WorthMore(norm, q, c.(rootCauseTags := labels, id := id), o, c, o,
                      0.20 * (k as real / |Tags(norm, q.rootCauseTags)| as real))
  {
    var f := FoundIn(norm, q, c, o);
    WorthOfRootCause(WantedOf(norm, q), f, k);
    RootCauseFound(norm, q, c, labels, id, o);
    GainOfFound(norm, q, c.(rootCauseTags := labels, id := id), o, c, o, f.(rootCause := f.rootCause + k), f,
                0.20 * (k as real / |Tags(norm, q.rootCauseTags)| as real));
  }

  lemma ScenarioFound(norm: Norm, q: Query, c: Case, labels: seq<string>, id: string, o: Override)
    ensures FoundIn(norm, q, c.(scenarioTags := labels, id := id), o)
         == FoundIn(norm, q, c, o).(scenario := Covered(norm, q.scenarioTags, labels))
  {
    var x := c.(scenarioTags := labels, id := id);
    assert FieldHits(norm, q, x) == FieldHits(norm, q, c) && PlanHits(norm, q, x) == PlanHits(norm, q, c);
  }

  lemma ScenarioGain(norm: Norm, q: Query, c: Case, labels: seq<string>, id: string, o: Override, k: nat)
    requires Tags(norm, q.scenarioTags) != {}
    requires Covered(norm, q.scenarioTags, labels) == Covered(norm, q.scenarioTags, c.scenarioTags) + k
    ensures WorthMore(norm, q, c.(scenarioTags := labels, id := id), o, c, o,
                      0.15 * (k as real / |Tags(norm, q.scenarioTags)| as real))
  {
    var f := FoundIn(norm, q, c, o);
    WorthOfScenario(WantedOf(norm, q), f, k);
    ScenarioFound(norm, q, c, labels, id, o);
    GainOfFound(norm, q, c.(scenarioTags := labels, id := id), o, c, o, f.(scenario := f.scenario + k), f,
                0.15 * (k as real / |Tags(norm, q.scenarioTags)| as real));
  }

  lemma PlanTagFound(norm: Norm, q: Query, c: Case, labels: seq<string>, id: string, o: Override)
    ensures FoundIn(norm, q, c.(planSymptomTags := labels, id := id), o)
         == FoundIn(norm, q, c, o).(planTags := Covered(norm, q.planSymptomTags, labels))
  {
    var x := c.(planSymptomTags := labels, id := id);
    assert FieldHits(norm, q, x) == FieldHits(norm, q, c) && PlanHits(norm, q, x) == PlanHits(norm, q, c);
  }

  /** Plan tags share their weight with the other criteria on the plan. */
  lemma PlanTagGain(norm: Norm, q: Query, c: Case, labels: seq<string>, id: string, o: Override, k: nat)
    requires Tags(norm, q.planSymptomTags) != {}
    requires Covered(norm, q.planSymptomTags, labels) == Covered(norm, q.planSymptomTags, c.planSymptomTags) + k
    ensures WorthMore(norm, q, c.(planSymptomTags := labels, id := id), o, c, o,
                      0.30 * (k as real / |Tags(norm, q.planSymptomTags)| as real
                              / WantedOf(norm, q).planCriteria as real))
  {
    var w, f := WantedOf(norm, q), FoundIn(norm, q, c, o);
    WorthOfPlanTags(w, f, k);
    PlanTagFound(norm, q, c, labels, id, o);
    GainOfFound(norm, q, c.(planSymptomTags := labels, id := id), o, c, o, f.(planTags := f.planTags + k), f,
                0.30 * (k as real / w.planTags as real / w.planCriteria as real));
  }

  /** What one field of the environment adds. */
  ghost function FieldWorth(norm: Norm, q: Query): real { 0.20 * (1.0 / WantedOf(norm, q).fields as real) }

  lemma FieldGain(norm: Norm, q: Query, x: Case, y: Case, o: Override)
    requires FoundIn(norm, q, x, o) == FoundIn(norm, q, y, o).(fields := FoundIn(norm, q, y, o).fields + 1)
    ensures WorthMore(norm, q, x, o, y, o, FieldWorth(norm, q))
  {
    var w, f := WantedOf(norm, q), FoundIn(norm, q, y, o);
    WorthOfField(w, f);
    GainOfFound(norm, q, x, o, y, o, f.(fields := f.fields + 1), f, 0.20 * (1.0 / w.fields as real));
  }

  /** Two cases that only differ in fields of the environment. */
  lemma FieldsDiffer(norm: Norm, q: Query, x: Case, y: Case, o: Override)
    requires x.(dbType := y.dbType, versionMajor := y.versionMajor, sqlType := y.sqlType,
                workloadType := y.workloadType, id := y.id) == y
    requires FieldHits(norm, q, x) == FieldHits(norm, q, y) + 1
    ensures WorthMore(norm, q, x, o, y, o, FieldWorth(norm, q))
  {
    OnlyFieldsDiffer(norm, q, x, y, o);
    FieldGain(norm, q, x, y, o);
  }

  lemma OnlyFieldsDiffer(norm: Norm, q: Query, x: Case, y: Case, o: Override)
    requires x.(dbType := y.dbType, versionMajor := y.versionMajor, sqlType := y.sqlType,
                workloadType := y.workloadType, id := y.id) == y
    ensures FoundIn(norm, q, x, o) == FoundIn(norm, q, y, o).(fields := FieldHits(norm, q, x))
  {
    assert PlanHits(norm, q, x) == PlanHits(norm, q, y);
  }

  lemma PlanFieldGain(norm: Norm, q: Query, x: Case, y: Case, o: Override)
    requires FoundIn(norm, q, x, o) == FoundIn(norm, q, y, o).(planFields := FoundIn(norm, q, y, o).planFields + 1)
    requires WantedOf(norm, q).planCriteria > 0
    ensures WorthMore(norm, q, x, o, y, o, 0.30 * (1.0 / WantedOf(norm, q).planCriteria as real))
  {
    var w, f := WantedOf(norm, q), FoundIn(norm, q, y, o);
    WorthOfPlanField(w, f);
    GainOfFound(norm, q, x, o, y, o, f.(planFields := f.planFields + 1), f, 0.30 * (1.0 / w.planCriteria as real));
  }

  /** A field of the environment that is asked for and matches where it did not. */
  lemma VersionGain(norm: Norm, q: Query, c: Case, value: Option<string>, id: string, o: Override)
    requires Hit(norm, q.versionMajor, value) && !Hit(norm, q.versionMajor, c.versionMajor)
    ensures WorthMore(norm, q, c.(versionMajor := value, id := id), o, c, o, FieldWorth(norm, q))
  {
    assert FieldHits(norm, q, c.(versionMajor := value, id := id)) == FieldHits(norm, q, c) + 1;
    FieldsDiffer(norm, q, c.(versionMajor := value, id := id), c, o);
  }

  lemma SqlTypeGain(norm: Norm, q: Query, c: Case, value: Option<string>, id: string, o: Override)
    requires Hit(norm, q.sqlType, value) && !Hit(norm, q.sqlType, c.sqlType)
    ensures WorthMore(norm, q, c.(sqlType := value, id := id), o, c, o, FieldWorth(norm, q))
  {
    assert FieldHits(norm, q, c.(sqlType := value, id := id)) == FieldHits(norm, q, c) + 1;
    FieldsDiffer(norm, q, c.(sqlType := value, id := id), c, o);
  }

  lemma WorkloadGain(norm: Norm, q: Query, c: Case, value: Option<string>, id: string, o: Override)
    requires Hit(norm, q.workloadType, value) && !Hit(norm, q.workloadType, c.workloadType)
    ensures WorthMore(norm, q, c.(workloadType := value, id := id), o, c, o, FieldWorth(norm, q))
  {
    assert FieldHits(norm, q, c.(workloadType := value, id := id)) == FieldHits(norm, q, c) + 1;
    FieldsDiffer(norm, q, c.(workloadType := value, id := id), c, o);
  }

  lemma DatabaseGain(norm: Norm, q: Query, c: Case, value: string, id: string, o: Override)
    requires norm(value) == norm(q.dbType) != norm(c.dbType)
    ensures WorthMore(norm, q, c.(dbType := value, id := id), o, c, o, FieldWorth(norm, q))
  {
    assert FieldHits(norm, q, c.(dbType := value, id := id)) == FieldHits(norm, q, c) + 1;
    FieldsDiffer(norm, q, c.(dbType := value, id := id), c, o);
  }

  /** Two cases that only differ in buckets of the plan. */
  lemma BucketsDiffer(norm: Norm, q: Query, x: Case, y: Case, o: Override)
    requires x.(estimatedRowsBucket := y.estimatedRowsBucket, tablesCountBucket := y.tablesCountBucket, id := y.id) == y
    requires PlanHits(norm, q, x) == PlanHits(norm, q, y) + 1
    ensures WorthMore(norm, q, x, o, y, o, 0.30 * (1.0 / WantedOf(norm, q).planCriteria as real))
  {
    OnlyBucketsDiffer(norm, q, x, y, o);
    PlanFieldGain(norm, q, x, y, o);
  }

  lemma OnlyBucketsDiffer(norm: Norm, q: Query, x: Case, y: Case, o: Override)
    requires x.(estimatedRowsBucket := y.estimatedRowsBucket, tablesCountBucket := y.tablesCountBucket, id := y.id) == y
    ensures FoundIn(norm, q, x, o) == FoundIn(norm, q, y, o).(planFields := PlanHits(norm, q, x))
  {
    assert FieldHits(norm, q, x) == FieldHits(norm, q, y);
  }

  /** A bucket of the plan that is asked for and matches where it did not. */
  lemma RowsBucketGain(norm: Norm, q: Query, c: Case, value: Option<string>, id: string, o: Override)
    requires Hit(norm, q.estimatedRowsBucket, value) && !Hit(norm, q.estimatedRowsBucket, c.estimatedRowsBucket)
    ensures WorthMore(norm, q, c.(estimatedRowsBucket := value, id := id), o, c, o,
                      0.30 * (1.0 / WantedOf(norm, q).planCriteria as real))
  {
    assert PlanHits(norm, q, c.(estimatedRowsBucket := value, id := id)) == PlanHits(norm, q, c) + 1;
    BucketsDiffer(norm, q, c.(estimatedRowsBucket := value, id := id), c, o);
  }

  lemma TablesBucketGain(norm: Norm, q: Query, c: Case, value: Option<string>, id: string, o: Override)
    requires Hit(norm, q.tablesCountBucket, value) && !Hit(norm, q.tablesCountBucket, c.tablesCountBucket)
    ensures WorthMore(norm, q, c.(tablesCountBucket := value, id := id), o, c, o,
                      0.30 * (1.0 / WantedOf(norm, q).planCriteria as real))
  {
    assert PlanHits(norm, q, c.(tablesCountBucket := value, id := id)) == PlanHits(norm, q, c) + 1;
    BucketsDiffer(norm, q, c.(tablesCountBucket := value, id := id), c, o);
  }

  /** The scores of the case itself, each under its override, and its quality. */
  lemma OwnScoresGain(norm: Norm, q: Query, x: Case, ox: Override, y: Case, oy: Override)
    requires x.(keywordScore := y.keywordScore, vectorScore := y.vectorScore, rerankScore := y.rerankScore,
                qualityScore := y.qualityScore, id := y.id) == y
    ensures WorthMore(norm, q, x, ox, y, oy,
              0.10 * ((Cut(Given(ox.keyword, x.keywordScore)) - Cut(Given(oy.keyword, y.keywordScore))
                       + (Cut(Given(ox.vector, x.vectorScore)) - Cut(Given(oy.vector, y.vectorScore)))
                       + (Cut(Given(ox.rerank, x.rerankScore)) - Cut(Given(oy.rerank, y.rerankScore)))) / 3.0)
              + 0.05 * (Cut(x.qualityScore) - Cut(y.qualityScore)))
  {
    var f, g := FoundIn(norm, q, x, ox), FoundIn(norm, q, y, oy);
    OnlyScoresDiffer(norm, q, x, ox, y, oy);
    WorthOfScores(WantedOf(norm, q), g, f.keyword, f.vector, f.rerank, f.quality);
    GainOfFound(norm, q, x, ox, y, oy, f, g,
      0.10 * ((f.keyword - g.keyword + (f.vector - g.vector) + (f.rerank - g.rerank)) / 3.0)
      + 0.05 * (f.quality - g.quality));
  }

  lemma OnlyScoresDiffer(norm: Norm, q: Query, x: Case, ox: Override, y: Case, oy: Override)
    requires x.(keywordScore := y.keywordScore, vectorScore := y.vectorScore, rerankScore := y.rerankScore,
                qualityScore := y.qualityScore, id := y.id) == y
    ensures var f := FoundIn(norm, q, x, ox);
            f == FoundIn(norm, q, y, oy).(keyword := f.keyword, vector := f.vector, rerank := f.rerank,
                                          quality := f.quality)
  {
    assert FieldHits(norm, q, x) == FieldHits(norm, q, y) && PlanHits(norm, q, x) == PlanHits(norm, q, y);
  }

  /** Everything asked for is found, and the case's own scores are full. */
  predicate IsFull(w: Wanted, f: Found) {
    && w.fields > 0 && f.fields == w.fields && w.scenario > 0 && f.scenario == w.scenario
    && w.rootCause > 0 && f.rootCause == w.rootCause && f.planTags == w.planTags
    && w.planCriteria > 0 && f.planFields + One(w.planTags > 0) == w.planCriteria
    && f.keyword == f.vector == f.rerank == f.quality == 1.0
  }

  lemma WorthOfFull(w: Wanted, f: Found)
    requires IsFull(w, f)
    ensures Worth(w, f) == 1.0
  {
    WholePart(w.fields);
    WholePart(w.scenario);
    WholePart(w.rootCause);
    WholePart(w.planCriteria);
    if w.planTags > 0 {
      WholePart(w.planTags);
    }
    assert Part(f.planTags, w.planTags) == One(w.planTags > 0) as real;
  }

  ghost predicate HasAllFields(norm: Norm, q: Query, c: Case) {
    && norm(c.dbType) == norm(q.dbType)
    && (Asked(norm, q.versionMajor) ==> Hit(norm, q.versionMajor, c.versionMajor))
    && (Asked(norm, q.sqlType) ==> Hit(norm, q.sqlType, c.sqlType))
    && (Asked(norm, q.workloadType) ==> Hit(norm, q.workloadType, c.workloadType))
    && (Asked(norm, q.estimatedRowsBucket) ==> Hit(norm, q.estimatedRowsBucket, c.estimatedRowsBucket))
    && (Asked(norm, q.tablesCountBucket) ==> Hit(norm, q.tablesCountBucket, c.tablesCountBucket))
  }

  /** A case that has everything asked for, with full scores of its own, scores 1 when the query asks for
      something of every kind. */
  lemma FullMatchScoresOne(norm: Norm, q: Query, c: Case, o: Override)
    requires HasAllFields(norm, q, c)
    requires {} != Tags(norm, q.scenarioTags) <= Tags(norm, c.scenarioTags)
    requires {} != Tags(norm, q.rootCauseTags) <= Tags(norm, c.rootCauseTags)
    requires Tags(norm, q.planSymptomTags) <= Tags(norm, c.planSymptomTags) && WantedOf(norm, q).planCriteria > 0
    requires Given(o.keyword, c.keywordScore) == Given(o.vector, c.vectorScore) == Given(o.rerank, c.rerankScore) == 1.0
    requires c.qualityScore == 1.0
    ensures ScoreCase(norm, ProfileOf(norm, q), c, o) == 1.0
  {
    AllCovered(norm, q.scenarioTags, c.scenarioTags);
    AllCovered(norm, q.rootCauseTags, c.rootCauseTags);
    AllCovered(norm, q.planSymptomTags, c.planSymptomTags);
    EmptyCount(Tags(norm, q.planSymptomTags));
    EmptyCount(Tags(norm, q.scenarioTags));
    EmptyCount(Tags(norm, q.rootCauseTags));
    WorthOfFull(WantedOf(norm, q), FoundIn(norm, q, c, o));
    ScoreIsWorth(norm, q, c, o);
  }

  lemma AllCovered(norm: Norm, asked: seq<string>, labels: seq<string>)
    requires Tags(norm, asked) <= Tags(norm, labels)
    ensures Covered(norm, asked, labels) == |Tags(norm, asked)|
  {
    assert Tags(norm, asked) * Tags(norm, labels) == Tags(norm, asked);
  }

  lemma WholePart(n: nat)
    requires n > 0
    ensures Part(n, n) == 1.0 && n as real / n as real == 1.0
  {
  }

  // ---- the ranking ----------------------------------------------------------------------------

  /** At least as much of everything. */
  predicate NoLess(a: Found, b: Found) {
    && a.fields >= b.fields && a.scenario >= b.scenario && a.planTags >= b.planTags && a.planFields >= b.planFields
    && a.rootCause >= b.rootCause && a.keyword >= b.keyword && a.vector >= b.vector && a.rerank >= b.rerank
    && a.quality >= b.quality
  }

  lemma PartIsMonotone(a: nat, b: nat, n: nat)
    requires a >= b
    ensures Part(a, n) >= Part(b, n)
    ensures n > 0 && a > b ==> Part(a, n) > Part(b, n)
  {
    if n > 0 {
      PartGrows(b, a - b, n);
      QuotientIsMonotone(0.0, (a - b) as real, n as real);
    }
  }

  lemma QuotientIsMonotone(a: real, b: real, n: real)
    requires a <= b && n > 0.0
    ensures a / n <= b / n
    ensures a < b ==> a / n < b / n
  {
  }

  /** What a query does not ask for is not found. */
  ghost predicate Fits(w: Wanted, f: Found) {
    && w.fields > 0 && (w.scenario == 0 ==> f.scenario == 0) && (w.rootCause == 0 ==> f.rootCause == 0)
    && (w.planTags == 0 ==> f.planTags == 0) && (w.planCriteria == 0 ==> f.planTags == 0 && f.planFields == 0)
  }

  lemma FoundFits(norm: Norm, q: Query, c: Case, o: Override)
    ensures Fits(WantedOf(norm, q), FoundIn(norm, q, c, o))
  {
    NothingCovered(norm, q.scenarioTags, c.scenarioTags);
    NothingCovered(norm, q.rootCauseTags, c.rootCauseTags);
    NothingCovered(norm, q.planSymptomTags, c.planSymptomTags);
  }

  lemma NothingCovered(norm: Norm, asked: seq<string>, labels: seq<string>)
    ensures Tags(norm, asked) == {} ==> Covered(norm, asked, labels) == 0
    ensures |Tags(norm, asked)| == 0 <==> Tags(norm, asked) == {}
  {
    if Tags(norm, asked) == {} {
      assert Tags(norm, asked) * Tags(norm, labels) == {};
    }
  }

  lemma PlanPartIsMonotone(w: Wanted, a: Found, b: Found)
    requires NoLess(a, b) && Fits(w, a)
    ensures PlanPart(w, a) >= PlanPart(w, b)
    ensures a.planTags > b.planTags || a.planFields > b.planFields ==> PlanPart(w, a) > PlanPart(w, b)
  {
    if w.planCriteria > 0 {
      PartIsMonotone(a.planTags, b.planTags, w.planTags);
      QuotientIsMonotone(Part(b.planTags, w.planTags) + b.planFields as real,
                         Part(a.planTags, w.planTags) + a.planFields as real, w.planCriteria as real);
    }
  }

  lemma MoreIsWorthMore(w: Wanted, a: Found, b: Found)
    requires NoLess(a, b) && a != b && Fits(w, a)
    ensures Worth(w, a) > Worth(w, b)
  {
    PartIsMonotone(a.fields, b.fields, w.fields);
    PartIsMonotone(a.scenario, b.scenario, w.scenario);
    PartIsMonotone(a.rootCause, b.rootCause, w.rootCause);
    PlanPartIsMonotone(w, a, b);
  }

  function OverrideOf(overrides: Overrides, c: Case): Override {
    if c.id in overrides then overrides[c.id] else NO_OVERRIDE
  }

  /** More of anything, and no less of the rest, scores more. */
  lemma BetterScoresMore(norm: Norm, q: Query, x: Case, ox: Override, y: Case, oy: Override)
    requires NoLess(FoundIn(norm, q, x, ox), FoundIn(norm, q, y, oy))
    requires FoundIn(norm, q, x, ox) != FoundIn(norm, q, y, oy)
    ensures ScoreCase(norm, ProfileOf(norm, q), x, ox) > ScoreCase(norm, ProfileOf(norm, q), y, oy)
  {
    ScoreIsWorth(norm, q, x, ox);
    ScoreIsWorth(norm, q, y, oy);
    FoundFits(norm, q, x, ox);
    MoreIsWorthMore(WantedOf(norm, q), FoundIn(norm, q, x, ox), FoundIn(norm, q, y, oy));
  }

  /** A survivor that is better in some respect and no worse in the rest stands before the other, wherever
      the two are in the library. */
  lemma BetterStandsAhead(norm: Norm, cases: seq<Case>, q: Query, overrides: Overrides, i: nat, j: nat)
    requires i < |Ranked(norm, cases, q, overrides)| && j < |Ranked(norm, cases, q, overrides)|
    requires var x, y := Ranked(norm, cases, q, overrides)[i], Ranked(norm, cases, q, overrides)[j];
             var a, b := FoundIn(norm, q, x, OverrideOf(overrides, x)), FoundIn(norm, q, y, OverrideOf(overrides, y));
             NoLess(a, b) && a != b
    ensures i < j
  {
    var x, y := Ranked(norm, cases, q, overrides)[i], Ranked(norm, cases, q, overrides)[j];
    BetterScoresMore(norm, q, x, OverrideOf(overrides, x), y, OverrideOf(overrides, y));
    RankedIsByWeight(norm, cases, q, overrides);
    HigherStandsAhead(ScoreWith(norm, ProfileOf(norm, q), overrides), Ranked(norm, cases, q, overrides), i, j);
  }

  lemma HigherStandsAhead(score: Case -> real, ranked: seq<Case>, i: nat, j: nat)
    requires ByWeight(score, ranked) && i < |ranked| && j < |ranked| && score(ranked[i]) > score(ranked[j])
    ensures i < j
  {
  }

  /** Of two cases with one score the one of better quality comes first. */
  lemma QualityBreaksTies(norm: Norm, cases: seq<Case>, q: Query, overrides: Overrides, i: nat, j: nat)
    requires i < j < |Ranked(norm, cases, q, overrides)|
    requires var ranked, score := Ranked(norm, cases, q, overrides), ScoreWith(norm, ProfileOf(norm, q), overrides);
             score(ranked[i]) == score(ranked[j])
    ensures Ranked(norm, cases, q, overrides)[i].qualityScore >= Ranked(norm, cases, q, overrides)[j].qualityScore
  {
    RankedDescends(norm, cases, q, overrides);
    InOrder(RankWith(norm, ProfileOf(norm, q), overrides), Ranked(norm, cases, q, overrides), i, j);
  }

  lemma RankedDescends(norm: Norm, cases: seq<Case>, q: Query, overrides: Overrides)
    ensures Descending(RankWith(norm, ProfileOf(norm, q), overrides), Ranked(norm, cases, q, overrides))
  {
    var p := ProfileOf(norm, q);
    SortIsDescendingPermutation(RankWith(norm, p, overrides), Survivors(norm, p, cases));
  }

  lemma InOrder(rank: Case -> Rank, ranked: seq<Case>, i: nat, j: nat)
    requires Descending(rank, ranked) && i < j < |ranked| && rank(ranked[i]).score == rank(ranked[j]).score
    ensures rank(ranked[i]).quality >= rank(ranked[j]).quality
  {
  }

  // ---- what is returned -----------------------------------------------------------------------

  lemma {:induction false} CountOfPositions(key: Case -> RootKey, xs: seq<Case>, positions: seq<nat>, k: RootKey)
    requires forall i | 0 <= i < |positions| :: positions[i] < |xs| && key(xs[positions[i]]) == k
    requires forall i, j | 0 <= i < j < |positions| :: positions[i] < positions[j]
    ensures Count(key, xs, k) >= |positions|
    decreases |positions|
  {
    if positions == [] {
    } else {
      var last := positions[|positions| - 1];
      CountOfPositions(key, xs[..last], positions[..|positions| - 1], k);
      assert xs == xs[..last] + ([xs[last]] + xs[last + 1..]);
      CountAppend(key, xs[..last], [xs[last]] + xs[last + 1..], k);
    }
  }

  /** Of the cases returned, no more than the cap have one and the same root causes. */
  lemma AlikeAreCapped(norm: Norm, cases: seq<Case>, q: Query, limit: int, cap: int, overrides: Overrides,
                       alike: seq<nat>)
    requires limit >= 1 && alike != []
    requires var r := RetrieveCases(norm, cases, q, limit, cap, overrides);
             && (forall i | 0 <= i < |alike| :: alike[i] < |r|)
             && (forall i | 0 <= i < |alike| ::
                   Tags(norm, r[alike[i]].rootCauseTags) == Tags(norm, r[alike[0]].rootCauseTags) != {})
    requires forall i, j | 0 <= i < j < |alike| :: alike[i] < alike[j]
    ensures |alike| <= cap
  {
    var r := RetrieveCases(norm, cases, q, limit, cap, overrides);
    var key, k := RootKeyOf(norm), Tags(norm, r[alike[0]].rootCauseTags);
    forall i | 0 <= i < |alike| ensures key(r[alike[i]]) == k {
      TagsAreNormalized(norm, r[alike[i]].rootCauseTags);
    }
    CountOfPositions(key, r, alike, k);
    RetrievedIsSelection(norm, cases, q, limit, cap, overrides);
  }

  // ---- the hard filter ------------------------------------------------------------------------

  /** Two fields that are both given are the same. */
  predicate Agree(norm: Norm, asked: Option<string>, field: Option<string>) {
    Text(norm, asked) == "" || Text(norm, field) == "" || Text(norm, asked) == Text(norm, field)
  }

  /** A scenario of the query, normalised twice as the program does, that is not one of the soft ones. */
  ghost predicate Hard(norm: Norm, q: Query, t: string) {
    && t != "" && t !in SOFT_SCENARIO_TAGS
    && exists s :: s in Tags(norm, q.scenarioTags) && norm(s) == t
  }

  /** The query has hard scenarios, the case has scenarios, and none of those is among these. */
  ghost predicate OtherScenario(norm: Norm, q: Query, c: Case) {
    && (exists t :: Hard(norm, q, t)) && Tags(norm, c.scenarioTags) != {}
    && !exists t :: Hard(norm, q, t) && t in Tags(norm, c.scenarioTags)
  }

  lemma HardTagsAre(norm: Norm, q: Query, t: string)
    ensures t in HardTags(norm, NormalizeSet(norm, q.scenarioTags)) <==> Hard(norm, q, t)
  {
    TagsAreNormalized(norm, q.scenarioTags);
  }

  lemma OtherScenarioIff(norm: Norm, q: Query, c: Case)
    ensures var hard, actual := HardTags(norm, NormalizeSet(norm, q.scenarioTags)), NormalizeSet(norm, c.scenarioTags);
            OtherScenario(norm, q, c) <==> hard != {} && actual != {} && hard * actual == {}
  {
    var hard, actual := HardTags(norm, NormalizeSet(norm, q.scenarioTags)), NormalizeSet(norm, c.scenarioTags);
    TagsAreNormalized(norm, c.scenarioTags);
    forall t ensures t in hard <==> Hard(norm, q, t) {
      HardTagsAre(norm, q, t);
    }
    if t :| t in hard && t in actual {
      assert t in hard * actual;
    }
  }

  /** A case is turned down exactly for another database, another version or another kind of statement, or
      when query and case have scenarios, the query hard ones, and share none of these. */
  lemma PassesIff(norm: Norm, q: Query, c: Case)
    ensures PassesHardFilters(norm, ProfileOf(norm, q), c)
       <==> && norm(c.dbType) == norm(q.dbType)
            && Agree(norm, q.versionMajor, c.versionMajor) && Agree(norm, q.sqlType, c.sqlType)
            && !OtherScenario(norm, q, c)
  {
    OtherScenarioIff(norm, q, c);
  }
}
