/** What the router's answers mean on rows and targets alone, by names and instances: when it rejects
    and for which reason, and which row each table of a full answer is taken from. */
module RouterMeaning {
  import opened Options
  import opened Text
  import opened Router
  import opened RouterProofs

  /** Whether a table is named with its schema. */
  predicate WithSchema(t: Target) { t.schema.Some? && t.schema.value != "" }

  /** The row is for a table of that name, and in that schema if one is named. */
  predicate Bears(fold: Fold, r: Row, t: Target) {
    fold(r.table) == fold(t.table) && (WithSchema(t) ==> fold(r.schema) == fold(t.schema.value))
  }

  predicate Serving(fold: Fold, instance: string, t: Target, r: Row) {
    r.instance == instance && r.enabled && Bears(fold, r, t)
  }

  /** Row `k` is the first of an instance that is enabled and bears the names of `t`. */
  ghost predicate FirstServing(fold: Fold, instance: string, t: Target, rows: seq<Row>, k: nat) {
    && k < |rows| && Serving(fold, instance, t, rows[k])
    && forall j | 0 <= j < k :: !Serving(fold, instance, t, rows[j])
  }

  /** A row of `R` for every table of `T`, or an enabled one, or an enabled one on an instance. */
  ghost predicate AllRouted(fold: Fold, R: set<Row>, T: set<Target>) {
    R != {} && forall t | t in T :: exists r | r in R :: Bears(fold, r, t)
  }

  ghost predicate AllOn(fold: Fold, R: set<Row>, T: set<Target>) {
    forall t | t in T :: exists r | r in R :: r.enabled && Bears(fold, r, t)
  }

  ghost predicate HoldsAll(fold: Fold, R: set<Row>, T: set<Target>, instance: string) {
    forall t | t in T :: exists r | r in R :: Serving(fold, instance, t, r)
  }

  ghost predicate Held(fold: Fold, R: set<Row>, T: set<Target>) {
    T != {} && exists r | r in R :: HoldsAll(fold, R, T, r.instance)
  }

  /** A table named without schema that enabled rows place in two ways. */
  ghost predicate InTwoPlaces(fold: Fold, R: set<Row>, t: Target) {
    && !WithSchema(t)
    && exists r, r' | r in R && r' in R ::
         && r.enabled && r'.enabled && fold(r.table) == fold(t.table) && fold(r'.table) == fold(t.table)
         && (r.instance != r'.instance || r.schema != r'.schema)
  }

  ghost predicate SomeInTwoPlaces(fold: Fold, R: set<Row>, T: set<Target>) {
    exists t | t in T :: InTwoPlaces(fold, R, t)
  }

  /** An enabled row places a table of that name in `schema`. */
  ghost predicate LiesIn(fold: Fold, R: set<Row>, t: Target, schema: string) {
    exists r | r in R :: r.enabled && fold(r.table) == fold(t.table) && r.schema == schema
  }

  /** Two tables named without schema that lie in different schemas. */
  ghost predicate InTwoSchemas(fold: Fold, R: set<Row>, T: set<Target>) {
    exists t, t', s, s' :: t in T && t' in T && !WithSchema(t) && !WithSchema(t') && s != s'
                           && LiesIn(fold, R, t, s) && LiesIn(fold, R, t', s')
  }

  ghost predicate TwoNames(T: set<Target>) {
    exists t, t' | t in T && t' in T :: !WithSchema(t) && !WithSchema(t') && t.table != t'.table
  }

  // ---- the tests in their order ---------------------------------------------------------------

  lemma RoutedAgrees(fold: Fold, R: set<Row>, T: set<Target>)
    ensures MissingSpec(fold, R, T) <==> !AllRouted(fold, R, T)
  {
    forall t | t in T
      ensures (exists r | r in R :: Bears(fold, r, t)) <==> !(forall r | r in R :: !Matches(fold, r, t))
    {
      if r :| r in R && Matches(fold, r, t) {
        assert Bears(fold, r, t);
      }
      if r :| r in R && Bears(fold, r, t) {
        assert Matches(fold, r, t);
      }
    }
  }

  lemma OnAgrees(fold: Fold, R: set<Row>, T: set<Target>)
    ensures DisabledSpec(fold, R, T) <==> !AllOn(fold, R, T)
  {
    forall t | t in T
      ensures (exists r | r in R :: r.enabled && Bears(fold, r, t))
         <==> !(forall r | r in R :: !(r.enabled && Matches(fold, r, t)))
    {
      if r :| r in R && r.enabled && Matches(fold, r, t) {
        assert Bears(fold, r, t);
      }
      if r :| r in R && r.enabled && Bears(fold, r, t) {
        assert Matches(fold, r, t);
      }
    }
  }

  lemma PlacesAgree(fold: Fold, R: set<Row>, T: set<Target>)
    ensures AmbiguousSpec(fold, R, T) <==> SomeInTwoPlaces(fold, R, T)
  {
    if AmbiguousSpec(fold, R, T) {
      var t, r, r' :| t in T && r in R && r' in R && !Qualified(t) && r.enabled && Matches(fold, r, t) && r'.enabled
                      && Matches(fold, r', t) && (r.instance != r'.instance || r.schema != r'.schema);
      assert InTwoPlaces(fold, R, t);
    }
    if t :| t in T && InTwoPlaces(fold, R, t) {
      var r, r' :| r in R && r' in R && r.enabled && r'.enabled && fold(r.table) == fold(t.table)
                   && fold(r'.table) == fold(t.table) && (r.instance != r'.instance || r.schema != r'.schema);
      assert Matches(fold, r, t) && Matches(fold, r', t);
    }
  }

  lemma HoldsAgrees(fold: Fold, R: set<Row>, T: set<Target>, instance: string)
    ensures ServesAll(fold, R, T, instance) <==> HoldsAll(fold, R, T, instance)
  {
    forall t | t in T
      ensures (exists r | r in R :: Usable(fold, instance, t, r))
         <==> exists r | r in R :: Serving(fold, instance, t, r)
    {
      if r :| r in R && Serving(fold, instance, t, r) {
        assert Usable(fold, instance, t, r);
      }
      if r :| r in R && Usable(fold, instance, t, r) {
        assert Serving(fold, instance, t, r);
      }
    }
  }

  lemma HeldAgrees(fold: Fold, R: set<Row>, T: set<Target>)
    ensures SomeInstance(fold, R, T) <==> Held(fold, R, T)
  {
    forall r | r in R ensures ServesAll(fold, R, T, r.instance) <==> HoldsAll(fold, R, T, r.instance) {
      HoldsAgrees(fold, R, T, r.instance);
    }
  }

  lemma SchemasDiffer(fold: Fold, R: set<Row>, T: set<Target>)
    requires !OneSchema(fold, R, T)
    ensures InTwoSchemas(fold, R, T)
  {
    var t, t', r, r' :| t in T && t' in T && r in R && r' in R && !Qualified(t) && !Qualified(t')
                        && r.enabled && Matches(fold, r, t) && r'.enabled && Matches(fold, r', t')
                        && r.schema != r'.schema;
    assert LiesIn(fold, R, t, r.schema) && LiesIn(fold, R, t', r'.schema);
  }

  lemma SchemasAreTwo(fold: Fold, R: set<Row>, T: set<Target>, t: Target, t': Target, s: string, s': string)
    requires t in T && t' in T && !WithSchema(t) && !WithSchema(t') && s != s'
    requires LiesIn(fold, R, t, s) && LiesIn(fold, R, t', s')
    ensures !OneSchema(fold, R, T)
  {
    var r :| r in R && r.enabled && fold(r.table) == fold(t.table) && r.schema == s;
    var r' :| r' in R && r'.enabled && fold(r'.table) == fold(t'.table) && r'.schema == s';
    assert Matches(fold, r, t) && Matches(fold, r', t') && !Qualified(t) && !Qualified(t');
  }

  lemma SchemasAgree(fold: Fold, R: set<Row>, T: set<Target>)
    ensures OneSchema(fold, R, T) <==> !InTwoSchemas(fold, R, T)
  {
    if InTwoSchemas(fold, R, T) {
      var t, t', s, s' :| t in T && t' in T && !WithSchema(t) && !WithSchema(t') && s != s'
                          && LiesIn(fold, R, t, s) && LiesIn(fold, R, t', s');
      SchemasAreTwo(fold, R, T, t, t', s, s');
    } else if !OneSchema(fold, R, T) {
      SchemasDiffer(fold, R, T);
    }
  }

  lemma NamesAgree(T: set<Target>)
    ensures SeveralUnqualifiedNames(T) <==> TwoNames(T)
  {
    if TwoNames(T) {
      var t, t' :| t in T && t' in T && !WithSchema(t) && !WithSchema(t') && t.table != t'.table;
      assert !Qualified(t) && !Qualified(t');
    }
    if SeveralUnqualifiedNames(T) {
      var t, t' :| t in T && t' in T && !Qualified(t) && !Qualified(t') && t.table != t'.table;
      assert !WithSchema(t) && !WithSchema(t');
    }
  }

  /** Which of the tests apply to rows and targets: whether there are rows at all, and where they are. */
  datatype RowTests = RowTests(unrouted: bool, severalNames: bool, off: bool)

  datatype PlaceTests = PlaceTests(unclear: bool, scattered: bool, twoSchemas: bool)

  ghost function RowTestsOf(fold: Fold, R: set<Row>, T: set<Target>): RowTests {
    RowTests(!AllRouted(fold, R, T), TwoNames(T), !AllOn(fold, R, T))
  }

  ghost function PlaceTestsOf(fold: Fold, R: set<Row>, T: set<Target>): PlaceTests {
    PlaceTests(SomeInTwoPlaces(fold, R, T), !Held(fold, R, T), InTwoSchemas(fold, R, T))
  }

  /** The first test that applies decides. */
  predicate FirstTestDecides(r: RowTests, p: PlaceTests, d: Decision) {
    if r.unrouted then d == if r.severalNames then DAskSchemaForMissing else DMissing
    else if r.off then d == DDisabled
    else if p.unclear then d == DAmbiguous
    else if p.scattered then d == DNoCommonInstance
    else if p.twoSchemas then d == DAskSchemaForPlan
    else d.DFull?
  }

  ghost function RowSpecOf(fold: Fold, R: set<Row>, T: set<Target>): RowTests {
    RowTests(MissingSpec(fold, R, T), SeveralUnqualifiedNames(T), DisabledSpec(fold, R, T))
  }

  ghost function PlaceSpecOf(fold: Fold, R: set<Row>, T: set<Target>): PlaceTests {
    PlaceTests(AmbiguousSpec(fold, R, T), !SomeInstance(fold, R, T), !OneSchema(fold, R, T))
  }

  lemma DecidedBySpec(fold: Fold, R: set<Row>, T: set<Target>, d: Decision)
    requires Decides(fold, R, T, d)
    ensures FirstTestDecides(RowSpecOf(fold, R, T), PlaceSpecOf(fold, R, T), d)
  {
  }

  lemma RowTestsAgree(fold: Fold, R: set<Row>, T: set<Target>)
    ensures RowSpecOf(fold, R, T) == RowTestsOf(fold, R, T)
  {
    RoutedAgrees(fold, R, T);
    OnAgrees(fold, R, T);
    NamesAgree(T);
  }

  lemma PlaceTestsAgree(fold: Fold, R: set<Row>, T: set<Target>)
    ensures PlaceSpecOf(fold, R, T) == PlaceTestsOf(fold, R, T)
  {
    PlacesAgree(fold, R, T);
    HeldAgrees(fold, R, T);
    SchemasAgree(fold, R, T);
  }

  lemma DecisionIsAnswer(tables: seq<Target>, a: Answer)
    requires a.Full? ==> |a.resolved| == |tables|
    ensures DecisionOf(tables, a).DAskSchemaForMissing? <==> a.Rejected? && a.reason.AskSchemaForMissing?
    ensures DecisionOf(tables, a).DMissing? <==> a.Rejected? && a.reason.MissingRoute?
    ensures DecisionOf(tables, a).DDisabled? <==> a.Rejected? && a.reason.InstanceDisabled?
    ensures DecisionOf(tables, a).DAmbiguous? <==> a.Rejected? && a.reason.AmbiguousTables?
    ensures DecisionOf(tables, a).DAskSchemaForPlan? <==> a.Rejected? && a.reason.AskSchemaForPlan?
    ensures DecisionOf(tables, a).DFull? <==> a.Full?
  {
  }

  /** The answer to all rows and all targets: the first test that applies, in this order. */
  lemma AnswerMeans(fold: Fold, rows: seq<Row>, tables: seq<Target>, a: Answer)
    requires IsAnswer(fold, rows, tables, a)
    ensures FirstTestDecides(RowTestsOf(fold, Rows(rows), Targets(tables)),
                             PlaceTestsOf(fold, Rows(rows), Targets(tables)), DecisionOf(tables, a))
  {
    DecidedBySpec(fold, Rows(rows), Targets(tables), DecisionOf(tables, a));
    RowTestsAgree(fold, Rows(rows), Targets(tables));
    PlaceTestsAgree(fold, Rows(rows), Targets(tables));
  }

  ghost predicate NoRow(fold: Fold, rows: seq<Row>, t: Target) {
    forall r | r in rows :: !Bears(fold, r, t)
  }

  lemma RoutedMeans(fold: Fold, rows: seq<Row>, tables: seq<Target>)
    ensures !AllRouted(fold, Rows(rows), Targets(tables))
       <==> rows == [] || exists t | t in tables :: NoRow(fold, rows, t)
  {
    var R, T := Rows(rows), Targets(tables);
    if rows == [] {
      assert R == {};
    } else {
      assert rows[0] in R;
      if !AllRouted(fold, R, T) {
        var t :| t in T && !exists r | r in R :: Bears(fold, r, t);
        assert NoRow(fold, rows, t);
      }
      if t :| t in tables && NoRow(fold, rows, t) {
        assert t in T && !exists r | r in R :: Bears(fold, r, t);
      }
    }
  }

  /** A route is reported missing exactly when there is no row at all, or none for some table's names. */
  lemma MissingIff(fold: Fold, rows: seq<Row>, tables: seq<Target>, a: Answer)
    requires IsAnswer(fold, rows, tables, a)
    ensures a.Rejected? && (a.reason.MissingRoute? || a.reason.AskSchemaForMissing?)
       <==> rows == [] || exists t | t in tables :: NoRow(fold, rows, t)
  {
    AnswerMeans(fold, rows, tables, a);
    DecisionIsAnswer(tables, a);
    RoutedMeans(fold, rows, tables);
  }

  // ---- the names in a rejection ---------------------------------------------------------------

  /** A question about a missing route or a missing plan lists the tables named without schema. */
  lemma QuestionNames(tables: seq<Target>, names: seq<string>, n: string)
    requires AsksFor(tables, names)
    ensures (exists t | t in tables :: !WithSchema(t)) ==>
              (n in names <==> exists t | t in tables :: !WithSchema(t) && t.table == n)
    ensures !(exists t | t in tables :: !WithSchema(t)) ==> names == ["相关表"]
  {
    if t :| t in tables && !WithSchema(t) {
      assert !AllQualified(tables);
    }
  }

  lemma TwoPlacesAgree(fold: Fold, rows: seq<Row>, tables: seq<Target>, i: nat)
    requires i < |tables|
    ensures AmbiguousTable(tables[i], Enabled(fold, rows, tables)[i]) <==> InTwoPlaces(fold, Rows(rows), tables[i])
  {
    var e := Enabled(fold, rows, tables)[i];
    if AmbiguousTable(tables[i], e) {
      var keys := set r | r in e :: (r.instance, r.schema);
      SetHasTwo(keys);
      var a, b :| a in keys && b in keys && a != b;
      var r :| r in e && (r.instance, r.schema) == a;
      var r' :| r' in e && (r'.instance, r'.schema) == b;
      assert r in Rows(rows) && r' in Rows(rows);
    }
    if InTwoPlaces(fold, Rows(rows), tables[i]) {
      var t := tables[i];
      var r, r' :| r in Rows(rows) && r' in Rows(rows) && r.enabled && r'.enabled && fold(r.table) == fold(t.table)
                   && fold(r'.table) == fold(t.table) && (r.instance != r'.instance || r.schema != r'.schema);
      assert r in e && r' in e;
      KeysDiffer(e, r, r');
    }
  }

  /** An ambiguity lists the tables in two places. */
  lemma AmbiguityNames(fold: Fold, rows: seq<Row>, tables: seq<Target>, a: Answer, n: string)
    requires IsAnswer(fold, rows, tables, a) && a.Rejected? && a.reason.AmbiguousTables?
    ensures n in a.reason.names
       <==> exists i | 0 <= i < |tables| :: tables[i].table == n && InTwoPlaces(fold, Rows(rows), tables[i])
  {
    forall i | 0 <= i < |tables|
      ensures AmbiguousTable(tables[i], Enabled(fold, rows, tables)[i]) <==> InTwoPlaces(fold, Rows(rows), tables[i])
    {
      TwoPlacesAgree(fold, rows, tables, i);
    }
  }

  /** The instances of the rows that are switched off. */
  ghost function OffInstances(fold: Fold, rows: seq<Row>, tables: seq<Target>): set<string> {
    set t, r | t in tables && r in rows && Bears(fold, r, t) && !r.enabled :: r.instance
  }

  lemma OffAgree(fold: Fold, rows: seq<Row>, tables: seq<Target>)
    ensures DisabledInstances(fold, rows, tables) == OffInstances(fold, rows, tables)
  {
    forall n | n in OffInstances(fold, rows, tables) ensures n in DisabledInstances(fold, rows, tables) {
      var t, r :| t in tables && r in rows && Bears(fold, r, t) && !r.enabled && r.instance == n;
      assert Matches(fold, r, t);
    }
    forall n | n in DisabledInstances(fold, rows, tables) ensures n in OffInstances(fold, rows, tables) {
      var t, r :| t in tables && r in rows && Matches(fold, r, t) && !r.enabled && r.instance == n;
      assert Bears(fold, r, t);
    }
  }

  /** A rejection for a disabled route lists the instances of all rows of these tables that are off, each once
      and in order. */
  lemma DisabledNames(fold: Fold, rows: seq<Row>, tables: seq<Target>, a: Answer)
    requires IsAnswer(fold, rows, tables, a) && a.Rejected? && a.reason.InstanceDisabled?
    ensures IsSortedSet(a.reason.instances, OffInstances(fold, rows, tables))
  {
    OffAgree(fold, rows, tables);
  }

  // ---- a full answer --------------------------------------------------------------------------

  lemma {:induction false} FirstOfFilter<T(!new)>(p: T -> bool, xs: seq<T>) returns (k: nat)
    requires Filter(p, xs) != []
    ensures k < |xs| && p(xs[k]) && Filter(p, xs)[0] == xs[k] && forall j | 0 <= j < k :: !p(xs[j])
  {
    if p(xs[0]) {
      k := 0;
    } else {
      k := FirstOfFilter(p, xs[1..]);
      k := k + 1;
    }
  }

  lemma FirstUsableMeans(fold: Fold, instance: string, t: Target, rows: seq<Row>) returns (k: nat)
    requires FirstUsable(fold, instance, t, rows).Some?
    ensures FirstServing(fold, instance, t, rows, k) && FirstUsable(fold, instance, t, rows).value == rows[k]
  {
    k := FirstOfFilter((r: Row) => Usable(fold, instance, t, r), rows);
  }

  /** Every table is resolved to the schema and table of the first row of the instance that is enabled
      and bears its names: so it bears them itself. */
  lemma ResolvedRow(fold: Fold, rows: seq<Row>, tables: seq<Target>, a: Answer, i: nat) returns (k: nat)
    requires IsAnswer(fold, rows, tables, a) && a.Full? && i < |tables|
    ensures FirstServing(fold, a.route.instance, tables[i], rows, k)
    ensures |a.resolved| == |tables| && a.resolved[i] == Target(Some(rows[k].schema), rows[k].table)
    ensures fold(a.resolved[i].table) == fold(tables[i].table)
    ensures WithSchema(tables[i]) ==> fold(a.resolved[i].schema.value) == fold(tables[i].schema.value)
    ensures i == 0 ==> a.route.endpoint == rows[k].endpoint
  {
    k := FirstUsableMeans(fold, a.route.instance, tables[i], rows);
  }

  lemma DecidedIsLeast(fold: Fold, R: set<Row>, T: set<Target>, d: Decision, r: Row)
    requires Decides(fold, R, T, d) && d.DFull? && r in R
    ensures ServesAll(fold, R, T, d.instance)
    ensures ServesAll(fold, R, T, r.instance) ==> AtMost(d.instance, r.instance)
  {
  }

  /** The instance holds all tables, and none that does comes before it. */
  lemma InstanceIsLeast(fold: Fold, rows: seq<Row>, tables: seq<Target>, a: Answer, r: Row)
    requires IsAnswer(fold, rows, tables, a) && a.Full? && r in rows
    ensures HoldsAll(fold, Rows(rows), Targets(tables), a.route.instance)
    ensures HoldsAll(fold, Rows(rows), Targets(tables), r.instance) ==> AtMost(a.route.instance, r.instance)
  {
    DecidedIsLeast(fold, Rows(rows), Targets(tables), DecisionOf(tables, a), r);
    HoldsAgrees(fold, Rows(rows), Targets(tables), a.route.instance);
    HoldsAgrees(fold, Rows(rows), Targets(tables), r.instance);
  }

  /** The default schema is that of the tables named without one, if there are any and it is not empty, and
      otherwise that of the row of the first table. */
  lemma DefaultSchemaMeans(fold: Fold, rows: seq<Row>, tables: seq<Target>, a: Answer, i: nat)
    returns (first: nat)
    requires IsAnswer(fold, rows, tables, a) && a.Full? && i < |tables|
    ensures FirstServing(fold, a.route.instance, tables[0], rows, first)
    ensures !WithSchema(tables[i]) ==>
              a.route.defaultSchema == if a.resolved[i].schema != Some("") then a.resolved[i].schema
                                       else rows[first].defaultSchema
    ensures AllQualified(tables) ==> a.route.defaultSchema == rows[first].defaultSchema
  {
    first := FirstUsableMeans(fold, a.route.instance, tables[0], rows);
    if !WithSchema(tables[i]) {
      assert !AllQualified(tables);
      SameSchema(fold, rows, tables, a, i, FirstUnqualified(tables));
    }
  }

  /** Tables named without schema are resolved to one schema. */
  lemma SameSchema(fold: Fold, rows: seq<Row>, tables: seq<Target>, a: Answer, i: nat, j: nat)
    requires IsAnswer(fold, rows, tables, a) && a.Full? && i < |tables| && j < |tables|
    requires !WithSchema(tables[i]) && !WithSchema(tables[j])
    ensures a.resolved[i].schema == a.resolved[j].schema
  {
    var k := FirstUsableMeans(fold, a.route.instance, tables[i], rows);
    var l := FirstUsableMeans(fold, a.route.instance, tables[j], rows);
    LiesThere(fold, rows, tables, i, k, a.route.instance);
    LiesThere(fold, rows, tables, j, l, a.route.instance);
    FullHasOneSchema(fold, rows, tables, a);
  }

  lemma FullHasOneSchema(fold: Fold, rows: seq<Row>, tables: seq<Target>, a: Answer)
    requires IsAnswer(fold, rows, tables, a) && a.Full?
    ensures !InTwoSchemas(fold, Rows(rows), Targets(tables))
  {
    AnswerMeans(fold, rows, tables, a);
    DecisionIsAnswer(tables, a);
  }

  lemma LiesThere(fold: Fold, rows: seq<Row>, tables: seq<Target>, i: nat, k: nat, instance: string)
    requires i < |tables| && FirstServing(fold, instance, tables[i], rows, k)
    ensures tables[i] in Targets(tables) && LiesIn(fold, Rows(rows), tables[i], rows[k].schema)
  {
    assert rows[k] in Rows(rows);
  }
}
