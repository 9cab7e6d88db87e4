/** The router's top-level operation and its theorems: it decides as specified, the decision does
    not depend on order, and the branches the program keeps for safety are never taken. */
module RouterProofs {
  import opened Options
  import opened Text
  import opened Router

  ghost function Rows(rows: seq<Row>): set<Row> { set r | r in rows }

  ghost function Targets(tables: seq<Target>): set<Target> { set t | t in tables }

  function Enabled(fold: Fold, rows: seq<Row>, tables: seq<Target>): (e: Candidates)
    ensures |e| == |tables|
    ensures forall i, r | 0 <= i < |tables| :: r in e[i] <==> r in rows && r.enabled && Matches(fold, r, tables[i])
  {
    EnabledOnly(CandidatesFor(fold, rows, tables))
  }

  lemma SetHasTwo<T>(s: set<T>)
    ensures |s| > 1 <==> exists a, b :: a in s && b in s && a != b
  {
    if s != {} {
      var a :| a in s;
      if s == {a} {
      } else {
        assert s == {a} + (s - {a});
        var b :| b in s - {a};
        assert {a, b} <= s;
        assert s == {a, b} + (s - {a, b});
      }
    }
  }

  lemma EmptyIff<T(!new)>(xs: seq<T>)
    ensures xs == [] <==> forall x :: x !in xs
  {
    if xs != [] {
      assert xs[0] in xs;
    }
  }

  // ---- the three row tests --------------------------------------------------------------------

  lemma MissingAgrees(fold: Fold, rows: seq<Row>, tables: seq<Target>)
    ensures (rows == [] || exists i | 0 <= i < |tables| :: CandidatesFor(fold, rows, tables)[i] == [])
       <==> MissingSpec(fold, Rows(rows), Targets(tables))
  {
    var cands: Candidates := CandidatesFor(fold, rows, tables);
    if MissingSpec(fold, Rows(rows), Targets(tables)) && rows != [] {
      assert rows[0] in Rows(rows);
      var t :| t in Targets(tables) && forall r | r in Rows(rows) :: !Matches(fold, r, t);
      var i :| 0 <= i < |tables| && tables[i] == t;
      EmptyIff(cands[i]);
    }
    if i :| 0 <= i < |tables| && cands[i] == [] {
      assert tables[i] in Targets(tables);
      forall r | r in Rows(rows) ensures !Matches(fold, r, tables[i]) {
        assert r !in cands[i];
      }
    }
  }

  lemma DisabledAgrees(fold: Fold, rows: seq<Row>, tables: seq<Target>)
    ensures (exists i | 0 <= i < |tables| :: Enabled(fold, rows, tables)[i] == [])
       <==> DisabledSpec(fold, Rows(rows), Targets(tables))
  {
    var e: Candidates := Enabled(fold, rows, tables);
    if DisabledSpec(fold, Rows(rows), Targets(tables)) {
      var t :| t in Targets(tables) && forall r | r in Rows(rows) :: !(r.enabled && Matches(fold, r, t));
      var i :| 0 <= i < |tables| && tables[i] == t;
      EmptyIff(e[i]);
    }
    if i :| 0 <= i < |tables| && e[i] == [] {
      assert tables[i] in Targets(tables);
      forall r | r in Rows(rows) ensures !(r.enabled && Matches(fold, r, tables[i])) {
        assert r !in e[i];
      }
    }
  }

  lemma AmbiguousAgrees(fold: Fold, rows: seq<Row>, tables: seq<Target>)
    ensures (exists i | 0 <= i < |tables| :: AmbiguousTable(tables[i], Enabled(fold, rows, tables)[i]))
       <==> AmbiguousSpec(fold, Rows(rows), Targets(tables))
  {
    var e: Candidates := Enabled(fold, rows, tables);
    if AmbiguousSpec(fold, Rows(rows), Targets(tables)) {
      var t, r, r' :| t in Targets(tables) && r in Rows(rows) && r' in Rows(rows) && !Qualified(t)
        && r.enabled && Matches(fold, r, t) && r'.enabled && Matches(fold, r', t)
        && (r.instance != r'.instance || r.schema != r'.schema);
      var i :| 0 <= i < |tables| && tables[i] == t;
      assert r in e[i] && r' in e[i];
      KeysDiffer(e[i], r, r');
    }
    if i :| 0 <= i < |tables| && AmbiguousTable(tables[i], e[i]) {
      AmbiguousTableIsAmbiguous(fold, rows, tables, i);
    }
  }

  lemma AmbiguousTableIsAmbiguous(fold: Fold, rows: seq<Row>, tables: seq<Target>, i: nat)
    requires i < |tables| && AmbiguousTable(tables[i], Enabled(fold, rows, tables)[i])
    ensures AmbiguousSpec(fold, Rows(rows), Targets(tables))
  {
    var e: Candidates := Enabled(fold, rows, tables);
    var keys := set r | r in e[i] :: (r.instance, r.schema);
    SetHasTwo(keys);
    var a, b :| a in keys && b in keys && a != b;
    var r :| r in e[i] && (r.instance, r.schema) == a;
    var r' :| r' in e[i] && (r'.instance, r'.schema) == b;
    assert tables[i] in Targets(tables) && r in Rows(rows) && r' in Rows(rows);
  }

  lemma KeysDiffer(rows: seq<Row>, r: Row, r': Row)
    requires r in rows && r' in rows && (r.instance != r'.instance || r.schema != r'.schema)
    ensures |set q | q in rows :: (q.instance, q.schema)| > 1
  {
    var keys := set q | q in rows :: (q.instance, q.schema);
    assert (r.instance, r.schema) in keys && (r'.instance, r'.schema) in keys;
    SetHasTwo(keys);
  }

  // ---- planning after the ambiguity test ------------------------------------------------------

  /** All rows of an unqualified target agree on instance and schema. */
  ghost predicate Unambiguous(tables: seq<Target>, e: Candidates) {
    |e| == |tables| && forall i, r, r' | 0 <= i < |tables| && !Qualified(tables[i]) && r in e[i] && r' in e[i] ::
      r.instance == r'.instance && r.schema == r'.schema
  }

  lemma NotAmbiguousIsUnambiguous(tables: seq<Target>, e: Candidates)
    requires |e| == |tables| && forall i | 0 <= i < |tables| :: !AmbiguousTable(tables[i], e[i])
    ensures Unambiguous(tables, e)
  {
    forall i, r, r' | 0 <= i < |tables| && !Qualified(tables[i]) && r in e[i] && r' in e[i]
      ensures r.instance == r'.instance && r.schema == r'.schema
    {
      if r.instance != r'.instance || r.schema != r'.schema {
        KeysDiffer(e[i], r, r');
      }
    }
  }

  ghost predicate HasInstance(rows: seq<Row>, instance: string) {
    exists r | r in rows :: r.instance == instance
  }

  ghost predicate Serves(e: Candidates, instance: string) {
    forall i | 0 <= i < |e| :: HasInstance(e[i], instance)
  }

  ghost predicate Agreed(tables: seq<Target>, e: Candidates)
    requires |e| == |tables|
  {
    forall i, j, r, r' | 0 <= i < |tables| && 0 <= j < |tables| && !Qualified(tables[i]) && !Qualified(tables[j])
                         && r in e[i] && r' in e[j] :: r.schema == r'.schema
  }

  lemma ServesMeansOwnRows(e: Candidates, instance: string)
    ensures Serves(e, instance) <==> forall i | 0 <= i < |e| :: OfInstance(e, instance)[i] != []
  {
    forall i | 0 <= i < |e| ensures OfInstance(e, instance)[i] != [] <==> HasInstance(e[i], instance) {
      EmptyIff(OfInstance(e, instance)[i]);
    }
    if forall i | 0 <= i < |e| :: OfInstance(e, instance)[i] != [] {
      forall i | 0 <= i < |e| ensures HasInstance(e[i], instance) {
        assert OfInstance(e, instance)[i] != [];
      }
    }
  }

  /** An instance has a plan exactly when it serves every target and unqualified targets agree. */
  lemma PlanExistsIff(tables: seq<Target>, e: Candidates, instance: string)
    requires Unambiguous(tables, e)
    ensures PlanFor(instance, tables, e).Some? <==> Serves(e, instance) && Agreed(tables, e)
  {
    ServesMeansOwnRows(e, instance);
    if Serves(e, instance) && !AllQualified(tables) {
      if Agreed(tables, e) {
        AgreedHaveCommonSchema(tables, e, instance);
      } else {
        DisagreedHaveNoCommonSchema(tables, e, instance);
      }
    }
  }

  lemma AgreedHaveCommonSchema(tables: seq<Target>, e: Candidates, instance: string)
    requires |e| == |tables| && !AllQualified(tables) && Agreed(tables, e)
    requires forall i | 0 <= i < |e| :: OfInstance(e, instance)[i] != []
    ensures CommonSchemas(tables, OfInstance(e, instance)) != {}
  {
    var own: Candidates := OfInstance(e, instance);
    var u := FirstUnqualified(tables);
    var r: Row := own[u][0];
    assert r in own[u];
    forall i | 0 <= i < |tables| && !Qualified(tables[i]) ensures r.schema in SchemasOf(own[i]) {
      assert own[i][0] in own[i];
      assert own[i][0].schema == r.schema;
    }
    assert r.schema in CommonSchemas(tables, own);
  }

  lemma OneSchemaOnly(tables: seq<Target>, e: Candidates, instance: string, i: nat, r: Row, s: string)
    requires Unambiguous(tables, e) && i < |tables| && !Qualified(tables[i]) && r in e[i]
    ensures s in SchemasOf(OfInstance(e, instance)[i]) ==> s == r.schema
  {
    if s in SchemasOf(OfInstance(e, instance)[i]) {
      var q :| q in OfInstance(e, instance)[i] && q.schema == s;
      assert q in e[i];
    }
  }

  lemma DisagreedHaveNoCommonSchema(tables: seq<Target>, e: Candidates, instance: string)
    requires Unambiguous(tables, e) && !AllQualified(tables) && !Agreed(tables, e)
    ensures CommonSchemas(tables, OfInstance(e, instance)) == {}
  {
    var own: Candidates := OfInstance(e, instance);
    var i, j, r, r' :| 0 <= i < |tables| && 0 <= j < |tables| && !Qualified(tables[i]) && !Qualified(tables[j])
      && r in e[i] && r' in e[j] && r.schema != r'.schema;
    TwoSchemasShareNone(tables, e, instance, i, j, r, r');
  }

  lemma TwoSchemasShareNone(tables: seq<Target>, e: Candidates, instance: string, i: nat, j: nat, r: Row, r': Row)
    requires |e| == |tables| && Unambiguous(tables, e) && i < |tables| && j < |tables|
    requires !Qualified(tables[i]) && !Qualified(tables[j]) && r in e[i] && r' in e[j] && r.schema != r'.schema
    ensures CommonSchemas(tables, OfInstance(e, instance)) == {}
  {
    forall s ensures s !in CommonSchemas(tables, OfInstance(e, instance)) {
      OneSchemaOnly(tables, e, instance, i, r, s);
      OneSchemaOnly(tables, e, instance, j, r', s);
    }
  }

  ghost predicate IsFirstRows(tables: seq<Target>, e: Candidates, instance: string, plan: Plan) {
    && |e| == |tables| == |plan.rows|
    && (forall i | 0 <= i < |tables| ::
          OfInstance(e, instance)[i] != [] && plan.rows[i] == OfInstance(e, instance)[i][0])
    && (plan.connection.Some? <==> !AllQualified(tables))
    && (plan.connection.Some? ==> forall i, r | 0 <= i < |tables| && !Qualified(tables[i]) && r in e[i] ::
          r.schema == plan.connection.value)
    && (plan.connection.None? ==> !plan.usesDefault)
  }

  /** Once no unqualified target is ambiguous, a plan simply takes each target's first row on the
      instance: whether the default schema is preferred cannot matter. */
  lemma PlanIsFirstRows(tables: seq<Target>, e: Candidates, instance: string)
    requires Unambiguous(tables, e) && PlanFor(instance, tables, e).Some?
    ensures IsFirstRows(tables, e, instance, PlanFor(instance, tables, e).value)
  {
    var own: Candidates := OfInstance(e, instance);
    var c := ConnectionFor(tables, own);
    if c.Schema? {
      forall i | 0 <= i < |tables| && !Qualified(tables[i])
        ensures RowsIn(c.name, own[i]) == own[i] && forall r | r in e[i] :: r.schema == c.name
      {
        var q :| q in own[i] && q.schema == c.name;
        FilterAll((r: Row) => r.schema == c.name, own[i]);
      }
    }
  }

  lemma {:induction false} FilterAll<T(!new)>(p: T -> bool, xs: seq<T>)
    requires forall x | x in xs :: p(x)
    ensures Filter(p, xs) == xs
  {
    if xs == [] {
    } else {
      FilterAll(p, xs[1..]);
    }
  }

  /** With any unqualified target there is at most one plan. */
  lemma AtMostOnePlan(tables: seq<Target>, e: Candidates, a: string, b: string)
    requires Unambiguous(tables, e) && !AllQualified(tables)
    requires PlanFor(a, tables, e).Some? && PlanFor(b, tables, e).Some?
    ensures a == b
  {
    var u := FirstUnqualified(tables);
    PlanIsFirstRows(tables, e, a);
    PlanIsFirstRows(tables, e, b);
    assert OfInstance(e, a)[u][0] in OfInstance(e, a)[u] && OfInstance(e, b)[u][0] in OfInstance(e, b)[u];
  }

  /** So the best plan belongs to the least instance that has one. */
  lemma BestIsLeastInstance(tables: seq<Target>, e: Candidates, ids: set<string>, best: Choice, x: string)
    requires Unambiguous(tables, e) && IsBestChoice(tables, e, ids, Some(best))
    requires x in ids && PlanFor(x, tables, e).Some?
    ensures AtMost(best.instance, x)
  {
    AtMostTotal(x, best.instance);
    if AllQualified(tables) {
      PlanIsFirstRows(tables, e, x);
      PlanIsFirstRows(tables, e, best.instance);
      if x == best.instance {
        AtMostTotal(x, x);
      }
    } else {
      AtMostOnePlan(tables, e, x, best.instance);
    }
  }

  // ---- the operation --------------------------------------------------------------------------

  function FirstUsable(fold: Fold, instance: string, t: Target, rows: seq<Row>): Option<Row> {
    var usable := Filter((r: Row) => Usable(fold, instance, t, r), rows);
    if usable == [] then None else Some(usable[0])
  }

  lemma OwnRowsAreUsable(fold: Fold, rows: seq<Row>, tables: seq<Target>, instance: string, i: nat)
    requires i < |tables|
    ensures OfInstance(Enabled(fold, rows, tables), instance)[i]
         == Filter((r: Row) => Usable(fold, instance, tables[i], r), rows)
  {
    var matches, enabled, here := (r: Row) => Matches(fold, r, tables[i]), (r: Row) => r.enabled,
                                  (r: Row) => r.instance == instance;
    var matchesEnabled := (r: Row) => Matches(fold, r, tables[i]) && r.enabled;
    var usable := (r: Row) => Usable(fold, instance, tables[i], r);
    assert CandidatesFor(fold, rows, tables)[i] == Filter(matches, rows);
    assert Enabled(fold, rows, tables)[i] == Filter(enabled, Filter(matches, rows));
    FilterFilter(matches, enabled, matchesEnabled, rows);
    FilterFilter(matchesEnabled, here, usable, rows);
  }

  lemma ServesAgrees(fold: Fold, rows: seq<Row>, tables: seq<Target>, instance: string)
    ensures Serves(Enabled(fold, rows, tables), instance) <==> ServesAll(fold, Rows(rows), Targets(tables), instance)
  {
    var e: Candidates := Enabled(fold, rows, tables);
    if Serves(e, instance) {
      forall t | t in Targets(tables) ensures exists r | r in Rows(rows) :: Usable(fold, instance, t, r) {
        var i :| 0 <= i < |tables| && tables[i] == t;
        assert HasInstance(e[i], instance);
        var r :| r in e[i] && r.instance == instance;
        assert r in Rows(rows);
      }
    }
    if ServesAll(fold, Rows(rows), Targets(tables), instance) {
      forall i | 0 <= i < |tables| ensures HasInstance(e[i], instance) {
        assert tables[i] in Targets(tables);
        var r :| r in Rows(rows) && Usable(fold, instance, tables[i], r);
        assert r in e[i];
      }
    }
  }

  lemma AgreedAgrees(fold: Fold, rows: seq<Row>, tables: seq<Target>)
    ensures Agreed(tables, Enabled(fold, rows, tables)) <==> OneSchema(fold, Rows(rows), Targets(tables))
  {
    if OneSchema(fold, Rows(rows), Targets(tables)) {
      OneSchemaIsAgreed(fold, rows, tables);
    }
    if Agreed(tables, Enabled(fold, rows, tables)) {
      AgreedIsOneSchema(fold, rows, tables);
    }
  }

  lemma OneSchemaIsAgreed(fold: Fold, rows: seq<Row>, tables: seq<Target>)
    requires OneSchema(fold, Rows(rows), Targets(tables))
    ensures Agreed(tables, Enabled(fold, rows, tables))
  {
    var e: Candidates := Enabled(fold, rows, tables);
    forall i, j, r, r' | 0 <= i < |tables| && 0 <= j < |tables| && !Qualified(tables[i]) && !Qualified(tables[j])
                         && r in e[i] && r' in e[j]
      ensures r.schema == r'.schema
    {
      assert tables[i] in Targets(tables) && tables[j] in Targets(tables) && r in Rows(rows) && r' in Rows(rows);
    }
  }

  lemma AgreedIsOneSchema(fold: Fold, rows: seq<Row>, tables: seq<Target>)
    requires Agreed(tables, Enabled(fold, rows, tables))
    ensures OneSchema(fold, Rows(rows), Targets(tables))
  {
    var e: Candidates := Enabled(fold, rows, tables);
    forall t, t', r, r' | t in Targets(tables) && t' in Targets(tables) && r in Rows(rows) && r' in Rows(rows)
        && !Qualified(t) && !Qualified(t') && r.enabled && Matches(fold, r, t) && r'.enabled && Matches(fold, r', t')
      ensures r.schema == r'.schema
    {
      var i := CandidateOf(fold, rows, tables, t, r);
      var j := CandidateOf(fold, rows, tables, t', r');
    }
  }

  lemma CandidateOf(fold: Fold, rows: seq<Row>, tables: seq<Target>, t: Target, r: Row) returns (i: nat)
    requires t in Targets(tables) && r in Rows(rows) && r.enabled && Matches(fold, r, t)
    ensures i < |tables| && tables[i] == t && r in Enabled(fold, rows, tables)[i]
  {
    i :| 0 <= i < |tables| && tables[i] == t;
  }

  // ---- details of each answer -----------------------------------------------------------------

  function DecisionOf(tables: seq<Target>, a: Answer): Decision
    requires a.Full? ==> |a.resolved| == |tables|
  {
    match a
    case Rejected(AskSchemaForMissing(_)) => DAskSchemaForMissing
    case Rejected(MissingRoute) => DMissing
    case Rejected(InstanceDisabled(_)) => DDisabled
    case Rejected(AmbiguousTables(_)) => DAmbiguous
    case Rejected(AskSchemaForPlan(_)) => DAskSchemaForPlan
    case Rejected(NoCommonInstance) => DNoCommonInstance
    case Rejected(MixedInstances) => DNoCommonInstance
    case Full(route, resolved) =>
      DFull(route.instance, if AllQualified(tables) then None else resolved[FirstUnqualified(tables)].schema)
  }

  ghost predicate IsSortedSet(xs: seq<string>, s: set<string>) {
    Ascending(xs) && Distinct(xs) && forall x :: x in xs <==> x in s
  }

  ghost function DisabledInstances(fold: Fold, rows: seq<Row>, tables: seq<Target>): set<string> {
    set t, r | t in tables && r in rows && Matches(fold, r, t) && !r.enabled :: r.instance
  }

  ghost predicate ReasonDetails(fold: Fold, rows: seq<Row>, tables: seq<Target>, reason: Reason) {
    match reason
    case AskSchemaForMissing(names) => AsksFor(tables, names)
    case MissingRoute => true
    case InstanceDisabled(instances) => IsSortedSet(instances, DisabledInstances(fold, rows, tables))
    case AmbiguousTables(names) =>
      && names == Sorted(AmbiguousNames(tables, Enabled(fold, rows, tables)))
      && names != [] && Ascending(names)
      && forall n :: n in names <==>
           exists i | 0 <= i < |tables| ::
             AmbiguousTable(tables[i], Enabled(fold, rows, tables)[i]) && tables[i].table == n
    case AskSchemaForPlan(names) => AsksFor(tables, names)
    case NoCommonInstance => true
    case MixedInstances => false
  }

  /** Every table is resolved to its first enabled match on the chosen instance; the route is the
      first table's, with the schema of the unqualified tables as default when there are any. */
  ghost predicate FullDetails(fold: Fold, rows: seq<Row>, tables: seq<Target>, route: Route, resolved: seq<Target>) {
    && tables != [] && |resolved| == |tables|
    && (forall i | 0 <= i < |tables| :: FirstUsable(fold, route.instance, tables[i], rows).Some?)
    && (forall i | 0 <= i < |tables| ::
          var r := FirstUsable(fold, route.instance, tables[i], rows).value;
          resolved[i] == Target(Some(r.schema), r.table))
    && route.endpoint == FirstUsable(fold, route.instance, tables[0], rows).value.endpoint
    && route.defaultSchema == (
         if !AllQualified(tables) && Named(resolved[FirstUnqualified(tables)].schema)
         then resolved[FirstUnqualified(tables)].schema
         else FirstUsable(fold, route.instance, tables[0], rows).value.defaultSchema)
    && IsSortedSet(route.schemaNames, set t | t in resolved && t.schema.Some? :: t.schema.value)
  }

  method SortedSet(xs: seq<string>) returns (r: seq<string>)
    ensures IsSortedSet(r, set x | x in xs)
  {
    var found: seq<string> := [];
    for i := 0 to |xs|
      invariant Distinct(found) && forall x :: x in found <==> x in xs[..i]
    {
      assert xs[..i + 1] == xs[..i] + [xs[i]];
      if xs[i] !in found {
        found := found + [xs[i]];
      }
    }
    assert xs[..|xs|] == xs;
    SortedCorrect(found);
    SortedMembers(found);
    SortedKeepsDistinct(found);
    r := Sorted(found);
  }

  method DisabledIds(fold: Fold, rows: seq<Row>, tables: seq<Target>) returns (ids: seq<string>)
    ensures IsSortedSet(ids, DisabledInstances(fold, rows, tables))
  {
    var found: seq<string> := [];
    for i := 0 to |tables|
      invariant forall x :: x in found <==> x in DisabledInstances(fold, rows, tables[..i])
    {
      var off := Filter((r: Row) => Matches(fold, r, tables[i]) && !r.enabled, rows);
      found := found + seq(|off|, j requires 0 <= j < |off| => off[j].instance);
      DisabledSnoc(fold, rows, tables, i, off);
    }
    assert tables[..|tables|] == tables;
    ids := SortedSet(found);
  }

  lemma DisabledSnoc(fold: Fold, rows: seq<Row>, tables: seq<Target>, i: nat, off: seq<Row>)
    requires i < |tables|
    requires forall r :: r in off <==> r in rows && Matches(fold, r, tables[i]) && !r.enabled
    ensures forall x :: x in DisabledInstances(fold, rows, tables[..i + 1])
                   <==> x in DisabledInstances(fold, rows, tables[..i])
                        || x in seq(|off|, j requires 0 <= j < |off| => off[j].instance)
  {
    var names := seq(|off|, j requires 0 <= j < |off| => off[j].instance);
    assert tables[..i + 1] == tables[..i] + [tables[i]];
    forall r | r in off ensures r.instance in names {
      var j :| 0 <= j < |off| && off[j] == r;
      assert names[j] == r.instance;
    }
    forall x | x in names ensures x in DisabledInstances(fold, rows, tables[..i + 1]) {
      var j :| 0 <= j < |names| && names[j] == x;
      assert off[j] in off && tables[i] in tables[..i + 1];
    }
  }

  // ---- putting it together --------------------------------------------------------------------

  /** Some instance serves every target. */
  ghost predicate CommonInstance(cands: Candidates) {
    cands != [] && exists x :: Serves(cands, x)
  }

  method HasCommonInstance(cands: Candidates) returns (found: bool)
    ensures found <==> CommonInstance(cands)
  {
    if cands == [] {
      return false;
    }
    var common := InstancesOf(cands[0]);
    for i := 1 to |cands|
      invariant forall x :: x in common <==> forall j | 0 <= j < i :: HasInstance(cands[j], x)
    {
      forall x ensures x in InstancesOf(cands[i]) <==> HasInstance(cands[i], x) {}
      common := common * InstancesOf(cands[i]);
    }
    assert forall x :: x in common <==> Serves(cands, x);
    found := common != {};
  }

  lemma SomeInstanceAgrees(fold: Fold, rows: seq<Row>, tables: seq<Target>)
    ensures SomeInstance(fold, Rows(rows), Targets(tables))
       <==> tables != [] && exists x :: Serves(Enabled(fold, rows, tables), x)
  {
    var e: Candidates := Enabled(fold, rows, tables);
    if tables != [] {
      assert tables[0] in Targets(tables);
      if x :| Serves(e, x) {
        ServesAgrees(fold, rows, tables, x);
        assert HasInstance(e[0], x);
        var r :| r in e[0] && r.instance == x;
        assert r in Rows(rows);
      }
    }
    if r :| r in Rows(rows) && ServesAll(fold, Rows(rows), Targets(tables), r.instance) {
      ServesAgrees(fold, rows, tables, r.instance);
    }
  }

  /** Without a plan, either no instance serves all targets or the unqualified ones disagree. */
  lemma NoPlanMeans(fold: Fold, rows: seq<Row>, tables: seq<Target>)
    requires Unambiguous(tables, Enabled(fold, rows, tables))
    requires IsBestChoice(tables, Enabled(fold, rows, tables), AllInstances(Enabled(fold, rows, tables)), None)
    ensures SomeInstance(fold, Rows(rows), Targets(tables)) ==> !OneSchema(fold, Rows(rows), Targets(tables))
  {
    SomeInstanceAgrees(fold, rows, tables);
    AgreedAgrees(fold, rows, tables);
    if SomeInstance(fold, Rows(rows), Targets(tables)) {
      NoPlanMeansDisagreed(tables, Enabled(fold, rows, tables));
    }
  }

  lemma NoPlanMeansDisagreed(tables: seq<Target>, e: Candidates)
    requires |e| == |tables| && tables != [] && Unambiguous(tables, e)
    requires IsBestChoice(tables, e, AllInstances(e), None) && exists x :: Serves(e, x)
    ensures !Agreed(tables, e)
  {
    var x :| Serves(e, x);
    PlanExistsIff(tables, e, x);
    assert HasInstance(e[0], x);
    assert x in AllInstances(e);
  }

  ghost predicate LeastServing(fold: Fold, R: set<Row>, T: set<Target>, instance: string) {
    forall r | r in R :: ServesAll(fold, R, T, r.instance) ==> AtMost(instance, r.instance)
  }

  lemma FullIsDecided(fold: Fold, R: set<Row>, T: set<Target>, instance: string, schema: Option<string>)
    requires !MissingSpec(fold, R, T) && !DisabledSpec(fold, R, T) && !AmbiguousSpec(fold, R, T)
    requires SomeInstance(fold, R, T) && OneSchema(fold, R, T)
    requires ServesAll(fold, R, T, instance) && LeastServing(fold, R, T, instance) && PickedSchema(fold, R, T, schema)
    ensures Decides(fold, R, T, DFull(instance, schema))
  {
  }

  lemma PlanMeans(fold: Fold, rows: seq<Row>, tables: seq<Target>, best: Choice)
    requires Unambiguous(tables, Enabled(fold, rows, tables))
    requires IsBestChoice(tables, Enabled(fold, rows, tables), AllInstances(Enabled(fold, rows, tables)), Some(best))
    ensures tables != [] && SomeInstance(fold, Rows(rows), Targets(tables))
    ensures OneSchema(fold, Rows(rows), Targets(tables))
    ensures ServesAll(fold, Rows(rows), Targets(tables), best.instance)
  {
    var e: Candidates := Enabled(fold, rows, tables);
    PlanExistsIff(tables, e, best.instance);
    SomeInstanceAgrees(fold, rows, tables);
    AgreedAgrees(fold, rows, tables);
    ServesAgrees(fold, rows, tables, best.instance);
  }

  lemma PlanIsLeast(fold: Fold, rows: seq<Row>, tables: seq<Target>, best: Choice)
    requires Unambiguous(tables, Enabled(fold, rows, tables))
    requires IsBestChoice(tables, Enabled(fold, rows, tables), AllInstances(Enabled(fold, rows, tables)), Some(best))
    ensures LeastServing(fold, Rows(rows), Targets(tables), best.instance)
  {
    var e: Candidates := Enabled(fold, rows, tables);
    PlanMeans(fold, rows, tables, best);
    AgreedAgrees(fold, rows, tables);
    forall r | r in Rows(rows) && ServesAll(fold, Rows(rows), Targets(tables), r.instance)
      ensures AtMost(best.instance, r.instance)
    {
      ServesAgrees(fold, rows, tables, r.instance);
      PlanExistsIff(tables, e, r.instance);
      assert HasInstance(e[0], r.instance);
      assert r.instance in AllInstances(e);
      BestIsLeastInstance(tables, e, AllInstances(e), best, r.instance);
    }
  }

  lemma PlanRowsAreFirstUsable(fold: Fold, rows: seq<Row>, tables: seq<Target>, best: Choice)
    requires Unambiguous(tables, Enabled(fold, rows, tables))
    requires PlanFor(best.instance, tables, Enabled(fold, rows, tables)) == Some(best.plan)
    ensures |best.plan.rows| == |tables|
    ensures forall i | 0 <= i < |tables| :: FirstUsable(fold, best.instance, tables[i], rows) == Some(best.plan.rows[i])
    ensures forall i | 0 <= i < |tables| :: best.plan.rows[i].instance == best.instance
  {
    var e: Candidates := Enabled(fold, rows, tables);
    PlanIsFirstRows(tables, e, best.instance);
    forall i | 0 <= i < |tables|
      ensures FirstUsable(fold, best.instance, tables[i], rows) == Some(best.plan.rows[i])
      ensures best.plan.rows[i].instance == best.instance
    {
      OwnRowsAreUsable(fold, rows, tables, best.instance, i);
      assert OfInstance(e, best.instance)[i][0] in OfInstance(e, best.instance)[i];
    }
  }

  /** The schema of the first unqualified table among the chosen rows, if there is one. */
  function ConnectionOf(tables: seq<Target>, rows: seq<Row>): Option<string>
    requires |rows| == |tables|
  {
    if AllQualified(tables) then None else Some(rows[FirstUnqualified(tables)].schema)
  }

  lemma PlanPicksSchema(fold: Fold, rows: seq<Row>, tables: seq<Target>, best: Choice)
    requires IsFirstRows(tables, Enabled(fold, rows, tables), best.instance, best.plan)
    ensures |best.plan.rows| == |tables| && best.plan.connection == ConnectionOf(tables, best.plan.rows)
    ensures PickedSchema(fold, Rows(rows), Targets(tables), ConnectionOf(tables, best.plan.rows))
  {
    var e: Candidates := Enabled(fold, rows, tables);
    if AllQualified(tables) {
      NothingToPick(fold, rows, tables);
    } else {
      ConnectionIsFirstSchema(tables, e, best);
      SchemaIsPicked(fold, rows, tables, best.plan.rows[FirstUnqualified(tables)].schema);
    }
  }

  lemma NothingToPick(fold: Fold, rows: seq<Row>, tables: seq<Target>)
    requires AllQualified(tables)
    ensures PickedSchema(fold, Rows(rows), Targets(tables), None)
  {
    forall t | t in Targets(tables) ensures Qualified(t) {
      var i :| 0 <= i < |tables| && tables[i] == t;
    }
  }

  lemma ConnectionIsFirstSchema(tables: seq<Target>, e: Candidates, best: Choice)
    requires IsFirstRows(tables, e, best.instance, best.plan) && !AllQualified(tables)
    ensures best.plan.connection == Some(best.plan.rows[FirstUnqualified(tables)].schema)
  {
    var u := FirstUnqualified(tables);
    assert OfInstance(e, best.instance)[u][0] in OfInstance(e, best.instance)[u];
  }

  lemma SchemaIsPicked(fold: Fold, rows: seq<Row>, tables: seq<Target>, schema: string)
    requires !AllQualified(tables)
    requires forall i, r | 0 <= i < |tables| && !Qualified(tables[i]) && r in Enabled(fold, rows, tables)[i] ::
               r.schema == schema
    ensures PickedSchema(fold, Rows(rows), Targets(tables), Some(schema))
  {
    var e: Candidates := Enabled(fold, rows, tables);
    assert tables[FirstUnqualified(tables)] in Targets(tables);
    forall t, r | t in Targets(tables) && r in Rows(rows) && !Qualified(t) && r.enabled && Matches(fold, r, t)
      ensures r.schema == schema
    {
      var i :| 0 <= i < |tables| && tables[i] == t;
      assert r in e[i];
    }
  }

  function ResolvedOf(selected: seq<Row>): (r: seq<Target>)
    ensures |r| == |selected|
    ensures forall i | 0 <= i < |r| :: r[i] == Target(Some(selected[i].schema), selected[i].table)
  {
    seq(|selected|, i requires 0 <= i < |selected| => Target(Some(selected[i].schema), selected[i].table))
  }

  function SchemaListOf(selected: seq<Row>): (r: seq<string>)
    ensures |r| == |selected| && forall i | 0 <= i < |r| :: r[i] == selected[i].schema
  {
    seq(|selected|, i requires 0 <= i < |selected| => selected[i].schema)
  }

  /** The program also provides for a plan over several instances; that branch cannot be reached. */
  method BuildAnswer(fold: Fold, rows: seq<Row>, tables: seq<Target>, best: Choice) returns (a: Answer)
    requires Unambiguous(tables, Enabled(fold, rows, tables)) && tables != []
    requires PlanFor(best.instance, tables, Enabled(fold, rows, tables)) == Some(best.plan)
    ensures a.Full? && FullDetails(fold, rows, tables, a.route, a.resolved)
    ensures DecisionOf(tables, a) == DFull(best.instance, best.plan.connection)
  {
    PlanRowsAreFirstUsable(fold, rows, tables, best);
    PlanIsFirstRows(tables, Enabled(fold, rows, tables), best.instance);
    PlanPicksSchema(fold, rows, tables, best);
    var selected := best.plan.rows;
    OneInstance(selected, best.instance);
    if |InstancesOf(selected)| != 1 {
      assert false;
      return Rejected(MixedInstances);
    }
    var first := selected[0];
    var names := SortedSet(SchemaListOf(selected));
    SchemaNamesAgree(selected, ResolvedOf(selected));
    a := Full(Route(first.instance, first.endpoint,
                    if Named(best.plan.connection) then best.plan.connection else first.defaultSchema, names),
              ResolvedOf(selected));
  }

  lemma OneInstance(selected: seq<Row>, instance: string)
    requires selected != [] && forall i | 0 <= i < |selected| :: selected[i].instance == instance
    ensures |InstancesOf(selected)| == 1
  {
    assert selected[0] in selected;
    assert InstancesOf(selected) == {instance};
  }

  lemma SchemaNamesAgree(selected: seq<Row>, resolved: seq<Target>)
    requires resolved == ResolvedOf(selected)
    ensures forall x :: x in SchemaListOf(selected) <==> x in set t | t in resolved && t.schema.Some? :: t.schema.value
  {
    var names := SchemaListOf(selected);
    var targets := set t | t in resolved && t.schema.Some? :: t.schema.value;
    forall x | x in names ensures x in targets {
      var i :| 0 <= i < |names| && names[i] == x;
      assert resolved[i] in resolved;
    }
    forall x | x in targets ensures x in names {
      var t :| t in resolved && t.schema.Some? && t.schema.value == x;
      var i :| 0 <= i < |resolved| && resolved[i] == t;
      assert names[i] == x;
    }
  }

  /** The router meets its specification on all rows and all targets. */
  method ResolveWithTables(fold: Fold, rows: seq<Row>, tables: seq<Target>) returns (a: Answer)
    ensures a.Rejected? ==> ReasonDetails(fold, rows, tables, a.reason)
    ensures a.Full? ==> FullDetails(fold, rows, tables, a.route, a.resolved)
    ensures Decides(fold, Rows(rows), Targets(tables), DecisionOf(tables, a))
  {
    var cands: Candidates := CandidatesFor(fold, rows, tables);
    MissingAgrees(fold, rows, tables);
    if rows == [] || exists i | 0 <= i < |cands| :: cands[i] == [] {
      var names := UnqualifiedTableNames(tables);
      return Rejected(if |names| > 1 then AskSchemaForMissing(names) else MissingRoute);
    }

    var e: Candidates := Enabled(fold, rows, tables);
    DisabledAgrees(fold, rows, tables);
    if exists i | 0 <= i < |e| :: e[i] == [] {
      var disabled := DisabledIds(fold, rows, tables);
      return Rejected(InstanceDisabled(disabled));
    }

    AmbiguousAgrees(fold, rows, tables);
    var ambiguous := AmbiguousUnqualifiedTables(tables, e);
    if ambiguous != [] {
      SortedCorrect(ambiguous);
      SortedMembers(ambiguous);
      return Rejected(AmbiguousTables(Sorted(ambiguous)));
    }

    NotAmbiguousIsUnambiguous(tables, e);
    a := Plans(fold, rows, tables);
  }

  /** No row test applies and no unqualified target is ambiguous. */
  ghost predicate Plannable(fold: Fold, rows: seq<Row>, tables: seq<Target>) {
    && !MissingSpec(fold, Rows(rows), Targets(tables)) && !DisabledSpec(fold, Rows(rows), Targets(tables))
    && !AmbiguousSpec(fold, Rows(rows), Targets(tables)) && Unambiguous(tables, Enabled(fold, rows, tables))
  }

  method Plans(fold: Fold, rows: seq<Row>, tables: seq<Target>) returns (a: Answer)
    requires Plannable(fold, rows, tables)
    ensures a.Rejected? ==> ReasonDetails(fold, rows, tables, a.reason)
    ensures a.Full? ==> FullDetails(fold, rows, tables, a.route, a.resolved)
    ensures Decides(fold, Rows(rows), Targets(tables), DecisionOf(tables, a))
  {
    var e: Candidates := Enabled(fold, rows, tables);
    var best := SelectRoutePlan(tables, e);
    if best.None? {
      DecidesWithoutPlan(fold, rows, tables);
      var reason := RejectUnplanned(tables, e);
      a := Rejected(reason);
    } else {
      DecidesWithPlan(fold, rows, tables, best.value);
      a := BuildAnswer(fold, rows, tables, best.value);
    }
  }

  /** The two rejections left when no instance has a plan. */
  method RejectUnplanned(tables: seq<Target>, cands: Candidates) returns (reason: Reason)
    ensures CommonInstance(cands) ==> reason.AskSchemaForPlan? && AsksFor(tables, reason.names)
    ensures !CommonInstance(cands) ==> reason == NoCommonInstance
  {
    var common := HasCommonInstance(cands);
    if common {
      var names := UnqualifiedTableNames(tables);
      return AskSchemaForPlan(names);
    }
    reason := NoCommonInstance;
  }

  lemma DecidesWithoutPlan(fold: Fold, rows: seq<Row>, tables: seq<Target>)
    requires Plannable(fold, rows, tables)
    requires IsBestChoice(tables, Enabled(fold, rows, tables), AllInstances(Enabled(fold, rows, tables)), None)
    ensures Decides(fold, Rows(rows), Targets(tables),
                    if CommonInstance(Enabled(fold, rows, tables)) then DAskSchemaForPlan else DNoCommonInstance)
  {
    NoPlanMeans(fold, rows, tables);
    SomeInstanceAgrees(fold, rows, tables);
  }

  lemma DecidesWithPlan(fold: Fold, rows: seq<Row>, tables: seq<Target>, best: Choice)
    requires Plannable(fold, rows, tables)
    requires IsBestChoice(tables, Enabled(fold, rows, tables), AllInstances(Enabled(fold, rows, tables)), Some(best))
    ensures tables != []
    ensures Decides(fold, Rows(rows), Targets(tables), DFull(best.instance, best.plan.connection))
  {
    PlanMeans(fold, rows, tables, best);
    PlanIsLeast(fold, rows, tables, best);
    PlanIsFirstRows(tables, Enabled(fold, rows, tables), best.instance);
    PlanPicksSchema(fold, rows, tables, best);
    FullIsDecided(fold, Rows(rows), Targets(tables), best.instance, best.plan.connection);
  }

  // ---- theorems -------------------------------------------------------------------------------

  /** The specification leaves no choice. */
  lemma DecisionIsUnique(fold: Fold, R: set<Row>, T: set<Target>, d: Decision, d': Decision)
    requires Decides(fold, R, T, d) && Decides(fold, R, T, d')
    ensures d == d'
  {
    if d.DFull? {
      var t :| t in T;
      var r :| r in R && Usable(fold, d.instance, t, r);
      var r' :| r' in R && Usable(fold, d'.instance, t, r');
      AtMostAntisymmetric(d.instance, d'.instance);
      PickedSchemaIsUnique(fold, R, T, d.instance, d.schema, d'.schema);
    }
  }

  lemma PickedSchemaIsUnique(fold: Fold, R: set<Row>, T: set<Target>, instance: string, s: Option<string>,
                             s': Option<string>)
    requires ServesAll(fold, R, T, instance) && PickedSchema(fold, R, T, s) && PickedSchema(fold, R, T, s')
    ensures s == s'
  {
    if s.Some? {
      var t :| t in T && !Qualified(t);
      var r :| r in R && Usable(fold, instance, t, r);
      assert r.schema == s.value == s'.value;
    }
  }

  ghost predicate IsAnswer(fold: Fold, rows: seq<Row>, tables: seq<Target>, a: Answer) {
    && (a.Rejected? ==> ReasonDetails(fold, rows, tables, a.reason))
    && (a.Full? ==> FullDetails(fold, rows, tables, a.route, a.resolved))
    && Decides(fold, Rows(rows), Targets(tables), DecisionOf(tables, a))
  }

  /** Reordering (or repeating) rows and targets changes neither the status, nor the kind of
      rejection, nor the instance, nor the schema found for unqualified tables. */
  lemma RoutingIsOrderIndependent(fold: Fold, rows: seq<Row>, tables: seq<Target>, a: Answer,
                                  rows': seq<Row>, tables': seq<Target>, a': Answer)
    requires IsAnswer(fold, rows, tables, a) && IsAnswer(fold, rows', tables', a')
    requires (forall r :: r in rows <==> r in rows') && (forall t :: t in tables <==> t in tables')
    ensures DecisionOf(tables, a) == DecisionOf(tables', a')
  {
    assert Rows(rows) == Rows(rows') && Targets(tables) == Targets(tables');
    DecisionIsUnique(fold, Rows(rows), Targets(tables), DecisionOf(tables, a), DecisionOf(tables', a'));
  }

  /** FULL exactly when there are targets, no unqualified one is ambiguous, the unqualified ones
      share a schema, and some instance serves all with enabled rows. */
  lemma FullIff(fold: Fold, rows: seq<Row>, tables: seq<Target>, a: Answer)
    requires IsAnswer(fold, rows, tables, a)
    ensures a.Full? <==>
              && !AmbiguousSpec(fold, Rows(rows), Targets(tables)) && OneSchema(fold, Rows(rows), Targets(tables))
              && SomeInstance(fold, Rows(rows), Targets(tables))
  {
    FullDecisionIff(fold, Rows(rows), Targets(tables), DecisionOf(tables, a));
    DecisionIsFullIff(tables, a);
  }

  lemma DecisionIsFullIff(tables: seq<Target>, a: Answer)
    requires a.Full? ==> |a.resolved| == |tables|
    ensures DecisionOf(tables, a).DFull? <==> a.Full?
  {
  }

  lemma FullDecisionIff(fold: Fold, R: set<Row>, T: set<Target>, d: Decision)
    requires Decides(fold, R, T, d)
    ensures d.DFull? <==> !AmbiguousSpec(fold, R, T) && OneSchema(fold, R, T) && SomeInstance(fold, R, T)
  {
    if SomeInstance(fold, R, T) {
      ServedIsPresent(fold, R, T);
    }
  }

  lemma ServedIsPresent(fold: Fold, R: set<Row>, T: set<Target>)
    requires SomeInstance(fold, R, T)
    ensures !MissingSpec(fold, R, T) && !DisabledSpec(fold, R, T)
  {
    var r :| r in R && ServesAll(fold, R, T, r.instance);
    forall t | t in T ensures exists q | q in R :: q.enabled && Matches(fold, q, t) {
      var q :| q in R && Usable(fold, r.instance, t, q);
    }
  }

  /** For fully qualified targets the router never asks for a schema. */
  lemma QualifiedNeverAsked(fold: Fold, rows: seq<Row>, tables: seq<Target>, a: Answer)
    requires IsAnswer(fold, rows, tables, a) && AllQualified(tables)
    ensures a.Rejected? ==> !a.reason.AskSchemaForMissing? && !a.reason.AmbiguousTables? && !a.reason.AskSchemaForPlan?
  {
    forall t | t in Targets(tables) ensures Qualified(t) {
      var i :| 0 <= i < |tables| && tables[i] == t;
    }
    QualifiedDecision(fold, Rows(rows), Targets(tables), DecisionOf(tables, a));
  }

  lemma QualifiedDecision(fold: Fold, R: set<Row>, T: set<Target>, d: Decision)
    requires Decides(fold, R, T, d) && forall t | t in T :: Qualified(t)
    ensures !d.DAskSchemaForMissing? && !d.DAmbiguous? && !d.DAskSchemaForPlan?
  {
  }

  /** There are rows, and every target has an enabled match. */
  ghost predicate AllMatched(fold: Fold, R: set<Row>, T: set<Target>) {
    R != {} && forall t | t in T :: exists r | r in R :: r.enabled && Matches(fold, r, t)
  }

  lemma AllMatchedIff(fold: Fold, R: set<Row>, T: set<Target>)
    ensures AllMatched(fold, R, T) <==> !MissingSpec(fold, R, T) && !DisabledSpec(fold, R, T)
  {
  }

  /** The router finds no common instance exactly when every target has an enabled match, none is
      ambiguous, and no instance serves all targets. */
  lemma NoCommonInstanceIff(fold: Fold, rows: seq<Row>, tables: seq<Target>, a: Answer)
    requires IsAnswer(fold, rows, tables, a)
    ensures a == Rejected(NoCommonInstance)
       <==> AllMatched(fold, Rows(rows), Targets(tables)) && !AmbiguousSpec(fold, Rows(rows), Targets(tables))
            && !SomeInstance(fold, Rows(rows), Targets(tables))
  {
    AllMatchedIff(fold, Rows(rows), Targets(tables));
    NoCommonDecisionIff(fold, Rows(rows), Targets(tables), DecisionOf(tables, a));
  }

  lemma NoCommonDecisionIff(fold: Fold, R: set<Row>, T: set<Target>, d: Decision)
    requires Decides(fold, R, T, d)
    ensures d == DNoCommonInstance
       <==> !MissingSpec(fold, R, T) && !DisabledSpec(fold, R, T) && !AmbiguousSpec(fold, R, T)
            && !SomeInstance(fold, R, T)
  {
  }

  lemma QualifiedAreUnambiguous(fold: Fold, rows: seq<Row>, tables: seq<Target>)
    requires AllQualified(tables)
    ensures !AmbiguousSpec(fold, Rows(rows), Targets(tables))
  {
    forall t | t in Targets(tables) ensures Qualified(t) {
      var i :| 0 <= i < |tables| && tables[i] == t;
    }
  }
}
