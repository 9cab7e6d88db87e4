/** The metadata router: from the tables of a query to one row of one enabled instance per table.
    `Decides` is its declarative specification, over the set of rows and the set of targets;
    `ResolveWithTables` is the program. Case folding is the parameter `fold`. */
module Router {
  import opened Options
  import opened Text

  type Fold = string -> string

  datatype Endpoint = Endpoint(dbType: string, version: Option<string>, host: string, port: int,
                               username: string, password: string)

  datatype Row = Row(schema: string, table: string, instance: string, defaultSchema: Option<string>,
                     enabled: bool, endpoint: Endpoint)

  datatype Target = Target(schema: Option<string>, table: string)

  datatype Route = Route(instance: string, endpoint: Endpoint, defaultSchema: Option<string>, schemaNames: seq<string>)

  /** The rejections, in the order in which they are tested. */
  datatype Reason =
    | AskSchemaForMissing(names: seq<string>)
    | MissingRoute
    | InstanceDisabled(instances: seq<string>)
    | AmbiguousTables(names: seq<string>)
    | AskSchemaForPlan(names: seq<string>)
    | NoCommonInstance
    | MixedInstances

  datatype Answer = Rejected(reason: Reason) | Full(route: Route, resolved: seq<Target>)

  predicate Named(s: Option<string>) { s.Some? && s.value != "" }

  predicate Qualified(t: Target) { Named(t.schema) }

  predicate Matches(fold: Fold, r: Row, t: Target) {
    && fold(r.table) == fold(t.table)
    && (Qualified(t) ==> fold(r.schema) == fold(t.schema.value))
  }

  /** An enabled match of `t` on one instance. */
  predicate Usable(fold: Fold, instance: string, t: Target, r: Row) {
    r.enabled && Matches(fold, r, t) && r.instance == instance
  }

  // ---- specification --------------------------------------------------------------------------

  datatype Decision =
    | DAskSchemaForMissing | DMissing | DDisabled | DAmbiguous | DAskSchemaForPlan | DNoCommonInstance
    | DFull(instance: string, schema: Option<string>)

  ghost predicate MissingSpec(fold: Fold, R: set<Row>, T: set<Target>) {
    R == {} || exists t | t in T :: forall r | r in R :: !Matches(fold, r, t)
  }

  ghost predicate SeveralUnqualifiedNames(T: set<Target>) {
    exists t, t' | t in T && t' in T :: !Qualified(t) && !Qualified(t') && t.table != t'.table
  }

  ghost predicate DisabledSpec(fold: Fold, R: set<Row>, T: set<Target>) {
    exists t | t in T :: forall r | r in R :: !(r.enabled && Matches(fold, r, t))
  }

  ghost predicate AmbiguousSpec(fold: Fold, R: set<Row>, T: set<Target>) {
    exists t, r, r' | t in T && r in R && r' in R ::
      && !Qualified(t)
      && r.enabled && Matches(fold, r, t) && r'.enabled && Matches(fold, r', t)
      && (r.instance != r'.instance || r.schema != r'.schema)
  }

  ghost predicate ServesAll(fold: Fold, R: set<Row>, T: set<Target>, instance: string) {
    forall t | t in T :: exists r | r in R :: Usable(fold, instance, t, r)
  }

  /** All unqualified targets live in one schema. */
  ghost predicate OneSchema(fold: Fold, R: set<Row>, T: set<Target>) {
    forall t, t', r, r' | t in T && t' in T && r in R && r' in R ::
      !Qualified(t) && !Qualified(t') && r.enabled && Matches(fold, r, t) && r'.enabled && Matches(fold, r', t')
      ==> r.schema == r'.schema
  }

  ghost predicate SomeInstance(fold: Fold, R: set<Row>, T: set<Target>) {
    T != {} && exists r | r in R :: ServesAll(fold, R, T, r.instance)
  }

  ghost predicate PickedSchema(fold: Fold, R: set<Row>, T: set<Target>, schema: Option<string>) {
    && (schema.Some? <==> exists t | t in T :: !Qualified(t))
    && (schema.Some? ==> forall t, r | t in T && r in R ::
          !Qualified(t) && r.enabled && Matches(fold, r, t) ==> r.schema == schema.value)
  }

  ghost predicate Decides(fold: Fold, R: set<Row>, T: set<Target>, d: Decision) {
    if MissingSpec(fold, R, T) then
      d == (if SeveralUnqualifiedNames(T) then DAskSchemaForMissing else DMissing)
    else if DisabledSpec(fold, R, T) then
      d == DDisabled
    else if AmbiguousSpec(fold, R, T) then
      d == DAmbiguous
    else if !SomeInstance(fold, R, T) then
      d == DNoCommonInstance
    else if !OneSchema(fold, R, T) then
      d == DAskSchemaForPlan
    else
      && d.DFull?
      && ServesAll(fold, R, T, d.instance)
      && (forall r | r in R :: ServesAll(fold, R, T, r.instance) ==> AtMost(d.instance, r.instance))
      && PickedSchema(fold, R, T, d.schema)
  }

  // ---- building blocks of the program ---------------------------------------------------------

  function Filter<T(!new)>(p: T -> bool, xs: seq<T>): (r: seq<T>)
    ensures forall x :: x in r <==> x in xs && p(x)
  {
    if xs == [] then []
    else
      assert xs == [xs[0]] + xs[1..];
      (if p(xs[0]) then [xs[0]] else []) + Filter(p, xs[1..])
  }

  lemma {:induction false} FilterFilter<T(!new)>(p: T -> bool, q: T -> bool, both: T -> bool, xs: seq<T>)
    requires forall x | x in xs :: both(x) <==> p(x) && q(x)
    ensures Filter(q, Filter(p, xs)) == Filter(both, xs)
  {
    if xs == [] {
    } else {
      FilterFilter(p, q, both, xs[1..]);
      assert xs[0] in xs;
      if p(xs[0]) {
        assert Filter(p, xs) == [xs[0]] + Filter(p, xs[1..]);
      } else {
        assert Filter(p, xs) == Filter(p, xs[1..]);
      }
    }
  }

  type Candidates = seq<seq<Row>>

  function CandidatesFor(fold: Fold, rows: seq<Row>, tables: seq<Target>): (c: Candidates)
    ensures |c| == |tables|
    ensures forall i | 0 <= i < |c| :: c[i] == Filter((r: Row) => Matches(fold, r, tables[i]), rows)
  {
    seq(|tables|, i requires 0 <= i < |tables| => Filter((r: Row) => Matches(fold, r, tables[i]), rows))
  }

  function EnabledOnly(cands: Candidates): (c: Candidates)
    ensures |c| == |cands|
    ensures forall i | 0 <= i < |c| :: c[i] == Filter((r: Row) => r.enabled, cands[i])
  {
    seq(|cands|, i requires 0 <= i < |cands| => Filter((r: Row) => r.enabled, cands[i]))
  }

  function OfInstance(cands: Candidates, instance: string): (c: Candidates)
    ensures |c| == |cands|
    ensures forall i | 0 <= i < |c| :: c[i] == Filter((r: Row) => r.instance == instance, cands[i])
  {
    seq(|cands|, i requires 0 <= i < |cands| => Filter((r: Row) => r.instance == instance, cands[i]))
  }

  function SchemasOf(rows: seq<Row>): set<string> { set r | r in rows :: r.schema }

  function InstancesOf(rows: seq<Row>): set<string> { set r | r in rows :: r.instance }

  predicate AllQualified(tables: seq<Target>) { forall i | 0 <= i < |tables| :: Qualified(tables[i]) }

  function FirstUnqualified(tables: seq<Target>): (u: nat)
    requires !AllQualified(tables)
    ensures u < |tables| && !Qualified(tables[u])
  {
    if !Qualified(tables[0]) then 0 else 1 + FirstUnqualified(tables[1..])
  }

  /** The schemas in which every unqualified target has a row. */
  ghost function CommonSchemas(tables: seq<Target>, own: Candidates): set<string>
    requires |own| == |tables| && !AllQualified(tables)
  {
    set s | s in SchemasOf(own[FirstUnqualified(tables)])
            && forall i | 0 <= i < |tables| && !Qualified(tables[i]) :: s in SchemasOf(own[i])
  }

  datatype Plan = Plan(rows: seq<Row>, connection: Option<string>, usesDefault: bool)

  ghost function Least(s: set<string>): string
    requires s != {}
  {
    LeastExists(s);
    var x :| IsLeast(x, s);
    x
  }

  lemma {:induction false} LeastExists(s: set<string>)
    requires s != {}
    ensures exists x :: IsLeast(x, s)
    decreases |s|
  {
    var y :| y in s;
    AtMostTotal(y, y);
    if s == {y} {
      assert IsLeast(y, s);
    } else {
      LeastExists(s - {y});
      var x :| IsLeast(x, s - {y});
      AtMostTotal(x, y);
      if AtMost(x, y) {
        assert IsLeast(x, s);
      } else {
        forall z | z in s ensures AtMost(y, z) {
          if z != y {
            AtMostTransitive(y, x, z);
          }
        }
        assert IsLeast(y, s);
      }
    }
  }

  function RowsIn(schema: string, rows: seq<Row>): seq<Row> { Filter((r: Row) => r.schema == schema, rows) }

  /** The schema unqualified tables are looked up in, and whether it is the instance's default. */
  datatype Connection = NoSchema | Unneeded | Schema(name: string, isDefault: bool)

  function NameOf(c: Connection): Option<string> { if c.Schema? then Some(c.name) else None }

  ghost function ConnectionFor(tables: seq<Target>, own: Candidates): (c: Connection)
    requires |own| == |tables| && forall i | 0 <= i < |own| :: own[i] != []
    ensures c.Schema? <==> !AllQualified(tables) && CommonSchemas(tables, own) != {}
    ensures c.Unneeded? <==> AllQualified(tables)
    ensures c.Schema? ==> c.name in CommonSchemas(tables, own)
  {
    if AllQualified(tables) then Unneeded
    else
      var common := CommonSchemas(tables, own);
      var preferred := own[FirstUnqualified(tables)][0].defaultSchema;
      if common == {} then NoSchema
      else if Named(preferred) && preferred.value in common then Schema(preferred.value, true)
      else Schema(Least(common), false)
  }

  /** One row per table, given a connection schema that has rows for all unqualified tables. */
  ghost predicate Choosable(tables: seq<Target>, own: Candidates, c: Connection) {
    && |own| == |tables|
    && forall i | 0 <= i < |tables| ::
         own[i] != [] && (!Qualified(tables[i]) ==> c.Schema? && RowsIn(c.name, own[i]) != [])
  }

  ghost function ChosenRows(tables: seq<Target>, own: Candidates, c: Connection): (rows: seq<Row>)
    requires Choosable(tables, own, c)
    ensures |rows| == |tables|
    ensures forall i | 0 <= i < |rows| ::
              rows[i] == if Qualified(tables[i]) then own[i][0] else RowsIn(c.name, own[i])[0]
  {
    seq(|tables|, i requires 0 <= i < |tables| =>
      if Qualified(tables[i]) then own[i][0] else RowsIn(c.name, own[i])[0])
  }

  lemma ConnectionIsChoosable(tables: seq<Target>, own: Candidates)
    requires |own| == |tables| && forall i | 0 <= i < |own| :: own[i] != []
    requires !ConnectionFor(tables, own).NoSchema?
    ensures Choosable(tables, own, ConnectionFor(tables, own))
  {
    var c := ConnectionFor(tables, own);
    if c.Schema? {
      CommonHasRows(tables, own, c.name);
    }
  }

  /** What `PlanForInstance` computes. */
  ghost function PlanFor(instance: string, tables: seq<Target>, cands: Candidates): Option<Plan>
    requires |cands| == |tables|
  {
    var own := OfInstance(cands, instance);
    if exists i | 0 <= i < |own| :: own[i] == [] then None
    else
      var c := ConnectionFor(tables, own);
      if c.NoSchema? then None
      else
        ConnectionIsChoosable(tables, own);
        Some(Plan(ChosenRows(tables, own, c), NameOf(c), c.Schema? && c.isDefault))
  }

  lemma CommonHasRows(tables: seq<Target>, own: Candidates, schema: string)
    requires |own| == |tables| && !AllQualified(tables) && schema in CommonSchemas(tables, own)
    ensures forall i | 0 <= i < |tables| && !Qualified(tables[i]) :: RowsIn(schema, own[i]) != []
  {
    forall i | 0 <= i < |tables| && !Qualified(tables[i]) ensures RowsIn(schema, own[i]) != [] {
      var r :| r in own[i] && r.schema == schema;
      assert r in RowsIn(schema, own[i]);
    }
  }

  // ---- the program ----------------------------------------------------------------------------

  /** `sorted(common_schemas)[0]`, the set being part of the schemas of `rows`. */
  method LeastSchema(rows: seq<Row>, common: set<string>) returns (schema: string)
    requires common != {} && common <= SchemasOf(rows)
    ensures schema == Least(common)
  {
    var names := [];
    for i := 0 to |rows|
      invariant forall s :: s in names <==> s in common && s in SchemasOf(rows[..i])
    {
      assert rows[..i + 1] == rows[..i] + [rows[i]];
      if rows[i].schema in common {
        names := names + [rows[i].schema];
      }
    }
    assert rows[..|rows|] == rows;
    SortedMembers(names);
    SortedCorrect(names);
    assert Least(common) in Sorted(names);
    schema := Sorted(names)[0];
    assert schema in Sorted(names);
    AtMostAntisymmetric(schema, Least(common)) by {
      var j :| 0 <= j < |Sorted(names)| && Sorted(names)[j] == Least(common);
      AtMostTotal(schema, schema);
    }
  }

  method IntersectSchemas(tables: seq<Target>, own: Candidates) returns (common: set<string>)
    requires |own| == |tables| && !AllQualified(tables)
    ensures common == CommonSchemas(tables, own)
  {
    var u := FirstUnqualified(tables);
    common := SchemasOf(own[u]);
    for i := 0 to |tables|
      invariant common == set s | s in SchemasOf(own[u])
                                  && forall j | 0 <= j < i && !Qualified(tables[j]) :: s in SchemasOf(own[j])
    {
      if !Qualified(tables[i]) {
        common := common * SchemasOf(own[i]);
      }
    }
  }

  method ChooseConnection(tables: seq<Target>, own: Candidates) returns (c: Connection)
    requires |own| == |tables| && forall i | 0 <= i < |own| :: own[i] != []
    ensures c == ConnectionFor(tables, own)
  {
    if AllQualified(tables) {
      return Unneeded;
    }
    var common := IntersectSchemas(tables, own);
    if common == {} {
      return NoSchema;
    }
    var u := FirstUnqualified(tables);
    var preferred := own[u][0].defaultSchema;
    if Named(preferred) && preferred.value in common {
      return Schema(preferred.value, true);
    }
    var least := LeastSchema(own[u], common);
    c := Schema(least, false);
  }

  /** The program also provides for an unqualified table without a row in the connection schema;
      that branch cannot be reached. */
  method ChooseRows(tables: seq<Target>, own: Candidates, c: Connection) returns (selected: Option<seq<Row>>)
    requires Choosable(tables, own, c)
    ensures selected == Some(ChosenRows(tables, own, c))
  {
    var rows: seq<Row> := [];
    for i := 0 to |tables|
      invariant rows == ChosenRows(tables, own, c)[..i]
    {
      if Qualified(tables[i]) {
        rows := rows + [own[i][0]];
      } else {
        var matches := RowsIn(c.name, own[i]);
        if matches == [] {
          assert false;
          return None;
        }
        rows := rows + [matches[0]];
      }
    }
    assert ChosenRows(tables, own, c)[..|tables|] == ChosenRows(tables, own, c);
    selected := Some(rows);
  }

  method PlanForInstance(instance: string, tables: seq<Target>, cands: Candidates) returns (plan: Option<Plan>)
    requires |cands| == |tables|
    ensures plan == PlanFor(instance, tables, cands)
  {
    var own: Candidates := OfInstance(cands, instance);
    if exists i | 0 <= i < |own| :: own[i] == [] {
      return None;
    }
    var c := ChooseConnection(tables, own);
    if c.NoSchema? {
      return None;
    }
    ConnectionIsChoosable(tables, own);
    var selected := ChooseRows(tables, own, c);
    plan := Some(Plan(selected.value, NameOf(c), c.Schema? && c.isDefault));
  }

  datatype Choice = Choice(instance: string, plan: Plan)

  /** The sort key of the plans: those using the instance's default schema first, then by instance.
      Instances are distinct, so the rest of the program's key never decides. */
  predicate Better(a: Choice, b: Choice) {
    || (a.plan.usesDefault && !b.plan.usesDefault)
    || (a.plan.usesDefault == b.plan.usesDefault && a.instance != b.instance && AtMost(a.instance, b.instance))
  }

  ghost function AllInstances(cands: Candidates): set<string> {
    set i, r | 0 <= i < |cands| && r in cands[i] :: r.instance
  }

  /** `sorted({row.instance_id ...})`. */
  method InstanceIds(cands: Candidates) returns (ids: seq<string>)
    ensures forall x :: x in ids <==> x in AllInstances(cands)
    ensures Ascending(ids) && Distinct(ids)
  {
    var found: seq<string> := [];
    for i := 0 to |cands|
      invariant forall x :: x in found <==> x in AllInstances(cands[..i])
      invariant Distinct(found)
    {
      for j := 0 to |cands[i]|
        invariant forall x :: x in found <==> x in AllInstances(cands[..i]) || x in InstancesOf(cands[i][..j])
        invariant Distinct(found)
      {
        assert cands[i][..j + 1] == cands[i][..j] + [cands[i][j]];
        if cands[i][j].instance !in found {
          found := found + [cands[i][j].instance];
        }
      }
      assert cands[i][..|cands[i]|] == cands[i];
      assert cands[..i + 1] == cands[..i] + [cands[i]];
      AllInstancesSnoc(cands[..i], cands[i]);
    }
    assert cands[..|cands|] == cands;
    SortedMembers(found);
    SortedCorrect(found);
    SortedKeepsDistinct(found);
    ids := Sorted(found);
  }

  lemma AllInstancesSnoc(cands: Candidates, last: seq<Row>)
    ensures AllInstances(cands + [last]) == AllInstances(cands) + InstancesOf(last)
  {
    var all := cands + [last];
    forall x | x in AllInstances(cands) + InstancesOf(last) ensures x in AllInstances(all) {
      if x in AllInstances(cands) {
        var i, r :| 0 <= i < |cands| && r in cands[i] && r.instance == x;
        assert r in all[i];
      } else {
        var r :| r in last && r.instance == x;
        assert r in all[|cands|];
      }
    }
  }

  ghost predicate IsBestChoice(tables: seq<Target>, cands: Candidates, ids: set<string>, best: Option<Choice>)
    requires |cands| == |tables|
  {
    match best
    case None => forall x | x in ids :: PlanFor(x, tables, cands).None?
    case Some(b) =>
      && b.instance in ids && PlanFor(b.instance, tables, cands) == Some(b.plan)
      && forall x | x in ids && PlanFor(x, tables, cands).Some? ::
           !Better(Choice(x, PlanFor(x, tables, cands).value), b)
  }

  lemma BetterIsTransitive(a: Choice, b: Choice, c: Choice)
    requires !Better(b, a) && Better(c, a)
    ensures !Better(b, c)
  {
    if b.plan.usesDefault == c.plan.usesDefault && b.instance != c.instance && AtMost(b.instance, c.instance) {
      if a.plan.usesDefault == b.plan.usesDefault {
        AtMostTransitive(b.instance, c.instance, a.instance);
        if b.instance == a.instance {
          AtMostAntisymmetric(a.instance, c.instance);
        }
      }
    }
  }

  method SelectRoutePlan(tables: seq<Target>, cands: Candidates) returns (best: Option<Choice>)
    requires |cands| == |tables|
    ensures IsBestChoice(tables, cands, AllInstances(cands), best)
  {
    var ids := InstanceIds(cands);
    best := None;
    for i := 0 to |ids|
      invariant IsBestChoice(tables, cands, (set x | x in ids[..i]), best)
    {
      assert ids[..i + 1] == ids[..i] + [ids[i]];
      var plan := PlanForInstance(ids[i], tables, cands);
      if plan.Some? {
        var candidate := Choice(ids[i], plan.value);
        if best.None? {
          best := Some(candidate);
        } else if Better(candidate, best.value) {
          ReplaceBest(tables, cands, (set x | x in ids[..i]), best.value, candidate);
          best := Some(candidate);
        }
      }
    }
    assert ids[..|ids|] == ids;
    assert (set x | x in ids) == AllInstances(cands);
  }

  lemma ReplaceBest(tables: seq<Target>, cands: Candidates, ids: set<string>, best: Choice, candidate: Choice)
    requires |cands| == |tables| && IsBestChoice(tables, cands, ids, Some(best)) && Better(candidate, best)
    ensures forall x | x in ids && PlanFor(x, tables, cands).Some? ::
              !Better(Choice(x, PlanFor(x, tables, cands).value), candidate)
  {
    forall x | x in ids && PlanFor(x, tables, cands).Some?
      ensures !Better(Choice(x, PlanFor(x, tables, cands).value), candidate)
    {
      BetterIsTransitive(best, Choice(x, PlanFor(x, tables, cands).value), candidate);
    }
  }

  predicate AmbiguousTable(t: Target, rows: seq<Row>) {
    !Qualified(t) && |set r | r in rows :: (r.instance, r.schema)| > 1
  }

  /** The names of the ambiguous tables, in the order of the tables and with their repeats. */
  function AmbiguousNames(tables: seq<Target>, cands: Candidates): seq<string>
    requires |cands| == |tables|
  {
    if tables == [] then []
    else
      var n := |tables| - 1;
      AmbiguousNames(tables[..n], cands[..n]) + (if AmbiguousTable(tables[n], cands[n]) then [tables[n].table] else [])
  }

  lemma {:induction false} AmbiguousNamesMembers(tables: seq<Target>, cands: Candidates)
    requires |cands| == |tables|
    ensures forall n :: n in AmbiguousNames(tables, cands) <==>
              exists i | 0 <= i < |tables| :: AmbiguousTable(tables[i], cands[i]) && tables[i].table == n
  {
    if tables == [] {
    } else {
      var k := |tables| - 1;
      AmbiguousNamesMembers(tables[..k], cands[..k]);
      assert forall i | 0 <= i < k :: tables[..k][i] == tables[i] && cands[..k][i] == cands[i];
    }
  }

  method AmbiguousUnqualifiedTables(tables: seq<Target>, cands: Candidates) returns (names: seq<string>)
    requires |cands| == |tables|
    ensures names == AmbiguousNames(tables, cands)
    ensures names == [] <==> forall i | 0 <= i < |tables| :: !AmbiguousTable(tables[i], cands[i])
    ensures forall n :: n in names <==>
              exists i | 0 <= i < |tables| :: AmbiguousTable(tables[i], cands[i]) && tables[i].table == n
  {
    names := [];
    for i := 0 to |tables|
      invariant names == AmbiguousNames(tables[..i], cands[..i])
    {
      assert tables[..i + 1][..i] == tables[..i] && cands[..i + 1][..i] == cands[..i];
      if AmbiguousTable(tables[i], cands[i]) {
        names := names + [tables[i].table];
      }
    }
    assert tables[..|tables|] == tables && cands[..|tables|] == cands;
    AmbiguousNamesMembers(tables, cands);
    NoNamesIff(tables, cands, names);
  }

  lemma NoNamesIff(tables: seq<Target>, cands: Candidates, names: seq<string>)
    requires |cands| == |tables|
    requires forall n :: n in names <==>
               exists i | 0 <= i < |tables| :: AmbiguousTable(tables[i], cands[i]) && tables[i].table == n
    ensures names == [] <==> forall i | 0 <= i < |tables| :: !AmbiguousTable(tables[i], cands[i])
  {
    if names != [] {
      assert names[0] in names;
    }
    forall i | 0 <= i < |tables| && AmbiguousTable(tables[i], cands[i]) ensures tables[i].table in names {
    }
  }

  /** Distinct names in order; the program falls back to a generic word when there are none. */
  const GENERIC_NAME := "相关表"

  ghost predicate AsksFor(tables: seq<Target>, names: seq<string>) {
    if AllQualified(tables) then names == [GENERIC_NAME]
    else forall n :: n in names <==> exists t | t in tables :: !Qualified(t) && t.table == n
  }

  /** The unqualified names in order of first appearance. */
  function UnqualifiedNames(tables: seq<Target>): seq<string> {
    if tables == [] then []
    else
      var before, t := UnqualifiedNames(tables[..|tables| - 1]), tables[|tables| - 1];
      if Qualified(t) || t.table in before then before else before + [t.table]
  }

  method UnqualifiedTableNames(tables: seq<Target>) returns (names: seq<string>)
    ensures names == if UnqualifiedNames(tables) == [] then [GENERIC_NAME] else UnqualifiedNames(tables)
    ensures names != []
    ensures |names| > 1 <==> SeveralUnqualifiedNames(set t | t in tables)
    ensures AsksFor(tables, names)
  {
    names := [];
    for i := 0 to |tables|
      invariant names == UnqualifiedNames(tables[..i])
      invariant forall n :: n in names <==> exists t | t in tables[..i] :: !Qualified(t) && t.table == n
      invariant forall a, b | 0 <= a < b < |names| :: names[a] != names[b]
    {
      assert tables[..i + 1] == tables[..i] + [tables[i]] && tables[..i + 1][..i] == tables[..i];
      if !Qualified(tables[i]) && tables[i].table !in names {
        names := names + [tables[i].table];
      }
    }
    assert tables[..|tables|] == tables;
    CountNames(tables, names);
    if names == [] {
      names := [GENERIC_NAME];
    }
  }

  lemma CountNames(tables: seq<Target>, names: seq<string>)
    requires forall n :: n in names <==> exists t | t in tables :: !Qualified(t) && t.table == n
    requires forall a, b | 0 <= a < b < |names| :: names[a] != names[b]
    ensures |names| > 1 <==> SeveralUnqualifiedNames(set t | t in tables)
    ensures names == [] <==> AllQualified(tables)
  {
    var T := set t | t in tables;
    if |names| > 1 {
      assert names[0] in names && names[1] in names;
      var t :| t in tables && !Qualified(t) && t.table == names[0];
      var t' :| t' in tables && !Qualified(t') && t'.table == names[1];
      assert t in T && t' in T;
    }
    if SeveralUnqualifiedNames(T) {
      var t, t' :| t in T && t' in T && !Qualified(t) && !Qualified(t') && t.table != t'.table;
      assert t.table in names && t'.table in names;
    }
    if !AllQualified(tables) {
      var u := FirstUnqualified(tables);
      assert tables[u] in tables && tables[u].table in names;
    }
    if names != [] {
      assert names[0] in names;
    }
  }
}
