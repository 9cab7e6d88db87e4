/** A query tree with a meaning, and the rewrite that adds a schema to unqualified tables.
    As in the parser's tree, table nodes are mutable: the tree refers to them by index in a node
    store, and the rewrite updates the store in place. Lower-casing is the parameter `lower`. */
module Sql {

  datatype TableRef = TableRef(schema: string, name: string)

  datatype Operand = Column(alias: string, column: string) | Literal(value: int)

  datatype JoinKind = Inner | Left

  datatype Query =
    | Select(from: Source, where: Cond, columns: seq<(string, Operand)>)
    | Union(left: Query, right: Query)
    | With(cte: string, definition: Query, body: Query)

  datatype Source =
    | Table(node: nat, alias: string)
    | Derived(query: Query, alias: string)
    | Join(kind: JoinKind, left: Source, right: Source, on: Cond)

  datatype Cond =
    | Always
    | Equal(left: Operand, right: Operand)
    | Less(left: Operand, right: Operand)
    | Not(cond: Cond)
    | And(first: Cond, second: Cond)
    | Exists(query: Query)
    | InQuery(operand: Operand, column: string, query: Query)

  // ---- meaning --------------------------------------------------------------------------------

  datatype Value = Null | Number(n: int)

  type Record = map<string, Value>
  type Relation = seq<Record>
  type Env = map<(string, string), Value>
  type Ctes = map<string, Relation>

  /** The stored tables, the node store and the default schema of the session. */
  datatype World = World(tables: (string, string) -> Relation, nodes: seq<TableRef>, defaultSchema: string)

  function ValueOf(o: Operand, env: Env): Value {
    match o
    case Literal(v) => Number(v)
    case Column(a, c) => if (a, c) in env then env[(a, c)] else Null
  }

  /** A qualified table is a stored table; an unqualified one is a CTE in scope, or else a stored
      table of the default schema. */
  function Lookup(w: World, node: nat, ctes: Ctes): Relation {
    if node >= |w.nodes| then []
    else
      var t := w.nodes[node];
      if t.schema != "" then w.tables(t.schema, t.name)
      else if t.name in ctes then ctes[t.name]
      else w.tables(w.defaultSchema, t.name)
  }

  function AliasOf(w: World, node: nat, alias: string): string {
    if alias == "" && node < |w.nodes| then w.nodes[node].name else alias
  }

  function Bind(alias: string, rows: Relation): seq<Env> {
    if rows == [] then []
    else [map c | c in rows[0] :: (alias, c) := rows[0][c]] + Bind(alias, rows[1..])
  }

  function ProjectRow(columns: seq<(string, Operand)>, env: Env): Record {
    if columns == [] then map[]
    else map[columns[0].0 := ValueOf(columns[0].1, env)] + ProjectRow(columns[1..], env)
  }

  function Project(columns: seq<(string, Operand)>, envs: seq<Env>, outer: Env): Relation {
    if envs == [] then []
    else [ProjectRow(columns, outer + envs[0])] + Project(columns, envs[1..], outer)
  }

  function Pairs(l: Env, rs: seq<Env>): seq<Env> {
    if rs == [] then [] else [l + rs[0]] + Pairs(l, rs[1..])
  }

  function Eval(w: World, q: Query, ctes: Ctes, outer: Env): Relation
    decreases q, 0
  {
    match q
    case Select(from, where, columns) =>
      Project(columns, Where(w, where, Rows(w, from, ctes, outer), ctes, outer), outer)
    case Union(left, right) => Eval(w, left, ctes, outer) + Eval(w, right, ctes, outer)
    case With(cte, definition, body) => Eval(w, body, ctes[cte := Eval(w, definition, ctes, outer)], outer)
  }

  function Rows(w: World, s: Source, ctes: Ctes, outer: Env): seq<Env>
    decreases s, 0
  {
    match s
    case Table(node, alias) => Bind(AliasOf(w, node, alias), Lookup(w, node, ctes))
    case Derived(query, alias) => Bind(alias, Eval(w, query, ctes, outer))
    case Join(kind, left, right, on) =>
      JoinRows(w, kind, Rows(w, left, ctes, outer), Rows(w, right, ctes, outer), on, ctes, outer)
  }

  function JoinRows(w: World, kind: JoinKind, ls: seq<Env>, rs: seq<Env>, on: Cond, ctes: Ctes, outer: Env): seq<Env>
    decreases on, 2, |ls|
  {
    if ls == [] then []
    else
      var matches := Where(w, on, Pairs(ls[0], rs), ctes, outer);
      (if kind.Left? && matches == [] then [ls[0]] else matches)
      + JoinRows(w, kind, ls[1..], rs, on, ctes, outer)
  }

  function Where(w: World, c: Cond, envs: seq<Env>, ctes: Ctes, outer: Env): seq<Env>
    decreases c, 1, |envs|
  {
    if envs == [] then []
    else (if Holds(w, c, ctes, outer + envs[0]) then [envs[0]] else []) + Where(w, c, envs[1..], ctes, outer)
  }

  predicate Holds(w: World, c: Cond, ctes: Ctes, env: Env)
    decreases c, 0
  {
    match c
    case Always => true
    case Equal(l, r) => ValueOf(l, env) != Null && ValueOf(l, env) == ValueOf(r, env)
    case Less(l, r) =>
      var a, b := ValueOf(l, env), ValueOf(r, env);
      a.Number? && b.Number? && a.n < b.n
    case Not(d) => !Holds(w, d, ctes, env)
    case And(a, b) => Holds(w, a, ctes, env) && Holds(w, b, ctes, env)
    case Exists(query) => Eval(w, query, ctes, env) != []
    case InQuery(o, column, query) =>
      exists r | r in Eval(w, query, ctes, env) ::
        column in r && r[column] != Null && r[column] == ValueOf(o, env)
  }

  // ---- table nodes of a query, and what each denotes ------------------------------------------

  /** The table nodes of a query in some fixed order; that in which the parser's `find_all` meets them is
      not part of the model. */
  function NodesOf(q: Query): seq<nat>
    decreases q
  {
    match q
    case Select(from, where, _) => NodesOfSource(from) + NodesOfCond(where)
    case Union(left, right) => NodesOf(left) + NodesOf(right)
    case With(_, definition, body) => NodesOf(definition) + NodesOf(body)
  }

  function NodesOfSource(s: Source): seq<nat>
    decreases s
  {
    match s
    case Table(node, _) => [node]
    case Derived(query, _) => NodesOf(query)
    case Join(_, left, right, on) => NodesOfSource(left) + NodesOfSource(right) + NodesOfCond(on)
  }

  function NodesOfCond(c: Cond): seq<nat>
    decreases c
  {
    match c
    case Not(d) => NodesOfCond(d)
    case And(a, b) => NodesOfCond(a) + NodesOfCond(b)
    case Exists(query) => NodesOf(query)
    case InQuery(_, _, query) => NodesOf(query)
    case _ => []
  }

  datatype Binding = Stored(schema: string, name: string) | Common(name: string)

  function BindingOf(t: TableRef, defaultSchema: string, scope: set<string>): Binding {
    if t.schema != "" then Stored(t.schema, t.name)
    else if t.name in scope then Common(t.name)
    else Stored(defaultSchema, t.name)
  }

  /** What every table reference denotes, given the CTE names in scope. */
  function Bindings(q: Query, nodes: seq<TableRef>, d: string, scope: set<string>): seq<Binding>
    decreases q
  {
    match q
    case Select(from, where, _) => BindingsOfSource(from, nodes, d, scope) + BindingsOfCond(where, nodes, d, scope)
    case Union(left, right) => Bindings(left, nodes, d, scope) + Bindings(right, nodes, d, scope)
    case With(cte, definition, body) => Bindings(definition, nodes, d, scope) + Bindings(body, nodes, d, scope + {cte})
  }

  function BindingsOfSource(s: Source, nodes: seq<TableRef>, d: string, scope: set<string>): seq<Binding>
    decreases s
  {
    match s
    case Table(node, _) => if node < |nodes| then [BindingOf(nodes[node], d, scope)] else []
    case Derived(query, _) => Bindings(query, nodes, d, scope)
    case Join(_, left, right, on) =>
      BindingsOfSource(left, nodes, d, scope) + BindingsOfSource(right, nodes, d, scope)
      + BindingsOfCond(on, nodes, d, scope)
  }

  function BindingsOfCond(c: Cond, nodes: seq<TableRef>, d: string, scope: set<string>): seq<Binding>
    decreases c
  {
    match c
    case Not(e) => BindingsOfCond(e, nodes, d, scope)
    case And(a, b) => BindingsOfCond(a, nodes, d, scope) + BindingsOfCond(b, nodes, d, scope)
    case Exists(query) => Bindings(query, nodes, d, scope)
    case InQuery(_, _, query) => Bindings(query, nodes, d, scope)
    case _ => []
  }

  // ---- the rewrite ----------------------------------------------------------------------------

  datatype Rewrite = Rewrite(schema: string, targets: set<string>, lower: string -> string)

  predicate Hits(rw: Rewrite, t: TableRef) {
    t.schema == "" && rw.lower(t.name) in rw.targets
  }

  function Qualified(rw: Rewrite, t: TableRef): TableRef {
    if Hits(rw, t) then TableRef(rw.schema, t.name) else t
  }

  /** The store after the rewrite: only nodes of the query change. */
  function QualifyStore(rw: Rewrite, nodes: seq<TableRef>, ids: seq<nat>): (r: seq<TableRef>)
    ensures |r| == |nodes|
    ensures forall i | 0 <= i < |nodes| :: r[i] == if i in ids then Qualified(rw, nodes[i]) else nodes[i]
  {
    seq(|nodes|, i requires 0 <= i < |nodes| => if i in ids then Qualified(rw, nodes[i]) else nodes[i])
  }

  predicate InStore(q: Query, size: nat) {
    forall i | i in NodesOf(q) :: i < size
  }

  /** `ids` are the table nodes of the query in the order in which the parser meets them. */
  ghost predicate Visits(ids: seq<nat>, q: Query) { forall i :: i in ids <==> i in NodesOf(q) }

  method QualifyUnqualifiedTables(nodes: array<TableRef>, ghost q: Query, ids: seq<nat>, schema: string,
                                  tableNames: seq<string>, lower: string -> string)
    requires InStore(q, nodes.Length) && Visits(ids, q) && schema != ""
    modifies nodes
    ensures nodes[..] == QualifyStore(Rewrite(schema, set n | n in tableNames :: lower(n), lower),
                                      old(nodes[..]), NodesOf(q))
  {
    var rw := Rewrite(schema, set n | n in tableNames :: lower(n), lower);
    for k := 0 to |ids|
      invariant nodes[..] == QualifyStore(rw, old(nodes[..]), ids[..k])
    {
      assert ids[..k + 1] == ids[..k] + [ids[k]];
      assert ids[k] in ids;
      var t := nodes[ids[k]];
      if t.schema != "" || lower(t.name) !in rw.targets {
        continue;
      }
      nodes[ids[k]] := t.(schema := schema);
    }
    assert ids[..|ids|] == ids;
  }

  /** The names of the unqualified tables among `ids`, each once, in order of first appearance. */
  function NamesAt(nodes: seq<TableRef>, ids: seq<nat>): seq<string> {
    if ids == [] then []
    else
      var before := NamesAt(nodes, ids[..|ids| - 1]);
      var i := ids[|ids| - 1];
      if i < |nodes| && nodes[i].schema == "" && nodes[i].name !in before then before + [nodes[i].name] else before
  }

  lemma {:induction false} NamesAtMembers(nodes: seq<TableRef>, ids: seq<nat>)
    ensures forall n :: n in NamesAt(nodes, ids)
              <==> exists i | i in ids :: i < |nodes| && nodes[i].schema == "" && nodes[i].name == n
  {
    if ids == [] {
    } else {
      NamesAtMembers(nodes, ids[..|ids| - 1]);
      assert ids == ids[..|ids| - 1] + [ids[|ids| - 1]];
    }
  }

  lemma {:induction false} NamesAtOnce(nodes: seq<TableRef>, ids: seq<nat>)
    ensures forall a, b | 0 <= a < b < |NamesAt(nodes, ids)| :: NamesAt(nodes, ids)[a] != NamesAt(nodes, ids)[b]
  {
    if ids == [] {
    } else {
      NamesAtOnce(nodes, ids[..|ids| - 1]);
    }
  }

  method UnqualifiedTableNames(nodes: seq<TableRef>, ghost q: Query, ids: seq<nat>) returns (names: seq<string>)
    requires InStore(q, |nodes|) && Visits(ids, q)
    ensures names == NamesAt(nodes, ids)
  {
    names := [];
    for k := 0 to |ids|
      invariant names == NamesAt(nodes, ids[..k])
    {
      assert ids[k] in ids && ids[..k + 1][..k] == ids[..k];
      var t := nodes[ids[k]];
      if t.schema != "" || t.name in names {
        continue;
      }
      names := names + [t.name];
    }
    assert ids[..|ids|] == ids;
  }

  // ---- the rewrite preserves meaning ----------------------------------------------------------

  /** No reference to a CTE in scope is rewritten, and every other one is, unless the default schema `d`
      is the added one anyway. */
  ghost predicate CoversTable(rw: Rewrite, d: string, nodes: seq<TableRef>, node: nat, scope: set<string>) {
    node < |nodes| && nodes[node].schema == "" ==>
      if nodes[node].name in scope then !Hits(rw, nodes[node]) else d == rw.schema || Hits(rw, nodes[node])
  }

  ghost predicate Covers(rw: Rewrite, d: string, nodes: seq<TableRef>, q: Query, scope: set<string>)
    decreases q
  {
    match q
    case Select(from, where, _) => CoversSource(rw, d, nodes, from, scope) && CoversCond(rw, d, nodes, where, scope)
    case Union(left, right) => Covers(rw, d, nodes, left, scope) && Covers(rw, d, nodes, right, scope)
    case With(cte, definition, body) =>
      Covers(rw, d, nodes, definition, scope) && Covers(rw, d, nodes, body, scope + {cte})
  }

  ghost predicate CoversSource(rw: Rewrite, d: string, nodes: seq<TableRef>, s: Source, scope: set<string>)
    decreases s
  {
    match s
    case Table(node, _) => CoversTable(rw, d, nodes, node, scope)
    case Derived(query, _) => Covers(rw, d, nodes, query, scope)
    case Join(_, left, right, on) =>
      CoversSource(rw, d, nodes, left, scope) && CoversSource(rw, d, nodes, right, scope)
      && CoversCond(rw, d, nodes, on, scope)
  }

  ghost predicate CoversCond(rw: Rewrite, d: string, nodes: seq<TableRef>, c: Cond, scope: set<string>)
    decreases c
  {
    match c
    case Not(e) => CoversCond(rw, d, nodes, e, scope)
    case And(a, b) => CoversCond(rw, d, nodes, a, scope) && CoversCond(rw, d, nodes, b, scope)
    case Exists(query) => Covers(rw, d, nodes, query, scope)
    case InQuery(_, _, query) => Covers(rw, d, nodes, query, scope)
    case _ => true
  }

  /** `after` is `before` with the nodes of a larger query rewritten. */
  ghost predicate Rewritten(rw: Rewrite, before: World, after: World, ids: seq<nat>) {
    && before.tables == after.tables
    && before.defaultSchema == rw.schema && rw.schema != ""
    && after.nodes == QualifyStore(rw, before.nodes, ids)
  }

  ghost predicate Subset(some: seq<nat>, all: seq<nat>) { forall i | i in some :: i in all }

  lemma {:induction false} EvalPreserved(rw: Rewrite, before: World, after: World, ids: seq<nat>, q: Query,
                                         ctes: Ctes, outer: Env)
    requires Rewritten(rw, before, after, ids) && Subset(NodesOf(q), ids)
    requires Covers(rw, after.defaultSchema, before.nodes, q, ctes.Keys)
    ensures Eval(after, q, ctes, outer) == Eval(before, q, ctes, outer)
    decreases q, 0
  {
    match q
    case Select(from, where, columns) =>
      RowsPreserved(rw, before, after, ids, from, ctes, outer);
      WherePreserved(rw, before, after, ids, where, Rows(before, from, ctes, outer), ctes, outer);
    case Union(left, right) =>
      EvalPreserved(rw, before, after, ids, left, ctes, outer);
      EvalPreserved(rw, before, after, ids, right, ctes, outer);
    case With(cte, definition, body) =>
      EvalPreserved(rw, before, after, ids, definition, ctes, outer);
      var inner := ctes[cte := Eval(before, definition, ctes, outer)];
      assert inner.Keys == ctes.Keys + {cte};
      EvalPreserved(rw, before, after, ids, body, inner, outer);
  }

  lemma {:induction false} RowsPreserved(rw: Rewrite, before: World, after: World, ids: seq<nat>, s: Source,
                                         ctes: Ctes, outer: Env)
    requires Rewritten(rw, before, after, ids) && Subset(NodesOfSource(s), ids)
    requires CoversSource(rw, after.defaultSchema, before.nodes, s, ctes.Keys)
    ensures Rows(after, s, ctes, outer) == Rows(before, s, ctes, outer)
    decreases s, 0
  {
    match s
    case Table(node, alias) =>
      assert node in NodesOfSource(s);
    case Derived(query, alias) =>
      EvalPreserved(rw, before, after, ids, query, ctes, outer);
    case Join(kind, left, right, on) =>
      RowsPreserved(rw, before, after, ids, left, ctes, outer);
      RowsPreserved(rw, before, after, ids, right, ctes, outer);
      JoinPreserved(rw, before, after, ids, kind, Rows(before, left, ctes, outer), Rows(before, right, ctes, outer),
                    on, ctes, outer);
  }

  lemma {:induction false} JoinPreserved(rw: Rewrite, before: World, after: World, ids: seq<nat>, kind: JoinKind,
                                         ls: seq<Env>, rs: seq<Env>, on: Cond, ctes: Ctes, outer: Env)
    requires Rewritten(rw, before, after, ids) && Subset(NodesOfCond(on), ids)
    requires CoversCond(rw, after.defaultSchema, before.nodes, on, ctes.Keys)
    ensures JoinRows(after, kind, ls, rs, on, ctes, outer) == JoinRows(before, kind, ls, rs, on, ctes, outer)
    decreases on, 2, |ls|
  {
    if ls == [] {
    } else {
      WherePreserved(rw, before, after, ids, on, Pairs(ls[0], rs), ctes, outer);
      JoinPreserved(rw, before, after, ids, kind, ls[1..], rs, on, ctes, outer);
    }
  }

  lemma {:induction false} WherePreserved(rw: Rewrite, before: World, after: World, ids: seq<nat>, c: Cond,
                                          envs: seq<Env>, ctes: Ctes, outer: Env)
    requires Rewritten(rw, before, after, ids) && Subset(NodesOfCond(c), ids)
    requires CoversCond(rw, after.defaultSchema, before.nodes, c, ctes.Keys)
    ensures Where(after, c, envs, ctes, outer) == Where(before, c, envs, ctes, outer)
    decreases c, 1, |envs|
  {
    if envs == [] {
    } else {
      HoldsPreserved(rw, before, after, ids, c, ctes, outer + envs[0]);
      WherePreserved(rw, before, after, ids, c, envs[1..], ctes, outer);
    }
  }

  lemma {:induction false} HoldsPreserved(rw: Rewrite, before: World, after: World, ids: seq<nat>, c: Cond,
                                          ctes: Ctes, env: Env)
    requires Rewritten(rw, before, after, ids) && Subset(NodesOfCond(c), ids)
    requires CoversCond(rw, after.defaultSchema, before.nodes, c, ctes.Keys)
    ensures Holds(after, c, ctes, env) == Holds(before, c, ctes, env)
    decreases c, 0
  {
    match c
    case Not(d) => HoldsPreserved(rw, before, after, ids, d, ctes, env);
    case And(a, b) =>
      HoldsPreserved(rw, before, after, ids, a, ctes, env);
      HoldsPreserved(rw, before, after, ids, b, ctes, env);
    case Exists(query) => EvalPreserved(rw, before, after, ids, query, ctes, env);
    case InQuery(_, _, query) => EvalPreserved(rw, before, after, ids, query, ctes, env);
    case _ =>
  }

  /** The rewrite changes no reference's denotation exactly when it names no reference to a CTE in scope
      and, unless the default schema is the added one, all other unqualified references. */
  lemma {:induction false} BindingsPreservedIff(rw: Rewrite, nodes: seq<TableRef>, ids: seq<nat>, q: Query, d: string,
                                                scope: set<string>)
    requires rw.schema != "" && Subset(NodesOf(q), ids)
    ensures var r := QualifyStore(rw, nodes, ids);
            |Bindings(q, r, d, scope)| == |Bindings(q, nodes, rw.schema, scope)|
    ensures Bindings(q, QualifyStore(rw, nodes, ids), d, scope) == Bindings(q, nodes, rw.schema, scope)
       <==> Covers(rw, d, nodes, q, scope)
    decreases q
  {
    var r, s := QualifyStore(rw, nodes, ids), rw.schema;
    match q
    case Select(from, where, _) =>
      SourceBindingsPreservedIff(rw, nodes, ids, from, d, scope);
      CondBindingsPreservedIff(rw, nodes, ids, where, d, scope);
      ConcatEqualIff(BindingsOfSource(from, r, d, scope), BindingsOfCond(where, r, d, scope),
                     BindingsOfSource(from, nodes, s, scope), BindingsOfCond(where, nodes, s, scope));
    case Union(left, right) =>
      BindingsPreservedIff(rw, nodes, ids, left, d, scope);
      BindingsPreservedIff(rw, nodes, ids, right, d, scope);
      ConcatEqualIff(Bindings(left, r, d, scope), Bindings(right, r, d, scope),
                     Bindings(left, nodes, s, scope), Bindings(right, nodes, s, scope));
    case With(cte, definition, body) =>
      BindingsPreservedIff(rw, nodes, ids, definition, d, scope);
      BindingsPreservedIff(rw, nodes, ids, body, d, scope + {cte});
      ConcatEqualIff(Bindings(definition, r, d, scope), Bindings(body, r, d, scope + {cte}),
                     Bindings(definition, nodes, s, scope), Bindings(body, nodes, s, scope + {cte}));
  }

  lemma ConcatEqualIff<T>(a: seq<T>, b: seq<T>, a': seq<T>, b': seq<T>)
    requires |a| == |a'|
    ensures a + b == a' + b' <==> a == a' && b == b'
  {
    if a + b == a' + b' {
      assert a == (a + b)[..|a|] && b == (a + b)[|a|..];
      assert a' == (a' + b')[..|a'|] && b' == (a' + b')[|a'|..];
    }
  }

  lemma {:induction false} SourceBindingsPreservedIff(rw: Rewrite, nodes: seq<TableRef>, ids: seq<nat>, c: Source,
                                                      d: string, scope: set<string>)
    requires rw.schema != "" && Subset(NodesOfSource(c), ids)
    ensures |BindingsOfSource(c, QualifyStore(rw, nodes, ids), d, scope)|
         == |BindingsOfSource(c, nodes, rw.schema, scope)|
    ensures BindingsOfSource(c, QualifyStore(rw, nodes, ids), d, scope) == BindingsOfSource(c, nodes, rw.schema, scope)
       <==> CoversSource(rw, d, nodes, c, scope)
    decreases c
  {
    var r, s := QualifyStore(rw, nodes, ids), rw.schema;
    match c
    case Table(node, _) =>
      assert node in NodesOfSource(c);
      if node < |nodes| {
        assert BindingsOfSource(c, r, d, scope) == [BindingOf(r[node], d, scope)];
        assert BindingsOfSource(c, nodes, s, scope) == [BindingOf(nodes[node], s, scope)];
      }
    case Derived(query, _) => BindingsPreservedIff(rw, nodes, ids, query, d, scope);
    case Join(_, left, right, on) =>
      SourceBindingsPreservedIff(rw, nodes, ids, left, d, scope);
      SourceBindingsPreservedIff(rw, nodes, ids, right, d, scope);
      CondBindingsPreservedIff(rw, nodes, ids, on, d, scope);
      var l, l' := BindingsOfSource(left, r, d, scope), BindingsOfSource(left, nodes, s, scope);
      var m, m' := BindingsOfSource(right, r, d, scope), BindingsOfSource(right, nodes, s, scope);
      ConcatEqualIff(l, m, l', m');
      ConcatEqualIff(l + m, BindingsOfCond(on, r, d, scope), l' + m', BindingsOfCond(on, nodes, s, scope));
  }

  lemma {:induction false} CondBindingsPreservedIff(rw: Rewrite, nodes: seq<TableRef>, ids: seq<nat>, c: Cond,
                                                    d: string, scope: set<string>)
    requires rw.schema != "" && Subset(NodesOfCond(c), ids)
    ensures |BindingsOfCond(c, QualifyStore(rw, nodes, ids), d, scope)| == |BindingsOfCond(c, nodes, rw.schema, scope)|
    ensures BindingsOfCond(c, QualifyStore(rw, nodes, ids), d, scope) == BindingsOfCond(c, nodes, rw.schema, scope)
       <==> CoversCond(rw, d, nodes, c, scope)
    decreases c
  {
    var r, s := QualifyStore(rw, nodes, ids), rw.schema;
    match c
    case Not(e) => CondBindingsPreservedIff(rw, nodes, ids, e, d, scope);
    case And(a, b) =>
      CondBindingsPreservedIff(rw, nodes, ids, a, d, scope);
      CondBindingsPreservedIff(rw, nodes, ids, b, d, scope);
      ConcatEqualIff(BindingsOfCond(a, r, d, scope), BindingsOfCond(b, r, d, scope),
                     BindingsOfCond(a, nodes, s, scope), BindingsOfCond(b, nodes, s, scope));
    case Exists(query) => BindingsPreservedIff(rw, nodes, ids, query, d, scope);
    case InQuery(_, _, query) => BindingsPreservedIff(rw, nodes, ids, query, d, scope);
    case _ =>
  }

  // ---- rewriting all unqualified tables, as the dialogue does ---------------------------------

  /** Every unqualified table of the query is named by the rewrite. */
  ghost predicate NamesAll(rw: Rewrite, nodes: seq<TableRef>, ids: seq<nat>) {
    forall i | i in ids && i < |nodes| && nodes[i].schema == "" :: Hits(rw, nodes[i])
  }

  /** The CTE names introduced anywhere in the query. */
  function CteNames(q: Query): set<string>
    decreases q
  {
    match q
    case Select(from, where, _) => CteNamesOfSource(from) + CteNamesOfCond(where)
    case Union(left, right) => CteNames(left) + CteNames(right)
    case With(cte, definition, body) => {cte} + CteNames(definition) + CteNames(body)
  }

  function CteNamesOfSource(s: Source): set<string>
    decreases s
  {
    match s
    case Table(_, _) => {}
    case Derived(query, _) => CteNames(query)
    case Join(_, left, right, on) => CteNamesOfSource(left) + CteNamesOfSource(right) + CteNamesOfCond(on)
  }

  function CteNamesOfCond(c: Cond): set<string>
    decreases c
  {
    match c
    case Not(e) => CteNamesOfCond(e)
    case And(a, b) => CteNamesOfCond(a) + CteNamesOfCond(b)
    case Exists(query) => CteNames(query)
    case InQuery(_, _, query) => CteNames(query)
    case _ => {}
  }

  ghost predicate Avoids(nodes: seq<TableRef>, ids: seq<nat>, names: set<string>) {
    forall i | i in ids && i < |nodes| && nodes[i].schema == "" :: nodes[i].name !in names
  }

  lemma {:induction false} NoCteNameCovers(rw: Rewrite, d: string, nodes: seq<TableRef>, ids: seq<nat>, q: Query,
                                           scope: set<string>)
    requires NamesAll(rw, nodes, ids) && Subset(NodesOf(q), ids) && Avoids(nodes, ids, scope + CteNames(q))
    ensures Covers(rw, d, nodes, q, scope)
    decreases q
  {
    match q
    case Select(from, where, _) =>
      NoCteNameCoversSource(rw, d, nodes, ids, from, scope);
      NoCteNameCoversCond(rw, d, nodes, ids, where, scope);
    case Union(left, right) =>
      NoCteNameCovers(rw, d, nodes, ids, left, scope);
      NoCteNameCovers(rw, d, nodes, ids, right, scope);
    case With(cte, definition, body) =>
      NoCteNameCovers(rw, d, nodes, ids, definition, scope);
      NoCteNameCovers(rw, d, nodes, ids, body, scope + {cte});
  }

  lemma {:induction false} NoCteNameCoversSource(rw: Rewrite, d: string, nodes: seq<TableRef>, ids: seq<nat>, s: Source,
                                                 scope: set<string>)
    requires NamesAll(rw, nodes, ids) && Subset(NodesOfSource(s), ids)
    requires Avoids(nodes, ids, scope + CteNamesOfSource(s))
    ensures CoversSource(rw, d, nodes, s, scope)
    decreases s
  {
    match s
    case Table(node, _) => assert node in NodesOfSource(s);
    case Derived(query, _) => NoCteNameCovers(rw, d, nodes, ids, query, scope);
    case Join(_, left, right, on) =>
      NoCteNameCoversSource(rw, d, nodes, ids, left, scope);
      NoCteNameCoversSource(rw, d, nodes, ids, right, scope);
      NoCteNameCoversCond(rw, d, nodes, ids, on, scope);
  }

  lemma {:induction false} NoCteNameCoversCond(rw: Rewrite, d: string, nodes: seq<TableRef>, ids: seq<nat>, c: Cond,
                                               scope: set<string>)
    requires NamesAll(rw, nodes, ids) && Subset(NodesOfCond(c), ids) && Avoids(nodes, ids, scope + CteNamesOfCond(c))
    ensures CoversCond(rw, d, nodes, c, scope)
    decreases c
  {
    match c
    case Not(e) => NoCteNameCoversCond(rw, d, nodes, ids, e, scope);
    case And(a, b) =>
      NoCteNameCoversCond(rw, d, nodes, ids, a, scope);
      NoCteNameCoversCond(rw, d, nodes, ids, b, scope);
    case Exists(query) => NoCteNameCovers(rw, d, nodes, ids, query, scope);
    case InQuery(_, _, query) => NoCteNameCovers(rw, d, nodes, ids, query, scope);
    case _ =>
  }

  /** The rewrite with schema `s` over all unqualified tables, none of which bears a CTE name: under
      any default schema the new query means what the old one means under default schema `s`. */
  lemma QualificationPreservesMeaning(rw: Rewrite, nodes: seq<TableRef>, q: Query, tables: (string, string) -> Relation,
                                      defaultSchema: string, outer: Env)
    requires rw.schema != "" && NamesAll(rw, nodes, NodesOf(q)) && Avoids(nodes, NodesOf(q), CteNames(q))
    ensures Eval(World(tables, QualifyStore(rw, nodes, NodesOf(q)), defaultSchema), q, map[], outer)
         == Eval(World(tables, nodes, rw.schema), q, map[], outer)
  {
    var none: Ctes := map[];
    NoCteNameCovers(rw, defaultSchema, nodes, NodesOf(q), q, {});
    assert none.Keys == {};
    EvalPreserved(rw, World(tables, nodes, rw.schema),
                  World(tables, QualifyStore(rw, nodes, NodesOf(q)), defaultSchema), NodesOf(q), q, none, outer);
  }

  lemma SelectIsEmptyIff(w: World, node: nat, alias: string, columns: seq<(string, Operand)>, ctes: Ctes, outer: Env)
    ensures Eval(w, Select(Table(node, alias), Always, columns), ctes, outer) == [] <==> Lookup(w, node, ctes) == []
  {
    var bound := Bind(AliasOf(w, node, alias), Lookup(w, node, ctes));
    assert bound == [] <==> Lookup(w, node, ctes) == [];
    assert bound != [] ==> Where(w, Always, bound, ctes, outer) != [];
  }

  /** `WITH t AS (SELECT v FROM a) SELECT v FROM t`, over a schema `shop` that holds only `a`. */
  const CTE_NODES := [TableRef("", "a"), TableRef("", "t")]

  function ReadV(node: nat, table: string): Query {
    Select(Table(node, table), Always, [("v", Column(table, "v"))])
  }

  const CTE_QUERY := With("t", ReadV(0, "a"), ReadV(1, "t"))

  function ShopTables(schema: string, name: string): Relation {
    if schema == "shop" && name == "a" then [map["v" := Number(1)]] else []
  }

  /** With a CTE name among the tables the meaning can change: after rewriting all unqualified
      tables, the reference to `t` is taken for a stored table and the row is lost. */
  lemma CteReferenceIsCaptured(lower: string -> string)
    ensures var rw := Rewrite("shop", {lower("a"), lower("t")}, lower);
      && NamesAll(rw, CTE_NODES, NodesOf(CTE_QUERY))
      && Eval(World(ShopTables, CTE_NODES, "shop"), CTE_QUERY, map[], map[]) != []
      && Eval(World(ShopTables, QualifyStore(rw, CTE_NODES, NodesOf(CTE_QUERY)), "shop"), CTE_QUERY, map[], map[]) == []
  {
    var rw := Rewrite("shop", {lower("a"), lower("t")}, lower);
    var after := QualifyStore(rw, CTE_NODES, NodesOf(CTE_QUERY));
    assert NodesOf(ReadV(0, "a")) == [0] && NodesOf(ReadV(1, "t")) == [1];
    assert NodesOf(CTE_QUERY) == [0, 1];
    assert after[1] == TableRef("shop", "t");
    CteExample(World(ShopTables, CTE_NODES, "shop"));
    CteExample(World(ShopTables, after, "shop"));
  }

  lemma CteExample(w: World)
    requires |w.nodes| == 2 && w.nodes[0].name == "a" && w.tables == ShopTables
    requires w.nodes[0].schema in {"", "shop"} && w.defaultSchema == "shop"
    ensures w.nodes[1] == TableRef("", "t") ==> Eval(w, CTE_QUERY, map[], map[]) != []
    ensures w.nodes[1] == TableRef("shop", "t") ==> Eval(w, CTE_QUERY, map[], map[]) == []
  {
    var none: Ctes, outer: Env := map[], map[];
    var ctes: Ctes := none["t" := Eval(w, ReadV(0, "a"), none, outer)];
    SelectIsEmptyIff(w, 0, "a", [("v", Column("a", "v"))], none, outer);
    SelectIsEmptyIff(w, 1, "t", [("v", Column("t", "v"))], ctes, outer);
    assert Eval(w, CTE_QUERY, none, outer) == Eval(w, ReadV(1, "t"), ctes, outer);
  }

  /** `t` is named without schema, and by one of `names` up to case. */
  predicate IsNamed(lower: string -> string, names: seq<string>, t: TableRef) {
    t.schema == "" && exists n | n in names :: lower(n) == lower(t.name)
  }

  /** The nodes rewritten are those of the query that are named without schema, by one of the given names up
      to case; each of them keeps its name. */
  lemma RewrittenIff(lower: string -> string, nodes: seq<TableRef>, ids: seq<nat>, schema: string,
                     names: seq<string>, i: nat)
    requires i < |nodes|
    ensures var r := QualifyStore(Rewrite(schema, set n | n in names :: lower(n), lower), nodes, ids);
            if i in ids && IsNamed(lower, names, nodes[i]) then r[i] == TableRef(schema, nodes[i].name)
            else r[i] == nodes[i]
  {
    if n :| n in names && lower(n) == lower(nodes[i].name) {
      assert lower(nodes[i].name) in set n | n in names :: lower(n);
    }
  }

  /** The rewrite leaves no table of the query unqualified, touches no qualified one and no other
      node, keeps all names, and does nothing when repeated. */
  lemma RewriteIsComplete(rw: Rewrite, nodes: seq<TableRef>, ids: seq<nat>)
    requires rw.schema != "" && NamesAll(rw, nodes, ids)
    ensures var r := QualifyStore(rw, nodes, ids);
      && (forall i | i in ids && i < |nodes| :: r[i].schema != "")
      && (forall i | 0 <= i < |nodes| :: r[i].name == nodes[i].name)
      && (forall i | 0 <= i < |nodes| && (nodes[i].schema != "" || i !in ids) :: r[i] == nodes[i])
      && QualifyStore(rw, r, ids) == r
  {
    var r := QualifyStore(rw, nodes, ids);
    assert QualifyStore(rw, r, ids) == r;
  }
}
