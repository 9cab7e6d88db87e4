/** The clarification dialogue: a statement whose tables cannot be routed is remembered for its
    conversation; a reply naming a schema resubmits it with that schema added. */
module Dialogue {
  import opened Options
  import Sql
  import Router
  import RouterProofs

  /** The text handed to the task service: a parsed statement, or words that are none. */
  datatype Raw = Tree(nodes: seq<Sql.TableRef>, query: Sql.Query) | Words(text: string)

  /** A message after extraction: nothing, a single word that can name a schema, or a statement. */
  datatype Body = Blank | SchemaWord(name: string) | Statement(nodes: seq<Sql.TableRef>, query: Sql.Query)

  datatype Pending = Pending(raw: Raw, tables: seq<string>)

  type Store = map<string, Pending>

  /** How a task ends. `blockers` are the table names found in a routing error of its outcome;
      it is empty when there is none. */
  datatype Outcome = Raised | FailedTask(blockers: seq<string>) | Completed(blockers: seq<string>)

  datatype Reply = Usage | Failure | AskSchema(tables: seq<string>) | Report

  datatype Message = Message(conversation: string, body: Body, run: Raw -> Outcome)

  /** The state after a message, what was submitted to the task service, and the reply. */
  datatype Turn = Turn(store: Store, submitted: Option<Raw>, reply: Reply)

  predicate WellFormed(raw: Raw) {
    raw.Tree? ==> Sql.InStore(raw.query, |raw.nodes|)
  }

  predicate WellFormedBody(body: Body) {
    && (body.SchemaWord? ==> body.name != "")
    && (body.Statement? ==> Sql.InStore(body.query, |body.nodes|))
  }

  /** The distinct names of the unqualified tables, in order. */
  function UnqualifiedNames(raw: Raw): seq<string> {
    if raw.Words? then [] else Sql.NamesAt(raw.nodes, Sql.NodesOf(raw.query))
  }

  function QualifyRaw(lower: string -> string, raw: Raw, schema: string, tables: seq<string>): Raw {
    if raw.Words? then raw
    else
      var rw := Sql.Rewrite(schema, set n | n in tables :: lower(n), lower);
      Tree(Sql.QualifyStore(rw, raw.nodes, Sql.NodesOf(raw.query)), raw.query)
  }

  function RawOf(body: Body): Raw
    requires !body.Blank?
  {
    match body
    case SchemaWord(w) => Words(w)
    case Statement(nodes, query) => Tree(nodes, query)
  }

  function PendingTables(raw: Raw, blockers: seq<string>): seq<string> {
    if UnqualifiedNames(raw) != [] then UnqualifiedNames(raw) else blockers
  }

  /** What a message submits: the remembered statement with the schema added, or itself. */
  function Submission(lower: string -> string, store: Store, m: Message): Option<Raw> {
    if m.body.Blank? then None
    else if m.conversation in store && m.body.SchemaWord? then
      var p := store[m.conversation];
      Some(QualifyRaw(lower, p.raw, m.body.name, p.tables))
    else Some(RawOf(m.body))
  }

  function Settle(store: Store, conversation: string, raw: Raw, outcome: Outcome): Turn {
    if outcome.Raised? then Turn(store, Some(raw), Failure)
    else if outcome.blockers != [] then
      var tables := PendingTables(raw, outcome.blockers);
      Turn(store[conversation := Pending(raw, tables)], Some(raw), AskSchema(tables))
    else if outcome.FailedTask? then Turn(store, Some(raw), Failure)
    else Turn(store - {conversation}, Some(raw), Report)
  }

  function Step(lower: string -> string, store: Store, m: Message): Turn {
    var submission := Submission(lower, store, m);
    if submission.None? then Turn(store, None, Usage)
    else
      var answersPending := m.conversation in store && m.body.SchemaWord?;
      Settle(if answersPending then store - {m.conversation} else store,
             m.conversation, submission.value, m.run(submission.value))
  }

  function Run(lower: string -> string, store: Store, messages: seq<Message>): Store {
    if messages == [] then store
    else Step(lower, Run(lower, store, messages[..|messages| - 1]), messages[|messages| - 1]).store
  }

  /** The handler of the program; `pending` is its in-memory store. */
  class SqlOptimizationHandler {
    var pending: Store
    const lower: string -> string

    constructor (lower: string -> string)
      ensures pending == map[] && this.lower == lower
    {
      this.lower := lower;
      pending := map[];
    }

    method Handle(m: Message) returns (submitted: Option<Raw>, reply: Reply)
      modifies this
      ensures Turn(pending, submitted, reply) == Step(lower, old(pending), m)
    {
      if m.body.Blank? {
        return None, Usage;
      }
      var raw := RawOf(m.body);
      if m.conversation in pending && m.body.SchemaWord? {
        var p := pending[m.conversation];
        raw := QualifyRaw(lower, p.raw, m.body.name, p.tables);
        pending := pending - {m.conversation};
      }
      submitted := Some(raw);
      var outcome := m.run(raw);
      if outcome.Raised? {
        reply := Failure;
      } else if outcome.FailedTask? {
        if outcome.blockers != [] {
          var tables := PendingTables(raw, outcome.blockers);
          pending := pending[m.conversation := Pending(raw, tables)];
          return submitted, AskSchema(tables);
        }
        reply := Failure;
      } else {
        if outcome.blockers != [] {
          var tables := PendingTables(raw, outcome.blockers);
          pending := pending[m.conversation := Pending(raw, tables)];
          return submitted, AskSchema(tables);
        }
        pending := pending - {m.conversation};
        reply := Report;
      }
    }
  }

  // ---- what every run keeps -------------------------------------------------------------------

  /** A remembered statement has a non-empty list of tables, which names all its unqualified ones. */
  ghost predicate Sound(p: Pending) {
    && WellFormed(p.raw) && p.tables != []
    && forall n | n in UnqualifiedNames(p.raw) :: n in p.tables
  }

  ghost predicate AllSound(store: Store) {
    forall c | c in store :: Sound(store[c])
  }

  lemma QualifyKeepsForm(lower: string -> string, raw: Raw, schema: string, tables: seq<string>)
    requires WellFormed(raw)
    ensures WellFormed(QualifyRaw(lower, raw, schema, tables))
  {
  }

  lemma StepKeepsSound(lower: string -> string, store: Store, m: Message)
    requires AllSound(store) && WellFormedBody(m.body)
    ensures AllSound(Step(lower, store, m).store)
  {
    var submission := Submission(lower, store, m);
    if submission.Some? {
      assert WellFormed(submission.value) by {
        if m.conversation in store && m.body.SchemaWord? {
          var p := store[m.conversation];
          assert Sound(p);
          QualifyKeepsForm(lower, p.raw, m.body.name, p.tables);
        }
      }
    }
  }

  /** Pending table lists are never empty, over every run. */
  lemma {:induction false} RunKeepsSound(lower: string -> string, store: Store, messages: seq<Message>)
    requires AllSound(store) && forall m | m in messages :: WellFormedBody(m.body)
    ensures AllSound(Run(lower, store, messages))
  {
    if messages == [] {
    } else {
      RunKeepsSound(lower, store, messages[..|messages| - 1]);
      StepKeepsSound(lower, Run(lower, store, messages[..|messages| - 1]), messages[|messages| - 1]);
    }
  }

  function Slot(store: Store, c: string): Option<Pending> {
    if c in store then Some(store[c]) else None
  }

  function Of(messages: seq<Message>, c: string): seq<Message> {
    if messages == [] then []
    else Of(messages[..|messages| - 1], c)
         + (if messages[|messages| - 1].conversation == c then [messages[|messages| - 1]] else [])
  }

  /** A message touches only its own conversation, and what it does there depends on nothing else. */
  lemma StepIsLocal(lower: string -> string, store: Store, store': Store, m: Message, c: string)
    ensures m.conversation != c ==> Slot(Step(lower, store, m).store, c) == Slot(store, c)
    ensures Slot(store, m.conversation) == Slot(store', m.conversation) ==>
              && Slot(Step(lower, store, m).store, m.conversation) == Slot(Step(lower, store', m).store, m.conversation)
              && Step(lower, store, m).submitted == Step(lower, store', m).submitted
              && Step(lower, store, m).reply == Step(lower, store', m).reply
  {
  }

  /** Over every run, a conversation's pending statement is what its own messages alone produce. */
  lemma {:induction false} ConversationsAreIndependent(lower: string -> string, store: Store, messages: seq<Message>,
                                                       c: string)
    ensures Slot(Run(lower, store, messages), c) == Slot(Run(lower, store, Of(messages, c)), c)
  {
    if messages == [] {
    } else {
      var init, m := messages[..|messages| - 1], messages[|messages| - 1];
      ConversationsAreIndependent(lower, store, init, c);
      StepIsLocal(lower, Run(lower, store, init), Run(lower, store, Of(init, c)), m, c);
      if m.conversation == c {
        assert Of(messages, c)[..|Of(messages, c)| - 1] == Of(init, c);
      } else {
        assert Of(messages, c) == Of(init, c);
      }
    }
  }

  // ---- what one message does ------------------------------------------------------------------

  /** Whether the message is a single word while its conversation has a question open. */
  predicate AnswersQuestion(store: Store, m: Message) { m.body.SchemaWord? && m.conversation in store }

  /** What is submitted: nothing for a blank message, a new statement as it stands even while a question is
      open, a word without an open question as it stands. */
  lemma NewStatementIsSubmitted(lower: string -> string, store: Store, m: Message)
    requires !AnswersQuestion(store, m)
    ensures Step(lower, store, m).submitted
         == match m.body
            case Blank => None
            case Statement(nodes, query) => Some(Tree(nodes, query))
            case SchemaWord(word) => Some(Words(word))
  {
  }

  /** An answer submits the remembered statement, with its schema given to the tables of the statement that
      have none and are among those asked about, and to nothing else. */
  lemma AnswerIsSubmitted(lower: string -> string, store: Store, m: Message)
    requires AnswersQuestion(store, m)
    ensures var p, sent := store[m.conversation], Step(lower, store, m).submitted;
            sent.Some? && if p.raw.Words? then sent.value == p.raw
                          else
                            && sent.value.Tree? && sent.value.query == p.raw.query
                            && |sent.value.nodes| == |p.raw.nodes|
                            && forall i | 0 <= i < |p.raw.nodes| ::
                                 sent.value.nodes[i]
                                 == if i in Sql.NodesOf(p.raw.query) && Sql.IsNamed(lower, p.tables, p.raw.nodes[i])
                                    then Sql.TableRef(m.body.name, p.raw.nodes[i].name)
                                    else p.raw.nodes[i]
  {
    var p := store[m.conversation];
    if p.raw.Tree? {
      forall i | 0 <= i < |p.raw.nodes| {
        Sql.RewrittenIff(lower, p.raw.nodes, Sql.NodesOf(p.raw.query), m.body.name, p.tables, i);
      }
    }
  }

  /** The reply: the usage for a blank message, the question for a task that names blockers, the report for
      one that completed without, and otherwise the failure. */
  lemma ReplyMeans(lower: string -> string, store: Store, m: Message)
    ensures m.body.Blank? <==> Step(lower, store, m).reply == Usage
    ensures !m.body.Blank? ==>
              var outcome := m.run(Step(lower, store, m).submitted.value);
              && (Step(lower, store, m).reply.AskSchema? <==> !outcome.Raised? && outcome.blockers != [])
              && (Step(lower, store, m).reply == Report <==> outcome == Completed([]))
              && (Step(lower, store, m).reply == Failure <==> outcome.Raised? || outcome == FailedTask([]))
  {
  }

  /** A question is open after a message exactly when it asks one, or one was open before and the message was
      blank, or was no answer to it and its task raised or failed without blockers. */
  lemma PendingIff(lower: string -> string, store: Store, m: Message)
    ensures m.conversation in Step(lower, store, m).store <==>
              || (m.body.Blank? && m.conversation in store)
              || (!m.body.Blank?
                  && var outcome := m.run(Step(lower, store, m).submitted.value);
                     || (!outcome.Raised? && outcome.blockers != [])
                     || (!m.body.SchemaWord? && m.conversation in store
                         && (outcome.Raised? || outcome == FailedTask([]))))
  {
  }

  ghost predicate HasUnqualified(raw: Raw)
    requires raw.Tree?
  {
    exists i | i in Sql.NodesOf(raw.query) :: i < |raw.nodes| && raw.nodes[i].schema == ""
  }

  /** Each name under which the statement has a table without schema, once. */
  ghost predicate ListsUnqualified(raw: Raw, names: seq<string>)
    requires raw.Tree?
  {
    && (forall n :: n in names <==> exists i | i in Sql.NodesOf(raw.query) ::
                      i < |raw.nodes| && raw.nodes[i].schema == "" && raw.nodes[i].name == n)
    && forall a, b | 0 <= a < b < |names| :: names[a] != names[b]
  }

  lemma NamesOrBlockers(raw: Raw)
    ensures raw.Tree? ==> ListsUnqualified(raw, UnqualifiedNames(raw))
    ensures UnqualifiedNames(raw) != [] <==> raw.Tree? && HasUnqualified(raw)
  {
    if raw.Tree? {
      Sql.NamesAtMembers(raw.nodes, Sql.NodesOf(raw.query));
      Sql.NamesAtOnce(raw.nodes, Sql.NodesOf(raw.query));
      if HasUnqualified(raw) {
        var i :| i in Sql.NodesOf(raw.query) && i < |raw.nodes| && raw.nodes[i].schema == "";
        assert raw.nodes[i].name in UnqualifiedNames(raw);
      }
      if UnqualifiedNames(raw) != [] {
        assert UnqualifiedNames(raw)[0] in UnqualifiedNames(raw);
      }
    }
  }

  /** The statement remembered: that of the question asked, with the tables named in it, which are the
      statement's unqualified ones or else the blockers; without a question, the one remembered before. */
  lemma PendingMeans(lower: string -> string, store: Store, m: Message)
    requires m.conversation in Step(lower, store, m).store
    ensures var turn := Step(lower, store, m);
            var p := turn.store[m.conversation];
            if turn.reply.AskSchema? then
              && turn.submitted == Some(p.raw) && turn.reply == AskSchema(p.tables)
              && (p.raw.Tree? && HasUnqualified(p.raw) ==> ListsUnqualified(p.raw, p.tables))
              && (p.raw.Words? || !HasUnqualified(p.raw) ==> p.tables == m.run(p.raw).blockers)
            else m.conversation in store && p == store[m.conversation]
  {
    if Step(lower, store, m).reply.AskSchema? {
      NamesOrBlockers(Step(lower, store, m).submitted.value);
    }
  }

  // ---- a schema reply settles the matter ------------------------------------------------------

  ghost predicate FullyQualified(raw: Raw) {
    raw.Tree? ==> forall i | i in Sql.NodesOf(raw.query) && i < |raw.nodes| :: raw.nodes[i].schema != ""
  }

  /** The statement resubmitted after a schema reply has only qualified tables. */
  lemma ReplyIsFullyQualified(lower: string -> string, store: Store, m: Message)
    requires AllSound(store) && m.conversation in store && m.body.SchemaWord? && WellFormedBody(m.body)
    ensures Step(lower, store, m).submitted.Some? && FullyQualified(Step(lower, store, m).submitted.value)
  {
    var p := store[m.conversation];
    assert Sound(p);
    if p.raw.Tree? {
      var rw := Sql.Rewrite(m.body.name, set n | n in p.tables :: lower(n), lower);
      Sql.NamesAtMembers(p.raw.nodes, Sql.NodesOf(p.raw.query));
      Sql.RewriteIsComplete(rw, p.raw.nodes, Sql.NodesOf(p.raw.query));
    }
  }

  /** It means what the remembered statement means in that schema, if no CTE bears a table's name. */
  lemma ReplyKeepsMeaning(lower: string -> string, store: Store, m: Message,
                          tables: (string, string) -> Sql.Relation, defaultSchema: string)
    requires AllSound(store) && m.conversation in store && m.body.SchemaWord? && WellFormedBody(m.body)
    requires store[m.conversation].raw.Tree?
    requires var raw := store[m.conversation].raw;
             Sql.Avoids(raw.nodes, Sql.NodesOf(raw.query), Sql.CteNames(raw.query))
    ensures var raw, sent := store[m.conversation].raw, Step(lower, store, m).submitted.value;
            && sent.Tree? && sent.query == raw.query
            && Sql.Eval(Sql.World(tables, sent.nodes, defaultSchema), raw.query, map[], map[])
            == Sql.Eval(Sql.World(tables, raw.nodes, m.body.name), raw.query, map[], map[])
  {
    var p := store[m.conversation];
    assert Sound(p);
    var rw := Sql.Rewrite(m.body.name, set n | n in p.tables :: lower(n), lower);
    Sql.NamesAtMembers(p.raw.nodes, Sql.NodesOf(p.raw.query));
    Sql.QualificationPreservesMeaning(rw, p.raw.nodes, p.raw.query, tables, defaultSchema, map[]);
  }

  /** Router targets taken from the table nodes of a statement. */
  ghost predicate TargetsOf(raw: Raw, targets: seq<Router.Target>) {
    raw.Tree? && forall t | t in targets ::
      exists i | i in Sql.NodesOf(raw.query) && i < |raw.nodes| ::
        t == Router.Target(if raw.nodes[i].schema == "" then None else Some(raw.nodes[i].schema), raw.nodes[i].name)
  }

  /** The names the handler reads out of a routing error: an error about several instances counts as
      a question about "the tables concerned". */
  function BlockersOf(a: Router.Answer): seq<string> {
    match a
    case Rejected(AskSchemaForMissing(names)) => names
    case Rejected(AmbiguousTables(names)) => names
    case Rejected(AskSchemaForPlan(names)) => names
    case Rejected(NoCommonInstance) => [Router.GENERIC_NAME]
    case Rejected(MixedInstances) => [Router.GENERIC_NAME]
    case _ => []
  }

  /** A task that did not crash fails with the routing error when there is one, and otherwise ends
      without one. */
  ghost predicate RoutedOutcome(a: Router.Answer, outcome: Outcome) {
    || outcome.Raised?
    || (BlockersOf(a) != [] && outcome == FailedTask(BlockersOf(a)))
    || (BlockersOf(a) == [] && (outcome == FailedTask([]) || outcome == Completed([])))
  }

  lemma ReplyIsPendingIff(lower: string -> string, store: Store, m: Message)
    requires m.conversation in store && m.body.SchemaWord?
    ensures Step(lower, store, m).submitted.Some?
    ensures var outcome := m.run(Step(lower, store, m).submitted.value);
            m.conversation in Step(lower, store, m).store <==> !outcome.Raised? && outcome.blockers != []
  {
  }

  lemma BlockersIff(fold: Router.Fold, rows: seq<Router.Row>, targets: seq<Router.Target>, a: Router.Answer)
    requires RouterProofs.IsAnswer(fold, rows, targets, a)
    requires a.Rejected? ==> !a.reason.AskSchemaForMissing? && !a.reason.AmbiguousTables? && !a.reason.AskSchemaForPlan?
    ensures BlockersOf(a) != [] <==> a == Router.Rejected(Router.NoCommonInstance)
  {
  }

  /** Every table of the statement has an enabled row, yet no instance holds them all. */
  ghost predicate Scattered(fold: Router.Fold, rows: seq<Router.Row>, targets: seq<Router.Target>) {
    && RouterProofs.AllMatched(fold, RouterProofs.Rows(rows), RouterProofs.Targets(targets))
    && !Router.SomeInstance(fold, RouterProofs.Rows(rows), RouterProofs.Targets(targets))
  }

  /** After a schema reply the router asks for no schema. The handler asks again all the same exactly
      when the tables are scattered over instances and the task did not crash. */
  lemma ReplyAsksAgainIff(lower: string -> string, store: Store, m: Message, fold: Router.Fold,
                          rows: seq<Router.Row>, targets: seq<Router.Target>, a: Router.Answer)
    requires AllSound(store) && m.conversation in store && m.body.SchemaWord? && WellFormedBody(m.body)
    requires TargetsOf(Step(lower, store, m).submitted.value, targets)
    requires RouterProofs.IsAnswer(fold, rows, targets, a)
    requires RoutedOutcome(a, m.run(Step(lower, store, m).submitted.value))
    ensures a.Rejected? ==> !a.reason.AskSchemaForMissing? && !a.reason.AmbiguousTables? && !a.reason.AskSchemaForPlan?
    ensures m.conversation in Step(lower, store, m).store
       <==> Scattered(fold, rows, targets) && !m.run(Step(lower, store, m).submitted.value).Raised?
  {
    ReplyIsFullyQualified(lower, store, m);
    forall i | 0 <= i < |targets| ensures Router.Qualified(targets[i]) {
      assert targets[i] in targets;
    }
    RouterProofs.QualifiedNeverAsked(fold, rows, targets, a);
    RouterProofs.QualifiedAreUnambiguous(fold, rows, targets);
    RouterProofs.NoCommonInstanceIff(fold, rows, targets, a);
    ReplyIsPendingIff(lower, store, m);
    BlockersIff(fold, rows, targets, a);
  }

  // ---- a dialogue that goes round -------------------------------------------------------------

  /** A statement whose tables are all qualified is not changed by a further schema. */
  lemma QualifiedStays(lower: string -> string, raw: Raw, schema: string, tables: seq<string>)
    requires FullyQualified(raw)
    ensures QualifyRaw(lower, raw, schema, tables) == raw
  {
    if raw.Tree? {
      var rw := Sql.Rewrite(schema, set n | n in tables :: lower(n), lower);
      assert Sql.QualifyStore(rw, raw.nodes, Sql.NodesOf(raw.query)) == raw.nodes;
    }
  }

  lemma {:induction false} QualifiedHasNoNames(nodes: seq<Sql.TableRef>, ids: seq<nat>)
    requires forall i | i in ids && i < |nodes| :: nodes[i].schema != ""
    ensures Sql.NamesAt(nodes, ids) == []
  {
    if ids == [] {
    } else {
      QualifiedHasNoNames(nodes, ids[..|ids| - 1]);
    }
  }

  /** A schema reply to a task about `raw` that does not raise. */
  ghost predicate RepliesTo(m: Message, c: string, raw: Raw, a: Router.Answer) {
    m.conversation == c && m.body.SchemaWord? && !m.run(raw).Raised? && RoutedOutcome(a, m.run(raw))
  }

  ghost predicate Asks(turn: Turn, c: string, raw: Raw) {
    && turn.submitted == Some(raw) && turn.reply == AskSchema([Router.GENERIC_NAME])
    && c in turn.store && turn.store[c].raw == raw
  }

  lemma ReplyGoesRound(lower: string -> string, store: Store, m: Message, c: string, raw: Raw, a: Router.Answer)
    requires c in store && store[c].raw == raw && FullyQualified(raw)
    requires a == Router.Rejected(Router.NoCommonInstance) && RepliesTo(m, c, raw, a)
    ensures Asks(Step(lower, store, m), c, raw)
  {
    QualifiedStays(lower, raw, m.body.name, store[c].tables);
    if raw.Tree? {
      QualifiedHasNoNames(raw.nodes, Sql.NodesOf(raw.query));
    }
  }

  /** Over scattered tables the dialogue never leaves the loop by schema replies: each of them resubmits
      the same statement, and the handler asks again. */
  lemma {:induction false} RepliesGoRound(lower: string -> string, store: Store, messages: seq<Message>, c: string,
                                          raw: Raw, fold: Router.Fold, rows: seq<Router.Row>,
                                          targets: seq<Router.Target>, a: Router.Answer)
    requires c in store && store[c].raw == raw && FullyQualified(raw)
    requires TargetsOf(raw, targets) && Scattered(fold, rows, targets) && RouterProofs.IsAnswer(fold, rows, targets, a)
    requires forall i | 0 <= i < |messages| :: RepliesTo(messages[i], c, raw, a)
    ensures c in Run(lower, store, messages) && Run(lower, store, messages)[c].raw == raw
    ensures forall i | 0 <= i < |messages| :: Asks(Step(lower, Run(lower, store, messages[..i]), messages[i]), c, raw)
  {
    ScatteredIsRejected(raw, fold, rows, targets, a);
    if messages == [] {
    } else {
      var init, last := messages[..|messages| - 1], messages[|messages| - 1];
      RepliesGoRound(lower, store, init, c, raw, fold, rows, targets, a);
      ReplyGoesRound(lower, Run(lower, store, init), last, c, raw, a);
      forall i | 0 <= i < |messages|
        ensures Asks(Step(lower, Run(lower, store, messages[..i]), messages[i]), c, raw)
      {
        if i < |init| {
          assert init[..i] == messages[..i] && init[i] == messages[i];
        }
      }
    }
  }

  lemma ScatteredIsRejected(raw: Raw, fold: Router.Fold, rows: seq<Router.Row>, targets: seq<Router.Target>,
                            a: Router.Answer)
    requires FullyQualified(raw) && TargetsOf(raw, targets) && Scattered(fold, rows, targets)
    requires RouterProofs.IsAnswer(fold, rows, targets, a)
    ensures a == Router.Rejected(Router.NoCommonInstance)
  {
    forall i | 0 <= i < |targets| ensures Router.Qualified(targets[i]) {
      assert targets[i] in targets;
    }
    RouterProofs.QualifiedAreUnambiguous(fold, rows, targets);
    RouterProofs.NoCommonInstanceIff(fold, rows, targets, a);
  }

  const SERVER := Router.Endpoint("mysql", None, "db", 3306, "reader", "")

  /** `shop.a` lives on one instance, `shop.b` on another. */
  const APART := [Router.Row("shop", "a", "i1", None, true, SERVER), Router.Row("shop", "b", "i2", None, true, SERVER)]

  function Exactly(s: string): string { s }

  function TargetsIn(schema: Option<string>): seq<Router.Target> {
    [Router.Target(schema, "a"), Router.Target(schema, "b")]
  }

  /** `SELECT ... FROM a JOIN b`, and then the reply `shop`. */
  const JOINED := Sql.Select(Sql.Join(Sql.Inner, Sql.Table(0, "a"), Sql.Table(1, "b"), Sql.Always), Sql.Always, [])
  const UNQUALIFIED := [Sql.TableRef("", "a"), Sql.TableRef("", "b")]
  const QUALIFIED := [Sql.TableRef("shop", "a"), Sql.TableRef("shop", "b")]
  const BLOCKED := FailedTask([Router.GENERIC_NAME])
  const QUESTION := Message("c", Statement(UNQUALIFIED, JOINED), raw => BLOCKED)
  const REPLY := Message("c", SchemaWord("shop"), raw => BLOCKED)

  lemma ApartSets(schema: Option<string>)
    ensures RouterProofs.Rows(APART) == {APART[0], APART[1]}
    ensures RouterProofs.Targets(TargetsIn(schema)) == {Router.Target(schema, "a"), Router.Target(schema, "b")}
  {
    assert APART[0] in APART && APART[1] in APART;
    assert TargetsIn(schema)[0] in TargetsIn(schema) && TargetsIn(schema)[1] in TargetsIn(schema);
  }

  lemma EachMatchesItsOwn(schema: Option<string>)
    requires schema in {None, Some("shop")}
    ensures Router.Matches(Exactly, APART[0], Router.Target(schema, "a"))
    ensures Router.Matches(Exactly, APART[1], Router.Target(schema, "b"))
    ensures !Router.Matches(Exactly, APART[0], Router.Target(schema, "b"))
    ensures !Router.Matches(Exactly, APART[1], Router.Target(schema, "a"))
  {
    assert "a"[0] != "b"[0];
  }

  lemma TablesAreScattered(schema: Option<string>)
    requires schema in {None, Some("shop")}
    ensures Scattered(Exactly, APART, TargetsIn(schema))
    ensures !Router.AmbiguousSpec(Exactly, RouterProofs.Rows(APART), RouterProofs.Targets(TargetsIn(schema)))
  {
    var R, T := RouterProofs.Rows(APART), RouterProofs.Targets(TargetsIn(schema));
    ApartSets(schema);
    EachMatchesItsOwn(schema);
    assert "i1"[1] != "i2"[1];
    assert !Router.ServesAll(Exactly, R, T, "i1") by { assert Router.Target(schema, "b") in T; }
    assert !Router.ServesAll(Exactly, R, T, "i2") by { assert Router.Target(schema, "a") in T; }
  }

  lemma TablesAreApart(schema: Option<string>)
    requires schema in {None, Some("shop")}
    ensures RouterProofs.IsAnswer(Exactly, APART, TargetsIn(schema), Router.Rejected(Router.NoCommonInstance))
  {
    TablesAreScattered(schema);
    RouterProofs.AllMatchedIff(Exactly, RouterProofs.Rows(APART), RouterProofs.Targets(TargetsIn(schema)));
  }

  lemma JoinedTables()
    ensures Sql.NodesOf(JOINED) == [0, 1] && WellFormed(Tree(UNQUALIFIED, JOINED))
    ensures UnqualifiedNames(Tree(UNQUALIFIED, JOINED)) == ["a", "b"]
  {
    assert Sql.NodesOf(JOINED) == [0, 1];
    assert [0, 1][..1] == [0] && [0][..0] == [];
    assert Sql.NamesAt(UNQUALIFIED, [0]) == ["a"];
  }

  /** The handler asks for a schema, gets it, resubmits a fully qualified statement, and asks for a
      schema again, both times because the router finds no common instance. */
  lemma HandlerAsksTwice(lower: string -> string)
    ensures var asked := Step(lower, map[], QUESTION);
            && asked.reply == AskSchema(["a", "b"])
            && Step(lower, asked.store, REPLY).submitted == Some(Tree(QUALIFIED, JOINED))
            && Step(lower, asked.store, REPLY).reply == AskSchema([Router.GENERIC_NAME])
    ensures RouterProofs.IsAnswer(Exactly, APART, TargetsIn(None), Router.Rejected(Router.NoCommonInstance))
    ensures RouterProofs.IsAnswer(Exactly, APART, TargetsIn(Some("shop")), Router.Rejected(Router.NoCommonInstance))
    ensures TargetsOf(Tree(QUALIFIED, JOINED), TargetsIn(Some("shop")))
    ensures RoutedOutcome(Router.Rejected(Router.NoCommonInstance), BLOCKED)
  {
    TablesAreApart(None);
    TablesAreApart(Some("shop"));
    JoinedTables();
    SecondAsk(lower);
    assert QUALIFIED[0].schema == "shop" && QUALIFIED[1].schema == "shop";
    assert 0 in Sql.NodesOf(JOINED) && 1 in Sql.NodesOf(JOINED);
  }

  lemma SecondAsk(lower: string -> string)
    ensures var asked := Step(lower, map[], QUESTION);
            && asked.reply == AskSchema(["a", "b"])
            && Step(lower, asked.store, REPLY).submitted == Some(Tree(QUALIFIED, JOINED))
            && Step(lower, asked.store, REPLY).reply == AskSchema([Router.GENERIC_NAME])
  {
    JoinedTables();
    var names := ["a", "b"];
    var rw := Sql.Rewrite("shop", set n | n in names :: lower(n), lower);
    assert names[0] in names && names[1] in names;
    assert Sql.QualifyStore(rw, UNQUALIFIED, [0, 1]) == QUALIFIED;
    assert Sql.NamesAt(QUALIFIED, [0, 1]) == [] by {
      assert [0, 1][..1] == [0] && [0][..0] == [];
      assert Sql.NamesAt(QUALIFIED, [0]) == [];
    }
  }
}
