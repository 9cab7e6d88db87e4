# ChatDBA: models and proofs of its decision procedures, text protocols and small machines

ChatDBA is a database assistant: it retrieves tuning cases, routes the tables of a statement to a
MySQL instance, keeps a short dialogue about missing schemas, streams progress and reports to chats
and browsers, repairs the reports of a language model, and delivers diagnoses of database alarms.
This project models those parts in Dafny and proves what they guarantee, over every input, every
interleaving of calls and every run. Where the source works step by step, the model does too:
its objects are classes, its loops are loops, and each method is proved equal to a specification
function about which the theorems are stated.

| file | area |
|---|---|
| `Diversity`, `Cases`, `CaseScores`, `Hybrid`, `StableSort` | case retrieval: hard filters, score and what a match is worth, stable order, greedy pass, hybrid re-ranking |
| `Router`, `RouterProofs`, `RouterMeaning` | routing tables to one instance, against a declarative specification over sets, and what its answers mean on names and places |
| `Sql`, `Dialogue` | adding a schema to a statement, what the statement then means, and the dialogue that asks for it |
| `Chunker`, `StatusJoin`, `Progress`, `CardSender` | splitting reports, buffering progress, streaming to a card with a text fallback |
| `LazyService`, `EventStream`, `UsageAccounting` | double-checked initialisation, worker and consumer of an event stream, per-thread usage records |
| `Sse` | server-sent events printed and read back (sections 9.2.5 and 9.2.6 of the HTML Living Standard) |
| `Fence`, `SectionRepair` | fenced SQL (section 4.5 of CommonMark 0.31) and the repair of the TopSQL section of a report |
| `AlarmWorker`, `AlarmDelivery`, `AlarmSafety` | anchoring, following, retrying and checkpointing alarms; every run in closed form; what holds across restarts and kills |
| `Text`, `Search`, `Seqs`, `Options` | Python strings: white space, stripping, order, search; equalities of sequences; the optional value |

Results that a maintainer may not expect:

* Retrieval keeps one case too many for a limit of zero (`Diversity.LimitIsRespectedIff`).
* Several branches of the router can never be taken: no plan has a missing choice or mixes instances,
  and the preference for a default schema never decides anything once the ambiguity test has passed.
* A schema reply for tables that no single instance holds makes the handler ask for a schema again,
  because it reads that error as a question about tables (`Dialogue.ReplyAsksAgainIff`,
  `Dialogue.HandlerAsksTwice`), and no further schema reply leads out of that
  (`Dialogue.RepliesGoRound`).
* Qualification also captures references to common table expressions (`Sql.CteReferenceIsCaptured`).
* A second repair of a report makes it grow whenever a shown SQL holds the end mark
  (`SectionRepair.MarkedSqlMakesItGrow`).
* A usage collection that is finished inside an open operation loses that operation's name for the
  calls that follow in it (`UsageAccounting.OperationIsInnermostIff`).
* The alarm worker does not resume from its checkpoint, although the repository's own README (line
  422) says that it continues from there: every connection anchors to the newest row. Exactly the
  alarms streamed above an anchor are delivered, up to one that exhausts its retries
  (`AlarmDelivery.ConnectionDeliversIff`, `AlarmDelivery.RunDeliversIff`); that one, and those that come
  while the worker is away, are lost (`AlarmSafety.AlarmsAreLost`, `AlarmSafety.PassedAlarmIsLost`). The
  model follows the code.
* The first pause between delivery attempts is not bounded by the maximum
  (`AlarmWorker.PausesAreBoundedIff`), and with no attempts allowed an alarm counts as processed without
  having been delivered (`AlarmWorker.ProcessedIsStoredIff`).

Outcomes of calls to the outside (the language model, databases, the card service, webhooks, clocks,
the embedding service) are parameters. Scores are reals. Upper and lower case, identifier folding and
JSON parsing are arbitrary functions passed in.

## Model

| member | source | states |
|---|---|---|
| Diversity.DedupeByRootCause | src/chatdba/cases/retriever.py:267-286 | the loop with its count dictionary returns exactly the declarative selection: of each non-empty root-cause set the first `cap` occurrences, cut off once the limit is reached |
| Diversity.KeptCount | src/chatdba/cases/retriever.py:274-283 | of every root cause exactly the smaller of `cap` and its number of occurrences is kept, counting what came before |
| Diversity.SelectIsFeasible | src/chatdba/cases/retriever.py:267-286 | for every limit of at least one, the selection comes from the input, respects the cap of each root cause and the limit |
| Diversity.LimitIsRespectedIff | src/chatdba/cases/retriever.py:282-286 | the result is within the limit exactly when the limit is at least one, or it is zero and no case at all is admissible |
| Diversity.GreedyIsBest | src/chatdba/cases/retriever.py:267-286 | exchange argument: over a list in descending order of weight no candidate within caps and limit weighs more than the greedy pass |
| StableSort.SortIsDescendingPermutation | src/chatdba/cases/retriever.py:71-84 | the ranking is a permutation of the scored cases in descending order of score and quality |
| StableSort.SortIsStable | src/chatdba/cases/retriever.py:71-84 | cases of equal rank keep their order |
| Cases.HardFilterScenarioTags | src/chatdba/cases/retriever.py:120-126 | the normalised tags that are neither empty nor soft, each once, in order of first appearance |
| Cases.HardTagListIsExact | src/chatdba/cases/retriever.py:120-126 | that list has no repeats and holds exactly the hard tags that the filter compares with a case |
| Cases.ScoreInUnit | src/chatdba/cases/retriever.py:180-208 | every score lies between zero and one, whatever the case, the query and the overrides |
| Cases.RetrievedIsSelection | src/chatdba/cases/retriever.py:49-91 | the returned cases pass the hard filters and respect the root-cause cap and the limit |
| Cases.RetrievedIsOptimal | src/chatdba/cases/retriever.py:49-91 | no other such selection has a greater total score |
| CaseScores.ScoreIsWorth | src/chatdba/cases/retriever.py:180-309 | the score of any case is a sum over what query and case have in common: how many fields, scenarios, plan criteria and root causes were asked for, how many of them the case has, and its own scores cut to the unit interval |
| CaseScores.RootCauseGain | src/chatdba/cases/retriever.py:180-208 | a case that covers `k` more of the `n` root causes asked for, and is the same otherwise, scores exactly `0.20 * k / n` more |
| CaseScores.ScenarioGain | src/chatdba/cases/retriever.py:180-208 | the same for scenarios, with `0.15 * k / n` |
| CaseScores.PlanTagGain | src/chatdba/cases/retriever.py:226-249 | the same for plan symptoms, which share 0.30 with the other plan criteria that are asked for |
| CaseScores.VersionGain | src/chatdba/cases/retriever.py:211-223 | a version asked for that matches where it did not adds `0.20` over the number of fields asked for |
| CaseScores.SqlTypeGain | src/chatdba/cases/retriever.py:211-223 | so does the kind of statement |
| CaseScores.WorkloadGain | src/chatdba/cases/retriever.py:211-223 | so does the workload |
| CaseScores.DatabaseGain | src/chatdba/cases/retriever.py:211-223 | so does the database |
| CaseScores.RowsBucketGain | src/chatdba/cases/retriever.py:226-249 | a row count asked for that matches where it did not adds `0.30` over the number of plan criteria |
| CaseScores.TablesBucketGain | src/chatdba/cases/retriever.py:226-249 | so does the number of tables |
| CaseScores.OwnScoresGain | src/chatdba/cases/retriever.py:191-208 | cases that differ in their own scores differ by a tenth of the mean difference of the three retrieval scores, each under its override, and by 0.05 of that of their quality |
| CaseScores.FullMatchScoresOne | src/chatdba/cases/retriever.py:180-264 | a case that has everything asked for, with full scores of its own, scores one when the query asks for something of each kind |
| CaseScores.BetterStandsAhead | src/chatdba/cases/retriever.py:49-91 | of two survivors the one that has more of anything, and no less of the rest, stands first in the ranking, wherever the two are in the library |
| CaseScores.QualityBreaksTies | src/chatdba/cases/retriever.py:77-84 | of two survivors with one score the one of better quality stands first |
| CaseScores.AlikeAreCapped | src/chatdba/cases/retriever.py:267-286 | no more than `cap` of the cases returned have one and the same non-empty set of root causes |
| CaseScores.PassesIff | src/chatdba/cases/retriever.py:156-177 | a case is turned down exactly for another database, another version or kind of statement where both are given, or for sharing no hard scenario where both have scenarios |
| Hybrid.PgVectorCaseRetriever.Retrieve | src/chatdba/cases/pgvector_retriever.py:47-79 | candidates, hits and score overrides gathered in insertion-ordered dictionaries, then retrieved again; without hits the rule list cut to the limit |
| Hybrid.DroppedStaysDropped | src/chatdba/cases/pgvector_retriever.py:61-79 | a case that the first pass capped or cut off changes nothing when it is sorted back in |
| Hybrid.ReRankIsStable | src/chatdba/cases/pgvector_retriever.py:61-79 | sorting the first pass together with any number of dropped cases selects what the first pass selected |
| Hybrid.HybridRefinesRuleOnly | src/chatdba/cases/pgvector_retriever.py:47-79 | with distinct ids and a limit of at least one, hits that repeat stored scores, or no hits, leave the rule-only list unchanged, order included |
| Hybrid.HitsGather | src/chatdba/cases/pgvector_retriever.py:61-72 | the pool is exactly the rule candidates and the library cases that hits name, each named one with the vector score of its last hit |
| Hybrid.RuleCandidatesAreFirst | src/chatdba/cases/pgvector_retriever.py:47-56 | the rule candidates are the first of the capped ranking, as many as the limit, the candidate limit or one, whichever is most |
| Hybrid.WithoutHits | src/chatdba/cases/pgvector_retriever.py:52-60 | without hits the rule candidates are cut to the limit, a negative one cutting off the end |
| Hybrid.HybridIsBestOfPool | src/chatdba/cases/pgvector_retriever.py:47-79 | with any hits the result is a selection from that pool, in which every id occurs once, and none has a greater total score under the hits' scores |
| Router.LeastSchema | src/chatdba/db/metadata_router.py:331-353 | the chosen schema is the least common one in the order of strings |
| Router.IntersectSchemas | src/chatdba/db/metadata_router.py:331-340 | the narrowed set is exactly the set of schemas that every unqualified table has on the instance |
| Router.ChooseConnection | src/chatdba/db/metadata_router.py:331-353 | the schema for unqualified tables: the default schema of the first row when it is common, else the least common one |
| Router.PlanForInstance | src/chatdba/db/metadata_router.py:318-367 | the plan of an instance, or none, as a function of its candidate rows |
| Router.InstanceIds | src/chatdba/db/metadata_router.py:243-247 | the instances of all candidates, each once, in ascending order |
| Router.SelectRoutePlan | src/chatdba/db/metadata_router.py:231-270 | the plan returned is one that no other instance's plan precedes; none is returned exactly when no instance has a plan |
| Router.AmbiguousUnqualifiedTables | src/chatdba/db/metadata_router.py:272-287 | the names of unqualified tables with several instance and schema pairs, in the order of the tables and with their repeats; the rejection sorts them |
| Router.UnqualifiedTableNames | src/chatdba/db/metadata_router.py:289-301 | the unqualified names in order of first appearance, or the generic name when there is none; several names exactly when several distinct ones occur |
| RouterProofs.HasCommonInstance | src/chatdba/db/metadata_router.py:303-316 | true exactly when some instance has a row for every target |
| RouterProofs.MissingAgrees | src/chatdba/db/metadata_router.py:110-133 | the test of the code for missing routes agrees with the specification over sets of rows and targets |
| RouterProofs.DisabledAgrees | src/chatdba/db/metadata_router.py:135-154 | so does the test for disabled instances |
| RouterProofs.AmbiguousAgrees | src/chatdba/db/metadata_router.py:156-168 | so does the ambiguity test, in both directions |
| RouterProofs.PlanExistsIff | src/chatdba/db/metadata_router.py:318-367 | behind the ambiguity test an instance has a plan exactly when it serves every target and the unqualified targets agree on their schema |
| RouterProofs.AtMostOnePlan | src/chatdba/db/metadata_router.py:243-270 | when any target is unqualified, at most one instance has a plan, so the preferences between plans never decide |
| RouterProofs.BestIsLeastInstance | src/chatdba/db/metadata_router.py:255-270 | the chosen plan belongs to the least instance that has one |
| RouterProofs.BuildAnswer | src/chatdba/db/metadata_router.py:188-215 | the route and resolved tables are those of the first enabled matching row of each target on the chosen instance; the mixed-instances branch is unreachable |
| RouterProofs.ResolveWithTables | src/chatdba/db/metadata_router.py:110-215 | the whole method answers as the declarative specification decides, with the details of each rejection and of a full route |
| RouterProofs.DecisionIsUnique | src/chatdba/db/metadata_router.py:110-215 | the specification allows one decision only |
| RouterProofs.FullIff | src/chatdba/db/metadata_router.py:188-215 | a full route is given exactly when no target is ambiguous, the unqualified ones share one schema, and some instance serves all targets |
| RouterProofs.RoutingIsOrderIndependent | src/chatdba/db/metadata_router.py:110-215 | reordering or repeating rows and targets changes neither status, kind of rejection, instance nor schema |
| RouterProofs.QualifiedNeverAsked | src/chatdba/db/metadata_router.py:119-182 | targets that all have a schema never lead to a question for one |
| RouterProofs.NoCommonInstanceIff | src/chatdba/db/metadata_router.py:170-182 | no common instance is reported exactly when every target has an enabled match, none is ambiguous, and no instance serves them all |
| RouterMeaning.AnswerMeans | src/chatdba/db/metadata_router.py:110-215 | on names and places alone: which of the tests (no row, not enabled, in two places, on no common instance, in two schemas) apply to rows and targets, and that the first that does decides the answer |
| RouterMeaning.MissingIff | src/chatdba/db/metadata_router.py:110-133 | a missing route, of either kind, is reported exactly when there are no rows, or none that bears the names of some table: its own and, if one is named, its schema |
| RouterMeaning.QuestionNames | src/chatdba/db/metadata_router.py:289-301 | a question lists the tables named without schema, or the generic name when there are none |
| RouterMeaning.AmbiguityNames | src/chatdba/db/metadata_router.py:156-168 | an ambiguity lists exactly the tables named without schema that enabled rows place in two instances or schemas |
| RouterMeaning.DisabledNames | src/chatdba/db/metadata_router.py:139-154 | a disabled route lists the instances of all rows of these tables that are switched off, each once, in order |
| RouterMeaning.ResolvedRow | src/chatdba/db/metadata_router.py:188-228 | every table of a full answer is resolved to the schema and table of the first row of the instance that is enabled and bears its names, so that names and schemas agree |
| RouterMeaning.InstanceIsLeast | src/chatdba/db/metadata_router.py:231-270 | the instance holds all tables, and is the least that does |
| RouterMeaning.DefaultSchemaMeans | src/chatdba/db/metadata_router.py:188-215 | the default schema is that of the tables named without one, if there are any and it is not empty, and otherwise that of the row of the first table |
| Sql.QualifyUnqualifiedTables | src/chatdba/sql/schema_qualification.py:32-46 | the table nodes are rewritten in place: unqualified ones among the listed names get the schema, nothing else changes |
| Sql.UnqualifiedTableNames | src/chatdba/sql/schema_qualification.py:49-56 | the names of unqualified tables, each once, in the order in which the parser meets them, whatever that is |
| Sql.NamesAtMembers | src/chatdba/sql/schema_qualification.py:49-56 | these are exactly the names that some unqualified table node of the statement has |
| Sql.NamesAtOnce | src/chatdba/sql/schema_qualification.py:49-56 | none of them is repeated |
| Sql.BindingsPreservedIff | src/chatdba/sql/schema_qualification.py:32-46 | under any default schema, every reference of a query, through joins, aliases, subqueries and CTEs, keeps what it refers to exactly when no reference to a CTE in scope is rewritten and, unless the default schema is the added one, every other unqualified one is |
| Sql.EvalPreserved | src/chatdba/sql/schema_qualification.py:32-46 | a rewrite that covers the tables of a query preserves its value in every environment |
| Sql.QualificationPreservesMeaning | src/chatdba/sql/schema_qualification.py:32-46 | with no CTE name among the tables, the rewritten query under any default schema means what the original means under the added one |
| Sql.CteReferenceIsCaptured | src/chatdba/sql/schema_qualification.py:32-46 | a query with a CTE whose rewriting loses its row, although every table was to be rewritten |
| Sql.RewriteIsComplete | src/chatdba/sql/schema_qualification.py:32-56 | no unqualified table is left, qualified ones and names are untouched, a second rewrite changes nothing |
| Sql.RewrittenIff | src/chatdba/sql/schema_qualification.py:32-46 | a table node is rewritten exactly when it belongs to the query, has no schema, and its name is one of those given up to case; it then gets the schema and keeps its name |
| Dialogue.SqlOptimizationHandler.Handle | src/chatdba/dingtalk/handler.py:130-298 | one message takes the pending store, the submitted statement and the reply through exactly one step of the dialogue |
| Dialogue.NewStatementIsSubmitted | src/chatdba/dingtalk/handler.py:130-174 | a new statement is submitted as it stands even while a question is open, as is a word without an open question; a blank message submits nothing |
| Dialogue.AnswerIsSubmitted | src/chatdba/dingtalk/handler.py:132-141 | an answer submits the remembered statement, in which exactly the tables that have no schema and were asked about get the one named |
| Dialogue.ReplyMeans | src/chatdba/dingtalk/handler.py:143-298 | usage for a blank message, the question for a task that names blockers, the report for one that completed without, the failure for one that raised or failed without |
| Dialogue.PendingIff | src/chatdba/dingtalk/handler.py:130-298 | a question is open after a message exactly when it asks one, or one was open and the message was blank, or was no answer and its task raised or failed without blockers |
| Dialogue.PendingMeans | src/chatdba/dingtalk/handler.py:195-280 | the statement remembered is the one the question was asked about, with the tables named in it: the unqualified ones, each once, or else the blockers; without a question it is the one remembered before |
| Dialogue.RunKeepsSound | src/chatdba/dingtalk/handler.py:523-532 | over every run of messages the remembered table names are never empty and cover the unqualified tables of the statement |
| Dialogue.ConversationsAreIndependent | src/chatdba/dingtalk/handler.py:93-108 | over every run, what is pending for a conversation is what its own messages produce |
| Dialogue.ReplyIsFullyQualified | src/chatdba/dingtalk/handler.py:130-141 | the statement resubmitted after a schema reply has no unqualified table |
| Dialogue.ReplyKeepsMeaning | src/chatdba/dingtalk/handler.py:130-141 | it means what the remembered statement means in that schema, unless a CTE bears a table's name |
| Dialogue.ReplyAsksAgainIff | src/chatdba/dingtalk/handler.py:195-208 | after a schema reply the router never asks for a schema; the handler asks again exactly when every table has an enabled row, no instance holds them all, and the task did not raise |
| Dialogue.RepliesGoRound | src/chatdba/dingtalk/handler.py:130-208 | over tables that no instance holds together, every further schema reply resubmits the same statement and is answered by the same question |
| Dialogue.HandlerAsksTwice | src/chatdba/dingtalk/handler.py:130-208 | a dialogue over two tables on two instances in which the handler asks, is answered, resubmits a qualified statement and asks again |
| Chunker.IterMarkdownChunks | src/chatdba/dingtalk/handler.py:479-493 | the loop emits exactly the greedy groups of whole lines |
| Chunker.ChunksAreExact | src/chatdba/dingtalk/handler.py:479-493 | the chunks join to the stripped text, each is a run of whole lines, and is within 320 characters unless it is a single longer line |
| Chunker.ChunksAreFewest | src/chatdba/dingtalk/handler.py:479-493 | no other split into whole lines that obeys the rule has fewer chunks |
| Chunker.SplitLinesAreLines | src/chatdba/dingtalk/handler.py:486 | on every text the parts are whole lines: no break before the end except the first half of a final "\r\n", a break at the end of all but the last, and no "\r\n" cut in two |
| Chunker.LinesAreUnique | src/chatdba/dingtalk/handler.py:486 | there is no other way to part a text into such lines |
| Chunker.ChunkIsWholeLines | src/chatdba/dingtalk/handler.py:479-493 | a chunk of more than 320 characters has no break before its end, and every chunk but the last ends at a break |
| Chunker.ChunkIsFull | src/chatdba/dingtalk/handler.py:479-493 | no chunk ends before it must: with what follows up to any end of a line it would exceed 320 characters |
| StatusJoin.JoinStreamChunks | src/chatdba/dingtalk/channel.py:79-107 | the batch join of the buffer is the sender's incremental append folded over the chunks |
| StatusJoin.AppendIsConcatIff | src/chatdba/dingtalk/sender.py:284-290 | appending is plain concatenation exactly when two statuses do not meet, or meet with the one blank already between them |
| StatusJoin.StatusesAreSpaced | src/chatdba/dingtalk/sender.py:284-290 | of two statuses in a row the white space between them, whatever it is, becomes one blank, and all before and behind them stays |
| StatusJoin.EndsWithStatusIff | src/chatdba/dingtalk/sender.py:300-309 | a text counts as ending with a status exactly when one of the three stands at its end, white space aside |
| StatusJoin.OthersAreAppended | src/chatdba/dingtalk/sender.py:284-290 | a chunk that is no status, or comes behind other text, is appended as it is |
| StatusJoin.AppendAllKeepsText | src/chatdba/dingtalk/channel.py:79-86 | joining loses and reorders nothing but white space |
| StatusJoin.AppendAllKeepsEnds | src/chatdba/dingtalk/channel.py:79-86 | joining keeps the white space at both ends of the text |
| StatusJoin.BatchIsConcatIff | src/chatdba/dingtalk/channel.py:79-86 | a batch joins to its exact text exactly when no status in it follows a status with something else than one blank between them |
| Progress.StreamUpdateBuffer.Flush | src/chatdba/dingtalk/channel.py:60-76 | what is returned and what stays buffered, forced or by the clock |
| Progress.StreamingProgressBridge.Emit | src/chatdba/dingtalk/progress.py:27-29 | one emit is one step of the buffer and its sends |
| Progress.StreamingProgressBridge.EmitNow | src/chatdba/dingtalk/progress.py:31-33 | a forced emit sends the whole buffer |
| Progress.RunConserves | src/chatdba/dingtalk/progress.py:27-43 | after any operations what was sent plus what is buffered is what was emitted, up to white space |
| Progress.FinishSendsAll | src/chatdba/dingtalk/progress.py:35-43 | after a finish all emitted text has been sent |
| Progress.BatchesAreChunks | src/chatdba/dingtalk/progress.py:27-43 | the batches sent and the buffer hold exactly the emitted chunks, in order |
| Progress.RunIsExactIff | src/chatdba/dingtalk/progress.py:27-43 | sends and buffer hold the emitted text to the letter exactly when statuses clash in no batch; statuses that meet across batches do no harm |
| Progress.RunIsExact | src/chatdba/dingtalk/progress.py:27-43 | in particular when no two statuses are adjacent, however the clock cuts the batches |
| Progress.BufferedIsYoung | src/chatdba/dingtalk/channel.py:55-76 | with a clock that does not run backwards, after each emit everything still buffered is younger than the interval |
| Progress.EmitSendsIff | src/chatdba/dingtalk/channel.py:55-76 | an emit sends the whole buffer exactly when the oldest chunk in it is as old as the interval, and nothing otherwise |
| CardSender.DingTalkCardStreamingSender.SendMarkdownChunk | src/chatdba/dingtalk/sender.py:94-146 | one chunk takes cards, fallback buffers and outside calls through one step, whether the card service raises or not |
| CardSender.DingTalkCardStreamingSender.FinishMarkdownStream | src/chatdba/dingtalk/sender.py:148-206 | so does a finish |
| CardSender.RunKeepsValid | src/chatdba/dingtalk/sender.py:94-206 | in every interleaving no id is in both maps, neither map holds an empty text, and a finished id is in none |
| CardSender.IdsAreIndependent | src/chatdba/dingtalk/sender.py:94-206 | what happens to a message id depends on its own calls only |
| CardSender.SanitizeKeepsIff | src/chatdba/dingtalk/sender.py:293-297 | non-empty text reaches the card as it is exactly when it holds no control characters besides line breaks and tabs; nothing empty is sent |
| CardSender.EndTextsMean | src/chatdba/dingtalk/sender.py:153-190 | a failure adds one note to buffered text, and to a card only when nothing has been rendered |
| CardSender.SessionEnds | src/chatdba/dingtalk/sender.py:94-206 | what a session sends is a function of its calls: every non-empty chunk streamed once in order and one finishing call; or, from the chunk at which creating or streaming the card fails, one text with all the text and the failure note if the task failed; with no text, nothing |
| CardSender.BufferIsExactIff | src/chatdba/dingtalk/sender.py:263-290 | that text is the chunks to the letter exactly when no status clashed with another before the card was left |
| CardSender.BufferKeepsText | src/chatdba/dingtalk/sender.py:263-290 | in all cases it is the chunks up to white space |
| CardSender.SessionsEnd | src/chatdba/dingtalk/sender.py:94-206 | after every finish an id starts afresh: what it sends in all is what its sessions send, with callback data or without |
| CardSender.InterleavedSessionsEnd | src/chatdba/dingtalk/sender.py:94-206 | the same for any number of sessions within every interleaving with other ids, which leaves the id in neither map |
| CardSender.PlainChunksAreSent | src/chatdba/dingtalk/sender.py:94-104 | without callback data every non-empty chunk is sent as a text of its own, in order |
| LazyService.TaskServiceProvider.Get | src/chatdba/app/main.py:84-104 | the service is built on the first call, or replaced by the stand-in when building raises, and kept |
| LazyService.UndisturbedCallIsGet | src/chatdba/app/main.py:84-104 | a call of the interleaving machine that no other thread disturbs does what this method does |
| LazyService.FactoryRunsOnce | src/chatdba/app/main.py:84-104 | for any number of threads and any interleaving the factory runs at most once, even when it raises, and all calls return the same service |
| LazyService.ServiceIsStable | src/chatdba/app/main.py:84-104 | once set, the service never changes |
| LazyService.WaitingMakesProgress | src/chatdba/app/main.py:84-104 | while a thread waits for the lock, some thread can move on |
| EventStream.TaskWorker.RunTask | src/chatdba/app/main.py:355-434 | with its three outcomes, an exception anywhere between two puts, and the final put, the worker puts exactly the events that the task specifies |
| EventStream.PutsFollowProtocol | src/chatdba/app/main.py:355-434 | whatever a task does and wherever it raises: progress, report chunks, one verdict, done; the verdict is an error exactly when it raised |
| EventStream.VerdictMeans | src/chatdba/app/main.py:515-525 | without blockers the verdict is the status of the execution, with an error exactly when it did not complete: the execution's, or the stand-in for an empty one |
| EventStream.QuestionMeans | src/chatdba/app/main.py:374-424 | with blockers in the error, or in the report of a completed task, the verdict is a failure for want of a schema, behind a question that names each unqualified table, or each blocker when there are none, and no report |
| EventStream.ProgressMeans | src/chatdba/app/main.py:355-358 | the progress texts put are the stripped texts of the chunks that are not blank, all of them and in order |
| EventStream.RaisingPuts | src/chatdba/app/main.py:430-434 | a task that raises puts what it would have put up to there, an error with the message of the exception, done |
| EventStream.ReportIsStreamedWhole | src/chatdba/app/main.py:425-430 | the report chunks of a completed task join to the stripped report |
| EventStream.OutputFollowsPuts | src/chatdba/app/main.py:436-456 | in every interleaving the output without heartbeats is a prefix of ready, the puts of the task in order, end |
| EventStream.FinishedStreamIsComplete | src/chatdba/app/main.py:349-456 | a finished stream has printed all puts of the task: ready, progress, report chunks, exactly one final or error, end |
| EventStream.NothingAfterEnd | src/chatdba/app/main.py:436-456 | nothing follows the end |
| EventStream.EveryRunCanFinish | src/chatdba/app/main.py:349-456 | from every point of every run some steps finish the stream |
| UsageAccounting.QwenGateway.FinishUsageCollection | src/chatdba/models/qwen_gateway.py:26-32 | the thread's records are returned and its task and operation cleared, other threads untouched |
| UsageAccounting.InvokeRecords | src/chatdba/models/qwen_gateway.py:95-135 | a call is recorded exactly when a task is named, its collection has started and the usage is known; the record names the open operation or else the call, and its total is the reported one if positive, otherwise the sum of the parts |
| UsageAccounting.ThreadsAreIndependent | src/chatdba/models/qwen_gateway.py:22-135 | in every interleaving a thread's state is what its own actions make of it |
| UsageAccounting.OperationIsTag | src/chatdba/models/qwen_gateway.py:26-40 | for every history calls are tagged with the innermost open operation unless it was lost, and leaving a block restores the tag that was current outside it |
| UsageAccounting.OperationIsInnermostIff | src/chatdba/models/qwen_gateway.py:26-40 | the current operation is the innermost open one exactly when no collection was finished while its block was the innermost one |
| UsageAccounting.OperationIsInnermost | src/chatdba/models/qwen_gateway.py:34-40 | in particular when collections are finished outside all operations |
| UsageAccounting.FinishInsideBlockLosesOperation | src/chatdba/models/qwen_gateway.py:26-40 | a history in which it is lost |
| UsageAccounting.FinishReturnsSession | src/chatdba/models/qwen_gateway.py:95-135 | in every interleaving and for every history a finish returns exactly the thread's calls with usage since its last start, in order, tagged with task and current operation |
| UsageAccounting.TaskIsAccounted | src/chatdba/tasks/service.py:81-130 | the start and finish around a task keep histories well bracketed, and the task's records depend on its own calls only |
| Sse.Response.ReadEventData | src/chatdba/fault/agents.py:711-734 | one reading returns the data of the next wanted event and leaves the rest of the stream, or nothing when the stream ends |
| Sse.DrainIsMatching | src/chatdba/fault/agents.py:711-734 | for every text, repeated readings yield exactly the wanted events among the blocks that a blank line ends, in order |
| Sse.PrintedAreHeard | src/chatdba/app/main.py:345-346 | printed events are heard by name and in order, whatever follows them in the stream |
| Sse.AllAreHeard | src/chatdba/fault/agents.py:711-734 | a listener that names no event hears all printed events, in order |
| Sse.ReturnsAreIgnored | src/chatdba/fault/agents.py:718-719 | an event whose lines end with a carriage return and a line feed is heard like the one printed |
| Sse.RoundTrip | src/chatdba/app/main.py:345-346 | the same when the stream is cut off anywhere inside a last event, which is dropped |
| Sse.HeardExactlyIff | src/chatdba/fault/agents.py:729-731 | the texts heard are the texts printed exactly when these do not start with white space |
| Sse.ReadJsonRpcResponse | src/chatdba/fault/agents.py:230-241 | on every finite stream the reader ends, with the first message that carries the id, or with the closed stream or malformed text met before |
| Sse.FoundIsFirstMatch | src/chatdba/fault/agents.py:230-241 | a message found carries the id, no earlier one does, and the stream admits no other answer |
| Sse.PrintedAnswerIsFound | src/chatdba/fault/agents.py:230-241 | a printed "message" event with the id is the answer found when the "message" events printed before it hold other objects or none, whatever other events come before and whatever follows |
| Fence.SqlCodeBlock | src/chatdba/workflow/fault_diagnosis.py:698-702 | the growing loop ends, with the block made of the shortest safe fence |
| Fence.FenceIsShortest | src/chatdba/workflow/fault_diagnosis.py:698-702 | a run of three or more backticks is absent from the text exactly when it is at least as long as that fence |
| Fence.FencedReadsBackIff | src/chatdba/workflow/fault_diagnosis.py:698-702 | with any fence, the block reads back exactly when no line of the SQL is a closing fence |
| Fence.BlockRoundTrip | src/chatdba/workflow/fault_diagnosis.py:698-702 | for every SQL text and whatever follows, CommonMark reads back the stripped SQL |
| Fence.FixedFenceLosesSql | src/chatdba/workflow/fault_diagnosis.py:698-702 | with a fence fixed at three backticks there is SQL that does not read back |
| SectionRepair.TopSqlMarkdown | src/chatdba/workflow/fault_diagnosis.py:644-661 | the numbered rows of the first two records and the footer, or the failure text when the evidence has none |
| SectionRepair.ExpectedReads | src/chatdba/workflow/fault_diagnosis.py:644-661 | the text put in, in full: number, database, count, average and total under their labels, and the fenced SQL of each of the first two records, then how many records there are and how many are shown |
| SectionRepair.DecimalReads | src/chatdba/workflow/fault_diagnosis.py:644-661 | numbers are printed as the decimal digits that stand for them |
| SectionRepair.TopSqlFindingHasFullSql | src/chatdba/workflow/fault_diagnosis.py:549-563 | true exactly when the section is not empty and holds the block of each shown SQL |
| SectionRepair.HasFullSqlIff | src/chatdba/workflow/fault_diagnosis.py:549-563 | the test passes exactly when the section is not empty and holds the fenced SQL of each of the first two records |
| SectionRepair.SectionBetween | src/chatdba/workflow/fault_diagnosis.py:585-608 | the section is what stands, stripped, between the first start mark and the next end mark or the end of the report; empty without a start mark |
| SectionRepair.EnsureTopSqlFindingSection | src/chatdba/workflow/fault_diagnosis.py:535-546 | the report is kept when the evidence is unusable or its section is full, and replaced around the section otherwise |
| SectionRepair.ExpectedContainsEndIff | src/chatdba/workflow/fault_diagnosis.py:644-661 | the text put in contains the end mark exactly when a shown database name or stripped SQL does |
| SectionRepair.ReplaceKeepsOutside | src/chatdba/workflow/fault_diagnosis.py:566-582 | outside the section only white space at its boundaries and at the ends of the report changes |
| SectionRepair.SectionOfRebuilt | src/chatdba/workflow/fault_diagnosis.py:585-608 | after a replacement the section found is the text put in, up to its first end mark |
| SectionRepair.SectionLacksEnd | src/chatdba/workflow/fault_diagnosis.py:585-608 | no section of any report holds the end mark |
| SectionRepair.FullNeedsCleanSql | src/chatdba/workflow/fault_diagnosis.py:549-563 | a report can only pass the test when no shown SQL holds the end mark |
| SectionRepair.RepairIsFullIff | src/chatdba/workflow/fault_diagnosis.py:535-582 | for all reports and records: after the repair the section holds every shown SQL in full exactly when it did before, or the report has a start mark and no end mark in the text put in cuts a shown block off |
| SectionRepair.SurvivesCutIff | src/chatdba/workflow/fault_diagnosis.py:644-661 | with database names free of the end mark no block is cut off exactly when the shown SQLs are free of it; an SQL that holds it always is |
| SectionRepair.RepairIsIdempotentIff | src/chatdba/workflow/fault_diagnosis.py:535-582 | for all reports and records: a second repair changes nothing exactly when the report was full before, has no start mark, or loses no shown block to an end mark, and makes the report longer in all other cases |
| SectionRepair.CleanNamesRepairIff | src/chatdba/workflow/fault_diagnosis.py:535-546 | with clean database names the repair works, and is idempotent, exactly when the shown SQLs are free of the end mark |
| SectionRepair.MarkedSqlMakesItGrow | src/chatdba/workflow/fault_diagnosis.py:535-546 | whenever a shown SQL holds the end mark, a second repair makes the report longer |
| AlarmWorker.ExtractInsertedAlarmRecords | src/chatdba/alarm_binlog/binlog_worker.py:25-55 | the loop keeps the readable, newer, matching rows in order |
| AlarmDelivery.KeptIff | src/chatdba/alarm_binlog/binlog_worker.py:33-55 | an alarm is kept exactly when its row is readable, newer than the checkpoint, and of the system and one of the events asked for |
| AlarmWorker.Worker.DeliverAlarm | src/chatdba/alarm_binlog/service.py:24-75 | the checkpoint is saved last, only behind a completed diagnosis and a successful send |
| AlarmWorker.Worker.RetryDeliverAlarm | src/chatdba/alarm_binlog/service.py:78-117 | the retry loop with its doubling delay, as a function of the outcomes of its attempts |
| AlarmWorker.RetryIsFirstSuccess | src/chatdba/alarm_binlog/service.py:86-117 | it ends with the first attempt that delivers, or fails after exactly the allowed number; only a delivery changes the stored checkpoint |
| AlarmWorker.RetryPauses | src/chatdba/alarm_binlog/service.py:86-117 | it pauses between attempts and nowhere else |
| AlarmWorker.WaitsAreBackoffs | src/chatdba/alarm_binlog/service.py:86-117 | the first pause is the initial delay unchanged, the later ones double it up to the maximum |
| AlarmWorker.PausesAreBoundedIff | src/chatdba/alarm_binlog/service.py:86-117 | no pause exceeds the maximum exactly when there is none or the initial delay does not |
| AlarmWorker.ProcessedIsStoredIff | src/chatdba/alarm_binlog/service.py:193-214 | after a new alarm counts as processed the file holds its id exactly when at least one attempt is allowed; otherwise the loop returns normally without having done anything |
| AlarmWorker.Worker.AnchorToLatestId | src/chatdba/alarm_binlog/service.py:120-129 | the greatest id of the table, or zero, is saved and becomes the checkpoint of the loop |
| AlarmWorker.Worker.RunAlarmBinlogService | src/chatdba/alarm_binlog/service.py:132-224 | the service goes from connection to connection until one is refused or the process is killed |
| AlarmSafety.RunKeepsSound | src/chatdba/alarm_binlog/service.py:132-224 | across any reconnections, restarts and kills after any single effect, over an append-only table: the stored checkpoint never decreases, a delivery always raises it, each saved delivery directly follows its diagnosis and sending, and, with attempts allowed, file and loop agree between deliveries |
| AlarmDelivery.RunIsClosed | src/chatdba/alarm_binlog/service.py:132-224 | for every run: all effects in order, and the number of attempts, as a function of the connections and the outcomes of the attempts |
| AlarmDelivery.ConnectionDelivers | src/chatdba/alarm_binlog/service.py:159-224 | a connection checkpoints exactly the alarms it offers, in order, up to the first whose attempts all fail; none when no attempt is allowed |
| AlarmDelivery.KilledDeliversPrefix | src/chatdba/alarm_binlog/service.py:159-224 | a process killed after any of its effects has checkpointed an initial part of them |
| AlarmDelivery.TakenIsKept | src/chatdba/alarm_binlog/binlog_worker.py:33-55 | over ascending ids, testing each event against the moving checkpoint takes what testing all rows against the anchor keeps |
| AlarmDelivery.ConnectionDeliversIff | src/chatdba/alarm_binlog/service.py:159-224 | over ascending ids an alarm is delivered by a connection exactly when a readable, matching row has it, its id is greater than all ids in the table on connecting, and no such alarm up to it exhausts its retries |
| AlarmDelivery.RunDelivers | src/chatdba/alarm_binlog/service.py:132-224 | over every run the alarms checkpointed are those of its connections, one after the other |
| AlarmDelivery.RunDeliversIff | src/chatdba/alarm_binlog/service.py:132-224 | an alarm is delivered in a run exactly when some connection of it delivers it |
| AlarmSafety.PassedAlarmIsLost | src/chatdba/alarm_binlog/service.py:120-224 | an alarm that was in the table or streamed before a connection is anchored is not delivered from then on |
| AlarmSafety.AlarmsAreLost | src/chatdba/alarm_binlog/service.py:120-224 | three runs: one alarm delivered because a connection was up, never delivered because it came between two, never delivered because its only attempt failed |
| AlarmSafety.EventSaves | src/chatdba/alarm_binlog/service.py:185-214 | an event checkpoints its alarms up to the first that exhausts its retries, each once, in row order |
| AlarmSafety.EventIsOrderedIff | src/chatdba/alarm_binlog/service.py:185-214 | for every event, checkpoints stay in order exactly if the ids of the alarms it delivers ascend |

## Left out

- RunKeepsSound: assumes a table that only grows, has positive ids and contains every streamed row, and ascending ids within one event; what happens without the last assumption is stated by EventIsOrderedIff.
- ConnectionDeliversIff: assumes ids that ascend over the stream; ConnectionDelivers states what a connection delivers without that.
- ReplyAsksAgainIff: assumes that a task which does not raise fails with the router's error when there is one and otherwise ends without one; how that error travels through the workflow is not modelled.
- HybridRefinesRuleOnly: assumes distinct case ids and a limit of at least one, as the greedy pass keeps one case for any smaller limit.
- HybridIsBestOfPool: assumes the same.
- Floating point: scores, delays and clock readings are reals, so rounding is not modelled.
- Normalisation of tags and names, `casefold` and `lower` are arbitrary functions; only white space is exact.
- Parsing and printing of SQL text by sqlglot, and the order in which it visits table nodes, are not part of the model, which starts from a syntax tree.
- Aggregates, grouping, ordering, limits, `UNION` without `ALL` and three-valued logic are not in the query tree.
- The wording of errors and the regular expressions that read table names from them; the model starts from the names found.
- Message prefixes, at-mentions and commands that change the schema of a statement in its own text (`split_schema_prefixed_sql`).
- Creating card instances and the request bodies of the card service; each call either succeeds or raises.
- Reading token counts out of a response, and streaming generation in `stream_report`.
- The timing of heartbeats: a heartbeat may or may not be due at each time-out.
- Exceptions outside `Exception` in the service factory and the alarm worker, such as a keyboard interrupt.
- Decoding of binlog keys and of unnamed columns; a row is either readable or not.
- Byte decoding of event streams, which the model reads as text; a message body is parsed by an arbitrary function.
- Nesting of the fenced block inside Markdown lists and quotes, and fences that are themselves indented.
- The other sections of the fault report, its prompts and its fallback text.
- Metric collection, CMDB lookups, JSON plan rules, rendering, settings, web routing and the workflow graph: plumbing or single-branch code.
