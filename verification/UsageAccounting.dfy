/** Token usage of the model gateway, collected per thread. Threads share one gateway; each sees only
    its own task id, records and current operation. */
module UsageAccounting {
  import opened Seqs
  import opened Options

  type Thread = nat

  datatype Usage = Usage(promptTokens: int, completionTokens: int, totalTokens: int)

  datatype Call = GenerateReport | EmbedText

  datatype Record = Record(taskId: string, operation: string, call: Call, usage: Usage)

  function FallbackOperation(call: Call): string {
    match call
    case GenerateReport => "generate_report"
    case EmbedText => "embed_text"
  }

  /** A total that is not positive is replaced by the sum of its parts. */
  function Normalized(u: Usage): Usage {
    if u.totalTokens <= 0 then Usage(u.promptTokens, u.completionTokens, u.promptTokens + u.completionTokens) else u
  }

  datatype Action =
    | Start(taskId: string)
    | Enter(operation: string)        // the `with usage_operation(...)` block opens
    | Leave                           // ... and closes, normally or by an exception
    | Invoke(call: Call, usage: Option<Usage>)
    | Finish

  /** Thread-local values; `saved` holds what each open `with` block will restore. */
  datatype Local = Local(taskId: Option<string>, records: Option<seq<Record>>, operation: Option<string>,
                         saved: seq<Option<string>>)

  const NEW_THREAD := Local(None, None, None, [])

  predicate Truthy(s: Option<string>) { s.Some? && s.value != "" }

  function CurrentOperation(l: Local, call: Call): string {
    if Truthy(l.operation) then l.operation.value else FallbackOperation(call)
  }

  function RecordUsage(l: Local, call: Call, usage: Option<Usage>): Local {
    if !Truthy(l.taskId) || l.records.None? || usage.None? then l
    else
      var record := Record(l.taskId.value, CurrentOperation(l, call), call, Normalized(usage.value));
      l.(records := Some(l.records.value + [record]))
  }

  /** What an action does to the thread's values; leaving needs an open block. */
  function Act(l: Local, a: Action): Local {
    match a
    case Start(taskId) => l.(taskId := Some(taskId), records := Some([]))
    case Enter(operation) => l.(operation := Some(operation), saved := l.saved + [l.operation])
    case Leave =>
      if l.saved == [] then l else l.(operation := l.saved[|l.saved| - 1], saved := l.saved[..|l.saved| - 1])
    case Invoke(call, usage) => RecordUsage(l, call, usage)
    case Finish => Local(None, Some([]), None, l.saved)
  }

  /** What `finish_usage_collection` returns. */
  function Collected(l: Local): seq<Record> { if l.records.Some? then l.records.value else [] }

  type Threads = map<Thread, Local>

  function Of(ts: Threads, t: Thread): Local { if t in ts then ts[t] else NEW_THREAD }

  datatype Event = Event(thread: Thread, action: Action)

  function Run(ts: Threads, events: seq<Event>): Threads {
    if events == [] then ts
    else
      var before := Run(ts, events[..|events| - 1]);
      var e := events[|events| - 1];
      before[e.thread := Act(Of(before, e.thread), e.action)]
  }

  /** The gateway; every call runs on some thread. */
  class QwenGateway {
    var threads: Threads

    constructor ()
      ensures threads == map[]
    {
      threads := map[];
    }

    method StartUsageCollection(t: Thread, taskId: string)
      modifies this
      ensures threads == old(threads)[t := Act(Of(old(threads), t), Start(taskId))]
    {
      var l := Of(threads, t);
      threads := threads[t := l.(taskId := Some(taskId), records := Some([]))];
    }

    method FinishUsageCollection(t: Thread) returns (records: seq<Record>)
      modifies this
      ensures records == Collected(Of(old(threads), t))
      ensures threads == old(threads)[t := Act(Of(old(threads), t), Finish)]
    {
      var l := Of(threads, t);
      records := if l.records.Some? then l.records.value else [];
      threads := threads[t := Local(None, Some([]), None, l.saved)];
    }

    method EnterOperation(t: Thread, operation: string)
      modifies this
      ensures threads == old(threads)[t := Act(Of(old(threads), t), Enter(operation))]
    {
      var l := Of(threads, t);
      var previous := l.operation;
      threads := threads[t := l.(operation := Some(operation), saved := l.saved + [previous])];
    }

    method LeaveOperation(t: Thread)
      requires Of(threads, t).saved != []
      modifies this
      ensures threads == old(threads)[t := Act(Of(old(threads), t), Leave)]
    {
      var l := Of(threads, t);
      var previous := l.saved[|l.saved| - 1];
      threads := threads[t := l.(operation := previous, saved := l.saved[..|l.saved| - 1])];
    }

    method Invoke(t: Thread, call: Call, usage: Option<Usage>)
      modifies this
      ensures threads == old(threads)[t := Act(Of(old(threads), t), Action.Invoke(call, usage))]
    {
      var l := Of(threads, t);
      if !Truthy(l.taskId) || l.records.None? || usage.None? {
        threads := threads[t := l];
        return;
      }
      var operation := if Truthy(l.operation) then l.operation.value else FallbackOperation(call);
      var record := Record(l.taskId.value, operation, call, Normalized(usage.value));
      threads := threads[t := l.(records := Some(l.records.value + [record]))];
    }
  }

  /** The record of one call: made exactly when a task is named, its collection has started and the answer
      told its usage. It names the open operation, or else the call; its total is the reported one if that is
      positive, and otherwise the sum of the parts. */
  lemma InvokeRecords(l: Local, call: Call, usage: Option<Usage>)
    ensures var after := Act(l, Action.Invoke(call, usage));
            if l.taskId.Some? && l.taskId.value != "" && l.records.Some? && usage.Some? then
              after.records.Some? && |after.records.value| == |l.records.value| + 1
              && after.records.value[..|l.records.value|] == l.records.value
              && var record := after.records.value[|l.records.value|];
                 && record.taskId == l.taskId.value && record.call == call
                 && (l.operation.Some? && l.operation.value != "" ==> record.operation == l.operation.value)
                 && (l.operation.None? || l.operation.value == "" ==>
                       record.operation == if call.EmbedText? then "embed_text" else "generate_report")
                 && record.usage.promptTokens == usage.value.promptTokens
                 && record.usage.completionTokens == usage.value.completionTokens
                 && (usage.value.totalTokens > 0 ==> record.usage.totalTokens == usage.value.totalTokens)
                 && (usage.value.totalTokens <= 0 ==>
                       record.usage.totalTokens == usage.value.promptTokens + usage.value.completionTokens)
            else after == l
  {
  }

  // ---- threads do not interfere ---------------------------------------------------------------

  function HistoryOf(events: seq<Event>, t: Thread): seq<Action> {
    if events == [] then []
    else HistoryOf(events[..|events| - 1], t)
         + (if events[|events| - 1].thread == t then [events[|events| - 1].action] else [])
  }

  function LocalRun(actions: seq<Action>): Local {
    if actions == [] then NEW_THREAD else Act(LocalRun(actions[..|actions| - 1]), actions[|actions| - 1])
  }

  /** In every interleaving a thread's values are those its own actions produce. */
  lemma {:induction false} ThreadsAreIndependent(events: seq<Event>, t: Thread)
    ensures Of(Run(map[], events), t) == LocalRun(HistoryOf(events, t))
  {
    if events == [] {
    } else {
      var init, e := events[..|events| - 1], events[|events| - 1];
      ThreadsAreIndependent(init, t);
      if e.thread == t {
        var h := HistoryOf(events, t);
        assert h[..|h| - 1] == HistoryOf(init, t);
      } else {
        assert HistoryOf(events, t) == HistoryOf(init, t);
      }
    }
  }

  // ---- what finish returns, from the history alone --------------------------------------------

  /** The stack of operations whose blocks are open. */
  function OpenOperations(h: seq<Action>): seq<string> {
    if h == [] then [] else OpenAfter(OpenOperations(h[..|h| - 1]), h[|h| - 1])
  }

  function OpenAfter(open: seq<string>, a: Action): seq<string> {
    match a
    case Enter(operation) => open + [operation]
    case Leave => if open == [] then open else open[..|open| - 1]
    case _ => open
  }

  function Top(open: seq<string>): Option<string> {
    if open == [] then None else Some(open[|open| - 1])
  }

  function Innermost(h: seq<Action>): Option<string> { Top(OpenOperations(h)) }

  /** Collection is finished only while no operation is open, as in `run_sql`, where the operations
      lie inside the bracket of start and finish. */
  ghost predicate WellBracketed(h: seq<Action>) {
    forall i | 0 <= i < |h| && h[i].Finish? :: OpenOperations(h[..i]) == []
  }

  /** The same stack, as the positions at which the open blocks were entered. */
  function OpenAt(h: seq<Action>): (stack: seq<nat>)
    ensures |stack| <= |h| && forall i | 0 <= i < |stack| :: stack[i] < |h|
  {
    if h == [] then []
    else
      var before := OpenAt(h[..|h| - 1]);
      match h[|h| - 1]
      case Enter(_) => before + [|h| - 1]
      case Leave => if before == [] then before else before[..|before| - 1]
      case _ => before
  }

  lemma {:induction false} StacksAgree(h: seq<Action>)
    ensures |OpenAt(h)| == |OpenOperations(h)|
  {
    if h == [] {
    } else {
      StacksAgree(h[..|h| - 1]);
    }
  }

  /** A collection was finished while exactly these blocks, and at least one, were open. */
  predicate FinishedIn(h: seq<Action>, stack: seq<nat>) {
    stack != [] && exists j | 0 <= j < |h| :: h[j].Finish? && OpenAt(h[..j]) == stack
  }

  /** A collection was finished while the block that is innermost now was innermost already. */
  predicate Lost(h: seq<Action>) { FinishedIn(h, OpenAt(h)) }

  /** The operation that a call is tagged with. */
  function Tag(h: seq<Action>): Option<string> { if Lost(h) then None else Innermost(h) }

  lemma FinishedInSnoc(h: seq<Action>, a: Action, stack: seq<nat>)
    ensures FinishedIn(h + [a], stack) <==> FinishedIn(h, stack) || (a.Finish? && stack != [] && OpenAt(h) == stack)
  {
    var all := h + [a];
    assert all[..|h|] == h;
    forall j | 0 <= j < |h| ensures all[j] == h[j] && all[..j] == h[..j] {
    }
    if FinishedIn(h, stack) {
      var j :| 0 <= j < |h| && h[j].Finish? && OpenAt(h[..j]) == stack;
      assert all[j].Finish? && OpenAt(all[..j]) == stack;
    }
    if a.Finish? && stack != [] && OpenAt(h) == stack {
      assert all[|h|].Finish? && OpenAt(all[..|h|]) == stack;
    }
  }

  lemma OpenSnoc(h: seq<Action>, a: Action)
    ensures OpenOperations(h + [a]) == OpenAfter(OpenOperations(h), a)
    ensures LocalRun(h + [a]) == Act(LocalRun(h), a)
    ensures a.Enter? ==> OpenAt(h + [a]) == OpenAt(h) + [|h|]
    ensures a.Leave? && OpenAt(h) != [] ==> OpenAt(h + [a]) == OpenAt(h)[..|OpenAt(h)| - 1]
    ensures !a.Enter? && (a.Leave? ==> OpenAt(h) == []) ==> OpenAt(h + [a]) == OpenAt(h)
  {
    assert (h + [a])[..|h + [a]| - 1] == h;
  }

  /** A block that is just being entered is new: nothing was finished in it. */
  lemma FreshBlock(h: seq<Action>, stack: seq<nat>)
    ensures !FinishedIn(h, stack + [|h|])
  {
    assert (stack + [|h|])[|stack|] == |h|;
  }

  /** The tag that was current outside the `i`-th open block. */
  ghost function TagOutside(h: seq<Action>, i: nat): Option<string>
    requires i <= |OpenAt(h)| && i <= |OpenOperations(h)|
  {
    if FinishedIn(h, OpenAt(h)[..i]) then None else Top(OpenOperations(h)[..i])
  }

  /** Every open block will restore the tag that was current outside it. */
  ghost predicate Restores(h: seq<Action>) {
    && |LocalRun(h).saved| == |OpenOperations(h)| == |OpenAt(h)|
    && forall i | 0 <= i < |OpenAt(h)| :: LocalRun(h).saved[i] == TagOutside(h, i)
  }

  /** An action leaves alone what is outside the blocks that stay open. */
  lemma OutsideIsKept(h: seq<Action>, a: Action, i: nat)
    requires |OpenOperations(h)| == |OpenAt(h)| && |OpenOperations(h + [a])| == |OpenAt(h + [a])|
    requires i <= |OpenAt(h)| && i <= |OpenAt(h + [a])| && (a.Finish? ==> i < |OpenAt(h)|)
    ensures TagOutside(h + [a], i) == TagOutside(h, i)
  {
    var stack := OpenAt(h);
    OpenSnoc(h, a);
    assert OpenAt(h + [a])[..i] == stack[..i] && OpenOperations(h + [a])[..i] == OpenOperations(h)[..i];
    assert a.Finish? ==> |stack[..i]| != |stack|;
    FinishedInSnoc(h, a, stack[..i]);
  }

  lemma TagIsOutermost(h: seq<Action>)
    ensures |OpenOperations(h)| == |OpenAt(h)| && Tag(h) == TagOutside(h, |OpenAt(h)|)
  {
    StacksAgree(h);
    assert OpenAt(h)[..|OpenAt(h)|] == OpenAt(h) && OpenOperations(h)[..|OpenAt(h)|] == OpenOperations(h);
  }

  lemma OutsideIsKeptUpTo(h: seq<Action>, a: Action, n: nat)
    requires n <= |OpenAt(h)| && n <= |OpenAt(h + [a])| && (a.Finish? ==> n < |OpenAt(h)|)
    ensures |OpenOperations(h)| == |OpenAt(h)| && |OpenOperations(h + [a])| == |OpenAt(h + [a])|
    ensures forall i | 0 <= i <= n :: TagOutside(h + [a], i) == TagOutside(h, i)
  {
    StacksAgree(h);
    StacksAgree(h + [a]);
    forall i | 0 <= i <= n ensures TagOutside(h + [a], i) == TagOutside(h, i) {
      OutsideIsKept(h, a, i);
    }
  }

  lemma EnterRestores(h: seq<Action>, operation: string)
    requires IsTagged(h)
    ensures IsTagged(h + [Enter(operation)])
  {
    var a := Enter(operation);
    OpenSnoc(h, a);
    TagIsOutermost(h);
    OutsideIsKeptUpTo(h, a, |OpenAt(h)|);
    FreshBlock(h, OpenAt(h));
    FinishedInSnoc(h, a, OpenAt(h + [a]));
  }

  lemma LeaveRestores(h: seq<Action>)
    requires IsTagged(h)
    ensures IsTagged(h + [Leave])
  {
    var n := |OpenAt(h + [Leave])|;
    OpenSnoc(h, Leave);
    TagIsOutermost(h);
    TagIsOutermost(h + [Leave]);
    OutsideIsKeptUpTo(h, Leave, n);
    LeaveRestoresSaved(h);
  }

  /** Leaving brings back the value saved by the innermost block; without one nothing changes. */
  lemma LeaveRestoresSaved(h: seq<Action>)
    requires |LocalRun(h).saved| == |OpenOperations(h)| == |OpenAt(h)|
    ensures var n, l, after := |OpenAt(h)|, LocalRun(h), LocalRun(h + [Leave]);
            if n == 0 then after == l && OpenAt(h + [Leave]) == OpenAt(h)
            else after.operation == l.saved[n - 1] && after.saved == l.saved[..n - 1] && |OpenAt(h + [Leave])| == n - 1
  {
    OpenSnoc(h, Leave);
  }

  lemma FinishRestores(h: seq<Action>)
    requires IsTagged(h)
    ensures IsTagged(h + [Finish])
  {
    OpenSnoc(h, Finish);
    TagIsOutermost(h);
    FinishedInSnoc(h, Finish, OpenAt(h));
    if OpenAt(h) != [] {
      OutsideIsKeptUpTo(h, Finish, |OpenAt(h)| - 1);
    }
  }

  lemma OtherRestores(h: seq<Action>, a: Action)
    requires IsTagged(h) && !a.Enter? && !a.Leave? && !a.Finish?
    ensures IsTagged(h + [a])
  {
    OpenSnoc(h, a);
    TagIsOutermost(h);
    TagIsOutermost(h + [a]);
    OutsideIsKeptUpTo(h, a, |OpenAt(h)|);
  }

  ghost predicate IsTagged(h: seq<Action>) { LocalRun(h).operation == Tag(h) && Restores(h) }

  lemma StepIsTagged(h: seq<Action>, a: Action)
    requires IsTagged(h)
    ensures IsTagged(h + [a])
  {
    match a
    case Enter(operation) => EnterRestores(h, operation);
    case Leave => LeaveRestores(h);
    case Finish => FinishRestores(h);
    case _ => OtherRestores(h, a);
  }

  /** For every history: the current operation is the tag, and leaving a block restores the tag that
      was current outside it. */
  lemma {:induction false} OperationIsTag(h: seq<Action>)
    ensures IsTagged(h)
  {
    if h == [] {
    } else {
      OperationIsTag(h[..|h| - 1]);
      StepIsTagged(h[..|h| - 1], h[|h| - 1]);
      InitAndLast(h);
    }
  }

  /** Calls are tagged with the innermost open operation exactly when no collection was finished while
      its block was the innermost one. */
  lemma OperationIsInnermostIff(h: seq<Action>)
    ensures LocalRun(h).operation == Innermost(h) <==> !Lost(h)
  {
    OperationIsTag(h);
    StacksAgree(h);
  }

  lemma BracketedIsNotLost(h: seq<Action>)
    requires WellBracketed(h)
    ensures !Lost(h) && Tag(h) == Innermost(h)
  {
    if Lost(h) {
      var j :| 0 <= j < |h| && h[j].Finish? && OpenAt(h[..j]) == OpenAt(h);
      StacksAgree(h[..j]);
    }
  }

  /** In particular where collections are finished outside all operations, as in `run_sql`. */
  lemma OperationIsInnermost(h: seq<Action>)
    requires WellBracketed(h)
    ensures LocalRun(h).operation == Innermost(h)
  {
    BracketedIsNotLost(h);
    OperationIsTag(h);
  }

  /** A history in which the operation is lost: start, open a block, finish inside it. */
  lemma FinishInsideBlockLosesOperation()
    ensures var h := [Start("t"), Enter("op"), Finish];
            Lost(h) && LocalRun(h).operation.None? && Innermost(h) == Some("op")
  {
    var start, open := [Start("t")], [Start("t"), Enter("op")];
    assert start == [] + [Start("t")] && open == start + [Enter("op")];
    OpenSnoc([], Start("t"));
    OpenSnoc(start, Enter("op"));
    OpenSnoc(open, Finish);
    FinishedInSnoc(open, Finish, OpenAt(open));
    assert [Start("t"), Enter("op"), Finish] == open + [Finish];
  }

  /** The task of the latest start that no finish followed. */
  datatype Session = Idle | Active(taskId: string)

  function SessionOf(h: seq<Action>): Session {
    if h == [] then Idle else SessionAfter(SessionOf(h[..|h| - 1]), h[|h| - 1])
  }

  function SessionAfter(session: Session, a: Action): Session {
    match a
    case Start(taskId) => Active(taskId)
    case Finish => Idle
    case _ => session
  }

  function ExpectedRecord(session: Session, operation: Option<string>, call: Call, usage: Option<Usage>): seq<Record> {
    if usage.None? || session.Idle? || session.taskId == "" then []
    else [Record(session.taskId, if Truthy(operation) then operation.value else FallbackOperation(call),
                 call, Normalized(usage.value))]
  }

  /** The records a session should have: one per call with usage since its start, in order, tagged
      with its task and the operation current at the call. */
  function Expected(h: seq<Action>): seq<Record> {
    if h == [] then []
    else
      var init := h[..|h| - 1];
      ExpectedAfter(Expected(init), SessionOf(init), Tag(init), h[|h| - 1])
  }

  function ExpectedAfter(before: seq<Record>, session: Session, operation: Option<string>, a: Action): seq<Record> {
    match a
    case Start(_) => []
    case Finish => []
    case Invoke(call, usage) => before + ExpectedRecord(session, operation, call, usage)
    case _ => before
  }

  lemma ExpectedSnoc(h: seq<Action>, a: Action)
    ensures Expected(h + [a]) == ExpectedAfter(Expected(h), SessionOf(h), Tag(h), a)
  {
    assert (h + [a])[..|h + [a]| - 1] == h;
  }

  ghost predicate Tracks(l: Local, session: Session, expected: seq<Record>) {
    && Collected(l) == expected
    && (session.Active? ==> l.taskId == Some(session.taskId) && l.records.Some?)
    && (session.Idle? ==> l.taskId.None?)
  }

  lemma ActTracks(l: Local, session: Session, expected: seq<Record>, a: Action)
    requires Tracks(l, session, expected)
    ensures Tracks(Act(l, a), SessionAfter(session, a), ExpectedAfter(expected, session, l.operation, a))
  {
    assert expected + [] == expected;
  }

  lemma {:induction false} CollectedIsExpected(h: seq<Action>)
    ensures Tracks(LocalRun(h), SessionOf(h), Expected(h))
  {
    if h == [] {
    } else {
      var init, a := h[..|h| - 1], h[|h| - 1];
      CollectedIsExpected(init);
      OperationIsTag(init);
      ActTracks(LocalRun(init), SessionOf(init), Expected(init), a);
    }
  }

  /** In every interleaving and for every history, a finish on a thread returns exactly the calls with
      usage made on that thread since its last start, in order, each tagged with the task and the
      operation current at the call. */
  lemma FinishReturnsSession(events: seq<Event>, t: Thread)
    ensures Collected(Of(Run(map[], events), t)) == Expected(HistoryOf(events, t))
  {
    ThreadsAreIndependent(events, t);
    CollectedIsExpected(HistoryOf(events, t));
  }

  // ---- the bracket of a task ------------------------------------------------------------------

  ghost predicate Inside(body: seq<Action>) {
    forall i | 0 <= i < |body| :: !body[i].Start? && !body[i].Finish?
  }

  /** What a task does between start and finish: calls, and operations that are closed again. */
  ghost predicate TaskBody(body: seq<Action>) {
    Inside(body) && OpenOperations(body) == []
  }

  lemma {:induction false} OpenAfterClosed(prior: seq<Action>, body: seq<Action>)
    requires OpenOperations(prior) == []
    ensures OpenOperations(prior + body) == OpenOperations(body)
    decreases |body|
  {
    if body == [] {
      assert prior + body == prior;
    } else {
      assert (prior + body)[..|prior + body| - 1] == prior + body[..|body| - 1];
      OpenAfterClosed(prior, body[..|body| - 1]);
    }
  }

  lemma {:induction false} SessionStaysActive(h: seq<Action>, body: seq<Action>)
    requires SessionOf(h).Active? && Inside(body)
    ensures SessionOf(h + body).Active? && SessionOf(h + body).taskId == SessionOf(h).taskId
    decreases |body|
  {
    if body == [] {
      assert h + body == h;
    } else {
      assert (h + body)[..|h + body| - 1] == h + body[..|body| - 1];
      SessionStaysActive(h, body[..|body| - 1]);
    }
  }

  /** The records of what a task does, from its own actions alone. */
  function BodyRecords(taskId: string, body: seq<Action>): seq<Record> {
    if body == [] then []
    else
      var init, a := body[..|body| - 1], body[|body| - 1];
      BodyRecords(taskId, init)
      + (if a.Invoke? then ExpectedRecord(Active(taskId), Innermost(init), a.call, a.usage) else [])
  }

  lemma AfterInside(before: seq<Record>, session: Session, taskId: string, operation: Option<string>, a: Action)
    requires session.Active? && session.taskId == taskId && !a.Start? && !a.Finish?
    ensures ExpectedAfter(before, session, operation, a)
         == before + if a.Invoke? then ExpectedRecord(Active(taskId), operation, a.call, a.usage) else []
  {
  }

  lemma BodyRecordsSnoc(taskId: string, body: seq<Action>, a: Action)
    ensures BodyRecords(taskId, body + [a]) == BodyRecords(taskId, body)
         + if a.Invoke? then ExpectedRecord(Active(taskId), Innermost(body), a.call, a.usage) else []
  {
    assert (body + [a])[..|body|] == body;
  }

  lemma ExpectedStep(h: seq<Action>, body: seq<Action>, a: Action)
    requires SessionOf(h).Active? && OpenOperations(h) == [] && WellBracketed(h) && Inside(body)
    requires Expected(h + body) == BodyRecords(SessionOf(h).taskId, body) && !a.Start? && !a.Finish?
    ensures Expected(h + body + [a]) == BodyRecords(SessionOf(h).taskId, body + [a])
  {
    var taskId := SessionOf(h).taskId;
    TagInside(h, body);
    ExpectedSnoc(h + body, a);
    AfterInside(BodyRecords(taskId, body), SessionOf(h + body), taskId, Innermost(body), a);
    BodyRecordsSnoc(taskId, body, a);
  }

  lemma TagInside(h: seq<Action>, body: seq<Action>)
    requires SessionOf(h).Active? && OpenOperations(h) == [] && WellBracketed(h) && Inside(body)
    ensures Tag(h + body) == Innermost(body)
    ensures SessionOf(h + body).Active? && SessionOf(h + body).taskId == SessionOf(h).taskId
  {
    SessionStaysActive(h, body);
    OpenAfterClosed(h, body);
    AppendInside(h, body);
    BracketedIsNotLost(h + body);
  }

  lemma {:induction false} ExpectedInside(h: seq<Action>, body: seq<Action>)
    requires SessionOf(h).Active? && OpenOperations(h) == [] && Expected(h) == []
    requires WellBracketed(h) && Inside(body)
    ensures Expected(h + body) == BodyRecords(SessionOf(h).taskId, body)
    decreases |body|
  {
    if body == [] {
      assert h + body == h;
    } else {
      var init, a := body[..|body| - 1], body[|body| - 1];
      ExpectedInside(h, init);
      ExpectedStep(h, init, a);
      InitAndLast(body);
      assert h + init + [a] == h + (init + [a]);
    }
  }

  lemma SessionForgetsThePast(prior: seq<Action>, taskId: string, body: seq<Action>)
    requires OpenOperations(prior) == [] && WellBracketed(prior) && Inside(body)
    ensures Expected(prior + [Start(taskId)] + body) == Expected([Start(taskId)] + body)
  {
    var h, h' := prior + [Start(taskId)], [Start(taskId)];
    assert h[..|h| - 1] == prior && h[|h| - 1] == Start(taskId);
    assert h'[..|h'| - 1] == [] && h'[|h'| - 1] == Start(taskId);
    AppendInside(prior, [Start(taskId)]);
    AppendInside([], [Start(taskId)]);
    assert [] + h' == h';
    ExpectedInside(h, body);
    ExpectedInside(h', body);
  }

  /** One task after another on a thread, each inside its bracket: the history stays well bracketed,
      and what is collected at the finish is what this task's calls account for, whatever came before. */
  lemma TaskIsAccounted(prior: seq<Action>, taskId: string, body: seq<Action>)
    requires WellBracketed(prior) && OpenOperations(prior) == [] && TaskBody(body)
    ensures WellBracketed(prior + [Start(taskId)] + body + [Finish])
    ensures OpenOperations(prior + [Start(taskId)] + body + [Finish]) == []
    ensures Collected(LocalRun(prior + [Start(taskId)] + body)) == Expected([Start(taskId)] + body)
  {
    var start := prior + [Start(taskId)];
    AppendInside(prior, [Start(taskId)]);
    assert [Start(taskId)][..0] == [] && OpenOperations([Start(taskId)]) == [];
    OpenAfterClosed(prior, [Start(taskId)]);
    AppendInside(start, body);
    OpenAfterClosed(start, body);
    AppendFinish(start + body);
    CollectedIsExpected(start + body);
    SessionForgetsThePast(prior, taskId, body);
  }

  lemma AppendInside(h: seq<Action>, more: seq<Action>)
    requires WellBracketed(h) && forall i | 0 <= i < |more| :: !more[i].Finish?
    ensures WellBracketed(h + more)
  {
    forall i | 0 <= i < |h + more| && (h + more)[i].Finish? ensures OpenOperations((h + more)[..i]) == [] {
      assert (h + more)[..i] == h[..i];
    }
  }

  lemma AppendFinish(h: seq<Action>)
    requires WellBracketed(h) && OpenOperations(h) == []
    ensures WellBracketed(h + [Finish]) && OpenOperations(h + [Finish]) == []
  {
    var all := h + [Finish];
    assert all[..|h|] == h;
    forall i | 0 <= i < |all| && all[i].Finish? ensures OpenOperations(all[..i]) == [] {
      assert all[..i] == if i < |h| then h[..i] else h;
    }
  }
}
