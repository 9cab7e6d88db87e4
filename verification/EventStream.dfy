/** The event stream of a task: a worker thread runs the task and puts events on a queue, a consumer
    turns them into server-sent events. Steps of the two interleave arbitrarily. */
module EventStream {
  import opened Seqs
  import opened Options
  import opened Text
  import opened Search
  import opened Chunker

  datatype Event =
    | Progress(text: string)
    | Markdown(text: string)
    | Final(status: string, error: Option<string>)
    | Error(message: string)
    | Done

  // ---- what the worker puts -------------------------------------------------------------------

  /** How a task that did not raise ended. `errorTables` and `reportTables` are the tables named by
      routing errors in its error text and in its report. */
  datatype Execution = Execution(status: string, error: string, errorTables: seq<string>,
                                 completed: bool, reportTables: seq<string>, report: string)

  /** An exception raised anywhere between one put and the next: before the put that would have had
      `beforePut` puts ahead of it. Nothing that can raise comes behind the last put of the task. */
  datatype Fault = Fault(beforePut: nat, message: string)

  datatype Task = Task(unqualified: seq<string>, progress: seq<string>, execution: Execution, fault: Option<Fault>)

  const SCHEMA_REQUIRED_HEAD :=
    "检测到表名在多个数据库或实例中重复，请补充数据库库名后继续分析。\n\n重复表名："
  const SCHEMA_REQUIRED_TAIL :=
    "\n请直接回复库名，例如：`shop`，系统会结合上一条 SQL 继续分析。"
  const SCHEMA_REQUIRED_ERROR := "需要补充数据库库名"

  function JoinNames(names: seq<string>): string {
    if names == [] then "" else if |names| == 1 then names[0] else names[0] + ", " + JoinNames(names[1..])
  }

  function SchemaRequired(task: Task, blockers: seq<string>): string {
    var names := if task.unqualified != [] then task.unqualified else blockers;
    SCHEMA_REQUIRED_HEAD + JoinNames(names) + SCHEMA_REQUIRED_TAIL
  }

  function ProgressPuts(chunks: seq<string>): seq<Event> {
    if chunks == [] then []
    else (if Strip(chunks[0]) == "" then [] else [Progress(Strip(chunks[0]))]) + ProgressPuts(chunks[1..])
  }

  lemma ProgressPutsStep(chunks: seq<string>, i: nat, more: seq<Event>)
    requires i < |chunks|
    ensures var left := ProgressPuts(chunks[i + 1..]) + more;
            ProgressPuts(chunks[i..]) + more
            == if Strip(chunks[i]) == "" then left else [Progress(Strip(chunks[i]))] + left
  {
    assert chunks[i..][0] == chunks[i] && chunks[i..][1..] == chunks[i + 1..];
    assert [] + ProgressPuts(chunks[i + 1..]) == ProgressPuts(chunks[i + 1..]);
  }

  function MarkdownPuts(chunks: seq<string>): seq<Event> {
    if chunks == [] then [] else [Markdown(chunks[0])] + MarkdownPuts(chunks[1..])
  }

  lemma MarkdownPutsStep(chunks: seq<string>, i: nat, more: seq<Event>)
    requires i < |chunks|
    ensures MarkdownPuts(chunks[i..]) + more == [Markdown(chunks[i])] + (MarkdownPuts(chunks[i + 1..]) + more)
  {
    assert chunks[i..][0] == chunks[i] && chunks[i..][1..] == chunks[i + 1..];
    Regroup([Markdown(chunks[i])], MarkdownPuts(chunks[i + 1..]), more);
  }

  function FinalOf(execution: Execution): Event {
    Final(execution.status,
          if execution.status == "completed" then None
          else Some(if execution.error == "" then "未知错误" else execution.error))
  }

  /** What asks for a schema: the text, and a final event that reports a failure. */
  function AskPuts(task: Task, blockers: seq<string>): seq<Event> {
    [Markdown(SchemaRequired(task, blockers)), Final("failed", Some(SCHEMA_REQUIRED_ERROR))]
  }

  function OutcomePuts(task: Task): seq<Event> {
    var execution := task.execution;
    if execution.errorTables != [] then AskPuts(task, execution.errorTables)
    else if execution.completed && execution.reportTables != [] then AskPuts(task, execution.reportTables)
    else (if execution.completed then MarkdownPuts(Chunks(execution.report)) else []) + [FinalOf(execution)]
  }

  /** The puts of a task that does not raise. */
  function BodyPuts(task: Task): seq<Event> { ProgressPuts(task.progress) + OutcomePuts(task) }

  predicate Raises(task: Task) { task.fault.Some? && task.fault.value.beforePut < |BodyPuts(task)| }

  /** All puts: an exception cuts the body off and becomes an error event; done always comes last. */
  function TaskPuts(task: Task): seq<Event> {
    (if Raises(task) then BodyPuts(task)[..task.fault.value.beforePut] + [Error(task.fault.value.message)]
     else BodyPuts(task))
    + [Done]
  }

  /** The worker thread; `events` is what has been put on the queue. */
  class TaskWorker {
    const task: Task
    var events: seq<Event>

    constructor (task: Task)
      ensures this.task == task && events == []
    {
      this.task := task;
      events := [];
    }

    /** What may raise before the next put, and that put. */
    method Put(e: Event) returns (raised: bool)
      modifies this
      ensures raised <==> task.fault.Some? && task.fault.value.beforePut == |old(events)|
      ensures events == old(events) + if raised then [] else [e]
    {
      raised := task.fault.Some? && task.fault.value.beforePut == |events|;
      if !raised {
        events := events + [e];
      }
    }

    /** Some puts are done, `left` is still to come, and nothing has been raised. */
    ghost predicate OnTrack(left: seq<Event>)
      reads this
    {
      && events + left == BodyPuts(task)
      && (task.fault.Some? ==> |events| <= task.fault.value.beforePut)
    }

    /** The puts made when an exception stopped the body. */
    ghost predicate CutOff()
      reads this
    {
      Raises(task) && events == BodyPuts(task)[..task.fault.value.beforePut]
    }

    method PutNext(e: Event, ghost left: seq<Event>) returns (raised: bool)
      requires OnTrack([e] + left)
      modifies this
      ensures if raised then CutOff() else OnTrack(left)
    {
      ghost var before := events;
      raised := Put(e);
      Regroup(before, [e], left);
      PrefixOfFirst(before, [e] + left, |before|);
      assert before[..|before|] == before;
    }

    method PutAsk(blockers: seq<string>) returns (raised: bool)
      requires OnTrack(AskPuts(task, blockers))
      modifies this
      ensures if raised then CutOff() else OnTrack([])
    {
      var ask := Markdown(SchemaRequired(task, blockers));
      var final := Final("failed", Some(SCHEMA_REQUIRED_ERROR));
      assert AskPuts(task, blockers) == [ask] + [final];
      raised := PutNext(ask, [final]);
      if raised {
        return;
      }
      assert [final] == [final] + [];
      raised := PutNext(final, []);
    }

    method PutProgress() returns (raised: bool)
      requires OnTrack(BodyPuts(task))
      modifies this
      ensures if raised then CutOff() else OnTrack(OutcomePuts(task))
    {
      var chunks := task.progress;
      assert chunks[0..] == chunks;
      for i := 0 to |chunks|
        invariant OnTrack(ProgressPuts(chunks[i..]) + OutcomePuts(task))
      {
        ghost var left := ProgressPuts(chunks[i + 1..]) + OutcomePuts(task);
        var text := Strip(chunks[i]);
        ProgressPutsStep(chunks, i, OutcomePuts(task));
        if text != "" {
          raised := PutNext(Progress(text), left);
          if raised {
            return;
          }
        }
      }
      assert chunks[|chunks|..] == [];
      assert ProgressPuts([]) + OutcomePuts(task) == OutcomePuts(task);
      raised := false;
    }

    method PutReport(chunks: seq<string>, ghost left: seq<Event>) returns (raised: bool)
      requires OnTrack(MarkdownPuts(chunks) + left)
      modifies this
      ensures if raised then CutOff() else OnTrack(left)
    {
      assert chunks[0..] == chunks;
      for i := 0 to |chunks|
        invariant OnTrack(MarkdownPuts(chunks[i..]) + left)
      {
        MarkdownPutsStep(chunks, i, left);
        raised := PutNext(Markdown(chunks[i]), MarkdownPuts(chunks[i + 1..]) + left);
        if raised {
          return;
        }
      }
      assert chunks[|chunks|..] == [];
      assert MarkdownPuts([]) + left == left;
      raised := false;
    }

    /** The body of the `try`. */
    method Body() returns (raised: bool)
      requires OnTrack(BodyPuts(task))
      modifies this
      ensures if raised then CutOff() else OnTrack([])
    {
      raised := PutProgress();
      if raised {
        return;
      }
      var execution := task.execution;
      if execution.errorTables != [] {
        raised := PutAsk(execution.errorTables);
        return;
      }
      if execution.completed && execution.reportTables != [] {
        raised := PutAsk(execution.reportTables);
        return;
      }
      if execution.completed {
        var chunks := IterMarkdownChunks(execution.report);
        raised := PutReport(chunks, [FinalOf(execution)]);
        if raised {
          return;
        }
      } else {
        assert [] + [FinalOf(execution)] == [FinalOf(execution)];
      }
      assert [FinalOf(execution)] == [FinalOf(execution)] + [];
      raised := PutNext(FinalOf(execution), []);
    }

    /** `run_task`: whatever the body does, the puts are those of the specification. */
    method RunTask()
      requires events == []
      modifies this
      ensures events == TaskPuts(task)
    {
      assert [] + BodyPuts(task) == BodyPuts(task);
      var raised := Body();
      if raised {
        events := events + [Error(task.fault.value.message)];
      } else {
        assert events + [] == events;
      }
      events := events + [Done];
    }
  }

  // ---- what the puts report -------------------------------------------------------------------

  /** The execution failed on tables, or completed with a report that names some it could not route. */
  predicate Blocked(execution: Execution) {
    execution.errorTables != [] || (execution.completed && execution.reportTables != [])
  }

  /** The verdict on a task without blockers is that of its execution: its status, and an error exactly when
      it did not complete, with a stand-in for an empty text. */
  lemma VerdictMeans(task: Task)
    requires !Raises(task) && !Blocked(task.execution)
    ensures var puts := TaskPuts(task);
            && |puts| >= 2 && puts[|puts| - 1] == Done && puts[|puts| - 2].Final?
            && puts[|puts| - 2].status == task.execution.status
            && (puts[|puts| - 2].error.None? <==> task.execution.status == "completed")
            && (puts[|puts| - 2].error.Some? ==>
                  puts[|puts| - 2].error.value == if task.execution.error != "" then task.execution.error
                                                  else "未知错误")
  {
    var chunks := if task.execution.completed then MarkdownPuts(Chunks(task.execution.report)) else [];
    var final := FinalOf(task.execution);
    assert OutcomePuts(task) == chunks + [final];
    assert TaskPuts(task) == ProgressPuts(task.progress) + chunks + [final] + [Done];
  }

  /** The tables a question is about: those of the statement without schema, or else those that failed. */
  function QuestionTables(task: Task): seq<string> {
    if task.unqualified != [] then task.unqualified
    else if task.execution.errorTables != [] then task.execution.errorTables
    else task.execution.reportTables
  }

  lemma {:induction false} NamesAreJoined(names: seq<string>, i: nat)
    requires i < |names|
    ensures Contains(JoinNames(names), names[i])
  {
    if |names| == 1 {
      assert At(names[0], names[0], 0);
    } else if i == 0 {
      assert At(JoinNames(names), names[0], 0);
    } else {
      var head, rest := names[0] + ", ", JoinNames(names[1..]);
      NamesAreJoined(names[1..], i - 1);
      ContainsWithin(head, rest, [], names[i]);
      NothingAppended(rest);
      assert head + rest + [] == JoinNames(names);
    }
  }

  /** The verdict on a task with blockers is a failure for want of a schema, behind a question that names the
      tables; nothing of a report comes before it. */
  lemma QuestionMeans(task: Task)
    requires !Raises(task) && Blocked(task.execution)
    ensures var puts := TaskPuts(task);
            && |puts| >= 3 && puts[|puts| - 1] == Done
            && puts[|puts| - 2] == Final("failed", Some("需要补充数据库库名"))
            && puts[|puts| - 3].Markdown?
            && forall i | 0 <= i < |puts| - 3 :: puts[i].Progress?
    ensures var puts := TaskPuts(task);
            forall i | 0 <= i < |QuestionTables(task)| ::
              Contains(puts[|puts| - 3].text, QuestionTables(task)[i])
  {
    var names, asks := QuestionTables(task), OutcomePuts(task);
    var question := Markdown(SCHEMA_REQUIRED_HEAD + JoinNames(names) + SCHEMA_REQUIRED_TAIL);
    assert asks == [question, Final("failed", Some(SCHEMA_REQUIRED_ERROR))];
    assert TaskPuts(task) == ProgressPuts(task.progress) + asks + [Done];
    ProgressPutsAreProgress(task.progress);
    forall i | 0 <= i < |names| ensures Contains(question.text, names[i]) {
      NamesAreJoined(names, i);
      ContainsWithin(SCHEMA_REQUIRED_HEAD, JoinNames(names), SCHEMA_REQUIRED_TAIL, names[i]);
    }
  }

  /** `puts` are the stripped texts of the chunks at the places `at`. */
  ghost predicate TextsAt(chunks: seq<string>, at: seq<nat>, puts: seq<Event>) {
    |puts| == |at| && forall j | 0 <= j < |at| :: at[j] < |chunks| && puts[j] == Progress(Strip(chunks[at[j]]))
  }

  ghost predicate Rising(at: seq<nat>) { forall j, k | 0 <= j < k < |at| :: at[j] < at[k] }

  /** `at` are the places of the chunks that are not blank, in order, and `puts` their stripped texts. */
  ghost predicate NonBlankTexts(chunks: seq<string>, at: seq<nat>, puts: seq<Event>) {
    && TextsAt(chunks, at, puts) && Rising(at)
    && forall i: nat | i < |chunks| :: i in at <==> Strip(chunks[i]) != ""
  }

  lemma TextsMoved(chunks: seq<string>, at: seq<nat>, puts: seq<Event>)
    requires chunks != [] && TextsAt(chunks[1..], at, puts) && Rising(at)
    ensures TextsAt(chunks, Moved(at), puts) && Rising(Moved(at))
    ensures TextsAt(chunks, [0] + Moved(at), [Progress(Strip(chunks[0]))] + puts) && Rising([0] + Moved(at))
  {
  }

  function Moved(at: seq<nat>): (moved: seq<nat>)
    ensures |moved| == |at| && forall j | 0 <= j < |at| :: moved[j] == at[j] + 1
  {
    seq(|at|, j requires 0 <= j < |at| => at[j] + 1)
  }

  lemma MovedMembers(at: seq<nat>, i: nat)
    ensures i in Moved(at) <==> i > 0 && i - 1 in at
  {
    if i > 0 && i - 1 in at {
      var j :| 0 <= j < |at| && at[j] == i - 1;
      assert Moved(at)[j] == i;
    }
  }

  lemma BlankFirst(chunks: seq<string>, at: seq<nat>, puts: seq<Event>)
    requires chunks != [] && NonBlankTexts(chunks[1..], at, puts) && Strip(chunks[0]) == ""
    ensures NonBlankTexts(chunks, Moved(at), puts)
  {
    TextsMoved(chunks, at, puts);
    forall i: nat | i < |chunks| ensures i in Moved(at) <==> Strip(chunks[i]) != "" {
      MovedMembers(at, i);
      assert i > 0 ==> chunks[i] == chunks[1..][i - 1];
    }
  }

  lemma TextFirst(chunks: seq<string>, at: seq<nat>, puts: seq<Event>)
    requires chunks != [] && NonBlankTexts(chunks[1..], at, puts) && Strip(chunks[0]) != ""
    ensures NonBlankTexts(chunks, [0] + Moved(at), [Progress(Strip(chunks[0]))] + puts)
  {
    TextsMoved(chunks, at, puts);
    forall i: nat | i < |chunks| ensures i in [0] + Moved(at) <==> Strip(chunks[i]) != "" {
      MovedMembers(at, i);
      assert i > 0 ==> chunks[i] == chunks[1..][i - 1];
    }
  }

  lemma {:induction false} ProgressPutsAreNonBlank(chunks: seq<string>) returns (at: seq<nat>)
    ensures NonBlankTexts(chunks, at, ProgressPuts(chunks))
  {
    if chunks == [] {
      at := [];
    } else {
      at := ProgressPutsAreNonBlank(chunks[1..]);
      if Strip(chunks[0]) == "" {
        BlankFirst(chunks, at, ProgressPuts(chunks[1..]));
        at := Moved(at);
        assert [] + ProgressPuts(chunks[1..]) == ProgressPuts(chunks[1..]);
      } else {
        TextFirst(chunks, at, ProgressPuts(chunks[1..]));
        at := [0] + Moved(at);
      }
    }
  }

  lemma SplitProgress(puts: seq<Event>, progress: seq<Event>, rest: seq<Event>)
    requires puts == progress + rest && forall i | 0 <= i < |rest| :: !rest[i].Progress?
    ensures puts[..|progress|] == progress
    ensures forall i | |progress| <= i < |puts| :: !puts[i].Progress?
  {
    forall i | |progress| <= i < |puts| ensures puts[i] == rest[i - |progress|] {}
  }

  /** The progress texts of a task that does not raise: those of its chunks that are not blank, stripped, all
      of them and in order; no other progress is put. */
  lemma ProgressMeans(task: Task) returns (at: seq<nat>)
    requires !Raises(task)
    ensures |at| <= |TaskPuts(task)| && NonBlankTexts(task.progress, at, TaskPuts(task)[..|at|])
    ensures forall i | |at| <= i < |TaskPuts(task)| :: !TaskPuts(task)[i].Progress?
  {
    at := ProgressPutsAreNonBlank(task.progress);
    OutcomeIsMarkdownThenFinal(task);
    Regroup(ProgressPuts(task.progress), OutcomePuts(task), [Done]);
    SplitProgress(TaskPuts(task), ProgressPuts(task.progress), OutcomePuts(task) + [Done]);
  }

  /** A task that raises puts what it would have put up to there, then an error with the message, then done. */
  lemma RaisingPuts(task: Task)
    requires Raises(task)
    ensures TaskPuts(task)
         == TaskPuts(task.(fault := None))[..task.fault.value.beforePut] + [Error(task.fault.value.message), Done]
    ensures task.fault.value.beforePut < |TaskPuts(task.(fault := None))|
  {
    var calm := task.(fault := None);
    assert BodyPuts(calm) == BodyPuts(task);
    assert TaskPuts(calm) == BodyPuts(task) + [Done];
    assert TaskPuts(calm)[..task.fault.value.beforePut] == BodyPuts(task)[..task.fault.value.beforePut];
  }

  // ---- the order of the puts ------------------------------------------------------------------

  ghost predicate Verdict(e: Event) { e.Final? || e.Error? }

  /** `p` non-empty progress events, then report chunks, then one final or error event, then done. */
  ghost predicate Protocol(events: seq<Event>, p: nat) {
    var n := |events|;
    && p + 2 <= n
    && (forall i | 0 <= i < p :: events[i].Progress? && events[i].text != "")
    && (forall i | p <= i < n - 2 :: events[i].Markdown?)
    && Verdict(events[n - 2]) && events[n - 1] == Done
  }

  lemma {:induction false} ProgressPutsAreProgress(chunks: seq<string>)
    ensures forall e | e in ProgressPuts(chunks) :: e.Progress? && e.text != ""
  {
    if chunks == [] {
    } else {
      ProgressPutsAreProgress(chunks[1..]);
    }
  }

  lemma {:induction false} MarkdownPutsAreMarkdown(chunks: seq<string>)
    ensures |MarkdownPuts(chunks)| == |chunks|
    ensures forall i | 0 <= i < |chunks| :: MarkdownPuts(chunks)[i] == Markdown(chunks[i])
  {
    if chunks == [] {
    } else {
      MarkdownPutsAreMarkdown(chunks[1..]);
    }
  }

  lemma OutcomeIsMarkdownThenFinal(task: Task)
    ensures OutcomePuts(task) != [] && OutcomePuts(task)[|OutcomePuts(task)| - 1].Final?
    ensures forall i | 0 <= i < |OutcomePuts(task)| - 1 :: OutcomePuts(task)[i].Markdown?
  {
    MarkdownPutsAreMarkdown(Chunks(task.execution.report));
  }

  /** Whatever a task does and wherever it raises, its puts follow the protocol, and their verdict is
      an error exactly when it raised. */
  lemma PutsFollowProtocol(task: Task) returns (p: nat)
    ensures Protocol(TaskPuts(task), p)
    ensures TaskPuts(task)[|TaskPuts(task)| - 2].Error? <==> Raises(task)
  {
    var progress, outcome, body := ProgressPuts(task.progress), OutcomePuts(task), BodyPuts(task);
    ProgressPutsAreProgress(task.progress);
    OutcomeIsMarkdownThenFinal(task);
    p := |progress|;
    if Raises(task) && task.fault.value.beforePut < p {
      p := task.fault.value.beforePut;
    }
    forall i | 0 <= i < |body| - 1
      ensures if i < |progress| then body[i].Progress? && body[i].text != "" else body[i].Markdown?
    {
      assert body[i] == if i < |progress| then progress[i] else outcome[i - |progress|];
    }
    assert body[|body| - 1] == outcome[|outcome| - 1];
  }

  // ---- the two threads ------------------------------------------------------------------------

  datatype Out = Ready | Item(event: Event) | Heartbeat | End

  datatype ConsumerPhase = Starting | Looping | Finished

  /** `left` is what the worker has still to put. */
  datatype State = State(left: seq<Event>, queue: seq<Event>, puts: seq<Event>,
                         consumer: ConsumerPhase, output: seq<Out>)

  datatype Step = Put | Begin | Get | Timeout(heartbeatDue: bool)

  function Initial(task: Task): State { State(TaskPuts(task), [], [], Starting, []) }

  function Yield(s: State, o: Out): State { s.(output := s.output + [o]) }

  /** One step of either thread; a step that is not possible changes nothing. The worker may put an
      event between the time-out of a get and the heartbeat that follows it. */
  function Next(s: State, step: Step): State {
    match step
    case Put =>
      if s.left == [] then s
      else s.(left := s.left[1..], queue := s.queue + [s.left[0]], puts := s.puts + [s.left[0]])
    case Begin => if s.consumer != Starting then s else Yield(s, Ready).(consumer := Looping)
    case Get =>
      if s.consumer != Looping || s.queue == [] then s
      else
        var rest := s.(queue := s.queue[1..]);
        if s.queue[0] == Done then Yield(rest, End).(consumer := Finished) else Yield(rest, Item(s.queue[0]))
    case Timeout(due) => if s.consumer != Looping || !due then s else Yield(s, Heartbeat)
  }

  function Run(task: Task, steps: seq<Step>): State {
    if steps == [] then Initial(task) else Next(Run(task, steps[..|steps| - 1]), steps[|steps| - 1])
  }

  function NoHeartbeats(output: seq<Out>): seq<Out> {
    if output == [] then []
    else NoHeartbeats(output[..|output| - 1])
         + (if output[|output| - 1] == Heartbeat then [] else [output[|output| - 1]])
  }

  /** How the consumer prints the events of the queue. */
  function Printed(events: seq<Event>): seq<Out> {
    seq(|events|, i requires 0 <= i < |events| => if events[i] == Done then End else Item(events[i]))
  }

  /** What the consumer has printed, heartbeats aside, once it has taken `k` events from the queue. */
  function Taken(s: State, k: nat): seq<Out>
    requires k <= |s.puts|
  {
    if s.consumer == Starting then [] else [Ready] + Printed(s.puts[..k])
  }

  /** `k` events of those put have been taken from the queue. */
  ghost predicate Inv(task: Task, s: State, k: nat) {
    && s.puts + s.left == TaskPuts(task)
    && k <= |s.puts| && s.queue == s.puts[k..]
    && NoHeartbeats(s.output) == Taken(s, k)
    && (s.consumer == Starting ==> k == 0)
    && (s.consumer == Finished <==> k == |TaskPuts(task)|)
  }

  lemma NoHeartbeatsSnoc(output: seq<Out>, o: Out)
    ensures NoHeartbeats(output + [o]) == NoHeartbeats(output) + (if o == Heartbeat then [] else [o])
  {
    assert (output + [o])[..|output + [o]| - 1] == output;
  }

  lemma PrintedSnoc(events: seq<Event>, k: nat)
    requires k < |events|
    ensures [Ready] + Printed(events[..k + 1])
         == [Ready] + Printed(events[..k]) + [if events[k] == Done then End else Item(events[k])]
  {
  }

  /** Done is the last put and no other. */
  lemma DoneIsLast(task: Task, i: nat)
    requires i < |TaskPuts(task)|
    ensures TaskPuts(task)[i] == Done <==> i == |TaskPuts(task)| - 1
  {
    var p := PutsFollowProtocol(task);
  }

  lemma PutKeepsInv(task: Task, s: State, k: nat)
    requires Inv(task, s, k)
    ensures Inv(task, Next(s, Put), k)
  {
    if s.left != [] {
      var s' := Next(s, Put);
      assert s'.puts + s'.left == s.puts + s.left;
      assert s'.puts[..k] == s.puts[..k] && s'.puts[k..] == s.puts[k..] + [s.left[0]];
    }
  }

  lemma GetKeepsInv(task: Task, s: State, k: nat)
    requires Inv(task, s, k) && s.consumer == Looping && s.queue != []
    ensures Inv(task, Next(s, Get), k + 1)
  {
    var e := s.queue[0];
    assert e == s.puts[k] == TaskPuts(task)[k];
    DoneIsLast(task, k);
    PrintedSnoc(s.puts, k);
    NoHeartbeatsSnoc(s.output, if e == Done then End else Item(e));
    assert s.queue[1..] == s.puts[k + 1..];
  }

  lemma BeginKeepsInv(task: Task, s: State)
    requires Inv(task, s, 0) && s.consumer == Starting
    ensures Inv(task, Next(s, Begin), 0)
  {
    NoHeartbeatsSnoc(s.output, Ready);
    assert [] + [Ready] == [Ready] + Printed(s.puts[..0]);
  }

  lemma StepKeepsInv(task: Task, s: State, step: Step, k: nat) returns (k': nat)
    requires Inv(task, s, k)
    ensures Inv(task, Next(s, step), k')
  {
    k' := k;
    match step
    case Put =>
      PutKeepsInv(task, s, k);
    case Begin =>
      if s.consumer == Starting {
        BeginKeepsInv(task, s);
      }
    case Get =>
      if s.consumer == Looping && s.queue != [] {
        GetKeepsInv(task, s, k);
        k' := k + 1;
      }
    case Timeout(due) =>
      NoHeartbeatsSnoc(s.output, Heartbeat);
  }

  lemma {:induction false} RunKeepsInv(task: Task, steps: seq<Step>) returns (k: nat)
    ensures Inv(task, Run(task, steps), k)
  {
    if steps == [] {
      k := 0;
      assert [] + TaskPuts(task) == TaskPuts(task);
    } else {
      k := RunKeepsInv(task, steps[..|steps| - 1]);
      k := StepKeepsInv(task, Run(task, steps[..|steps| - 1]), steps[|steps| - 1], k);
    }
  }

  // ---- theorems -------------------------------------------------------------------------------

  /** In every interleaving the output without heartbeats is a prefix of: ready, the puts of the task
      in order, the last of them printed as end. */
  lemma OutputFollowsPuts(task: Task, steps: seq<Step>)
    ensures NoHeartbeats(Run(task, steps).output) <= [Ready] + Printed(TaskPuts(task))
  {
    var k := RunKeepsInv(task, steps);
    var s := Run(task, steps);
    assert TaskPuts(task)[..k] == s.puts[..k];
    assert [Ready] + Printed(TaskPuts(task)[..k]) <= [Ready] + Printed(TaskPuts(task));
  }

  /** Heartbeats aside: ready, `p` non-empty progress events, report chunks, exactly one final or
      error event, end. */
  ghost predicate Complete(output: seq<Out>, p: nat) {
    var n := |output|;
    && n >= p + 3
    && output[0] == Ready
    && (forall i | 1 <= i <= p :: output[i].Item? && output[i].event.Progress? && output[i].event.text != "")
    && (forall i | p < i < n - 2 :: output[i].Item? && output[i].event.Markdown?)
    && output[n - 2].Item? && Verdict(output[n - 2].event)
    && output[n - 1] == End
  }

  /** A finished stream has printed all puts of the task, in the order of the protocol; the verdict in
      it is an error exactly when the task raised. */
  lemma FinishedStreamIsComplete(task: Task, steps: seq<Step>) returns (p: nat)
    requires Run(task, steps).consumer == Finished
    ensures NoHeartbeats(Run(task, steps).output) == [Ready] + Printed(TaskPuts(task))
    ensures Complete([Ready] + Printed(TaskPuts(task)), p)
    ensures ([Ready] + Printed(TaskPuts(task)))[|TaskPuts(task)| - 1].event.Error? <==> Raises(task)
  {
    var k := RunKeepsInv(task, steps);
    var puts := TaskPuts(task);
    assert Run(task, steps).puts[..k] == puts;
    p := PutsFollowProtocol(task);
    PrintedProtocol(puts, p);
  }

  lemma PrintedProtocol(puts: seq<Event>, p: nat)
    requires Protocol(puts, p)
    ensures Complete([Ready] + Printed(puts), p)
    ensures ([Ready] + Printed(puts))[|puts| - 1] == Item(puts[|puts| - 2])
  {
    var output := [Ready] + Printed(puts);
    forall i | 1 <= i < |puts| ensures output[i] == Item(puts[i - 1]) {
      assert output[i] == Printed(puts)[i - 1];
    }
    assert output[|puts|] == Printed(puts)[|puts| - 1];
  }

  function MarkdownText(events: seq<Event>): string {
    if events == [] then []
    else (if events[0].Markdown? then events[0].text else []) + MarkdownText(events[1..])
  }

  lemma {:induction false} MarkdownTextOfProgress(progress: seq<Event>, more: seq<Event>)
    requires forall e | e in progress :: e.Progress?
    ensures MarkdownText(progress + more) == MarkdownText(more)
  {
    if progress == [] {
      assert progress + more == more;
    } else {
      assert progress[0] in progress && (progress + more)[1..] == progress[1..] + more;
      MarkdownTextOfProgress(progress[1..], more);
    }
  }

  lemma MarkdownTextOfOne(chunk: string, more: seq<Event>)
    ensures MarkdownText([Markdown(chunk)] + more) == chunk + MarkdownText(more)
  {
    assert ([Markdown(chunk)] + more)[1..] == more;
  }

  lemma {:induction false} MarkdownTextOfChunks(chunks: seq<string>, more: seq<Event>)
    ensures MarkdownText(MarkdownPuts(chunks) + more) == Concat(chunks) + MarkdownText(more)
  {
    if chunks == [] {
      assert MarkdownPuts(chunks) + more == more;
    } else {
      MarkdownTextOfChunks(chunks[1..], more);
      MarkdownTextOfOne(chunks[0], MarkdownPuts(chunks[1..]) + more);
      Regroup([Markdown(chunks[0])], MarkdownPuts(chunks[1..]), more);
      Regroup(chunks[0], Concat(chunks[1..]), MarkdownText(more));
    }
  }

  /** The report chunks of a task that completed without routing errors and did not raise join to the
      stripped report. */
  lemma ReportIsStreamedWhole(task: Task)
    requires !Raises(task) && task.execution.completed
    requires task.execution.errorTables == [] && task.execution.reportTables == []
    ensures MarkdownText(TaskPuts(task)) == Strip(task.execution.report)
  {
    var progress, chunks := ProgressPuts(task.progress), Chunks(task.execution.report);
    var ending := [FinalOf(task.execution)] + [Done];
    ProgressPutsAreProgress(task.progress);
    assert TaskPuts(task) == progress + (MarkdownPuts(chunks) + ending);
    MarkdownTextOfProgress(progress, MarkdownPuts(chunks) + ending);
    MarkdownTextOfChunks(chunks, ending);
    assert ending[1..] == [Done] && [Done][1..] == [];
    ChunksAreExact(task.execution.report);
  }

  lemma FinishedStays(s: State, step: Step)
    requires s.consumer == Finished
    ensures Next(s, step).output == s.output && Next(s, step).consumer == Finished
  {
  }

  /** Nothing follows the end of the stream, not even a heartbeat. */
  lemma {:induction false} NothingAfterEnd(task: Task, steps: seq<Step>, more: seq<Step>)
    requires Run(task, steps).consumer == Finished
    ensures Run(task, steps + more).output == Run(task, steps).output
    ensures Run(task, steps + more).consumer == Finished
    decreases |more|
  {
    if more == [] {
      assert steps + more == steps;
    } else {
      var init, last := more[..|more| - 1], more[|more| - 1];
      NothingAfterEnd(task, steps, init);
      FinishedStays(Run(task, steps + init), last);
      RunSnoc(task, steps + init, last);
      InitAndLast(more);
      Regroup(steps, init, [last]);
    }
  }

  lemma RunSnoc(task: Task, steps: seq<Step>, step: Step)
    ensures Run(task, steps + [step]) == Next(Run(task, steps), step)
  {
    assert (steps + [step])[..|steps + [step]| - 1] == steps;
  }

  /** Puts count twice: they have still to be taken. */
  function Remaining(s: State): nat {
    2 * |s.left| + |s.queue| + (if s.consumer == Starting then 1 else 0)
  }

  lemma SomeStepRemains(task: Task, s: State, k: nat) returns (step: Step)
    requires Inv(task, s, k) && s.consumer != Finished
    ensures Remaining(Next(s, step)) < Remaining(s)
  {
    if s.left != [] {
      step := Put;
    } else if s.consumer == Starting {
      step := Begin;
    } else {
      assert s.puts + [] == s.puts;
      step := Get;
    }
  }

  /** Whatever has happened so far, the stream can still be finished: the worker never waits for the
      consumer, and the consumer only for events that the worker has still to put. */
  lemma {:induction false} EveryRunCanFinish(task: Task, steps: seq<Step>) returns (more: seq<Step>)
    ensures Run(task, steps + more).consumer == Finished
    decreases Remaining(Run(task, steps))
  {
    if Run(task, steps).consumer == Finished {
      more := [];
      assert steps + more == steps;
    } else {
      var k := RunKeepsInv(task, steps);
      var step := SomeStepRemains(task, Run(task, steps), k);
      RunSnoc(task, steps, step);
      var later := EveryRunCanFinish(task, steps + [step]);
      Regroup(steps, [step], later);
      more := [step] + later;
    }
  }
}
