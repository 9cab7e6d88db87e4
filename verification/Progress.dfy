/** The buffer that collects progress chunks and the bridge that sends them at intervals. */
module Progress {
  import opened Seqs
  import opened Options
  import opened Text
  import opened Chunker
  import opened StatusJoin

  // ---- the buffer and the bridge --------------------------------------------------------------

  datatype State = State(chunks: seq<string>, started: Option<real>, sends: seq<string>)

  datatype Op =
    | Emit(chunk: string, addedAt: real, flushedAt: real)
    | EmitNow(chunk: string, addedAt: real)
    | Finish

  function AddChunk(s: State, chunk: string, now: real): State {
    State(s.chunks + [chunk], if s.chunks == [] then Some(now) else s.started, s.sends)
  }

  function Send(s: State): State {
    var output := AppendAll(s.chunks);
    State([], None, if output == "" then s.sends else s.sends + [output])
  }

  function FlushIfDue(interval: int, s: State, now: real): State {
    if s.chunks == [] then s
    else if s.started.None? then s.(started := Some(now))
    else if now - s.started.value < interval as real then s
    else Send(s)
  }

  function Step(interval: int, s: State, op: Op): State {
    match op
    case Emit(chunk, addedAt, flushedAt) => FlushIfDue(interval, AddChunk(s, chunk, addedAt), flushedAt)
    case EmitNow(chunk, addedAt) => Send(AddChunk(s, chunk, addedAt))
    case Finish => if s.chunks == [] then s else Send(s)
  }

  const EMPTY := State([], None, [])

  function Run(interval: int, ops: seq<Op>): State {
    if ops == [] then EMPTY else Step(interval, Run(interval, ops[..|ops| - 1]), ops[|ops| - 1])
  }

  class StreamUpdateBuffer {
    const interval: int
    var chunks: seq<string>
    var started: Option<real>

    constructor (interval: int)
      ensures this.interval == interval && chunks == [] && started == None
    {
      this.interval := interval;
      chunks := [];
      started := None;
    }

    /** `now` is the reading of the clock, which is consulted only for an empty buffer. */
    method Add(chunk: string, now: real)
      modifies this
      ensures chunks == old(chunks) + [chunk]
      ensures started == if old(chunks) == [] then Some(now) else old(started)
    {
      if chunks == [] {
        started := Some(now);
      }
      chunks := chunks + [chunk];
    }

    method Flush(force: bool, now: real) returns (output: string)
      modifies this
      ensures var due := old(chunks) != []
                && (force || (old(started).Some? && now - old(started).value >= interval as real));
              if due then output == AppendAll(old(chunks)) && chunks == [] && started == None
              else output == "" && chunks == old(chunks)
                   && started == if old(chunks) != [] && old(started).None? then Some(now) else old(started)
    {
      if chunks == [] {
        return "";
      }
      if !force {
        if started.None? {
          started := Some(now);
          return "";
        }
        if now - started.value < interval as real {
          return "";
        }
      }
      output := JoinStreamChunks(chunks);
      chunks := [];
      started := None;
    }
  }

  class StreamingProgressBridge {
    const buffer: StreamUpdateBuffer
    var sends: seq<string>

    constructor (interval: int)
      ensures fresh(buffer) && buffer.interval == interval && View() == EMPTY
    {
      buffer := new StreamUpdateBuffer(interval);
      sends := [];
    }

    ghost function View(): State
      reads this, buffer
    {
      State(buffer.chunks, buffer.started, sends)
    }

    method Emit(chunk: string, addedAt: real, flushedAt: real)
      modifies this, buffer
      ensures View() == Step(buffer.interval, old(View()), Op.Emit(chunk, addedAt, flushedAt))
    {
      buffer.Add(chunk, addedAt);
      Flush(false, flushedAt);
    }

    method EmitNow(chunk: string, addedAt: real)
      modifies this, buffer
      ensures View() == Step(buffer.interval, old(View()), Op.EmitNow(chunk, addedAt))
    {
      buffer.Add(chunk, addedAt);
      Flush(true, addedAt);
    }

    method Finish()
      modifies this, buffer
      ensures View() == Step(buffer.interval, old(View()), Op.Finish)
    {
      Flush(true, 0.0);
    }

    /** Hands non-empty output to the responder, which never raises. */
    method Flush(force: bool, now: real)
      modifies this, buffer
      ensures View() == if force then (if old(View()).chunks == [] then old(View()) else Send(old(View())))
                        else FlushIfDue(buffer.interval, old(View()), now)
    {
      var text := buffer.Flush(force, now);
      if text != "" {
        sends := sends + [text];
      }
    }
  }

  // ---- conservation ---------------------------------------------------------------------------

  function ChunksOf(ops: seq<Op>): seq<string> {
    if ops == [] then []
    else ChunksOf(ops[..|ops| - 1]) + (if ops[|ops| - 1].Finish? then [] else [ops[|ops| - 1].chunk])
  }

  /** Everything sent or still buffered, in order. */
  function Material(s: State): string { Concat(s.sends) + Concat(s.chunks) }

  lemma SendKeepsText(s: State)
    ensures Squeeze(Material(Send(s))) == Squeeze(Material(s))
  {
    var output := AppendAll(s.chunks);
    AppendAllKeepsText(s.chunks);
    ConcatSnoc(s.sends, output);
    SqueezeAppend(Concat(s.sends), output);
    SqueezeAppend(Concat(s.sends), Concat(s.chunks));
    assert Concat(s.sends) + [] == Concat(s.sends);
    if output != "" {
      assert Material(Send(s)) == Concat(s.sends) + output;
    } else {
      assert Material(Send(s)) == Concat(s.sends);
    }
  }

  lemma AddMaterial(s: State, chunk: string, now: real)
    ensures Material(AddChunk(s, chunk, now)) == Material(s) + chunk
  {
    ConcatSnoc(s.chunks, chunk);
  }

  function Emitted(op: Op): string { if op.Finish? then [] else op.chunk }

  lemma StepConserves(interval: int, s: State, op: Op)
    ensures Squeeze(Material(Step(interval, s, op))) == Squeeze(Material(s)) + Squeeze(Emitted(op))
  {
    StepSendsOrKeeps(interval, s, op);
    LoadedMaterial(s, op);
    SendKeepsText(Loaded(s, op));
    SqueezeAppend(Material(s), Emitted(op));
  }

  lemma ChunksOfSnoc(ops: seq<Op>)
    requires ops != []
    ensures Concat(ChunksOf(ops)) == Concat(ChunksOf(ops[..|ops| - 1])) + Emitted(ops[|ops| - 1])
  {
    var before := ChunksOf(ops[..|ops| - 1]);
    if ops[|ops| - 1].Finish? {
      assert ChunksOf(ops) == before && Concat(before) + [] == Concat(before);
    } else {
      ConcatSnoc(before, ops[|ops| - 1].chunk);
    }
  }

  /** Over every run, what was sent plus what is buffered is what was emitted, up to white space. */
  lemma {:induction false} RunConserves(interval: int, ops: seq<Op>)
    ensures Squeeze(Material(Run(interval, ops))) == Squeeze(Concat(ChunksOf(ops)))
  {
    if ops == [] {
    } else {
      var init, op := ops[..|ops| - 1], ops[|ops| - 1];
      RunConserves(interval, init);
      StepConserves(interval, Run(interval, init), op);
      ChunksOfSnoc(ops);
      SqueezeAppend(Concat(ChunksOf(init)), Emitted(op));
    }
  }

  /** After a final finish nothing is left behind. */
  lemma FinishSendsAll(interval: int, ops: seq<Op>)
    ensures var s := Run(interval, ops + [Finish]);
            s.chunks == [] && Squeeze(Concat(s.sends)) == Squeeze(Concat(ChunksOf(ops)))
  {
    var all := ops + [Finish];
    assert all[..|all| - 1] == ops;
    RunConserves(interval, all);
    var s := Run(interval, all);
    assert Concat(s.sends) + [] == Concat(s.sends);
    assert ChunksOf(all) == ChunksOf(ops);
  }

  // ---- exactness ------------------------------------------------------------------------------

  /** The state in which an operation looks at the buffer. */
  function Loaded(s: State, op: Op): State { if op.Finish? then s else AddChunk(s, op.chunk, op.addedAt) }

  lemma StepSendsOrKeeps(interval: int, s: State, op: Op)
    ensures var r := Step(interval, s, op);
            r == Send(Loaded(s, op)) || (r.chunks == Loaded(s, op).chunks && r.sends == Loaded(s, op).sends)
  {
  }

  lemma LoadedMaterial(s: State, op: Op)
    ensures Material(Loaded(s, op)) == Material(s) + Emitted(op)
    ensures Loaded(s, op).chunks == s.chunks + (if op.Finish? then [] else [op.chunk])
  {
    if !op.Finish? {
      AddMaterial(s, op.chunk, op.addedAt);
    }
  }

  /** The batches that have left the buffer, in order. */
  function Batches(interval: int, ops: seq<Op>): seq<seq<string>> {
    if ops == [] then []
    else
      var init, op := ops[..|ops| - 1], ops[|ops| - 1];
      var loaded := Loaded(Run(interval, init), op).chunks;
      Batches(interval, init)
      + (if Leaves(interval, Run(interval, init), op) then [loaded] else [])
  }

  lemma ChunksOfStep(ops: seq<Op>)
    requires ops != []
    ensures ChunksOf(ops)
         == ChunksOf(ops[..|ops| - 1]) + if ops[|ops| - 1].Finish? then [] else [ops[|ops| - 1].chunk]
  {
  }

  lemma FlattenSnoc(batches: seq<seq<string>>, last: seq<string>)
    ensures Flatten(batches + [last]) == Flatten(batches) + last
  {
    FlattenAppend(batches, [last]);
    FlattenOne(last);
  }

  /** What a step makes of the buffer: all of it stays, or it leaves as one batch. */
  lemma StepOfBuffer(interval: int, s: State, op: Op)
    ensures var r, loaded := Step(interval, s, op), Loaded(s, op);
            if r.chunks == [] && loaded.chunks != [] then r == Send(loaded)
            else r.chunks == loaded.chunks && r.sends == loaded.sends
  {
  }

  /** Whether an operation empties a buffer that is not empty. */
  predicate Leaves(interval: int, s: State, op: Op) {
    Step(interval, s, op).chunks == [] && Loaded(s, op).chunks != []
  }

  lemma BatchesStep(interval: int, ops: seq<Op>)
    requires ops != []
    ensures var init, op := ops[..|ops| - 1], ops[|ops| - 1];
            var s := Run(interval, init);
            Batches(interval, ops)
            == if Leaves(interval, s, op) then Batches(interval, init) + [Loaded(s, op).chunks]
               else Batches(interval, init)
  {
    var before := Batches(interval, ops[..|ops| - 1]);
    assert before + [] == before;
  }

  lemma LoadedFollows(sent: seq<string>, s: State, ops: seq<Op>)
    requires ops != [] && sent + s.chunks == ChunksOf(ops[..|ops| - 1])
    ensures sent + Loaded(s, ops[|ops| - 1]).chunks == ChunksOf(ops)
  {
    var op := ops[|ops| - 1];
    ChunksOfStep(ops);
    LoadedMaterial(s, op);
    Regroup(sent, s.chunks, if op.Finish? then [] else [op.chunk]);
  }

  /** The batches and the buffer hold exactly the emitted chunks. */
  lemma {:induction false} BatchesAreChunks(interval: int, ops: seq<Op>)
    ensures Flatten(Batches(interval, ops)) + Run(interval, ops).chunks == ChunksOf(ops)
  {
    if ops == [] {
    } else {
      var init, op := ops[..|ops| - 1], ops[|ops| - 1];
      var s, batches := Run(interval, init), Batches(interval, init);
      BatchesAreChunks(interval, init);
      LoadedFollows(Flatten(batches), s, ops);
      BatchesStep(interval, ops);
      StepOfBuffer(interval, s, op);
      FlattenSnoc(batches, Loaded(s, op).chunks);
      NothingAppended(Flatten(batches) + Loaded(s, op).chunks);
    }
  }

  ghost predicate AllSmooth(batches: seq<seq<string>>) { forall i | 0 <= i < |batches| :: Smooth(batches[i]) }

  lemma AllSmoothSnoc(batches: seq<seq<string>>, last: seq<string>)
    ensures AllSmooth(batches + [last]) <==> AllSmooth(batches) && Smooth(last)
  {
    var all := batches + [last];
    assert all[|batches|] == last && forall i | 0 <= i < |batches| :: all[i] == batches[i];
  }

  lemma SendsOfSend(s: State)
    ensures Concat(Send(s).sends) == Concat(s.sends) + AppendAll(s.chunks)
  {
    ConcatSnoc(s.sends, AppendAll(s.chunks));
    assert Concat(s.sends) + [] == Concat(s.sends);
  }

  /** One more batch is sent to the letter, behind what was sent before, exactly when both are exact. */
  lemma OneMoreBatch(sent: string, batches: seq<seq<string>>, last: seq<string>)
    ensures sent + AppendAll(last) == Concat(Flatten(batches + [last]))
       <==> sent == Concat(Flatten(batches)) && Smooth(last)
  {
    var plain := Concat(Flatten(batches));
    FlattenSnoc(batches, last);
    ConcatAppend(Flatten(batches), last);
    AppendAllKeepsEnds(last);
    BatchIsConcatIff(last);
    if sent + AppendAll(last) == plain + Concat(last) {
      CancelBatch(sent, AppendAll(last), plain, Concat(last));
      CancelTail(sent, plain, Concat(last));
    }
  }

  /** The sends carry the chunks that have left the buffer to the letter exactly when, within each
      batch, no status follows a status with something else than one blank between them. Statuses that
      meet across two batches do no harm. */
  lemma {:induction false} SendsAreExactIff(interval: int, ops: seq<Op>)
    ensures Concat(Run(interval, ops).sends) == Concat(Flatten(Batches(interval, ops)))
       <==> AllSmooth(Batches(interval, ops))
  {
    if ops == [] {
    } else {
      var init, op := ops[..|ops| - 1], ops[|ops| - 1];
      var s := Run(interval, init);
      var loaded := Loaded(s, op);
      SendsAreExactIff(interval, init);
      BatchesStep(interval, ops);
      StepOfBuffer(interval, s, op);
      if Leaves(interval, s, op) {
        SendsOfSend(loaded);
        OneMoreBatch(Concat(s.sends), Batches(interval, init), loaded.chunks);
        AllSmoothSnoc(Batches(interval, init), loaded.chunks);
      }
    }
  }

  /** The same for sends and buffer together, against all that was emitted. */
  lemma RunIsExactIff(interval: int, ops: seq<Op>)
    ensures Material(Run(interval, ops)) == Concat(ChunksOf(ops)) <==> AllSmooth(Batches(interval, ops))
  {
    var batches, chunks := Batches(interval, ops), Run(interval, ops).chunks;
    BatchesAreChunks(interval, ops);
    ConcatAppend(Flatten(batches), chunks);
    SendsAreExactIff(interval, ops);
    if Material(Run(interval, ops)) == Concat(ChunksOf(ops)) {
      CancelTail(Concat(Run(interval, ops).sends), Concat(Flatten(batches)), Concat(chunks));
    }
  }

  /** When no status ever follows a status, all batches are smooth, however the clock cuts them. */
  lemma {:induction false} UnmetIsSmooth(interval: int, ops: seq<Op>)
    requires NoMeeting(ChunksOf(ops))
    ensures AllSmooth(Batches(interval, ops))
  {
    if ops == [] {
    } else {
      var init, op := ops[..|ops| - 1], ops[|ops| - 1];
      var batches, loaded := Batches(interval, init), Loaded(Run(interval, init), op).chunks;
      assert ChunksOf(ops)[..|ChunksOf(init)|] == ChunksOf(init);
      NoMeetingPrefix(ChunksOf(ops), |ChunksOf(init)|);
      UnmetIsSmooth(interval, init);
      LoadedIsSuffix(interval, ops);
      BatchIsSmooth(Flatten(batches), loaded);
      AllSmoothSnoc(batches, loaded);
      BatchesStep(interval, ops);
    }
  }

  lemma LoadedIsSuffix(interval: int, ops: seq<Op>)
    requires ops != []
    ensures var init, op := ops[..|ops| - 1], ops[|ops| - 1];
            Flatten(Batches(interval, init)) + Loaded(Run(interval, init), op).chunks == ChunksOf(ops)
  {
    var init, op := ops[..|ops| - 1], ops[|ops| - 1];
    BatchesAreChunks(interval, init);
    LoadedFollows(Flatten(Batches(interval, init)), Run(interval, init), ops);
  }

  lemma RunIsExact(interval: int, ops: seq<Op>)
    requires NoMeeting(ChunksOf(ops))
    ensures Material(Run(interval, ops)) == Concat(ChunksOf(ops))
  {
    UnmetIsSmooth(interval, ops);
    RunIsExactIff(interval, ops);
  }

  // ---- latency --------------------------------------------------------------------------------

  ghost predicate MonotoneClock(ops: seq<Op>) {
    && (forall i | 0 <= i < |ops| && ops[i].Emit? :: ops[i].addedAt <= ops[i].flushedAt)
    && (forall i, j | 0 <= i < j < |ops| && !ops[i].Finish? && !ops[j].Finish? :: ops[i].addedAt <= ops[j].addedAt)
  }

  /** The buffer of `s` holds the chunks of the operations from `k` on, timed from the oldest of them. */
  ghost predicate IsTail(s: State, ops: seq<Op>, k: nat) {
    && k <= |ops| && |s.chunks| == |ops| - k
    && (forall i | k <= i < |ops| :: ops[i].Emit? && s.chunks[i - k] == ops[i].chunk)
    && (k < |ops| ==> s.started == Some(ops[k].addedAt))
  }

  lemma StepAddsOrEmpties(interval: int, s: State, op: Op)
    requires s.chunks != [] ==> s.started.Some?
    ensures var r := Step(interval, s, op);
            r.chunks == [] || (op.Emit? && r.chunks == s.chunks + [op.chunk]
                               && r.started == if s.chunks == [] then Some(op.addedAt) else s.started)
  {
  }

  lemma TailStep(interval: int, s: State, ops: seq<Op>, op: Op, k: nat)
    requires IsTail(s, ops, k)
    ensures var r := Step(interval, s, op); IsTail(r, ops + [op], if r.chunks == [] then |ops| + 1 else k)
  {
    StepAddsOrEmpties(interval, s, op);
  }

  lemma {:induction false} BufferIsTail(interval: int, ops: seq<Op>) returns (k: nat)
    ensures IsTail(Run(interval, ops), ops, k)
  {
    if ops == [] {
      k := 0;
    } else {
      var init, op := ops[..|ops| - 1], ops[|ops| - 1];
      k := BufferIsTail(interval, init);
      TailStep(interval, Run(interval, init), init, op, k);
      assert ops == init + [op];
      if Run(interval, ops).chunks == [] {
        k := |ops|;
      }
    }
  }

  /** An emit sends everything buffered, its own chunk included, exactly when the oldest of these chunks is
      as old as the interval; otherwise it sends nothing. */
  lemma EmitSendsIff(interval: int, ops: seq<Op>, op: Op) returns (k: nat)
    requires op.Emit?
    ensures IsTail(Run(interval, ops), ops, k)
    ensures var before, after := Run(interval, ops), Step(interval, Run(interval, ops), op);
            var oldest := if k < |ops| then ops[k].addedAt else op.addedAt;
            var output := AppendAll(before.chunks + [op.chunk]);
            if op.flushedAt - oldest >= interval as real then
              after.chunks == [] && after.sends == before.sends + if output == "" then [] else [output]
            else after.chunks == before.chunks + [op.chunk] && after.sends == before.sends
  {
    k := BufferIsTail(interval, ops);
  }

  /** After an emit, every chunk still buffered is younger than the interval. */
  lemma BufferedIsYoung(interval: int, ops: seq<Op>) returns (k: nat)
    requires ops != [] && ops[|ops| - 1].Emit? && MonotoneClock(ops)
    ensures IsTail(Run(interval, ops), ops, k)
    ensures forall i | k <= i < |ops| :: ops[|ops| - 1].flushedAt - ops[i].addedAt < interval as real
  {
    k := BufferIsTail(interval, ops);
    if k < |ops| {
      var last := ops[|ops| - 1];
      var added := AddChunk(Run(interval, ops[..|ops| - 1]), last.chunk, last.addedAt);
      assert Run(interval, ops) == FlushIfDue(interval, added, last.flushedAt);
      assert last.flushedAt - ops[k].addedAt < interval as real;
    }
  }
}
