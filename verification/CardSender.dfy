/** The streaming card sender: each message id has a card that is streamed to, or, once the card has
    failed, a text buffer that is sent as one message at the end. */
module CardSender {
  import opened Seqs
  import opened Options
  import opened Text
  import opened Chunker
  import opened StatusJoin

  const FAILURE_NOTE := "\n\n> 本次任务执行失败，请查看日志后重试。"
  const FAILURE_TEXT := "任务失败，请查看日志后重试。"

  /** Control characters other than line breaks and tabs are dropped; a card never gets an empty text. */
  function Printable(text: string): string {
    if text == [] then []
    else (if text[0] in "\n\r\t" || text[0] >= ' ' then [text[0]] else []) + Printable(text[1..])
  }

  function Sanitize(text: string): string {
    if Printable(text) == "" then "\n" else Printable(text)
  }

  /** A character that reaches the card. */
  predicate Shown(c: char) { c == '\n' || c == '\r' || c == '\t' || c >= ' ' }

  lemma {:induction false} PrintableMeans(text: string)
    ensures forall c | c in Printable(text) :: Shown(c)
    ensures Printable(text) == text <==> forall c | c in text :: Shown(c)
    ensures |Printable(text)| <= |text|
    decreases |text|
  {
    if text == [] {
    } else {
      PrintableMeans(text[1..]);
      assert text[0] in text && text == [text[0]] + text[1..];
      assert Shown(text[0]) ==> (Printable(text) == text <==> Printable(text[1..]) == text[1..]) by {
        if Shown(text[0]) {
          assert Printable(text)[1..] == Printable(text[1..]);
        }
      }
    }
  }

  /** Characters are dropped one by one. */
  lemma {:induction false} PrintableOfTwo(a: string, b: string)
    ensures Printable(a + b) == Printable(a) + Printable(b)
  {
    if a == [] {
      assert a + b == b;
    } else {
      var first := if Shown(a[0]) then [a[0]] else [];
      assert (a + b)[0] == a[0] && (a + b)[1..] == a[1..] + b;
      PrintableOfTwo(a[1..], b);
      Regroup(first, Printable(a[1..]), Printable(b));
    }
  }

  /** Non-empty text reaches the card as it is exactly when all its characters do; nothing empty is sent. */
  lemma SanitizeKeepsIff(text: string)
    ensures Sanitize(text) == text <==> text != [] && forall c | c in text :: Shown(c)
    ensures Sanitize(text) != []
  {
    PrintableMeans(text);
    assert text == "\n" ==> Printable(text) == "\n";
  }

  /** Calls made to the outside: increments streamed to a card, and text messages. */
  datatype Effect =
    | Streamed(id: string, content: string, finished: bool, ok: bool)
    | TextSent(id: string, text: string)

  /** One call of the sender. `createOk` and `streamOk` say whether the card service raised. */
  datatype Op =
    | Chunk(id: string, text: string, hasCallback: bool, createOk: bool, streamOk: bool)
    | Finish(id: string, failed: bool, streamOk: bool)

  /** The rendered text per open card, the fallback text per degraded message, the calls made. */
  datatype State = State(cards: map<string, string>, buffers: map<string, string>, trace: seq<Effect>)

  function FallbackText(text: string, failed: bool): string {
    if failed then text + FAILURE_NOTE else text
  }

  function FinalText(rendered: string, failed: bool): string {
    if failed && rendered == "" then FAILURE_TEXT else "\n"
  }

  /** A failure adds one note to buffered text, and to a card only when nothing has been rendered. */
  lemma EndTextsMean(text: string)
    ensures FallbackText(text, false) == text
    ensures FallbackText(text, true) == text + "\n\n> 本次任务执行失败，请查看日志后重试。"
    ensures FinalText(text, true) == if text == "" then "任务失败，请查看日志后重试。" else "\n"
    ensures FinalText(text, false) == "\n"
  {
  }

  class DingTalkCardStreamingSender {
    var cards: map<string, string>
    var buffers: map<string, string>
    ghost var trace: seq<Effect>

    constructor ()
      ensures View() == State(map[], map[], [])
    {
      cards, buffers, trace := map[], map[], [];
    }

    ghost function View(): State
      reads this
    {
      State(cards, buffers, trace)
    }

    method SendMarkdownChunk(id: string, text: string, hasCallback: bool, createOk: bool, streamOk: bool)
      modifies this
      ensures View() == Step(old(View()), Chunk(id, text, hasCallback, createOk, streamOk))
    {
      if text == "" {
        return;
      }
      if id in buffers {
        buffers := buffers[id := buffers[id] + text];
        return;
      }
      if !hasCallback {
        trace := trace + [TextSent(id, text)];
        return;
      }
      if id !in cards {
        if !createOk {
          AppendTextFallback(id, text);
          return;
        }
        cards := cards[id := ""];
        EntryReplaced(old(cards), id, AppendChunk("", text));
      }
      StreamIncrement(id, text, streamOk);
    }

    /** An increment for an open card; when the call raises, the text moves to the buffer. */
    method StreamIncrement(id: string, text: string, streamOk: bool)
      requires id in cards && id !in buffers
      modifies this
      ensures trace == old(trace) + [Streamed(id, Sanitize(text), false, streamOk)]
      ensures var rendered := AppendChunk(old(cards)[id], text);
              if streamOk then cards == old(cards)[id := rendered] && buffers == old(buffers)
              else cards == old(cards) - {id}
                   && buffers == old(buffers)[id := if rendered == "" then text else rendered]
    {
      var rendered := AppendChunk(cards[id], text);
      cards := cards[id := rendered];
      trace := trace + [Streamed(id, Sanitize(text), false, streamOk)];
      if !streamOk {
        EntryDropped(old(cards), id, rendered);
        cards := cards - {id};
        AppendTextFallback(id, if rendered == "" then text else rendered);
      }
    }

    method AppendTextFallback(id: string, text: string)
      modifies this`buffers
      ensures buffers == old(buffers)[id := if id in old(buffers) then old(buffers)[id] + text else text]
    {
      var existing := if id in buffers then buffers[id] else "";
      if existing == "" {
        assert existing + text == text;
        buffers := buffers[id := text];
      } else {
        buffers := buffers[id := existing + text];
      }
    }

    method FinishMarkdownStream(id: string, failed: bool, streamOk: bool)
      modifies this
      ensures View() == Step(old(View()), Op.Finish(id, failed, streamOk))
    {
      var fallback := if id in buffers then buffers[id] else "";
      buffers := buffers - {id};
      if fallback != "" {
        trace := trace + [TextSent(id, FallbackText(fallback, failed))];
        return;
      }
      if id !in cards {
        return;
      }
      var rendered := cards[id];
      cards := cards - {id};
      trace := trace + [Streamed(id, Sanitize(FinalText(rendered, failed)), true, streamOk)];
    }
  }

  lemma EntryDropped(entries: map<string, string>, id: string, value: string)
    ensures entries[id := value] - {id} == entries - {id}
  {
  }

  lemma EntryReplaced(entries: map<string, string>, id: string, value: string)
    ensures entries[id := ""][id := value] == entries[id := value]
    ensures entries[id := ""] - {id} == entries - {id}
  {
    EntryDropped(entries, id, "");
  }

  // ---- the calls as a function of the state ---------------------------------------------------

  function ChunkStep(s: State, op: Op): State
    requires op.Chunk?
  {
    var id := op.id;
    if op.text == "" then s
    else if id in s.buffers then s.(buffers := s.buffers[id := s.buffers[id] + op.text])
    else if !op.hasCallback then s.(trace := s.trace + [TextSent(id, op.text)])
    else if id !in s.cards && !op.createOk then s.(buffers := s.buffers[id := op.text])
    else
      var rendered := AppendChunk(if id in s.cards then s.cards[id] else "", op.text);
      var trace := s.trace + [Streamed(id, Sanitize(op.text), false, op.streamOk)];
      if op.streamOk then State(s.cards[id := rendered], s.buffers, trace)
      else State(s.cards - {id}, s.buffers[id := if rendered == "" then op.text else rendered], trace)
  }

  function FinishStep(s: State, op: Op): State
    requires op.Finish?
  {
    var id := op.id;
    var fallback := if id in s.buffers then s.buffers[id] else "";
    var buffers := s.buffers - {id};
    if fallback != "" then State(s.cards, buffers, s.trace + [TextSent(id, FallbackText(fallback, op.failed))])
    else if id !in s.cards then s.(buffers := buffers)
    else State(s.cards - {id}, buffers,
               s.trace + [Streamed(id, Sanitize(FinalText(s.cards[id], op.failed)), true, op.streamOk)])
  }

  function Step(s: State, op: Op): State {
    if op.Chunk? then ChunkStep(s, op) else FinishStep(s, op)
  }

  function Run(s: State, ops: seq<Op>): State {
    if ops == [] then s else Step(Run(s, ops[..|ops| - 1]), ops[|ops| - 1])
  }

  // ---- invariant ------------------------------------------------------------------------------

  /** No id is in both maps, and neither map holds an empty text. */
  ghost predicate Valid(s: State) {
    && s.cards.Keys !! s.buffers.Keys
    && (forall id | id in s.cards :: s.cards[id] != "")
    && (forall id | id in s.buffers :: s.buffers[id] != "")
  }

  lemma AppendIsNotEmpty(existing: string, chunk: string)
    requires chunk != ""
    ensures AppendChunk(existing, chunk) != ""
  {
  }

  lemma StepKeepsValid(s: State, op: Op)
    requires Valid(s)
    ensures Valid(Step(s, op))
    ensures op.Finish? ==> op.id !in Step(s, op).cards && op.id !in Step(s, op).buffers
  {
    if op.Chunk? && op.text != "" {
      AppendIsNotEmpty(if op.id in s.cards then s.cards[op.id] else "", op.text);
    }
  }

  /** Over every interleaving of calls, whichever of them fail. */
  lemma {:induction false} RunKeepsValid(s: State, ops: seq<Op>)
    requires Valid(s)
    ensures Valid(Run(s, ops))
    ensures ops != [] && ops[|ops| - 1].Finish? ==>
              ops[|ops| - 1].id !in Run(s, ops).cards && ops[|ops| - 1].id !in Run(s, ops).buffers
  {
    if ops == [] {
    } else {
      RunKeepsValid(s, ops[..|ops| - 1]);
      StepKeepsValid(Run(s, ops[..|ops| - 1]), ops[|ops| - 1]);
    }
  }

  // ---- independence of message ids ------------------------------------------------------------

  function EffectsOf(trace: seq<Effect>, id: string): seq<Effect> {
    if trace == [] then []
    else EffectsOf(trace[..|trace| - 1], id) + (if trace[|trace| - 1].id == id then [trace[|trace| - 1]] else [])
  }

  function OpsOf(ops: seq<Op>, id: string): seq<Op> {
    if ops == [] then []
    else OpsOf(ops[..|ops| - 1], id) + (if ops[|ops| - 1].id == id then [ops[|ops| - 1]] else [])
  }

  /** What one message id can see of the sender. */
  datatype Local = Local(card: Option<string>, buffer: Option<string>, effects: seq<Effect>)

  function Lookup(entries: map<string, string>, id: string): Option<string> {
    if id in entries then Some(entries[id]) else None
  }

  lemma LookupWithout(entries: map<string, string>, dropped: string, id: string)
    ensures Lookup(entries - {dropped}, id) == if dropped == id then None else Lookup(entries, id)
  {
  }

  function LocalOf(s: State, id: string): Local {
    Local(Lookup(s.cards, id), Lookup(s.buffers, id), EffectsOf(s.trace, id))
  }

  lemma EffectsSnoc(trace: seq<Effect>, e: Effect, id: string)
    ensures EffectsOf(trace + [e], id) == EffectsOf(trace, id) + (if e.id == id then [e] else [])
  {
    assert (trace + [e])[..|trace + [e]| - 1] == trace;
  }

  /** What a call does to its own id. */
  function LocalStep(l: Local, op: Op): Local {
    if op.Chunk? then LocalChunk(l, op) else LocalFinish(l, op)
  }

  function LocalChunk(l: Local, op: Op): Local
    requires op.Chunk?
  {
    if op.text == "" then l
    else if l.buffer.Some? then l.(buffer := Some(l.buffer.value + op.text))
    else if !op.hasCallback then l.(effects := l.effects + [TextSent(op.id, op.text)])
    else if l.card.None? && !op.createOk then l.(buffer := Some(op.text))
    else
      var rendered := AppendChunk(if l.card.Some? then l.card.value else "", op.text);
      var effects := l.effects + [Streamed(op.id, Sanitize(op.text), false, op.streamOk)];
      if op.streamOk then Local(Some(rendered), None, effects)
      else Local(None, Some(if rendered == "" then op.text else rendered), effects)
  }

  function LocalFinish(l: Local, op: Op): Local
    requires op.Finish?
  {
    if l.buffer.Some? && l.buffer.value != "" then
      Local(l.card, None, l.effects + [TextSent(op.id, FallbackText(l.buffer.value, op.failed))])
    else if l.card.None? then l.(buffer := None)
    else
      var final := FinalText(l.card.value, op.failed);
      Local(None, None, l.effects + [Streamed(op.id, Sanitize(final), true, op.streamOk)])
  }

  function LocalRun(l: Local, ops: seq<Op>): Local {
    if ops == [] then l else LocalStep(LocalRun(l, ops[..|ops| - 1]), ops[|ops| - 1])
  }

  /** A call leaves other ids alone, and what it does to its own depends on nothing else. */
  lemma ChunkIsLocal(s: State, op: Op, id: string)
    requires op.Chunk?
    ensures LocalOf(ChunkStep(s, op), id) == if op.id == id then LocalStep(LocalOf(s, id), op) else LocalOf(s, id)
  {
    EffectsSnoc(s.trace, TextSent(op.id, op.text), id);
    EffectsSnoc(s.trace, Streamed(op.id, Sanitize(op.text), false, op.streamOk), id);
  }

  lemma FinishIsLocal(s: State, op: Op, id: string)
    requires op.Finish?
    ensures LocalOf(FinishStep(s, op), id) == if op.id == id then LocalStep(LocalOf(s, id), op) else LocalOf(s, id)
  {
    if op.id in s.buffers && s.buffers[op.id] != "" {
      ClosingIsLocal(s, false, TextSent(op.id, FallbackText(s.buffers[op.id], op.failed)), id);
    } else if op.id in s.cards {
      ClosingIsLocal(s, true, Streamed(op.id, Sanitize(FinalText(s.cards[op.id], op.failed)), true, op.streamOk), id);
    } else {
      DroppingIsLocal(s, op.id, id);
    }
  }

  lemma DroppingIsLocal(s: State, dropped: string, id: string)
    ensures LocalOf(s.(buffers := s.buffers - {dropped}), id)
         == if dropped != id then LocalOf(s, id) else LocalOf(s, id).(buffer := None)
  {
  }

  lemma ClosingIsLocal(s: State, closesCard: bool, e: Effect, id: string)
    ensures LocalOf(State(if closesCard then s.cards - {e.id} else s.cards, s.buffers - {e.id}, s.trace + [e]), id)
         == if e.id != id then LocalOf(s, id)
            else Local(if closesCard then None else LocalOf(s, id).card, None, LocalOf(s, id).effects + [e])
  {
    EffectsSnoc(s.trace, e, id);
    LookupWithout(s.cards, e.id, id);
    LookupWithout(s.buffers, e.id, id);
  }

  /** Over every interleaving, what an id sees is what its own calls alone do to it. */
  lemma {:induction false} IdsAreIndependent(s: State, ops: seq<Op>, id: string)
    ensures LocalOf(Run(s, ops), id) == LocalRun(LocalOf(s, id), OpsOf(ops, id))
  {
    if ops == [] {
    } else {
      var init, op := ops[..|ops| - 1], ops[|ops| - 1];
      IdsAreIndependent(s, init, id);
      if op.Chunk? {
        ChunkIsLocal(Run(s, init), op, id);
      } else {
        FinishIsLocal(Run(s, init), op, id);
      }
      if op.id == id {
        assert OpsOf(ops, id)[..|OpsOf(ops, id)| - 1] == OpsOf(init, id);
      } else {
        assert OpsOf(ops, id) == OpsOf(init, id);
      }
    }
  }

  // ---- one session ----------------------------------------------------------------------------

  /** The non-empty texts of a sequence of chunk calls. */
  function TextsOf(ops: seq<Op>): seq<string> {
    if ops == [] then []
    else
      var op := ops[|ops| - 1];
      TextsOf(ops[..|ops| - 1]) + (if op.Chunk? && op.text != "" then [op.text] else [])
  }

  function StreamsOf(id: string, texts: seq<string>): seq<Effect> {
    if texts == [] then []
    else StreamsOf(id, texts[..|texts| - 1]) + [Streamed(id, Sanitize(texts[|texts| - 1]), false, true)]
  }

  ghost predicate ChunksOnly(ops: seq<Op>, id: string) {
    forall i | 0 <= i < |ops| :: ops[i].Chunk? && ops[i].id == id && ops[i].hasCallback
  }

  const FRESH := Local(None, None, [])

  lemma EmptyAppend(t: string)
    ensures AppendChunk("", t) == t && AppendAll([t]) == t
  {
    assert Strip("") == "";
    assert !EndsWithStatus("");
    assert [t][..0] == [];
  }

  lemma AppendAllSnoc(texts: seq<string>, t: string)
    ensures AppendAll(texts + [t]) == AppendChunk(AppendAll(texts), t)
  {
    assert (texts + [t])[..|texts + [t]| - 1] == texts;
  }

  lemma StreamsSnoc(id: string, texts: seq<string>, t: string)
    ensures StreamsOf(id, texts + [t]) == StreamsOf(id, texts) + [Streamed(id, Sanitize(t), false, true)]
  {
    assert (texts + [t])[..|texts + [t]| - 1] == texts;
  }

  /** Where a session leaves its card for the text buffer: nowhere; at its first chunk, because the card
      could not be created; or at the `k`-th non-empty chunk, because streaming it failed. */
  datatype Break = Unbroken | Uncreated | FailedAt(k: nat)

  function BreakOf(ops: seq<Op>): (b: Break)
    ensures b.Uncreated? ==> TextsOf(ops) != []
    ensures b.FailedAt? ==> b.k < |TextsOf(ops)|
  {
    if ops == [] then Unbroken
    else
      var init, op := ops[..|ops| - 1], ops[|ops| - 1];
      if !BreakOf(init).Unbroken? || !op.Chunk? || op.text == "" then BreakOf(init)
      else if TextsOf(init) == [] && !op.createOk then Uncreated
      else if !op.streamOk then FailedAt(|TextsOf(init)|)
      else Unbroken
  }

  /** The text of a buffer that took over at chunk `k`. */
  function BufferText(texts: seq<string>, k: nat): string
    requires k < |texts|
  {
    AppendAll(texts[..k + 1]) + Concat(texts[k + 1..])
  }

  /** What a session has done before its finish, and what it has in store. */
  function SessionState(id: string, ops: seq<Op>): Local {
    var texts := TextsOf(ops);
    match BreakOf(ops)
    case Unbroken => Local(if texts == [] then None else Some(AppendAll(texts)), None, StreamsOf(id, texts))
    case Uncreated => Local(None, Some(BufferText(texts, 0)), [])
    case FailedAt(k) => Local(None, Some(BufferText(texts, k)), BrokenStreams(id, texts, k))
  }

  /** The increments up to the one that fails. */
  function BrokenStreams(id: string, texts: seq<string>, k: nat): seq<Effect>
    requires k < |texts|
  {
    StreamsOf(id, texts[..k]) + [Streamed(id, Sanitize(texts[k]), false, false)]
  }

  lemma BreakSnoc(ops: seq<Op>, op: Op)
    ensures TextsOf(ops + [op]) == TextsOf(ops) + if op.Chunk? && op.text != "" then [op.text] else []
    ensures BreakOf(ops + [op]) ==
              if !BreakOf(ops).Unbroken? || !op.Chunk? || op.text == "" then BreakOf(ops)
              else if TextsOf(ops) == [] && !op.createOk then Uncreated
              else if !op.streamOk then FailedAt(|TextsOf(ops)|)
              else Unbroken
  {
    PrefixOfSnoc(ops, op);
  }

  /** One more increment goes to the card, whose failure moves all text to the buffer. */
  lemma StreamedOnce(id: string, texts: seq<string>, op: Op)
    requires op.Chunk? && op.id == id && op.hasCallback && op.text != "" && (texts != [] || op.createOk)
    ensures var l := Local(if texts == [] then None else Some(AppendAll(texts)), None, StreamsOf(id, texts));
            var all := AppendAll(texts + [op.text]);
            var effects := StreamsOf(id, texts) + [Streamed(id, Sanitize(op.text), false, op.streamOk)];
            LocalStep(l, op) == if op.streamOk then Local(Some(all), None, effects) else Local(None, Some(all), effects)
  {
    AppendAllSnoc(texts, op.text);
    AppendIsNotEmpty(AppendAll(texts), op.text);
  }

  lemma BufferSnoc(texts: seq<string>, text: string, k: nat)
    requires k < |texts|
    ensures BufferText(texts + [text], k) == BufferText(texts, k) + text
  {
    var all := texts + [text];
    assert all[..k + 1] == texts[..k + 1];
    assert all[k + 1..] == texts[k + 1..] + [text];
    ConcatSnoc(texts[k + 1..], text);
  }

  lemma BufferStarts(texts: seq<string>, text: string)
    ensures BufferText(texts + [text], |texts|) == AppendAll(texts + [text])
  {
    var all := texts + [text];
    assert all[..|all|] == all && all[|all|..] == [];
    NothingAppended(AppendAll(all));
  }

  lemma BrokenSnoc(id: string, texts: seq<string>, text: string, k: nat)
    requires k < |texts|
    ensures BrokenStreams(id, texts + [text], k) == BrokenStreams(id, texts, k)
  {
    PrefixOfFirst(texts, [text], k);
  }

  lemma UnbrokenStep(id: string, ops: seq<Op>, op: Op)
    requires op.Chunk? && op.id == id && op.hasCallback && op.text != "" && BreakOf(ops).Unbroken?
    ensures LocalStep(SessionState(id, ops), op) == SessionState(id, ops + [op])
  {
    var texts := TextsOf(ops);
    BreakSnoc(ops, op);
    BufferStarts(texts, op.text);
    if texts == [] && !op.createOk {
      EmptyAppend(op.text);
      NothingAppended([op.text]);
    } else {
      StreamedOnce(id, texts, op);
      StreamsSnoc(id, texts, op.text);
      PrefixOfSnoc(texts, op.text);
    }
  }

  lemma BrokenStep(id: string, ops: seq<Op>, op: Op)
    requires op.Chunk? && op.id == id && op.hasCallback && op.text != "" && !BreakOf(ops).Unbroken?
    ensures LocalStep(SessionState(id, ops), op) == SessionState(id, ops + [op])
  {
    var texts := TextsOf(ops);
    var k := if BreakOf(ops).Uncreated? then 0 else BreakOf(ops).k;
    BreakSnoc(ops, op);
    BufferSnoc(texts, op.text, k);
    BrokenSnoc(id, texts, op.text, k);
  }

  /** Before its finish a session is where its calls say. */
  lemma {:induction false} SessionIsState(id: string, ops: seq<Op>)
    requires ChunksOnly(ops, id)
    ensures LocalRun(FRESH, ops) == SessionState(id, ops)
  {
    if ops == [] {
    } else {
      var init, op := ops[..|ops| - 1], ops[|ops| - 1];
      SessionIsState(id, init);
      InitAndLast(ops);
      if op.text == "" {
        BreakSnoc(init, op);
        NothingAppended(TextsOf(init));
      } else if BreakOf(init).Unbroken? {
        UnbrokenStep(id, init, op);
      } else {
        BrokenStep(id, init, op);
      }
    }
  }

  // ---- what a session says --------------------------------------------------------------------

  /** All that a finished session sends: every non-empty chunk streamed once, in order, and one finishing
      call; or the increments up to the one that failed, if the card could be created, and exactly one
      text message with all the text, and the failure note if the task failed; or, without any text,
      nothing. */
  function SessionEffects(id: string, ops: seq<Op>, failed: bool, finishOk: bool): seq<Effect> {
    var texts := TextsOf(ops);
    match BreakOf(ops)
    case Unbroken => if texts == [] then [] else StreamsOf(id, texts) + [Streamed(id, "\n", true, finishOk)]
    case Uncreated => [TextSent(id, FallbackText(BufferText(texts, 0), failed))]
    case FailedAt(k) =>
      BrokenStreams(id, texts, k) + [TextSent(id, FallbackText(BufferText(texts, k), failed))]
  }

  /** The text message carries all the text, up to white space ... */
  lemma BufferKeepsText(texts: seq<string>, k: nat)
    requires k < |texts|
    ensures Squeeze(BufferText(texts, k)) == Squeeze(Concat(texts))
  {
    SplitAt(texts, k + 1);
    SqueezeParts(texts[..k + 1], texts[k + 1..], texts);
  }

  lemma SqueezeParts(a: seq<string>, b: seq<string>, all: seq<string>)
    requires a + b == all
    ensures Squeeze(AppendAll(a) + Concat(b)) == Squeeze(Concat(all))
  {
    calc {
      Squeeze(AppendAll(a) + Concat(b));
      { SqueezeAppend(AppendAll(a), Concat(b)); AppendAllKeepsText(a); }
      Squeeze(Concat(a)) + Squeeze(Concat(b));
      { SqueezeAppend(Concat(a), Concat(b)); ConcatAppend(a, b); }
      Squeeze(Concat(all));
    }
  }

  /** ... and to the letter exactly when no status clashed with another before the card was left. */
  lemma BufferIsExactIff(texts: seq<string>, k: nat)
    requires k < |texts|
    ensures BufferText(texts, k) == Concat(texts) <==> Smooth(texts[..k + 1])
  {
    var a, b := texts[..k + 1], texts[k + 1..];
    SplitAt(texts, k + 1);
    ConcatAppend(a, b);
    BatchIsConcatIff(a);
    if BufferText(texts, k) == Concat(texts) {
      CancelTail(AppendAll(a), Concat(a), Concat(b));
    }
  }

  lemma {:induction false} AppendAllIsNotEmpty(texts: seq<string>)
    requires texts != [] && forall i | 0 <= i < |texts| :: texts[i] != ""
    ensures AppendAll(texts) != ""
  {
    AppendIsNotEmpty(AppendAll(texts[..|texts| - 1]), texts[|texts| - 1]);
  }

  lemma {:induction false} TextsAreNotEmpty(ops: seq<Op>)
    ensures forall i | 0 <= i < |TextsOf(ops)| :: TextsOf(ops)[i] != ""
  {
    if ops == [] {
    } else {
      TextsAreNotEmpty(ops[..|ops| - 1]);
    }
  }

  lemma BufferIsNotEmpty(ops: seq<Op>, k: nat)
    requires k < |TextsOf(ops)|
    ensures BufferText(TextsOf(ops), k) != ""
  {
    TextsAreNotEmpty(ops);
    AppendAllIsNotEmpty(TextsOf(ops)[..k + 1]);
  }

  /** A session of a message with callback data, from its first chunk to its finish. */
  lemma SessionEnds(id: string, ops: seq<Op>, failed: bool, finishOk: bool)
    requires ChunksOnly(ops, id)
    ensures LocalRun(FRESH, ops + [Finish(id, failed, finishOk)])
         == Local(None, None, SessionEffects(id, ops, failed, finishOk))
  {
    var texts := TextsOf(ops);
    PrefixOfSnoc(ops, Finish(id, failed, finishOk));
    SessionIsState(id, ops);
    match BreakOf(ops)
    case Unbroken =>
      if texts != [] {
        TextsAreNotEmpty(ops);
        AppendAllIsNotEmpty(texts);
        assert Sanitize("\n") == "\n" by { assert "\n"[1..] == []; }
      }
    case Uncreated => BufferIsNotEmpty(ops, 0);
    case FailedAt(k) => BufferIsNotEmpty(ops, k);
  }

  // ---- messages without callback data ---------------------------------------------------------

  function TextsSent(id: string, texts: seq<string>): seq<Effect> {
    if texts == [] then [] else TextsSent(id, texts[..|texts| - 1]) + [TextSent(id, texts[|texts| - 1])]
  }

  lemma TextsSentSnoc(id: string, texts: seq<string>, t: string)
    ensures TextsSent(id, texts + [t]) == TextsSent(id, texts) + [TextSent(id, t)]
  {
    assert (texts + [t])[..|texts|] == texts;
  }

  /** Without callback data every non-empty chunk is sent at once, as a text of its own, in order. */
  lemma {:induction false} PlainChunksAreSent(id: string, ops: seq<Op>)
    requires forall i | 0 <= i < |ops| :: ops[i].Chunk? && ops[i].id == id && !ops[i].hasCallback
    ensures LocalRun(FRESH, ops) == Local(None, None, TextsSent(id, TextsOf(ops)))
  {
    if ops == [] {
    } else {
      var init, op := ops[..|ops| - 1], ops[|ops| - 1];
      PlainChunksAreSent(id, init);
      assert op.Chunk? && op.id == id && !op.hasCallback;
      TextsSentSnoc(id, TextsOf(init), op.text);
      if op.text == "" {
        assert TextsOf(ops) == TextsOf(init) + [] == TextsOf(init);
      }
    }
  }

  // ---- one session after another --------------------------------------------------------------

  /** The chunks of one session, all with callback data or all without, and its finish. */
  datatype Session = Session(callback: bool, chunks: seq<Op>, failed: bool, finishOk: bool)

  ghost predicate IsSession(s: Session, id: string) {
    forall i | 0 <= i < |s.chunks| ::
      s.chunks[i].Chunk? && s.chunks[i].id == id && s.chunks[i].hasCallback == s.callback
  }

  function Calls(id: string, s: Session): seq<Op> { s.chunks + [Finish(id, s.failed, s.finishOk)] }

  function Says(id: string, s: Session): seq<Effect> {
    if s.callback then SessionEffects(id, s.chunks, s.failed, s.finishOk) else TextsSent(id, TextsOf(s.chunks))
  }

  function AllCalls(id: string, sessions: seq<Session>): seq<Op> {
    if sessions == [] then [] else AllCalls(id, sessions[..|sessions| - 1]) + Calls(id, sessions[|sessions| - 1])
  }

  function AllSays(id: string, sessions: seq<Session>): seq<Effect> {
    if sessions == [] then [] else AllSays(id, sessions[..|sessions| - 1]) + Says(id, sessions[|sessions| - 1])
  }

  lemma OneSessionSays(id: string, s: Session)
    requires IsSession(s, id)
    ensures LocalRun(FRESH, Calls(id, s)) == Local(None, None, Says(id, s))
  {
    if s.callback {
      SessionEnds(id, s.chunks, s.failed, s.finishOk);
    } else {
      PlainChunksAreSent(id, s.chunks);
      PrefixOfSnoc(s.chunks, Finish(id, s.failed, s.finishOk));
    }
  }

  /** The same values, with `earlier` already sent. */
  function Behind(earlier: seq<Effect>, l: Local): Local { l.(effects := earlier + l.effects) }

  lemma StepBehind(earlier: seq<Effect>, l: Local, op: Op)
    ensures LocalStep(Behind(earlier, l), op) == Behind(earlier, LocalStep(l, op))
  {
    var sent := LocalStep(l, op).effects;
    if sent != l.effects {
      Regroup(earlier, l.effects, [sent[|l.effects|]]);
    }
  }

  lemma {:induction false} RunBehind(earlier: seq<Effect>, ops: seq<Op>)
    ensures LocalRun(Behind(earlier, FRESH), ops) == Behind(earlier, LocalRun(FRESH, ops))
  {
    if ops == [] {
    } else {
      var init, op := ops[..|ops| - 1], ops[|ops| - 1];
      RunBehind(earlier, init);
      StepBehind(earlier, LocalRun(FRESH, init), op);
    }
  }

  lemma {:induction false} RunInTwo(l: Local, a: seq<Op>, b: seq<Op>)
    ensures LocalRun(l, a + b) == LocalRun(LocalRun(l, a), b)
    decreases |b|
  {
    if b == [] {
      NothingAppended(a);
    } else {
      var init, last := b[..|b| - 1], b[|b| - 1];
      RunInTwo(l, a, init);
      InitAndLast(b);
      Regroup(a, init, [last]);
      PrefixOfSnoc(a + init, last);
    }
  }

  /** After every finish an id starts afresh: what it sends in all is what its sessions send. */
  lemma {:induction false} SessionsEnd(id: string, sessions: seq<Session>)
    requires forall i | 0 <= i < |sessions| :: IsSession(sessions[i], id)
    ensures LocalRun(FRESH, AllCalls(id, sessions)) == Local(None, None, AllSays(id, sessions))
  {
    if sessions == [] {
    } else {
      var init, last := sessions[..|sessions| - 1], sessions[|sessions| - 1];
      var earlier := AllSays(id, init);
      SessionsEnd(id, init);
      RunInTwo(FRESH, AllCalls(id, init), Calls(id, last));
      NothingAppended(earlier);
      RunBehind(earlier, Calls(id, last));
      OneSessionSays(id, last);
    }
  }

  /** The same within any interleaving of calls for many ids, whichever of them fail. */
  lemma InterleavedSessionsEnd(ops: seq<Op>, id: string, sessions: seq<Session>)
    requires forall i | 0 <= i < |sessions| :: IsSession(sessions[i], id)
    requires OpsOf(ops, id) == AllCalls(id, sessions)
    ensures var s := Run(State(map[], map[], []), ops);
            id !in s.cards && id !in s.buffers && EffectsOf(s.trace, id) == AllSays(id, sessions)
  {
    IdsAreIndependent(State(map[], map[], []), ops, id);
    SessionsEnd(id, sessions);
  }
}
