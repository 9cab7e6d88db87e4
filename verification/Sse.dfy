/** Server-sent events (sections 9.2.5 and 9.2.6 of the HTML Living Standard): the printer of the web
    application and the line-by-line reader of the fault agents. */
module Sse {
  import opened Seqs
  import opened Options
  import opened Text
  import opened Search

  // ---- lines of a stream ----------------------------------------------------------------------

  /** What one `readline` takes: up to and with the first line feed, or everything that is left. */
  function LineLength(s: string): (n: nat)
    ensures n <= |s| && (s != [] ==> n > 0)
  {
    if s == [] then 0 else if s[0] == '\n' then 1 else 1 + LineLength(s[1..])
  }

  /** `line.rstrip("\r\n")`. */
  function TrimBreaks(s: string): (r: string)
    ensures |r| <= |s|
  {
    if s != [] && s[|s| - 1] in "\r\n" then TrimBreaks(s[..|s| - 1]) else s
  }

  function Lines(s: string): (lines: seq<string>)
    decreases |s|
  {
    if s == [] then [] else [TrimBreaks(s[..LineLength(s)])] + Lines(s[LineLength(s)..])
  }

  predicate SingleLine(s: string) {
    forall i | 0 <= i < |s| :: s[i] != '\n' && s[i] != '\r'
  }

  lemma {:induction false} LineOf(a: string, t: string)
    requires SingleLine(a)
    ensures LineLength(a + "\n" + t) == |a| + 1
  {
    if a == [] {
      assert (a + "\n" + t)[0] == '\n';
    } else {
      assert (a + "\n" + t)[1..] == a[1..] + "\n" + t;
      LineOf(a[1..], t);
    }
  }

  lemma {:induction false} LastLineOf(a: string)
    requires SingleLine(a)
    ensures LineLength(a) == |a| && TrimBreaks(a) == a
  {
    if a == [] {
    } else {
      LastLineOf(a[1..]);
    }
  }

  lemma LinesStep(a: string, t: string)
    requires SingleLine(a)
    ensures Lines(a + "\n" + t) == [a] + Lines(t)
  {
    var s := a + "\n" + t;
    LineOf(a, t);
    LastLineOf(a);
    assert s[..|a| + 1] == a + "\n" && (a + "\n")[..|a|] == a && s[|a| + 1..] == t;
  }

  // ---- what a stream says ---------------------------------------------------------------------

  predicate StartsWith(line: string, field: string) { |field| <= |line| && line[..|field|] == field }

  const EVENT := "event:"
  const DATA := "data:"

  datatype Message = Message(name: Option<string>, data: string)

  /** The name a block of lines gives its event: that of its last event line. */
  function NameOf(block: seq<string>): Option<string> {
    if block == [] then None
    else
      var line := block[|block| - 1];
      if StartsWith(line, EVENT) then Some(Strip(line[|EVENT|..])) else NameOf(block[..|block| - 1])
  }

  /** The data lines of a block, in order. */
  function DataOf(block: seq<string>): seq<string> {
    if block == [] then []
    else
      var line := block[|block| - 1];
      DataOf(block[..|block| - 1]) + (if StartsWith(line, DATA) then [LStrip(line[|DATA|..])] else [])
  }

  function FirstBlank(lines: seq<string>): (n: nat)
    ensures n <= |lines|
    ensures n < |lines| ==> lines[n] == []
  {
    if lines == [] || lines[0] == [] then 0 else 1 + FirstBlank(lines[1..])
  }

  /** The events of a stream: one for each block that is ended by a blank line and has data. */
  function Dispatched(lines: seq<string>): seq<Message>
    decreases |lines|
  {
    var n := FirstBlank(lines);
    if n == |lines| then []
    else
      var block := lines[..n];
      (if DataOf(block) == [] then [] else [Message(NameOf(block), JoinLines(DataOf(block)))])
      + Dispatched(lines[n + 1..])
  }

  predicate Wanted(name: Option<string>, wanted: Option<string>) { wanted == None || name == wanted }

  /** The data of the wanted events. */
  function Matching(messages: seq<Message>, wanted: Option<string>): seq<string> {
    if messages == [] then []
    else (if Wanted(messages[0].name, wanted) then [messages[0].data] else []) + Matching(messages[1..], wanted)
  }

  lemma {:induction false} MatchingAppend(a: seq<Message>, b: seq<Message>, wanted: Option<string>)
    ensures Matching(a + b, wanted) == Matching(a, wanted) + Matching(b, wanted)
  {
    if a == [] {
      assert a + b == b;
    } else {
      assert (a + b)[0] == a[0] && (a + b)[1..] == a[1..] + b;
      MatchingAppend(a[1..], b, wanted);
    }
  }

  ghost predicate NoBlank(lines: seq<string>) { forall i | 0 <= i < |lines| :: lines[i] != [] }

  lemma {:induction false} FirstBlankAt(block: seq<string>, rest: seq<string>)
    requires NoBlank(block)
    ensures FirstBlank(block) == |block| && FirstBlank(block + [[]] + rest) == |block|
  {
    if block == [] {
    } else {
      assert (block + [[]] + rest)[0] == block[0] && (block + [[]] + rest)[1..] == block[1..] + [[]] + rest;
      FirstBlankAt(block[1..], rest);
    }
  }

  lemma BlockThenRest(block: seq<string>, rest: seq<string>, wanted: Option<string>)
    requires NoBlank(block)
    ensures Matching(Dispatched(block + [[]] + rest), wanted)
         == (if DataOf(block) != [] && Wanted(NameOf(block), wanted) then [JoinLines(DataOf(block))] else [])
            + Matching(Dispatched(rest), wanted)
  {
    var lines := block + [[]] + rest;
    FirstBlankAt(block, rest);
    assert lines[..|block|] == block && lines[|block| + 1..] == rest;
    var message := Message(NameOf(block), JoinLines(DataOf(block)));
    var sent := if DataOf(block) == [] then [] else [message];
    assert Dispatched(lines) == sent + Dispatched(rest);
    MatchingAppend(sent, Dispatched(rest), wanted);
    assert [message][1..] == [];
    assert Matching([message], wanted) == if Wanted(message.name, wanted) then [message.data] else [];
  }

  lemma UnfinishedIsDropped(block: seq<string>)
    requires NoBlank(block)
    ensures Dispatched(block) == []
  {
    FirstBlankAt(block, []);
  }

  // ---- the reader -----------------------------------------------------------------------------

  datatype Reading = Closed | Event(data: string, rest: string)

  /** Reading on from `s`, with the lines of `block` already taken in. */
  function ReadFrom(s: string, wanted: Option<string>, block: seq<string>): (r: Reading)
    ensures r.Event? ==> |r.rest| < |s|
    decreases |s|
  {
    if s == [] then Closed
    else
      var line := TrimBreaks(s[..LineLength(s)]);
      var rest := s[LineLength(s)..];
      if line != [] then ReadFrom(rest, wanted, block + [line])
      else if DataOf(block) != [] && Wanted(NameOf(block), wanted) then Event(JoinLines(DataOf(block)), rest)
      else ReadFrom(rest, wanted, [])
  }

  /** What one more line does to the name and the data of a block; a comment does nothing. */
  lemma TakeLine(block: seq<string>, line: string)
    requires line != []
    ensures NameOf(block + [line]) == if StartsWith(line, EVENT) then Some(Strip(line[|EVENT|..])) else NameOf(block)
    ensures DataOf(block + [line]) == DataOf(block) + if StartsWith(line, DATA) then [LStrip(line[|DATA|..])] else []
    ensures StartsWith(line, EVENT) ==> line[0] == 'e' && !StartsWith(line, DATA)
    ensures StartsWith(line, DATA) ==> line[0] == 'd'
  {
    assert (block + [line])[..|block|] == block;
    assert StartsWith(line, EVENT) ==> line[0] == line[..|EVENT|][0] == 'e';
    assert StartsWith(line, DATA) ==> line[0] == line[..|DATA|][0] == 'd';
  }

  /** A response whose text is consumed by `readline`. */
  class Response {
    var unread: string

    constructor (text: string)
      ensures unread == text
    {
      unread := text;
    }

    method ReadLine() returns (line: string)
      modifies this
      ensures line == old(unread)[..LineLength(old(unread))]
      ensures unread == old(unread)[LineLength(old(unread))..]
    {
      var n := 0;
      while n < |unread| && (n == 0 || unread[n - 1] != '\n')
        invariant n <= LineLength(unread)
        invariant LineLength(unread) == n + (if n > 0 && unread[n - 1] == '\n' then 0 else LineLength(unread[n..]))
      {
        assert unread[n..][0] == unread[n] && unread[n..][1..] == unread[n + 1..];
        n := n + 1;
      }
      line := unread[..n];
      unread := unread[n..];
    }

    /** `_read_sse_event_data`: the data of the next wanted event, empty when the stream ends first. */
    method ReadEventData(wanted: Option<string>) returns (data: string)
      modifies this
      ensures ReadFrom(old(unread), wanted, []).Closed? ==> data == [] && unread == []
      ensures ReadFrom(old(unread), wanted, []).Event? ==> ReadFrom(old(unread), wanted, []) == Event(data, unread)
    {
      var currentEvent: Option<string> := None;
      var dataLines: seq<string> := [];
      ghost var block: seq<string> := [];
      while true
        invariant currentEvent == NameOf(block) && dataLines == DataOf(block)
        invariant ReadFrom(old(unread), wanted, []) == ReadFrom(unread, wanted, block)
        decreases |unread|
      {
        var raw := ReadLine();
        if raw == [] {
          break;
        }
        var line := TrimBreaks(raw);
        if line == [] {
          if dataLines != [] && (wanted == None || currentEvent == wanted) {
            data := JoinLines(dataLines);
            return;
          }
          currentEvent := None;
          dataLines := [];
          block := [];
          continue;
        }
        TakeLine(block, line);
        block := block + [line];
        if line[0] == ':' {
          continue;
        }
        if StartsWith(line, EVENT) {
          currentEvent := Some(Strip(line[|EVENT|..]));
          continue;
        }
        if StartsWith(line, DATA) {
          dataLines := dataLines + [LStrip(line[|DATA|..])];
          continue;
        }
      }
      data := [];
    }
  }

  /** All readings of a stream until it is found closed. */
  function Drain(s: string, wanted: Option<string>): seq<string>
    decreases |s|
  {
    match ReadFrom(s, wanted, [])
    case Closed => []
    case Event(data, rest) => [data] + Drain(rest, wanted)
  }

  lemma {:induction false} ReadIsNextMatching(s: string, wanted: Option<string>, block: seq<string>)
    requires NoBlank(block)
    ensures ReadFrom(s, wanted, block).Closed? ==> Matching(Dispatched(block + Lines(s)), wanted) == []
    ensures ReadFrom(s, wanted, block).Event? ==>
              Matching(Dispatched(block + Lines(s)), wanted)
              == [ReadFrom(s, wanted, block).data]
                 + Matching(Dispatched(Lines(ReadFrom(s, wanted, block).rest)), wanted)
    decreases |s|
  {
    if s == [] {
      assert block + Lines(s) == block;
      UnfinishedIsDropped(block);
    } else {
      var line := TrimBreaks(s[..LineLength(s)]);
      var rest := s[LineLength(s)..];
      if line != [] {
        assert block + Lines(s) == block + [line] + Lines(rest);
        ReadIsNextMatching(rest, wanted, block + [line]);
      } else {
        assert block + Lines(s) == block + [[]] + Lines(rest);
        BlockThenRest(block, Lines(rest), wanted);
        ReadIsNextMatching(rest, wanted, []);
        assert [] + Lines(rest) == Lines(rest);
      }
    }
  }

  /** The state machine of the reader finds exactly the wanted events of the stream, in order. */
  lemma {:induction false} DrainIsMatching(s: string, wanted: Option<string>)
    ensures Drain(s, wanted) == Matching(Dispatched(Lines(s)), wanted)
    decreases |s|
  {
    ReadIsNextMatching(s, wanted, []);
    assert [] + Lines(s) == Lines(s);
    var reading := ReadFrom(s, wanted, []);
    if reading.Event? {
      DrainIsMatching(reading.rest, wanted);
    }
  }

  // ---- the printer ----------------------------------------------------------------------------

  datatype Named = Named(name: string, data: string)

  function EventLine(event: Named): string { "event: " + event.name }

  function DataLine(event: Named): string { "data: " + event.data }

  function FormatSse(event: Named): string {
    EventLine(event) + "\n" + (DataLine(event) + "\n") + "\n"
  }

  function PrintAll(events: seq<Named>): string {
    if events == [] then [] else FormatSse(events[0]) + PrintAll(events[1..])
  }

  ghost predicate Printable(events: seq<Named>) {
    forall i | 0 <= i < |events| :: SingleLine(events[i].name) && SingleLine(events[i].data)
  }

  /** What a listener for `name` should hear. */
  function Heard(events: seq<Named>, name: string): seq<string> {
    if events == [] then []
    else (if Strip(events[0].name) == name then [LStrip(events[0].data)] else []) + Heard(events[1..], name)
  }

  lemma {:induction false} LeadingSpaceIsStripped(s: string)
    ensures Strip([' '] + s) == Strip(s)
  {
    var t := [' '] + s;
    if s == [] {
      assert t[..0] == [];
    } else if IsSpace(s[|s| - 1]) {
      assert t[..|t| - 1] == [' '] + s[..|s| - 1];
      LeadingSpaceIsStripped(s[..|s| - 1]);
    } else {
      assert t[|t| - 1] == s[|s| - 1] && t[1..] == s;
    }
  }

  lemma EventBlock(event: Named)
    ensures NoBlank([EventLine(event), DataLine(event)])
    ensures NameOf([EventLine(event), DataLine(event)]) == Some(Strip(event.name))
    ensures DataOf([EventLine(event), DataLine(event)]) == [LStrip(event.data)]
  {
    var first, second := EventLine(event), DataLine(event);
    assert first[..6] == EVENT && first[6..] == [' '] + event.name;
    LeadingSpaceIsStripped(event.name);
    assert second[..5] == DATA && second[5..] == [' '] + event.data && second[5..][1..] == event.data;
    assert second[0] == 'd' && first[0] == 'e';
    assert !StartsWith(second, EVENT) && !StartsWith(first, DATA) by {
      assert first[..5][0] == 'e' && (|second| >= 6 ==> second[..6][0] == 'd');
    }
    var block := [first, second];
    assert block[..1] == [first] && [first][..0] == [];
    assert NameOf([first]) == Some(Strip(event.name)) && DataOf([first]) == [];
  }

  lemma PrintedIsSingleLine(event: Named)
    requires SingleLine(event.name) && SingleLine(event.data)
    ensures SingleLine(EventLine(event)) && SingleLine(DataLine(event))
  {
  }

  lemma TwoLines(a: string, b: string, t: string)
    requires SingleLine(a) && SingleLine(b)
    ensures Lines(a + "\n" + (b + "\n") + "\n" + t) == [a, b] + [[]] + Lines(t)
  {
    var afterB := [] + "\n" + t;
    var afterA := b + "\n" + afterB;
    RegroupLines(a, b, t);
    LinesStep(a, afterA);
    LinesStep(b, afterB);
    LinesStep([], t);
  }

  lemma RegroupLines(a: string, b: string, t: string)
    ensures a + "\n" + (b + "\n") + "\n" + t == a + "\n" + (b + "\n" + ([] + "\n" + t))
  {
  }

  lemma PrintedLines(event: Named, t: string)
    requires SingleLine(event.name) && SingleLine(event.data)
    ensures Lines(FormatSse(event) + t) == [EventLine(event), DataLine(event)] + [[]] + Lines(t)
  {
    PrintedIsSingleLine(event);
    TwoLines(EventLine(event), DataLine(event), t);
  }

  lemma OnePrinted(event: Named, t: string, name: string)
    requires SingleLine(event.name) && SingleLine(event.data)
    ensures Drain(FormatSse(event) + t, Some(name))
         == (if Strip(event.name) == name then [LStrip(event.data)] else []) + Drain(t, Some(name))
  {
    DrainIsMatching(FormatSse(event) + t, Some(name));
    DrainIsMatching(t, Some(name));
    PrintedLines(event, t);
    EventBlock(event);
    BlockThenRest([EventLine(event), DataLine(event)], Lines(t), Some(name));
  }

  /** Whatever follows printed events, the listener first hears exactly those of its name. */
  lemma {:induction false} PrintedAreHeard(events: seq<Named>, t: string, name: string)
    requires Printable(events)
    ensures Drain(PrintAll(events) + t, Some(name)) == Heard(events, name) + Drain(t, Some(name))
  {
    if events == [] {
      assert PrintAll(events) + t == t;
    } else {
      var rest := PrintAll(events[1..]) + t;
      assert PrintAll(events) + t == FormatSse(events[0]) + rest;
      OnePrinted(events[0], rest, name);
      PrintedAreHeard(events[1..], t, name);
      var first := if Strip(events[0].name) == name then [LStrip(events[0].data)] else [];
      Regroup(first, Heard(events[1..], name), Drain(t, Some(name)));
    }
  }

  /** A listener that names no event hears them all. */
  function AllData(events: seq<Named>): seq<string> {
    if events == [] then [] else [LStrip(events[0].data)] + AllData(events[1..])
  }

  lemma {:induction false} AllAreHeard(events: seq<Named>, t: string)
    requires Printable(events)
    ensures Drain(PrintAll(events) + t, None) == AllData(events) + Drain(t, None)
  {
    if events == [] {
      assert PrintAll(events) + t == t;
    } else {
      var rest := PrintAll(events[1..]) + t;
      assert PrintAll(events) + t == FormatSse(events[0]) + rest;
      DrainIsMatching(FormatSse(events[0]) + rest, None);
      DrainIsMatching(rest, None);
      PrintedLines(events[0], rest);
      EventBlock(events[0]);
      BlockThenRest([EventLine(events[0]), DataLine(events[0])], Lines(rest), None);
      AllAreHeard(events[1..], t);
      Regroup([LStrip(events[0].data)], AllData(events[1..]), Drain(t, None));
    }
  }

  // ---- carriage returns -----------------------------------------------------------------------

  lemma {:induction false} LineWithReturn(a: string, t: string)
    requires SingleLine(a)
    ensures LineLength(a + "\r\n" + t) == |a| + 2
  {
    var s := a + "\r\n" + t;
    if a == [] {
      assert s[0] == '\r' && s[1..][0] == '\n';
    } else {
      assert s[1..] == a[1..] + "\r\n" + t;
      LineWithReturn(a[1..], t);
    }
  }

  lemma ReturnStep(a: string, t: string)
    requires SingleLine(a)
    ensures Lines(a + "\r\n" + t) == [a] + Lines(t)
  {
    var s := a + "\r\n" + t;
    LineWithReturn(a, t);
    LastLineOf(a);
    assert s[..|a| + 2] == a + "\r\n" && s[|a| + 2..] == t;
    assert (a + "\r\n")[..|a| + 1] == a + "\r" && (a + "\r")[..|a|] == a;
    assert TrimBreaks(a + "\r\n") == TrimBreaks(a + "\r") == TrimBreaks(a);
  }

  lemma TwoLinesWithReturn(a: string, b: string, t: string)
    requires SingleLine(a) && SingleLine(b)
    ensures Lines(a + "\r\n" + (b + "\r\n" + ([] + "\r\n" + t))) == [a, b] + [[]] + Lines(t)
  {
    var lastLine := [] + "\r\n" + t;
    ReturnStep([], t);
    ReturnStep(b, lastLine);
    ReturnStep(a, b + "\r\n" + lastLine);
    assert [a] + ([b] + ([[]] + Lines(t))) == [a, b] + [[]] + Lines(t);
  }

  /** An event whose lines end with "\r\n" is heard like the one printed. */
  lemma ReturnsAreIgnored(event: Named, t: string, wanted: Option<string>)
    requires SingleLine(event.name) && SingleLine(event.data)
    ensures Drain(EventLine(event) + "\r\n" + (DataLine(event) + "\r\n" + ([] + "\r\n" + t)), wanted)
         == Drain(FormatSse(event) + t, wanted)
  {
    PrintedIsSingleLine(event);
    PrintedLines(event, t);
    TwoLinesWithReturn(EventLine(event), DataLine(event), t);
    DrainIsMatching(EventLine(event) + "\r\n" + (DataLine(event) + "\r\n" + ([] + "\r\n" + t)), wanted);
    DrainIsMatching(FormatSse(event) + t, wanted);
  }

  // ---- cut off streams ------------------------------------------------------------------------

  ghost predicate IsPrefix(p: string, s: string) { |p| <= |s| && s[..|p|] == p }

  lemma CutLine(b: string, q: string)
    requires SingleLine(b) && b != [] && IsPrefix(q, b + "\n")
    ensures NoBlank(Lines(q))
  {
    if |q| <= |b| {
      assert q == b[..|q|];
      LoneLine(q);
    } else {
      assert q == b + "\n" + [];
      LinesStep(b, []);
    }
  }

  lemma CutLinesHaveNoBlank(a: string, b: string, p: string)
    requires SingleLine(a) && SingleLine(b) && a != [] && b != []
    requires IsPrefix(p, a + "\n" + (b + "\n"))
    ensures NoBlank(Lines(p))
  {
    var whole := a + "\n" + (b + "\n");
    if |p| <= |a| {
      assert p == whole[..|p|] == a[..|p|];
      LoneLine(p);
    } else {
      var q := p[|a| + 1..];
      assert q == whole[..|p|][|a| + 1..] == (b + "\n")[..|q|];
      assert p == a + "\n" + q;
      LinesStep(a, q);
      CutLine(b, q);
    }
  }

  lemma ShorterPrefix(p: string, start: string, end: string)
    requires IsPrefix(p, start + end) && |p| <= |start|
    ensures IsPrefix(p, start)
  {
    assert p == (start + end)[..|p|] == start[..|p|];
  }

  /** The lines of a cut-off event are never blank, so nothing ends its block. */
  lemma CutEventHasNoBlank(event: Named, p: string)
    requires SingleLine(event.name) && SingleLine(event.data)
    requires IsPrefix(p, FormatSse(event)) && |p| < |FormatSse(event)|
    ensures NoBlank(Lines(p))
  {
    PrintedIsSingleLine(event);
    assert EventLine(event)[0] == 'e' && DataLine(event)[0] == 'd';
    ShorterPrefix(p, EventLine(event) + "\n" + (DataLine(event) + "\n"), "\n");
    CutLinesHaveNoBlank(EventLine(event), DataLine(event), p);
  }

  lemma LoneLine(a: string)
    requires SingleLine(a)
    ensures NoBlank(Lines(a))
  {
    LastLineOf(a);
    if a != [] {
      assert a[..|a|] == a && a[|a|..] == [];
      assert Lines([]) == [];
    }
  }

  /** The round trip: reading again and again with one event name yields the data of the events of
      that name, in order; an event that is cut off anywhere before its end is dropped. */
  lemma RoundTrip(events: seq<Named>, last: Named, p: string, name: string)
    requires Printable(events) && SingleLine(last.name) && SingleLine(last.data)
    requires IsPrefix(p, FormatSse(last)) && |p| < |FormatSse(last)|
    ensures Drain(PrintAll(events) + p, Some(name)) == Heard(events, name)
  {
    PrintedAreHeard(events, p, name);
    CutEventHasNoBlank(last, p);
    UnfinishedIsDropped(Lines(p));
    DrainIsMatching(p, Some(name));
  }

  ghost predicate AllUnindented(events: seq<Named>, name: string) {
    forall i | 0 <= i < |events| && Strip(events[i].name) == name :: Unindented(events[i].data)
  }

  lemma AllUnindentedStep(events: seq<Named>, name: string)
    requires events != []
    ensures AllUnindented(events, name)
       <==> (Strip(events[0].name) == name ==> Unindented(events[0].data)) && AllUnindented(events[1..], name)
  {
    var rest := events[1..];
    assert forall i | 1 <= i < |events| :: events[i] == rest[i - 1];
    assert forall i | 0 <= i < |rest| :: rest[i] == events[i + 1];
  }

  /** The data heard are the very texts printed exactly when these begin with no white space, as
      JSON objects never do. */
  lemma {:induction false} HeardExactlyIff(events: seq<Named>, name: string)
    ensures Heard(events, name) == Said(events, name) <==> AllUnindented(events, name)
  {
    if events == [] {
    } else {
      var rest := events[1..];
      HeardExactlyIff(rest, name);
      AllUnindentedStep(events, name);
      LStripFixes(events[0].data);
      var heard, said := Heard(events, name), Said(events, name);
      if Strip(events[0].name) == name {
        assert heard[0] == LStrip(events[0].data) && heard[1..] == Heard(rest, name);
        assert said[0] == events[0].data && said[1..] == Said(rest, name);
      } else {
        assert heard == Heard(rest, name) && said == Said(rest, name);
      }
    }
  }

  predicate Unindented(s: string) { s == [] || !IsSpace(s[0]) }

  lemma LStripFixes(s: string)
    ensures LStrip(s) == s <==> Unindented(s)
  {
  }

  function Said(events: seq<Named>, name: string): seq<string> {
    if events == [] then []
    else (if Strip(events[0].name) == name then [events[0].data] else []) + Said(events[1..], name)
  }

  // ---- the JSON-RPC reader --------------------------------------------------------------------

  /** What `json.loads` makes of a text: an error, something that is no object, or an object and its id. */
  datatype Parsed = Malformed | NotAnObject | Object(id: Option<int>)

  datatype Rpc = Found(data: string) | BadJson | StreamClosed

  const MESSAGE: Option<string> := Some("message")

  predicate Skipped(data: string, id: int, parse: string -> Parsed) {
    && data != []
    && (parse(data).NotAnObject? || (parse(data).Object? && parse(data).id != Some(id)))
  }

  ghost predicate DecidedAt(messages: seq<string>, k: nat, id: int, parse: string -> Parsed, answer: Rpc) {
    && k <= |messages|
    && (forall i | 0 <= i < k :: Skipped(messages[i], id, parse))
    && if k == |messages| then answer == StreamClosed
       else
         && !Skipped(messages[k], id, parse)
         && answer == if messages[k] == [] then StreamClosed
                      else if parse(messages[k]).Malformed? then BadJson
                      else Found(messages[k])
  }

  /** `answer` is decided by the first message that is not skipped. */
  ghost predicate Answers(messages: seq<string>, id: int, parse: string -> Parsed, answer: Rpc) {
    exists k: nat :: DecidedAt(messages, k, id, parse, answer)
  }

  /** The messages decide one answer only, and a message found is the first with the wanted id. */
  lemma FoundIsFirstMatch(messages: seq<string>, id: int, parse: string -> Parsed, data: string)
    requires Answers(messages, id, parse, Found(data))
    ensures forall other :: Answers(messages, id, parse, other) ==> other == Found(data)
    ensures parse(data) == Object(Some(id))
    ensures exists k | 0 <= k < |messages| :: messages[k] == data
              && forall i | 0 <= i < k :: parse(messages[i]) != Object(Some(id)) && !parse(messages[i]).Malformed?
  {
  }

  /** What a listener for "message" hears of these events is passed over. */
  ghost predicate AllSkipped(events: seq<Named>, id: int, parse: string -> Parsed) {
    forall i | 0 <= i < |events| && Strip(events[i].name) == "message" ::
      Skipped(LStrip(events[i].data), id, parse)
  }

  lemma {:induction false} HeardAreSkipped(events: seq<Named>, id: int, parse: string -> Parsed)
    requires AllSkipped(events, id, parse)
    ensures forall data | data in Heard(events, "message") :: Skipped(data, id, parse)
  {
    if events == [] {
    } else {
      forall i | 0 <= i < |events[1..]| ensures events[1..][i] == events[i + 1] {}
      HeardAreSkipped(events[1..], id, parse);
    }
  }

  lemma MessageIsHeard(before: seq<Named>, event: Named, t: string)
    requires Printable(before) && SingleLine(event.name) && SingleLine(event.data) && Strip(event.name) == "message"
    ensures Drain(PrintAll(before) + (FormatSse(event) + t), Some("message"))
         == Heard(before, "message") + ([LStrip(event.data)] + Drain(t, Some("message")))
  {
    PrintedAreHeard(before, FormatSse(event) + t, "message");
    OnePrinted(event, t, "message");
  }

  /** A printed "message" event with the wanted id is the answer, when all "message" events printed before it
      hold other objects or no objects; events of other names, and whatever follows, play no part. */
  lemma PrintedAnswerIsFound(before: seq<Named>, event: Named, t: string, id: int, parse: string -> Parsed,
                             answer: Rpc)
    requires Printable(before) && SingleLine(event.name) && SingleLine(event.data)
    requires AllSkipped(before, id, parse)
    requires Strip(event.name) == "message" && parse(LStrip(event.data)) == Object(Some(id)) && LStrip(event.data) != []
    requires Answers(Drain(PrintAll(before) + (FormatSse(event) + t), MESSAGE), id, parse, answer)
    ensures answer == Found(LStrip(event.data))
  {
    var messages := Drain(PrintAll(before) + (FormatSse(event) + t), MESSAGE);
    var heard := Heard(before, "message");
    MessageIsHeard(before, event, t);
    HeardAreSkipped(before, id, parse);
    forall i | 0 <= i < |heard| ensures messages[i] == heard[i] && heard[i] in heard {}
    assert messages[|heard|] == LStrip(event.data);
    assert DecidedAt(messages, |heard|, id, parse, Found(LStrip(event.data)));
    FoundIsFirstMatch(messages, id, parse, LStrip(event.data));
  }

  /** `_read_jsonrpc_response_from_sse` on an open stream: it ends on every stream, with the first
      message of the wanted id, or with the first thing that makes the program raise. */
  method ReadJsonRpcResponse(response: Response, id: int, parse: string -> Parsed) returns (answer: Rpc)
    modifies response
    ensures Answers(Drain(old(response.unread), MESSAGE), id, parse, answer)
  {
    ghost var skipped := 0;
    ghost var messages := Drain(response.unread, MESSAGE);
    while true
      invariant skipped <= |messages| && messages[skipped..] == Drain(response.unread, MESSAGE)
      invariant forall i | 0 <= i < skipped :: Skipped(messages[i], id, parse)
      decreases |response.unread|
    {
      var data := response.ReadEventData(MESSAGE);
      if data == [] {
        answer := StreamClosed;
        assert skipped < |messages| ==> messages[skipped] == messages[skipped..][0];
        assert DecidedAt(messages, skipped, id, parse, answer);
        return;
      }
      assert messages[skipped] == messages[skipped..][0];
      var parsed := parse(data);
      if parsed.Malformed? {
        answer := BadJson;
        assert DecidedAt(messages, skipped, id, parse, answer);
        return;
      }
      if parsed.Object? && parsed.id == Some(id) {
        answer := Found(data);
        assert DecidedAt(messages, skipped, id, parse, answer);
        return;
      }
      assert messages[skipped + 1..] == messages[skipped..][1..];
      skipped := skipped + 1;
    }
  }
}
