/** Fenced SQL blocks: the fence grows until it does not occur in the SQL, so that reading the block
    by section 4.5 of CommonMark 0.31 gives back exactly the stripped SQL. */
module Fence {
  import opened Seqs
  import opened Options
  import opened Text
  import opened Search

  // ---- growing the fence ----------------------------------------------------------------------

  function Ticks(n: nat): (s: string)
    ensures |s| == n
  {
    seq(n, _ => '`')
  }

  function LeadingRun(s: string): (n: nat)
    ensures n <= |s| && s[..n] == Ticks(n) && (n < |s| ==> s[n] != '`')
  {
    if s != [] && s[0] == '`' then 1 + LeadingRun(s[1..]) else 0
  }

  function LongestRun(s: string): nat {
    if s == [] then 0
    else if LeadingRun(s) >= LongestRun(s[1..]) then LeadingRun(s) else LongestRun(s[1..])
  }

  lemma LeadingRunIff(s: string, n: nat)
    ensures At(s, Ticks(n), 0) <==> LeadingRun(s) >= n
  {
    var run := LeadingRun(s);
    if run >= n {
      assert s[..n] == s[..run][..n] == Ticks(n);
    } else if n <= |s| {
      assert s[..n][run] == s[run];
    }
  }

  lemma {:induction false} ContainsTicksIff(s: string, n: nat)
    requires n > 0
    ensures Contains(s, Ticks(n)) <==> LongestRun(s) >= n
  {
    LeadingRunIff(s, n);
    if s == [] {
    } else {
      ContainsTicksIff(s[1..], n);
      if Contains(s, Ticks(n)) {
        var i :| 0 <= i <= |s| && At(s, Ticks(n), i);
        if i > 0 {
          AtInSlice(s, Ticks(n), i, 1, |s|);
          assert s[1..] == s[1..|s|];
        }
      }
      if Contains(s[1..], Ticks(n)) {
        ContainsWithin([s[0]], s[1..], [], Ticks(n));
        assert s == [s[0]] + s[1..] + [];
      }
    }
  }

  function FenceLength(value: string): nat {
    if LongestRun(value) < 3 then 3 else LongestRun(value) + 1
  }

  /** The fence is the shortest run of at least three backticks that is not in the text. */
  lemma FenceIsShortest(value: string, n: nat)
    requires n >= 3
    ensures !Contains(value, Ticks(n)) <==> n >= FenceLength(value)
  {
    ContainsTicksIff(value, n);
  }

  function Fenced(value: string, n: nat): string {
    Ticks(n) + "sql\n" + Strip(value) + "\n" + Ticks(n)
  }

  function CodeBlock(value: string): string { Fenced(value, FenceLength(value)) }

  /** `_sql_code_block`. */
  method SqlCodeBlock(value: string) returns (block: string)
    ensures block == CodeBlock(value)
  {
    var fence := "```";
    assert fence == Ticks(3);
    while Contains(value, fence)
      invariant 3 <= |fence| <= FenceLength(value) && fence == Ticks(|fence|)
      decreases FenceLength(value) - |fence|
    {
      FenceIsShortest(value, |fence|);
      assert fence + "`" == Ticks(|fence| + 1);
      fence := fence + "`";
    }
    FenceIsShortest(value, |fence|);
    block := fence + "sql\n" + Strip(value) + "\n" + fence;
  }

  // ---- reading a fenced block -----------------------------------------------------------------

  /** The length of the first line with its ending: a line feed, a carriage return, or both. */
  function LineLength(s: string): (n: nat)
    requires s != []
    ensures 1 <= n <= |s|
  {
    if s[0] == '\n' || |s| == 1 then 1
    else if s[0] == '\r' then if s[1] == '\n' then 2 else 1
    else 1 + LineLength(s[1..])
  }

  function LeadingSpaces(s: string): (n: nat)
    ensures n <= |s|
  {
    if s != [] && s[0] == ' ' then 1 + LeadingSpaces(s[1..]) else 0
  }

  predicate OnlyTrailing(s: string) { forall i | 0 <= i < |s| :: s[i] in " \t\r\n" }

  /** A closing fence for an opening one of `n` backticks: at most three spaces of indentation, at
      least `n` backticks, and nothing but spaces and tabs behind them. */
  predicate Closes(line: string, n: nat) {
    var indented := line[LeadingSpaces(line)..];
    LeadingSpaces(line) <= 3 && LeadingRun(indented) >= n && OnlyTrailing(indented[LeadingRun(indented)..])
  }

  datatype Content = Content(text: string, rest: string)

  /** The lines up to the closing fence, or to the end when there is none, and what follows it. */
  function ReadContent(s: string, n: nat): (c: Content)
    ensures |c.text| <= |s|
    decreases |s|
  {
    if s == [] then Content([], [])
    else
      var line, after := s[..LineLength(s)], s[LineLength(s)..];
      if Closes(line, n) then Content([], after)
      else var c := ReadContent(after, n); Content(line + c.text, c.rest)
  }

  datatype Block = Block(info: string, text: string, rest: string)

  /** A backtick fence that starts at the first column. */
  function ReadBlock(s: string): Option<Block> {
    if s == [] then None
    else
      var line := s[..LineLength(s)];
      var n := LeadingRun(line);
      if n < 3 || '`' in line[n..] then None
      else
        var c := ReadContent(s[LineLength(s)..], n);
        Some(Block(Strip(line[n..]), c.text, c.rest))
  }

  // ---- reading what was printed ---------------------------------------------------------------

  ghost predicate Plain(s: string) { forall i | 0 <= i < |s| :: s[i] != '\n' && s[i] != '\r' }

  /** Nothing, or a text whose last line is ended by a line feed. */
  predicate WholeLines(s: string) { s == [] || s[|s| - 1] == '\n' }

  /** The document goes on behind a fence with a new line, or it ends there. */
  predicate EndsLine(tail: string) { tail == [] || tail[0] in "\r\n" }

  function BehindLine(tail: string): string {
    if tail == [] then [] else tail[LineLength(tail)..]
  }

  lemma {:induction false} LineLengthOf(a: string, tail: string)
    requires Plain(a) && EndsLine(tail) && a + tail != []
    ensures LineLength(a + tail) == |a| + |tail| - |BehindLine(tail)|
  {
    if a == [] {
      assert a + tail == tail;
    } else if a + tail != [a[0]] {
      assert (a + tail)[1..] == a[1..] + tail;
      LineLengthOf(a[1..], tail);
    }
  }

  lemma {:induction false} LineLengthWithin(w: string, more: string)
    requires w != [] && WholeLines(w)
    ensures LineLength(w + more) == LineLength(w) && WholeLines(w[LineLength(w)..])
  {
    var s := w + more;
    if w[0] != '\n' && w[0] != '\r' {
      assert s[1..] == w[1..] + more;
      LineLengthWithin(w[1..], more);
    }
  }

  function Rows(s: string): seq<string>
    decreases |s|
  {
    if s == [] then [] else [s[..LineLength(s)]] + Rows(s[LineLength(s)..])
  }

  ghost predicate NoneCloses(rows: seq<string>, n: nat) { forall i | 0 <= i < |rows| :: !Closes(rows[i], n) }

  /** No line of `s` is a closing fence. */
  ghost predicate NoCloser(s: string, n: nat) { NoneCloses(Rows(s), n) }

  lemma NoneClosesCons(row: string, rows: seq<string>, n: nat)
    ensures NoneCloses([row] + rows, n) <==> !Closes(row, n) && NoneCloses(rows, n)
  {
    var all := [row] + rows;
    assert all[0] == row;
    assert forall i | 0 <= i < |rows| :: all[i + 1] == rows[i];
    assert forall i | 1 <= i < |all| :: all[i] == rows[i - 1];
    if NoneCloses(all, n) {
      forall i | 0 <= i < |rows| ensures !Closes(rows[i], n) {
        assert !Closes(all[i + 1], n);
      }
    }
  }

  lemma NoCloserStep(w: string, n: nat)
    requires w != []
    ensures NoCloser(w, n) <==> !Closes(w[..LineLength(w)], n) && NoCloser(w[LineLength(w)..], n)
  {
    NoneClosesCons(w[..LineLength(w)], Rows(w[LineLength(w)..]), n);
  }

  lemma {:induction false} LeadingRunOf(n: nat, tail: string)
    requires tail == [] || tail[0] != '`'
    ensures LeadingRun(Ticks(n) + tail) == n
  {
    var s := Ticks(n) + tail;
    if n == 0 {
    } else {
      assert s[1..] == Ticks(n - 1) + tail;
      LeadingRunOf(n - 1, tail);
    }
  }

  lemma ClosingFence(n: nat, tail: string)
    requires n >= 3 && EndsLine(tail)
    ensures ReadContent(Ticks(n) + tail, n) == Content([], BehindLine(tail))
  {
    var s := Ticks(n) + tail;
    LineLengthOf(Ticks(n), tail);
    var ending := tail[..|tail| - |BehindLine(tail)|];
    assert s[..LineLength(s)] == Ticks(n) + ending;
    assert s[LineLength(s)..] == BehindLine(tail);
    assert (Ticks(n) + ending)[0] == '`';
    LeadingRunOf(n, ending);
    assert (Ticks(n) + ending)[n..] == ending;
    EndingIsTrailing(tail);
  }

  lemma EndingIsTrailing(tail: string)
    requires EndsLine(tail)
    ensures OnlyTrailing(tail[..|tail| - |BehindLine(tail)|])
  {
  }

  lemma ContentStep(w: string, n: nat, fence: string, tail: string)
    requires w != [] && WholeLines(w)
    ensures WholeLines(w[LineLength(w)..])
    ensures ReadContent(w + fence + tail, n)
         == if Closes(w[..LineLength(w)], n) then Content([], w[LineLength(w)..] + fence + tail)
            else
              var c := ReadContent(w[LineLength(w)..] + fence + tail, n);
              Content(w[..LineLength(w)] + c.text, c.rest)
  {
    var s := w + fence + tail;
    assert s == w + (fence + tail);
    LineLengthWithin(w, fence + tail);
    var k := LineLength(w);
    assert s[..k] == w[..k] && s[k..] == w[k..] + fence + tail;
  }

  /** Content is read back whole exactly when none of its lines closes the block. */
  lemma {:induction false} ContentIsExactIff(w: string, n: nat, tail: string)
    requires n >= 3 && WholeLines(w) && EndsLine(tail)
    ensures NoCloser(w, n) ==> ReadContent(w + Ticks(n) + tail, n) == Content(w, BehindLine(tail))
    ensures !NoCloser(w, n) ==> |ReadContent(w + Ticks(n) + tail, n).text| < |w|
    decreases |w|
  {
    if w == [] {
      assert w + Ticks(n) + tail == Ticks(n) + tail;
      ClosingFence(n, tail);
    } else {
      var k := LineLength(w);
      ContentStep(w, n, Ticks(n), tail);
      NoCloserStep(w, n);
      ContentIsExactIff(w[k..], n, tail);
      SplitAt(w, k);
    }
  }

  lemma CloserHasFence(line: string, n: nat)
    requires n > 0 && Closes(line, n)
    ensures Contains(line, Ticks(n))
  {
    var i := LeadingSpaces(line);
    LeadingRunIff(line[i..], n);
    ContainsWithin(line[..i], line[i..], [], Ticks(n));
    assert line == line[..i] + line[i..] + [];
  }

  lemma {:induction false} FenceFreeHasNoCloser(w: string, n: nat)
    requires n > 0 && !Contains(w, Ticks(n))
    ensures NoCloser(w, n)
    decreases |w|
  {
    if w == [] {
    } else {
      var k := LineLength(w);
      NoCloserStep(w, n);
      assert w == w[..k] + w[k..];
      if Closes(w[..k], n) {
        CloserHasFence(w[..k], n);
        assert [] + w[..k] + w[k..] == w;
        ContainsWithin([], w[..k], w[k..], Ticks(n));
      } else if Contains(w[k..], Ticks(n)) {
        assert w[..k] + w[k..] + [] == w;
        ContainsWithin(w[..k], w[k..], [], Ticks(n));
      } else {
        FenceFreeHasNoCloser(w[k..], n);
      }
    }
  }

  lemma FirstLineIs(a: string, more: string)
    requires Plain(a)
    ensures var s := a + "\n" + more; var k := LineLength(s); s[..k] == a + "\n" && s[k..] == more
  {
    var s := a + "\n" + more;
    assert s == a + ("\n" + more);
    LineLengthOf(a, "\n" + more);
    assert BehindLine("\n" + more) == more;
  }

  lemma InfoLine(n: nat)
    ensures LeadingRun(Ticks(n) + "sql\n") == n && (Ticks(n) + "sql\n")[n..] == "sql\n" && Strip("sql\n") == "sql"
  {
    LeadingRunOf(n, "sql\n");
    StripPast([], "sql", "\n");
    assert [] + "sql" + "\n" == "sql\n";
  }

  lemma OpeningFence(n: nat, more: string)
    requires n >= 3
    ensures ReadBlock(Ticks(n) + "sql\n" + more)
         == Some(Block("sql", ReadContent(more, n).text, ReadContent(more, n).rest))
  {
    var a := Ticks(n) + "sql";
    FirstLineIs(a, more);
    assert a + "\n" == Ticks(n) + "sql\n";
    InfoLine(n);
  }

  /** With `n` backticks the block reads back exactly when no line of the SQL closes it. */
  lemma FencedReadsBackIff(value: string, n: nat, tail: string)
    requires n >= 3 && EndsLine(tail)
    ensures ReadBlock(Fenced(value, n) + tail) == Some(Block("sql", Strip(value) + "\n", BehindLine(tail)))
       <==> NoCloser(Strip(value) + "\n", n)
  {
    var w := Strip(value) + "\n";
    var more := w + Ticks(n) + tail;
    assert Fenced(value, n) + tail == Ticks(n) + "sql\n" + more;
    OpeningFence(n, more);
    ContentIsExactIff(w, n, tail);
  }

  /** The round trip: for every SQL text, wherever the block stands in the document, reading it back
      gives the language `sql`, exactly the stripped SQL, and the rest of the document. */
  lemma BlockRoundTrip(value: string, tail: string)
    requires EndsLine(tail)
    ensures ReadBlock(CodeBlock(value) + tail) == Some(Block("sql", Strip(value) + "\n", BehindLine(tail)))
  {
    var n := FenceLength(value);
    FenceIsShortest(value, n);
    if Contains(Strip(value), Ticks(n)) {
      StripContained(value);
      ContainsTransitive(value, Strip(value), Ticks(n));
    }
    ContainsAcrossBreak(Strip(value), [], Ticks(n));
    assert Strip(value) + "\n" + [] == Strip(value) + "\n";
    FenceFreeHasNoCloser(Strip(value) + "\n", n);
    FencedReadsBackIff(value, n, tail);
  }

  const TICKED_SQL := "a\n```\nb"

  lemma TickedSqlHasCloser()
    ensures !NoCloser(TICKED_SQL + "\n", 3)
  {
    var w, rest := TICKED_SQL + "\n", "```\nb\n";
    FirstLineIs("a", rest);
    assert w == "a" + "\n" + rest;
    FirstLineIs("```", "b\n");
    assert rest == "```" + "\n" + "b\n" && "```" + "\n" == Ticks(3) + "\n";
    LeadingRunOf(3, "\n");
    assert (Ticks(3) + "\n")[3..] == "\n";
    NoCloserStep(w, 3);
    NoCloserStep(rest, 3);
  }

  /** Growing is needed: behind a fixed fence of three, SQL with a line of three backticks is cut. */
  lemma FixedFenceLosesSql(tail: string)
    requires EndsLine(tail)
    ensures Strip(TICKED_SQL) == TICKED_SQL
    ensures ReadBlock(Fenced(TICKED_SQL, 3) + tail) != Some(Block("sql", TICKED_SQL + "\n", BehindLine(tail)))
  {
    var value := TICKED_SQL;
    assert Strip(value) == value by { StripPast([], value, []); assert [] + value + [] == value; }
    TickedSqlHasCloser();
    FencedReadsBackIff(value, 3, tail);
  }
}
