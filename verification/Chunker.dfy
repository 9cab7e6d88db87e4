/** Splitting a report into messages: whole lines, at most 320 characters a chunk unless a single
    line is longer. The greedy loop is exact and uses the fewest chunks possible. */
module Chunker {
  import opened Seqs
  import opened Text

  const CHUNK_SIZE := 320

  // ---- lines ----------------------------------------------------------------------------------

  /** The characters at which `str.splitlines` breaks. */
  predicate IsBreak(c: char) {
    || '\U{A}' <= c <= '\U{D}' || '\U{1C}' <= c <= '\U{1E}'
    || c == '\U{85}' || c == '\U{2028}' || c == '\U{2029}'
  }

  /** The length of the first line, its line break included. */
  function FirstLineLength(s: string): (n: nat)
    requires s != []
    ensures 1 <= n <= |s|
  {
    if s[0] == '\r' && |s| > 1 && s[1] == '\n' then 2
    else if IsBreak(s[0]) || |s| == 1 then 1
    else 1 + FirstLineLength(s[1..])
  }

  /** `s.splitlines(keepends=True)`. */
  function SplitLines(s: string): (lines: seq<string>)
    decreases |s|
  {
    if s == [] then []
    else [s[..FirstLineLength(s)]] + SplitLines(s[FirstLineLength(s)..])
  }

  function Concat(parts: seq<string>): string {
    if parts == [] then [] else parts[0] + Concat(parts[1..])
  }

  lemma {:induction false} ConcatAppend(a: seq<string>, b: seq<string>)
    ensures Concat(a + b) == Concat(a) + Concat(b)
  {
    if a == [] {
      assert a + b == b;
    } else {
      assert (a + b)[1..] == a[1..] + b;
      ConcatAppend(a[1..], b);
    }
  }

  ghost predicate NonEmptyLines(lines: seq<string>) { forall i | 0 <= i < |lines| :: lines[i] != [] }

  lemma {:induction false} SplitLinesIsExact(s: string)
    ensures Concat(SplitLines(s)) == s
    ensures NonEmptyLines(SplitLines(s))
    decreases |s|
  {
    if s == [] {
    } else {
      var n := FirstLineLength(s);
      SplitLinesIsExact(s[n..]);
      var lines := SplitLines(s);
      assert lines[0] == s[..n] && lines[1..] == SplitLines(s[n..]);
      assert s == s[..n] + s[n..];
    }
  }

  // ---- what a line is -------------------------------------------------------------------------

  /** No break before the end, except the first character of a final "\r\n". */
  ghost predicate IsWhole(line: string) {
    && line != []
    && forall i | 0 <= i < |line| - 1 :: IsBreak(line[i]) ==> i == |line| - 2 && line[i] == '\r' && line[i + 1] == '\n'
  }

  /** `line` ends with a break, and the text after it does not continue that break. */
  ghost predicate BreaksBefore(line: string, next: string) {
    && line != [] && next != [] && IsBreak(line[|line| - 1])
    && !(line[|line| - 1] == '\r' && next[0] == '\n')
  }

  ghost predicate AreLines(lines: seq<string>) {
    && (forall i | 0 <= i < |lines| :: IsWhole(lines[i]))
    && (forall i | 0 <= i < |lines| - 1 :: BreaksBefore(lines[i], lines[i + 1]))
  }

  /** A line ends after the first `p` characters. */
  ghost predicate EndsLine(s: string, p: nat) {
    0 < p <= |s| && (p == |s| || (IsBreak(s[p - 1]) && !(s[p - 1] == '\r' && s[p] == '\n')))
  }

  ghost predicate FirstEnd(s: string, n: nat) {
    EndsLine(s, n) && forall p: nat | p < n :: !EndsLine(s, p)
  }

  lemma FirstEndIsUnique(s: string, n: nat, m: nat)
    requires FirstEnd(s, n) && FirstEnd(s, m)
    ensures n == m
  {
  }

  lemma {:induction false} FirstLineEnds(s: string)
    requires s != []
    ensures FirstEnd(s, FirstLineLength(s))
    decreases |s|
  {
    if !(s[0] == '\r' && |s| > 1 && s[1] == '\n') && !IsBreak(s[0]) && |s| > 1 {
      FirstLineEnds(s[1..]);
      forall p: nat | 0 < p < |s| ensures EndsLine(s, p + 1) <==> EndsLine(s[1..], p) {}
      forall p: nat | p < FirstLineLength(s) ensures !EndsLine(s, p) {
        if p > 1 {
          assert !EndsLine(s[1..], p - 1);
        }
      }
    }
  }

  /** The first line of a text in lines is where a line first ends. */
  lemma FirstOfLines(lines: seq<string>)
    requires AreLines(lines) && lines != []
    ensures FirstEnd(Concat(lines), |lines[0]|) && Concat(lines)[..|lines[0]|] == lines[0]
  {
    var s, line, rest := Concat(lines), lines[0], Concat(lines[1..]);
    assert s == line + rest;
    if |lines| > 1 {
      assert rest == lines[1] + Concat(lines[1..][1..]);
      assert BreaksBefore(line, lines[1]);
      assert s[|line|] == lines[1][0];
    }
    forall p: nat | p < |line| ensures !EndsLine(s, p) {
      if p > 0 {
        assert s[p - 1] == line[p - 1] && s[p] == line[p];
      }
    }
  }

  /** There is one way to part a text into lines. */
  lemma {:induction false} LinesAreUnique(lines: seq<string>)
    requires AreLines(lines)
    ensures SplitLines(Concat(lines)) == lines
  {
    if lines == [] {
    } else {
      var s := Concat(lines);
      FirstOfLines(lines);
      FirstLineEnds(s);
      FirstEndIsUnique(s, FirstLineLength(s), |lines[0]|);
      forall i | 0 <= i < |lines[1..]| - 1 ensures BreaksBefore(lines[1..][i], lines[1..][i + 1]) {
        assert BreaksBefore(lines[i + 1], lines[i + 2]);
      }
      LinesAreUnique(lines[1..]);
      assert s[|lines[0]|..] == Concat(lines[1..]);
    }
  }

  lemma FirstLineIsWhole(s: string, n: nat)
    requires FirstEnd(s, n)
    ensures IsWhole(s[..n])
    ensures n < |s| ==> BreaksBefore(s[..n], s[n..])
  {
    forall i | 0 <= i < n - 1 && IsBreak(s[..n][i])
      ensures i == n - 2 && s[..n][i] == '\r' && s[..n][i + 1] == '\n'
    {
      assert !EndsLine(s, i + 1);
      assert s[i] == '\r' && s[i + 1] == '\n';
      assert EndsLine(s, i + 2);
    }
  }

  /** `SplitLines` is that way: on every text, its parts are whole lines. */
  lemma {:induction false} SplitLinesAreLines(s: string)
    ensures AreLines(SplitLines(s))
    decreases |s|
  {
    if s == [] {
    } else {
      var n, lines := FirstLineLength(s), SplitLines(s);
      FirstLineEnds(s);
      FirstLineIsWhole(s, n);
      SplitLinesAreLines(s[n..]);
      assert lines == [s[..n]] + SplitLines(s[n..]);
      forall i | 0 <= i < |lines| - 1 ensures BreaksBefore(lines[i], lines[i + 1]) {
        if i > 0 {
          assert BreaksBefore(SplitLines(s[n..])[i - 1], SplitLines(s[n..])[i]);
        } else {
          assert lines[1][0] == s[n];
        }
      }
    }
  }

  // ---- the loop -------------------------------------------------------------------------------

  /** The groups of lines that make up the chunks, the last group being still open. */
  function Groups(lines: seq<string>): (groups: seq<seq<string>>)
    ensures lines != [] ==> groups != []
  {
    if lines == [] then []
    else
      var before := Groups(lines[..|lines| - 1]);
      var line := lines[|lines| - 1];
      if before == [] || |Concat(before[|before| - 1])| + |line| > CHUNK_SIZE then before + [[line]]
      else before[..|before| - 1] + [before[|before| - 1] + [line]]
  }

  function Join(groups: seq<seq<string>>): seq<string> {
    if groups == [] then [] else [Concat(groups[0])] + Join(groups[1..])
  }

  function Flatten(groups: seq<seq<string>>): seq<string> {
    if groups == [] then [] else groups[0] + Flatten(groups[1..])
  }

  /** What a chunk may be: whole lines, short enough, unless it is one over-long line. */
  ghost predicate Allowed(group: seq<string>) {
    |group| == 1 || (group != [] && |Concat(group)| <= CHUNK_SIZE)
  }

  ghost predicate IsSplit(lines: seq<string>, groups: seq<seq<string>>) {
    Flatten(groups) == lines && forall g | g in groups :: Allowed(g)
  }

  lemma {:induction false} FlattenAppend(a: seq<seq<string>>, b: seq<seq<string>>)
    ensures Flatten(a + b) == Flatten(a) + Flatten(b)
  {
    if a == [] {
      assert a + b == b;
    } else {
      assert (a + b)[1..] == a[1..] + b;
      FlattenAppend(a[1..], b);
    }
  }

  lemma {:induction false} JoinAppend(a: seq<seq<string>>, b: seq<seq<string>>)
    ensures Join(a + b) == Join(a) + Join(b)
  {
    if a == [] {
      assert a + b == b;
    } else {
      assert (a + b)[1..] == a[1..] + b;
      JoinAppend(a[1..], b);
    }
  }

  lemma JoinOne(group: seq<string>)
    ensures Join([group]) == [Concat(group)]
  {
    assert [group][1..] == [];
  }

  lemma FlattenOne(group: seq<string>)
    ensures Flatten([group]) == group
  {
    assert [group][1..] == [];
  }

  /** The loop's variables after some lines: all groups but the last are emitted. */
  ghost predicate Emitted(groups: seq<seq<string>>, chunks: seq<string>, current: string) {
    if groups == [] then chunks == [] && current == []
    else chunks == Join(groups[..|groups| - 1]) && current == Concat(groups[|groups| - 1]) && current != []
  }

  lemma StartGroup(groups: seq<seq<string>>, chunks: seq<string>, current: string, line: string)
    requires Emitted(groups, chunks, current) && line != []
    ensures Emitted(groups + [[line]], if groups == [] then chunks else chunks + [current], line)
  {
    assert Concat([line]) == line;
    assert (groups + [[line]])[..|groups|] == groups;
    if groups != [] {
      var open := groups[|groups| - 1];
      assert groups == groups[..|groups| - 1] + [open];
      JoinAppend(groups[..|groups| - 1], [open]);
      JoinOne(open);
    }
  }

  lemma ExtendGroup(groups: seq<seq<string>>, chunks: seq<string>, current: string, line: string)
    requires groups != [] && Emitted(groups, chunks, current)
    ensures Emitted(groups[..|groups| - 1] + [groups[|groups| - 1] + [line]], chunks, current + line)
  {
    var closed, open := groups[..|groups| - 1], groups[|groups| - 1];
    ConcatAppend(open, [line]);
    assert Concat([line]) == line;
    assert (closed + [open + [line]])[..|closed|] == closed;
  }

  lemma EmitLine(lines: seq<string>, chunks: seq<string>, current: string)
    requires lines != [] && lines[|lines| - 1] != []
    requires Emitted(Groups(lines[..|lines| - 1]), chunks, current)
    ensures var line := lines[|lines| - 1];
            if |current| + |line| > CHUNK_SIZE && current != [] then Emitted(Groups(lines), chunks + [current], line)
            else Emitted(Groups(lines), chunks, current + line)
  {
    var groups, line := Groups(lines[..|lines| - 1]), lines[|lines| - 1];
    if groups == [] || |current| + |line| > CHUNK_SIZE {
      StartGroup(groups, chunks, current, line);
      assert current == [] ==> current + line == line;
    } else {
      ExtendGroup(groups, chunks, current, line);
    }
  }

  lemma AllEmitted(groups: seq<seq<string>>, chunks: seq<string>, current: string)
    requires Emitted(groups, chunks, current)
    ensures Join(groups) == if current == [] then chunks else chunks + [current]
  {
    if groups != [] {
      var open := groups[|groups| - 1];
      assert groups == groups[..|groups| - 1] + [open];
      JoinAppend(groups[..|groups| - 1], [open]);
      JoinOne(open);
    }
  }

  /** The loop's variables after the first `i` lines. */
  ghost predicate EmittedUpTo(lines: seq<string>, i: nat, chunks: seq<string>, current: string)
    requires i <= |lines|
  {
    Emitted(Groups(lines[..i]), chunks, current)
  }

  lemma EmitNext(lines: seq<string>, i: nat, chunks: seq<string>, current: string)
    requires i < |lines| && NonEmptyLines(lines) && EmittedUpTo(lines, i, chunks, current)
    ensures if |current| + |lines[i]| > CHUNK_SIZE && current != []
            then EmittedUpTo(lines, i + 1, chunks + [current], lines[i])
            else EmittedUpTo(lines, i + 1, chunks, current + lines[i])
  {
    PrefixOfPrefix(lines, i, i + 1);
    EmitLine(lines[..i + 1], chunks, current);
  }

  function Chunks(markdown: string): seq<string> { Join(Groups(SplitLines(Strip(markdown)))) }

  /** `_iter_markdown_chunks`. */
  method IterMarkdownChunks(markdown: string) returns (chunks: seq<string>)
    ensures chunks == Chunks(markdown)
  {
    var text := Strip(markdown);
    if text == [] {
      return [];
    }
    chunks := [];
    var current := "";
    var lines := SplitLines(text);
    SplitLinesIsExact(text);
    for i := 0 to |lines|
      invariant EmittedUpTo(lines, i, chunks, current)
    {
      var line := lines[i];
      EmitNext(lines, i, chunks, current);
      if |current| + |line| > CHUNK_SIZE && current != [] {
        chunks := chunks + [current];
        current := "";
        NothingAppended(line);
      }
      current := current + line;
    }
    EmittedAll(lines, chunks, current);
    if current != [] {
      chunks := chunks + [current];
    }
  }

  lemma EmittedAll(lines: seq<string>, chunks: seq<string>, current: string)
    requires EmittedUpTo(lines, |lines|, chunks, current)
    ensures Join(Groups(lines)) == if current == [] then chunks else chunks + [current]
  {
    assert lines[..|lines|] == lines;
    AllEmitted(Groups(lines), chunks, current);
  }

  // ---- exactness ------------------------------------------------------------------------------

  lemma {:induction false} GroupsAreASplit(lines: seq<string>)
    ensures IsSplit(lines, Groups(lines))
  {
    if lines == [] {
    } else {
      var init, line := lines[..|lines| - 1], lines[|lines| - 1];
      var before := Groups(init);
      GroupsAreASplit(init);
      assert lines == init + [line];
      if before == [] || |Concat(before[|before| - 1])| + |line| > CHUNK_SIZE {
        FlattenAppend(before, [[line]]);
        FlattenOne([line]);
      } else {
        var closed, open := before[..|before| - 1], before[|before| - 1];
        assert before == closed + [open];
        FlattenAppend(closed, [open]);
        FlattenAppend(closed, [open + [line]]);
        FlattenOne(open);
        FlattenOne(open + [line]);
        ConcatAppend(open, [line]);
        assert Concat([line]) == line;
      }
    }
  }

  lemma {:induction false} JoinKeepsText(groups: seq<seq<string>>)
    ensures Concat(Join(groups)) == Concat(Flatten(groups)) && |Join(groups)| == |groups|
  {
    if groups == [] {
    } else {
      JoinKeepsText(groups[1..]);
      ConcatAppend(groups[0], Flatten(groups[1..]));
    }
  }

  /** Chunks concatenate to the stripped text, and each is an allowed run of whole lines. */
  lemma ChunksAreExact(markdown: string)
    ensures var lines := SplitLines(Strip(markdown));
            Concat(Chunks(markdown)) == Strip(markdown) && IsSplit(lines, Groups(lines))
  {
    var lines := SplitLines(Strip(markdown));
    GroupsAreASplit(lines);
    JoinKeepsText(Groups(lines));
    SplitLinesIsExact(Strip(markdown));
  }

  // ---- the chunks on the text -----------------------------------------------------------------

  /** The first line of each group does not fit into the group before it. */
  ghost predicate Filled(groups: seq<seq<string>>) {
    && (forall i | 0 <= i < |groups| :: groups[i] != [])
    && forall i | 0 <= i < |groups| - 1 :: |Concat(groups[i])| + |groups[i + 1][0]| > CHUNK_SIZE
  }

  lemma FilledByNew(before: seq<seq<string>>, line: string)
    requires Filled(before) && (before == [] || |Concat(before[|before| - 1])| + |line| > CHUNK_SIZE)
    ensures Filled(before + [[line]])
  {
  }

  lemma FilledByMore(before: seq<seq<string>>, line: string)
    requires Filled(before) && before != []
    ensures Filled(before[..|before| - 1] + [before[|before| - 1] + [line]])
  {
    var after := before[..|before| - 1] + [before[|before| - 1] + [line]];
    forall i | 0 <= i < |after| ensures after[i] != [] && after[i][0] == before[i][0] {}
  }

  lemma {:induction false} GroupsAreFilled(lines: seq<string>)
    ensures Filled(Groups(lines))
  {
    if lines == [] {
    } else {
      var before, line := Groups(lines[..|lines| - 1]), lines[|lines| - 1];
      GroupsAreFilled(lines[..|lines| - 1]);
      if before == [] || |Concat(before[|before| - 1])| + |line| > CHUNK_SIZE {
        FilledByNew(before, line);
      } else {
        FilledByMore(before, line);
      }
    }
  }

  lemma LinesInTwo(a: seq<string>, b: seq<string>)
    requires AreLines(a + b)
    ensures AreLines(a) && AreLines(b)
    ensures a != [] && b != [] ==> BreaksBefore(a[|a| - 1], b[0])
  {
    var lines := a + b;
    forall i | 0 <= i < |a| ensures a[i] == lines[i] {}
    forall i | 0 <= i < |b| ensures b[i] == lines[|a| + i] {}
    forall i | 0 <= i < |b| - 1 ensures BreaksBefore(b[i], b[i + 1]) {
      assert BreaksBefore(lines[|a| + i], lines[|a| + i + 1]);
    }
    forall i | 0 <= i < |a| - 1 ensures BreaksBefore(a[i], a[i + 1]) {
      assert BreaksBefore(lines[i], lines[i + 1]);
    }
    if a != [] && b != [] {
      assert BreaksBefore(lines[|a| - 1], lines[|a|]);
    }
  }

  lemma {:induction false} EndsOfConcat(lines: seq<string>)
    requires lines != [] && NonEmptyLines(lines)
    ensures Concat(lines) != [] && Concat(lines)[0] == lines[0][0]
    ensures var last := lines[|lines| - 1];
            Concat(lines)[|Concat(lines)| - 1] == last[|last| - 1]
  {
    if |lines| == 1 {
      assert Concat(lines) == lines[0];
    } else {
      EndsOfConcat(lines[1..]);
    }
  }

  /** Two groups of lines, one after the other, join to texts between which a line ends. */
  lemma GroupsBreak(a: seq<string>, b: seq<string>)
    requires AreLines(a + b) && a != [] && b != []
    ensures BreaksBefore(Concat(a), Concat(b))
  {
    LinesInTwo(a, b);
    EndsOfConcat(a);
    EndsOfConcat(b);
  }

  lemma {:induction false} GroupsAreLines(groups: seq<seq<string>>, i: nat)
    requires AreLines(Flatten(groups)) && i < |groups| && forall j | 0 <= j < |groups| :: groups[j] != []
    ensures AreLines(groups[i])
    ensures i + 1 < |groups| ==> BreaksBefore(Concat(groups[i]), Concat(groups[i + 1]))
  {
    var first, rest := groups[0], Flatten(groups[1..]);
    LinesInTwo(first, rest);
    if i > 0 {
      GroupsAreLines(groups[1..], i - 1);
    } else if |groups| > 1 {
      var second, others := groups[1], Flatten(groups[1..][1..]);
      assert first + (second + others) == first + second + others;
      LinesInTwo(first + second, others);
      GroupsBreak(first, second);
    }
  }

  lemma {:induction false} JoinAt(groups: seq<seq<string>>, i: nat)
    requires i < |groups|
    ensures |Join(groups)| == |groups| && Join(groups)[i] == Concat(groups[i])
  {
    JoinKeepsText(groups);
    if i > 0 {
      JoinAt(groups[1..], i - 1);
    }
  }

  /** A chunk of more than 320 characters is one line; every chunk but the last ends where a line does. */
  lemma ChunkIsWholeLines(markdown: string, i: nat)
    requires i < |Chunks(markdown)|
    ensures |Chunks(markdown)[i]| > CHUNK_SIZE ==> IsWhole(Chunks(markdown)[i])
    ensures i + 1 < |Chunks(markdown)| ==> BreaksBefore(Chunks(markdown)[i], Chunks(markdown)[i + 1])
  {
    var lines := SplitLines(Strip(markdown));
    SplitLinesAreLines(Strip(markdown));
    GroupsAreASplit(lines);
    GroupsAreFilled(lines);
    JoinKeepsText(Groups(lines));
    JoinAt(Groups(lines), i);
    GroupsAreLines(Groups(lines), i);
    assert Allowed(Groups(lines)[i]);
    if |Groups(lines)[i]| == 1 {
      assert Concat(Groups(lines)[i]) == Groups(lines)[i][0];
    }
    if i + 1 < |Groups(lines)| {
      JoinAt(Groups(lines), i + 1);
    }
  }

  /** No chunk ends before it must: what follows, up to any end of a line, does not fit. */
  lemma ChunkIsFull(markdown: string, i: nat, p: nat)
    requires i + 1 < |Chunks(markdown)| && EndsLine(Chunks(markdown)[i + 1], p)
    ensures |Chunks(markdown)[i]| + p > CHUNK_SIZE
  {
    var lines := SplitLines(Strip(markdown));
    SplitLinesAreLines(Strip(markdown));
    GroupsAreASplit(lines);
    GroupsAreFilled(lines);
    JoinKeepsText(Groups(lines));
    JoinAt(Groups(lines), i);
    JoinAt(Groups(lines), i + 1);
    GroupsAreLines(Groups(lines), i + 1);
    FirstOfLines(Groups(lines)[i + 1]);
  }

  // ---- optimality -----------------------------------------------------------------------------

  function Lengths(lines: seq<string>): seq<nat> {
    seq(|lines|, i requires 0 <= i < |lines| => |lines[i]|)
  }

  /** How many chunks result when a chunk of length `open` (0: none) is followed by these lines. */
  function ChunksFrom(open: nat, lengths: seq<nat>): nat
    decreases |lengths|
  {
    if lengths == [] then (if open > 0 then 1 else 0)
    else if open > 0 && open + lengths[0] > CHUNK_SIZE then 1 + ChunksFrom(lengths[0], lengths[1..])
    else ChunksFrom(open + lengths[0], lengths[1..])
  }

  ghost predicate Positive(lengths: seq<nat>) { forall i | 0 <= i < |lengths| :: lengths[i] > 0 }

  /** A shorter open chunk is never worse, and any open chunk costs at most one more than another. */
  lemma {:induction false} OpenChunkCost(a: nat, b: nat, lengths: seq<nat>)
    requires Positive(lengths)
    ensures a <= b ==> ChunksFrom(a, lengths) <= ChunksFrom(b, lengths)
    ensures ChunksFrom(a, lengths) <= 1 + ChunksFrom(b, lengths)
    decreases |lengths|
  {
    if lengths == [] {
    } else {
      var n, rest := lengths[0], lengths[1..];
      OpenChunkCost(a + n, b + n, rest);
      OpenChunkCost(a + n, n, rest);
      OpenChunkCost(n, b + n, rest);
    }
  }

  function Sum(lengths: seq<nat>): nat {
    if lengths == [] then 0 else lengths[0] + Sum(lengths[1..])
  }

  /** A group that fits is swallowed by the open chunk without starting a new one. */
  lemma {:induction false} SwallowGroup(open: nat, group: seq<nat>, rest: seq<nat>)
    requires open + Sum(group) <= CHUNK_SIZE
    ensures ChunksFrom(open, group + rest) == ChunksFrom(open + Sum(group), rest)
    decreases |group|
  {
    if group == [] {
      assert group + rest == rest;
    } else {
      assert (group + rest)[1..] == group[1..] + rest;
      SwallowGroup(open + group[0], group[1..], rest);
    }
  }

  lemma {:induction false} LengthsOf(lines: seq<string>)
    ensures Sum(Lengths(lines)) == |Concat(lines)|
  {
    if lines == [] {
    } else {
      LengthsOf(lines[1..]);
      assert Lengths(lines)[1..] == Lengths(lines[1..]);
    }
  }

  lemma LengthsAppend(a: seq<string>, b: seq<string>)
    ensures Lengths(a + b) == Lengths(a) + Lengths(b)
  {
  }

  lemma LengthsSnoc(lines: seq<string>)
    requires lines != []
    ensures Lengths(lines) == Lengths(lines[..|lines| - 1]) + [|lines[|lines| - 1]|]
  {
    InitAndLast(lines);
    LengthsAppend(lines[..|lines| - 1], [lines[|lines| - 1]]);
    assert Lengths([lines[|lines| - 1]]) == [|lines[|lines| - 1]|];
  }

  /** No allowed split of the lines has fewer parts than the greedy count. */
  lemma {:induction false} AnySplitIsAtLeastGreedy(lines: seq<string>, groups: seq<seq<string>>)
    requires NonEmptyLines(lines) && IsSplit(lines, groups)
    ensures ChunksFrom(0, Lengths(lines)) <= |groups|
    decreases |groups|
  {
    if groups == [] {
    } else {
      var g, rest := groups[0], Flatten(groups[1..]);
      assert lines == g + rest;
      assert forall i | 0 <= i < |rest| :: rest[i] == lines[|g| + i];
      AnySplitIsAtLeastGreedy(rest, groups[1..]);
      LengthsAppend(g, rest);
      LengthsOf(g);
      assert Positive(Lengths(rest));
      assert Allowed(g);
      if |g| == 1 {
        assert Lengths(g) == [|g[0]|];
        assert Lengths(lines)[0] == |g[0]| && Lengths(lines)[1..] == Lengths(rest);
        OpenChunkCost(|g[0]|, 0, Lengths(rest));
      } else {
        SwallowGroup(0, Lengths(g), Lengths(rest));
        OpenChunkCost(Sum(Lengths(g)), 0, Lengths(rest));
      }
    }
  }

  /** The loop attains the greedy count. */
  lemma {:induction false} GroupsCount(lines: seq<string>, rest: seq<nat>)
    requires NonEmptyLines(lines)
    ensures ChunksFrom(0, Lengths(lines) + rest)
         == if Groups(lines) == [] then ChunksFrom(0, rest)
            else |Groups(lines)| - 1 + ChunksFrom(|Concat(Groups(lines)[|Groups(lines)| - 1])|, rest)
    decreases |lines|
  {
    if lines == [] {
      assert Lengths(lines) + rest == rest;
    } else {
      var init, line := lines[..|lines| - 1], lines[|lines| - 1];
      LengthsSnoc(lines);
      Regroup(Lengths(init), [|line|], rest);
      GroupsCount(init, [|line|] + rest);
      assert ([|line|] + rest)[1..] == rest;
      var before := Groups(init);
      if before != [] {
        OpenIsNotEmpty(init);
        var open := before[|before| - 1];
        ConcatAppend(open, [line]);
        assert Concat([line]) == line;
      } else {
        assert Concat([line]) == line;
      }
    }
  }

  lemma OpenIsNotEmpty(lines: seq<string>)
    requires lines != [] && NonEmptyLines(lines)
    ensures Concat(Groups(lines)[|Groups(lines)| - 1]) != []
  {
    var line := lines[|lines| - 1];
    var before := Groups(lines[..|lines| - 1]);
    assert Concat([line]) == line;
    if before != [] {
      ConcatAppend(before[|before| - 1], [line]);
    }
  }

  /** No other split into whole lines obeying the length rule has fewer chunks. */
  lemma ChunksAreFewest(markdown: string, groups: seq<seq<string>>)
    requires IsSplit(SplitLines(Strip(markdown)), groups)
    ensures |Chunks(markdown)| <= |groups|
  {
    var lines := SplitLines(Strip(markdown));
    SplitLinesIsExact(Strip(markdown));
    AnySplitIsAtLeastGreedy(lines, groups);
    GroupsCount(lines, []);
    JoinKeepsText(Groups(lines));
    assert Lengths(lines) + [] == Lengths(lines);
    if lines != [] {
      OpenIsNotEmpty(lines);
    }
  }
}
