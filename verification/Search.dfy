/** Searching in strings as `in` and `find` do, and joining lines. */
module Search {
  import opened Seqs
  import opened Text

  predicate At(s: string, part: string, i: int) {
    0 <= i && i + |part| <= |s| && s[i..i + |part|] == part
  }

  /** `part in s`. */
  predicate Contains(s: string, part: string) {
    exists i | 0 <= i <= |s| :: At(s, part, i)
  }

  /** `s.find(part, start)`: the first occurrence from `start` on, or -1. */
  function Find(s: string, part: string, start: nat): (i: int)
    requires start <= |s|
    ensures i == -1 || (start <= i && At(s, part, i))
    ensures forall j | start <= j < (if i == -1 then |s| + 1 else i) :: !At(s, part, j)
    decreases |s| - start
  {
    if At(s, part, start) then start
    else if start == |s| then -1
    else Find(s, part, start + 1)
  }

  /** `"\n".join(lines)`. */
  function JoinLines(lines: seq<string>): string {
    if lines == [] then [] else if |lines| == 1 then lines[0] else lines[0] + "\n" + JoinLines(lines[1..])
  }

  lemma JoinLinesStep(lines: seq<string>)
    requires |lines| > 1
    ensures JoinLines(lines) == lines[0] + "\n" + JoinLines(lines[1..])
  {
  }

  lemma AtWithin(a: string, s: string, b: string, part: string, i: int)
    requires At(s, part, i)
    ensures At(a + s + b, part, |a| + i)
  {
    assert (a + s + b)[|a| + i..|a| + i + |part|] == s[i..i + |part|];
  }

  lemma ContainsWithin(a: string, s: string, b: string, part: string)
    requires Contains(s, part)
    ensures Contains(a + s + b, part)
  {
    var i :| 0 <= i <= |s| && At(s, part, i);
    AtWithin(a, s, b, part, i);
  }

  lemma AtInSlice(s: string, part: string, i: int, from: nat, to: nat)
    requires from <= i && i + |part| <= to <= |s|
    ensures At(s, part, i) <==> At(s[from..to], part, i - from)
  {
    var j := i - from;
    if 0 <= j {
      var a, b := s[from..to][j..j + |part|], s[i..i + |part|];
      assert |a| == |b|;
      forall k | 0 <= k < |part| ensures a[k] == b[k] {
      }
      assert a == b;
    }
  }

  lemma ContainsTransitive(s: string, part: string, inner: string)
    requires Contains(s, part) && Contains(part, inner)
    ensures Contains(s, inner)
  {
    var i :| 0 <= i <= |s| && At(s, part, i);
    assert s == s[..i] + part + s[i + |part|..];
    ContainsWithin(s[..i], part, s[i + |part|..], inner);
  }

  /** A mark has characters, all on one line. */
  ghost predicate OneLine(mark: string) {
    mark != [] && forall i | 0 <= i < |mark| :: mark[i] != '\n'
  }

  lemma AtAcrossBreak(a: string, b: string, mark: string, i: int)
    requires OneLine(mark) && At(a + "\n" + b, mark, i)
    ensures At(a, mark, i) || At(b, mark, i - |a| - 1)
  {
    var s := a + "\n" + b;
    if i + |mark| <= |a| {
      assert s[i..i + |mark|] == a[i..i + |mark|];
    } else {
      assert mark == s[i..i + |mark|];
      assert forall j | i <= j < i + |mark| :: s[j] == mark[j - i] != '\n';
      assert s[|a|] == '\n';
      assert s[i..i + |mark|] == b[i - |a| - 1..i - |a| - 1 + |mark|];
    }
  }

  lemma ContainsAcrossBreak(a: string, b: string, mark: string)
    requires OneLine(mark)
    ensures Contains(a + "\n" + b, mark) <==> Contains(a, mark) || Contains(b, mark)
  {
    var s := a + "\n" + b;
    if Contains(s, mark) {
      var i :| 0 <= i <= |s| && At(s, mark, i);
      AtAcrossBreak(a, b, mark, i);
    }
    if Contains(a, mark) {
      ContainsWithin([], a, "\n" + b, mark);
      assert s == [] + a + ("\n" + b);
    }
    if Contains(b, mark) {
      ContainsWithin(a + "\n", b, [], mark);
      assert s == a + "\n" + b + [];
    }
  }

  lemma ContainsAfterPlain(plain: string, b: string, mark: string)
    requires mark != [] && mark[0] !in plain
    ensures Contains(plain + b, mark) <==> Contains(b, mark)
  {
    var s := plain + b;
    if Contains(s, mark) {
      var i :| 0 <= i <= |s| && At(s, mark, i);
      assert s[i] == mark[0];
      assert i >= |plain|;
      assert s[i..i + |mark|] == b[i - |plain|..i - |plain| + |mark|];
      assert At(b, mark, i - |plain|);
    }
    if Contains(b, mark) {
      ContainsWithin(plain, b, [], mark);
      assert s == plain + b + [];
    }
  }

  ghost predicate AnyContains(lines: seq<string>, mark: string) {
    exists i | 0 <= i < |lines| :: Contains(lines[i], mark)
  }

  lemma {:induction false} JoinContains(lines: seq<string>, mark: string)
    requires OneLine(mark)
    ensures Contains(JoinLines(lines), mark) <==> AnyContains(lines, mark)
  {
    if lines == [] {
    } else if |lines| == 1 {
      assert JoinLines(lines) == lines[0];
    } else {
      var rest := lines[1..];
      ContainsAcrossBreak(lines[0], JoinLines(rest), mark);
      JoinContains(rest, mark);
      assert forall i | 1 <= i < |lines| :: lines[i] == rest[i - 1];
      assert forall i | 0 <= i < |rest| :: rest[i] == lines[i + 1];
    }
  }

  lemma {:induction false} JoinContainsEach(lines: seq<string>, i: nat)
    requires i < |lines|
    ensures Contains(JoinLines(lines), lines[i])
  {
    if |lines| == 1 {
      assert At(lines[0], lines[0], 0);
    } else if i == 0 {
      assert At(JoinLines(lines), lines[0], 0);
    } else {
      var rest := JoinLines(lines[1..]);
      JoinContainsEach(lines[1..], i - 1);
      ContainsWithin(lines[0] + "\n", rest, [], lines[i]);
      assert JoinLines(lines) == lines[0] + "\n" + rest + [];
    }
  }

  // ---- stripping ------------------------------------------------------------------------------

  ghost predicate Blank(s: string) { forall i | 0 <= i < |s| :: IsSpace(s[i]) }

  /** Neither end is white space. */
  predicate Tight(s: string) { s != [] && !IsSpace(s[0]) && !IsSpace(s[|s| - 1]) }

  lemma {:induction false} LStripParts(s: string)
    ensures var n := |s| - |LStrip(s)|; LStrip(s) == s[n..] && Blank(s[..n])
    ensures LStrip(s) == [] || !IsSpace(LStrip(s)[0])
  {
    if s == [] {
    } else if IsSpace(s[0]) {
      LStripParts(s[1..]);
      var n := |s| - |LStrip(s)|;
      assert s[..n] == [s[0]] + s[1..][..n - 1];
    }
  }

  lemma {:induction false} RStripParts(s: string)
    ensures RStrip(s) == s[..|RStrip(s)|] && Blank(s[|RStrip(s)|..])
    ensures RStrip(s) == [] || !IsSpace(RStrip(s)[|RStrip(s)| - 1])
  {
    if s == [] {
    } else if IsSpace(s[|s| - 1]) {
      RStripParts(s[..|s| - 1]);
      SuffixOfSnoc(s, |RStrip(s)|);
    }
  }

  /** Stripping takes white space off both ends and nothing else. */
  lemma StripParts(s: string) returns (n: nat, m: nat)
    ensures n + |Strip(s)| + m == |s|
    ensures Strip(s) == s[n..|s| - m] && Blank(s[..n]) && Blank(s[|s| - m..])
    ensures Strip(s) == [] || Tight(Strip(s))
  {
    RStripParts(s);
    LStripParts(RStrip(s));
    m := |s| - |RStrip(s)|;
    n := |RStrip(s)| - |Strip(s)|;
    assert s[..n] == RStrip(s)[..n];
  }

  lemma StripContained(s: string)
    ensures Contains(s, Strip(s))
  {
    var n, m := StripParts(s);
    assert At(s, Strip(s), n);
  }

  lemma {:induction false} LStripStops(s: string, i: nat)
    requires i < |s| && !IsSpace(s[i])
    ensures |s| - |LStrip(s)| <= i
  {
    if IsSpace(s[0]) {
      LStripStops(s[1..], i - 1);
    }
  }

  lemma {:induction false} RStripStops(s: string, i: nat)
    requires i < |s| && !IsSpace(s[i])
    ensures |RStrip(s)| > i
  {
    if IsSpace(s[|s| - 1]) {
      RStripStops(s[..|s| - 1], i);
    }
  }

  lemma {:induction false} LStripPast(blank: string, s: string)
    requires Blank(blank) && (s == [] || !IsSpace(s[0]))
    ensures LStrip(blank + s) == s
  {
    if blank == [] {
      assert blank + s == s;
    } else {
      assert (blank + s)[1..] == blank[1..] + s;
      LStripPast(blank[1..], s);
    }
  }

  lemma {:induction false} RStripPast(s: string, blank: string)
    requires Blank(blank) && (s == [] || !IsSpace(s[|s| - 1]))
    ensures RStrip(s + blank) == s
  {
    if blank == [] {
      assert s + blank == s;
    } else {
      var t := s + blank;
      assert t[..|t| - 1] == s + blank[..|blank| - 1];
      RStripPast(s, blank[..|blank| - 1]);
    }
  }

  lemma StripPast(before: string, s: string, after: string)
    requires Blank(before) && Blank(after) && Tight(s)
    ensures Strip(before + s + after) == s
  {
    assert (before + s)[|before + s| - 1] == s[|s| - 1];
    RStripPast(before + s, after);
    LStripPast(before, s);
  }
}
