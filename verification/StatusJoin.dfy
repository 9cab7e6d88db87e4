/** Joining progress chunks: two progress statuses in a row are joined by one blank; everything else
    is kept as it is. */
module StatusJoin {
  import opened Seqs
  import opened Text
  import opened Search
  import opened Chunker

  const PARSING := "正在解析 SQL..."
  const DIAGNOSED := "已生成诊断结论..."
  const REPORTED := "已生成优化报告..."

  predicate EndsWith(text: string, suffix: string) {
    |suffix| <= |text| && text[|text| - |suffix|..] == suffix
  }

  predicate EndsWithStatus(text: string) {
    EndsWith(Strip(text), PARSING) || EndsWith(Strip(text), DIAGNOSED) || EndsWith(Strip(text), REPORTED)
  }

  predicate IsStatus(chunk: string) {
    Strip(chunk) == PARSING || Strip(chunk) == DIAGNOSED || Strip(chunk) == REPORTED
  }

  function AppendChunk(existing: string, chunk: string): string {
    if EndsWithStatus(existing) && IsStatus(chunk) then RStrip(existing) + " " + LStrip(chunk)
    else existing + chunk
  }

  function AppendAll(chunks: seq<string>): string {
    if chunks == [] then "" else AppendChunk(AppendAll(chunks[..|chunks| - 1]), chunks[|chunks| - 1])
  }

  /** The buffer's batch join is the sender's incremental append, folded over the chunks. */
  method JoinStreamChunks(chunks: seq<string>) returns (output: string)
    ensures output == AppendAll(chunks)
  {
    output := "";
    for i := 0 to |chunks|
      invariant output == AppendAll(chunks[..i])
    {
      assert chunks[..i + 1][..i] == chunks[..i];
      if EndsWithStatus(output) && IsStatus(chunks[i]) {
        output := RStrip(output) + " " + LStrip(chunks[i]);
        continue;
      }
      output := output + chunks[i];
    }
    assert chunks[..|chunks|] == chunks;
  }

  // ---- where two statuses meet ----------------------------------------------------------------

  predicate IsText(s: string) {
    s == "正在解析 SQL..." || s == "已生成诊断结论..." || s == "已生成优化报告..."
  }

  /** `text` ends with a status, white space aside. */
  ghost predicate EndsIn(text: string, front: string, status: string, blank: string) {
    text == front + status + blank && IsText(status) && Blank(blank)
  }

  lemma StatusesAreTight(s: string)
    requires IsText(s)
    ensures Tight(s)
  {
  }

  lemma EndsInMeans(text: string, front: string, status: string, blank: string)
    requires EndsIn(text, front, status, blank)
    ensures EndsWithStatus(text) && RStrip(text) == front + status
  {
    var r := front + status;
    StatusesAreTight(status);
    assert r[|r| - 1] == status[|status| - 1] && r[|front|] == status[0];
    RStripPast(r, blank);
    LStripStops(r, |front|);
    LStripParts(r);
    var stripped := LStrip(r);
    assert stripped[|stripped| - |status|..] == r[|r| - |status|..] == status;
  }

  lemma StatusBehind(text: string, status: string) returns (front: string, blank: string)
    requires IsText(status) && EndsWith(Strip(text), status)
    ensures EndsIn(text, front, status, blank)
  {
    var n, m := StripParts(text);
    var k := |text| - m - |status|;
    front, blank := text[..k], text[|text| - m..];
    assert Strip(text)[|Strip(text)| - |status|..] == text[k..|text| - m];
    assert text == text[..k] + text[k..|text| - m] + text[|text| - m..];
  }

  lemma EndsWithStatusIff(text: string)
    ensures EndsWithStatus(text) <==> exists front, status, blank :: EndsIn(text, front, status, blank)
  {
    if EndsWithStatus(text) {
      var status := if EndsWith(Strip(text), PARSING) then PARSING
                    else if EndsWith(Strip(text), DIAGNOSED) then DIAGNOSED else REPORTED;
      var front, blank := StatusBehind(text, status);
    }
    if front, status, blank :| EndsIn(text, front, status, blank) {
      EndsInMeans(text, front, status, blank);
    }
  }

  /** Two statuses in a row, however much white space lies between them, are joined by one blank; all that is
      before the first and behind the second stays. */
  lemma StatusesAreSpaced(front: string, a: string, between: string, next: string, b: string, behind: string)
    requires IsText(a) && IsText(b) && Blank(between) && Blank(next) && Blank(behind)
    ensures AppendChunk(front + a + between, next + b + behind) == front + a + " " + (b + behind)
  {
    EndsInMeans(front + a + between, front, a, between);
    StatusesAreTight(b);
    StripPast(next, b, behind);
    assert next + b + behind == next + (b + behind) && (b + behind)[0] == b[0];
    LStripPast(next, b + behind);
  }

  /** Everything else is appended as it is: a chunk that is no status, or one behind other text. */
  lemma OthersAreAppended(existing: string, chunk: string)
    requires !(exists front, status, blank :: EndsIn(existing, front, status, blank))
             || !(exists before, status, after :: IsText(status) && Blank(before) && Blank(after)
                                                  && chunk == before + status + after)
    ensures AppendChunk(existing, chunk) == existing + chunk
  {
    EndsWithStatusIff(existing);
    if IsStatus(chunk) {
      var n, m := StripParts(chunk);
      assert chunk == chunk[..n] + Strip(chunk) + chunk[|chunk| - m..];
    }
  }

  // ---- what joining keeps ---------------------------------------------------------------------

  /** The text without its white space. */
  function Squeeze(s: string): string {
    if s == [] then [] else (if IsSpace(s[0]) then [] else [s[0]]) + Squeeze(s[1..])
  }

  lemma {:induction false} SqueezeAppend(a: string, b: string)
    ensures Squeeze(a + b) == Squeeze(a) + Squeeze(b)
  {
    if a == [] {
      assert a + b == b;
    } else {
      assert (a + b)[1..] == a[1..] + b;
      SqueezeAppend(a[1..], b);
    }
  }

  /** The white space that stripping removes. */
  function Trailing(s: string): string { s[|RStrip(s)|..] }

  function Leading(s: string): string { s[..|s| - |LStrip(s)|] }

  lemma {:induction false} RStripSplits(s: string)
    ensures s == RStrip(s) + Trailing(s) && Squeeze(Trailing(s)) == []
  {
    if s == [] {
    } else if IsSpace(s[|s| - 1]) {
      RStripSplits(s[..|s| - 1]);
      assert Trailing(s) == Trailing(s[..|s| - 1]) + [s[|s| - 1]];
      SqueezeAppend(Trailing(s[..|s| - 1]), [s[|s| - 1]]);
    }
  }

  lemma {:induction false} LStripSplits(s: string)
    ensures s == Leading(s) + LStrip(s) && Squeeze(Leading(s)) == []
  {
    if s == [] {
    } else if IsSpace(s[0]) {
      LStripSplits(s[1..]);
      assert s == [s[0]] + s[1..];
      assert Leading(s) == [s[0]] + Leading(s[1..]);
      SqueezeAppend([s[0]], Leading(s[1..]));
    }
  }

  lemma SqueezeStripped(s: string)
    ensures Squeeze(RStrip(s)) == Squeeze(s) && Squeeze(LStrip(s)) == Squeeze(s)
  {
    RStripSplits(s);
    LStripSplits(s);
    SqueezeAppend(RStrip(s), Trailing(s));
    SqueezeAppend(Leading(s), LStrip(s));
  }

  lemma SqueezeBlank()
    ensures Squeeze(" ") == []
  {
    assert IsSpace(' ') && " "[1..] == [];
  }

  lemma SqueezeWithBlank(a: string, b: string)
    ensures Squeeze(a + " " + b) == Squeeze(a) + Squeeze(b)
  {
    calc {
      Squeeze(a + " " + b);
      { SqueezeAppend(a + " ", b); }
      Squeeze(a + " ") + Squeeze(b);
      { SqueezeAppend(a, " "); SqueezeBlank(); }
      Squeeze(a) + [] + Squeeze(b);
      Squeeze(a) + Squeeze(b);
    }
  }

  lemma AppendKeepsText(existing: string, chunk: string)
    ensures Squeeze(AppendChunk(existing, chunk)) == Squeeze(existing) + Squeeze(chunk)
  {
    SqueezeAppend(existing, chunk);
    SqueezeStripped(existing);
    SqueezeStripped(chunk);
    SqueezeWithBlank(RStrip(existing), LStrip(chunk));
  }

  /** Appending is plain concatenation exactly when no two statuses meet, or exactly one blank
      already lies between them. */
  lemma AppendIsConcatIff(existing: string, chunk: string)
    ensures AppendChunk(existing, chunk) == existing + chunk
       <==> !(EndsWithStatus(existing) && IsStatus(chunk)) || Trailing(existing) + Leading(chunk) == " "
  {
    var a, b := RStrip(existing), LStrip(chunk);
    calc {
      existing + chunk;
      { RStripSplits(existing); LStripSplits(chunk); }
      (a + Trailing(existing)) + (Leading(chunk) + b);
      a + (Trailing(existing) + Leading(chunk)) + b;
    }
    MiddleEqualIff(a, " ", Trailing(existing) + Leading(chunk), b);
  }

  lemma MiddleEqualIff(a: string, x: string, y: string, b: string)
    ensures a + x + b == a + y + b <==> x == y
  {
    if a + x + b == a + y + b {
      assert |x| == |y|;
      assert x == (a + x + b)[|a|..|a| + |x|];
      assert y == (a + y + b)[|a|..|a| + |y|];
    }
  }

  lemma {:induction false} AppendAllKeepsText(chunks: seq<string>)
    ensures Squeeze(AppendAll(chunks)) == Squeeze(Concat(chunks))
  {
    if chunks == [] {
    } else {
      var init, c := chunks[..|chunks| - 1], chunks[|chunks| - 1];
      calc {
        Squeeze(AppendAll(chunks));
        { AppendKeepsText(AppendAll(init), c); }
        Squeeze(AppendAll(init)) + Squeeze(c);
        { AppendAllKeepsText(init); SqueezeAppend(Concat(init), c); }
        Squeeze(Concat(init) + c);
        { ConcatSnoc(init, c); assert chunks == init + [c]; }
        Squeeze(Concat(chunks));
      }
    }
  }

  lemma ConcatSnoc(parts: seq<string>, last: string)
    ensures Concat(parts + [last]) == Concat(parts) + last
  {
    ConcatAppend(parts, [last]);
    assert Concat([last]) == last;
  }

  // ---- the ends of a joined text --------------------------------------------------------------

  predicate AllSpace(s: string) { forall i | 0 <= i < |s| :: IsSpace(s[i]) }

  lemma {:induction false} LStripBlankIff(s: string)
    ensures AllSpace(s) <==> LStrip(s) == []
  {
    if s == [] {
    } else {
      LStripBlankIff(s[1..]);
      assert AllSpace(s) <==> IsSpace(s[0]) && AllSpace(s[1..]) by { HeadAndTail(s); }
    }
  }

  lemma HeadAndTail(s: string)
    requires s != []
    ensures AllSpace(s) <==> IsSpace(s[0]) && AllSpace(s[1..])
    ensures AllSpace(s) <==> IsSpace(s[|s| - 1]) && AllSpace(s[..|s| - 1])
  {
    assert forall i | 1 <= i < |s| :: s[i] == s[1..][i - 1];
  }

  lemma {:induction false} RStripBlankIff(s: string)
    ensures AllSpace(s) <==> RStrip(s) == []
  {
    if s == [] {
    } else {
      RStripBlankIff(s[..|s| - 1]);
      HeadAndTail(s);
    }
  }

  lemma {:induction false} SqueezeBlankIff(s: string)
    ensures AllSpace(s) <==> Squeeze(s) == []
  {
    if s == [] {
    } else {
      SqueezeBlankIff(s[1..]);
      HeadAndTail(s);
    }
  }

  lemma {:induction false} LStripKeepsEnd(s: string, suffix: string)
    requires suffix != [] && !IsSpace(suffix[0])
    ensures EndsWith(LStrip(s), suffix) <==> EndsWith(s, suffix)
  {
    if s == [] {
    } else if IsSpace(s[0]) {
      LStripKeepsEnd(s[1..], suffix);
      assert s[0..] == s;
    }
  }

  lemma {:induction false} RStripOfAppend(a: string, b: string)
    requires RStrip(b) != []
    ensures RStrip(a + b) == a + RStrip(b)
  {
    if IsSpace(b[|b| - 1]) {
      assert (a + b)[..|a + b| - 1] == a + b[..|b| - 1];
      RStripOfAppend(a, b[..|b| - 1]);
    }
  }

  lemma EndGrows(a: string, b: string, status: string)
    requires status != [] && !IsSpace(status[0]) && EndsWith(Strip(b), status)
    ensures EndsWith(Strip(a + b), status)
  {
    LStripKeepsEnd(RStrip(b), status);
    RStripOfAppend(a, b);
    LStripKeepsEnd(RStrip(a + b), status);
    var n := |RStrip(b)|;
    assert (a + RStrip(b))[|a| + n - |status|..] == RStrip(b)[n - |status|..];
  }

  lemma EndsWithStatusGrows(a: string, b: string)
    requires EndsWithStatus(b)
    ensures EndsWithStatus(a + b)
  {
    if EndsWith(Strip(b), PARSING) {
      EndGrows(a, b, PARSING);
    } else if EndsWith(Strip(b), DIAGNOSED) {
      EndGrows(a, b, DIAGNOSED);
    } else {
      EndGrows(a, b, REPORTED);
    }
  }

  // ---- white space at the ends ----------------------------------------------------------------

  lemma {:induction false} RStripOverBlank(a: string, b: string)
    requires AllSpace(b)
    ensures RStrip(a + b) == RStrip(a)
  {
    if b == [] {
      assert a + b == a;
    } else {
      assert (a + b)[..|a + b| - 1] == a + b[..|b| - 1];
      RStripOverBlank(a, b[..|b| - 1]);
    }
  }

  lemma TrailingOfAppend(a: string, b: string)
    ensures Trailing(a + b) == if AllSpace(b) then Trailing(a) + b else Trailing(b)
  {
    if AllSpace(b) {
      RStripOverBlank(a, b);
      assert (a + b)[|RStrip(a)|..] == a[|RStrip(a)|..] + b;
    } else {
      RStripBlankIff(b);
      RStripOfAppend(a, b);
    }
  }

  lemma {:induction false} LStripOfAppend(a: string, b: string)
    ensures LStrip(a + b) == if AllSpace(a) then LStrip(b) else LStrip(a) + b
  {
    if a == [] {
      assert a + b == b;
    } else {
      assert (a + b)[1..] == a[1..] + b;
      LStripOfAppend(a[1..], b);
      HeadAndTail(a);
    }
  }

  lemma LeadingOfAppend(a: string, b: string)
    ensures Leading(a + b) == if AllSpace(a) then a + Leading(b) else Leading(a)
  {
    LStripOfAppend(a, b);
    if AllSpace(a) {
      assert (a + b)[..|a| + |b| - |LStrip(b)|] == a + b[..|b| - |LStrip(b)|];
    } else {
      assert (a + b)[..|a| - |LStrip(a)|] == a[..|a| - |LStrip(a)|];
    }
  }

  lemma LeadingOfBlank(s: string)
    requires AllSpace(s)
    ensures Leading(s) == s && Trailing(s) == s
  {
    LStripBlankIff(s);
    RStripBlankIff(s);
    assert s[..|s|] == s;
  }

  lemma StatusIsNotBlank(s: string)
    ensures EndsWithStatus(s) ==> !AllSpace(s)
    ensures IsStatus(s) ==> !AllSpace(s)
  {
    if AllSpace(s) {
      RStripBlankIff(s);
      assert Strip(s) == [];
    }
  }

  /** The two texts have the same characters outside white space and the same white space at their ends. */
  ghost predicate SameEnds(a: string, c: string) {
    Squeeze(a) == Squeeze(c) && Leading(a) == Leading(c) && Trailing(a) == Trailing(c)
  }

  lemma BlankTogether(a: string, c: string)
    requires SameEnds(a, c)
    ensures AllSpace(a) <==> AllSpace(c)
    ensures AllSpace(a) ==> a == c
  {
    SqueezeBlankIff(a);
    SqueezeBlankIff(c);
    if AllSpace(a) {
      LeadingOfBlank(a);
      LeadingOfBlank(c);
    }
  }

  lemma PlainAppendKeepsEnds(a: string, c: string, chunk: string)
    requires SameEnds(a, c)
    ensures SameEnds(a + chunk, c + chunk)
  {
    BlankTogether(a, c);
    SqueezeAppend(a, chunk);
    SqueezeAppend(c, chunk);
    LeadingOfAppend(a, chunk);
    LeadingOfAppend(c, chunk);
    TrailingOfAppend(a, chunk);
    TrailingOfAppend(c, chunk);
  }

  lemma StripsKeepEnds(s: string)
    requires !AllSpace(s)
    ensures !AllSpace(RStrip(s)) && Leading(RStrip(s)) == Leading(s)
    ensures !AllSpace(LStrip(s)) && Trailing(LStrip(s)) == Trailing(s)
  {
    SqueezeStripped(s);
    SqueezeBlankIff(s);
    SqueezeBlankIff(RStrip(s));
    SqueezeBlankIff(LStrip(s));
    RStripSplits(s);
    LStripSplits(s);
    LeadingOfAppend(RStrip(s), Trailing(s));
    TrailingOfAppend(Leading(s), LStrip(s));
  }

  lemma EndsOfMeeting(a: string, chunk: string)
    requires !AllSpace(a) && !AllSpace(chunk)
    ensures Squeeze(RStrip(a) + " " + LStrip(chunk)) == Squeeze(a) + Squeeze(chunk)
    ensures Leading(RStrip(a) + " " + LStrip(chunk)) == Leading(a)
    ensures Trailing(RStrip(a) + " " + LStrip(chunk)) == Trailing(chunk)
  {
    var l, r := RStrip(a), LStrip(chunk);
    StripsKeepEnds(a);
    StripsKeepEnds(chunk);
    SqueezeStripped(a);
    SqueezeStripped(chunk);
    SqueezeWithBlank(l, r);
    TrailingOfAppend(l + " ", r);
    LeadingOfAppend(l, " " + r);
    Regroup(l, " ", r);
  }

  lemma MeetingAppendKeepsEnds(a: string, c: string, chunk: string)
    requires SameEnds(a, c) && !AllSpace(a) && !AllSpace(chunk)
    ensures SameEnds(RStrip(a) + " " + LStrip(chunk), c + chunk)
  {
    BlankTogether(a, c);
    EndsOfMeeting(a, chunk);
    SqueezeAppend(c, chunk);
    LeadingOfAppend(c, chunk);
    TrailingOfAppend(c, chunk);
  }

  /** Joining keeps the white space at both ends of the text. */
  lemma {:induction false} AppendAllKeepsEnds(chunks: seq<string>)
    ensures SameEnds(AppendAll(chunks), Concat(chunks))
  {
    if chunks == [] {
    } else {
      var init, last := chunks[..|chunks| - 1], chunks[|chunks| - 1];
      var a, c := AppendAll(init), Concat(init);
      AppendAllKeepsEnds(init);
      ConcatInit(chunks);
      if EndsWithStatus(a) && IsStatus(last) {
        StatusIsNotBlank(a);
        StatusIsNotBlank(last);
        MeetingAppendKeepsEnds(a, c, last);
      } else {
        PlainAppendKeepsEnds(a, c, last);
      }
    }
  }

  lemma ConcatInit(parts: seq<string>)
    requires parts != []
    ensures Concat(parts) == Concat(parts[..|parts| - 1]) + parts[|parts| - 1]
  {
    ConcatSnoc(parts[..|parts| - 1], parts[|parts| - 1]);
    assert parts[..|parts| - 1] + [parts[|parts| - 1]] == parts;
  }

  // ---- when joining is exact ------------------------------------------------------------------

  /** A status follows text that ends with a status, and something else than one blank lies between. */
  ghost predicate Clash(existing: string, chunk: string) {
    EndsWithStatus(existing) && IsStatus(chunk) && Trailing(existing) + Leading(chunk) != " "
  }

  ghost predicate ClashAt(chunks: seq<string>, i: nat)
    requires i < |chunks|
  {
    Clash(Concat(chunks[..i]), chunks[i])
  }

  ghost predicate Smooth(chunks: seq<string>) { forall i | 0 <= i < |chunks| :: !ClashAt(chunks, i) }

  lemma ClashInPrefix(chunks: seq<string>, i: nat, n: nat)
    requires i < n <= |chunks|
    ensures ClashAt(chunks[..n], i) == ClashAt(chunks, i)
  {
    PrefixOfPrefix(chunks, i, n);
  }

  lemma SmoothPrefix(chunks: seq<string>, n: nat)
    requires n <= |chunks| && Smooth(chunks)
    ensures Smooth(chunks[..n])
  {
    forall i | 0 <= i < n ensures !ClashAt(chunks[..n], i) {
      ClashInPrefix(chunks, i, n);
    }
  }

  lemma SmoothLast(chunks: seq<string>)
    requires chunks != [] && Smooth(chunks[..|chunks| - 1]) && !ClashAt(chunks, |chunks| - 1)
    ensures Smooth(chunks)
  {
    forall i | 0 <= i < |chunks| ensures !ClashAt(chunks, i) {
      if i < |chunks| - 1 {
        ClashInPrefix(chunks, i, |chunks| - 1);
      }
    }
  }

  lemma SmoothStep(chunks: seq<string>)
    requires chunks != []
    ensures Smooth(chunks) <==> Smooth(chunks[..|chunks| - 1]) && !ClashAt(chunks, |chunks| - 1)
  {
    if Smooth(chunks) {
      SmoothPrefix(chunks, |chunks| - 1);
    }
    if Smooth(chunks[..|chunks| - 1]) && !ClashAt(chunks, |chunks| - 1) {
      SmoothLast(chunks);
    }
  }

  /** Equality of joined and plain text can be cancelled: the texts before the last chunk are equal. */
  lemma CancelChunk(a: string, c: string, chunk: string)
    requires SameEnds(a, c) && AppendChunk(a, chunk) == c + chunk
    ensures a == c
  {
    if EndsWithStatus(a) && IsStatus(chunk) {
      LStripSplits(chunk);
      assert RStrip(a) + " " + LStrip(chunk) == c + Leading(chunk) + LStrip(chunk);
      CancelTail(RStrip(a) + " ", c + Leading(chunk), LStrip(chunk));
      StrippedAlike(a, c, chunk);
    } else {
      CancelTail(a, c, chunk);
    }
  }

  lemma CancelTail(a: string, c: string, tail: string)
    requires a + tail == c + tail
    ensures a == c
  {
    assert |a| == |c|;
    assert a == (a + tail)[..|a|] && c == (c + tail)[..|c|];
  }

  lemma StrippedAlike(a: string, c: string, chunk: string)
    requires SameEnds(a, c) && RStrip(a) + " " == c + Leading(chunk)
    ensures a == c
  {
    LStripSplits(chunk);
    SqueezeBlankIff(Leading(chunk));
    RStripOverBlank(c, Leading(chunk));
    RStripOverBlank(RStrip(a), " ");
    RStripTwice(a);
    RStripSplits(a);
    RStripSplits(c);
  }

  lemma {:induction false} RStripTwice(s: string)
    ensures RStrip(RStrip(s)) == RStrip(s)
  {
    if s == [] {
    } else if IsSpace(s[|s| - 1]) {
      RStripTwice(s[..|s| - 1]);
    }
  }

  /** A batch is joined by plain concatenation exactly when no status in it follows a status, unless
      one blank lies between them. */
  lemma {:induction false} BatchIsConcatIff(chunks: seq<string>)
    ensures AppendAll(chunks) == Concat(chunks) <==> Smooth(chunks)
  {
    if chunks == [] {
    } else {
      var init, last := chunks[..|chunks| - 1], chunks[|chunks| - 1];
      BatchIsConcatIff(init);
      ConcatInit(chunks);
      SmoothStep(chunks);
      AppendAllKeepsEnds(init);
      if AppendAll(chunks) == Concat(chunks) {
        CancelChunk(AppendAll(init), Concat(init), last);
      }
      AppendIsConcatIff(Concat(init), last);
    }
  }

  /** In a longer text, two texts with the same ends that are followed by nothing are equal as soon as
      the whole texts are. */
  lemma CancelBatch(front: string, a: string, front': string, c: string)
    requires SameEnds(a, c) && front + a == front' + c
    ensures a == c
  {
    if |a| <= |c| {
      SuffixWithSameEnds(front, a, front', c);
    } else {
      SuffixWithSameEnds(front', c, front, a);
    }
  }

  lemma SuffixWithSameEnds(front: string, a: string, front': string, c: string)
    requires SameEnds(a, c) && front + a == front' + c && |a| <= |c|
    ensures a == c
  {
    var n := |c| - |a|;
    var more := c[..n];
    assert c == (front' + c)[|front'|..];
    assert a == (front + a)[|front|..] == c[n..];
    assert c == more + a;
    SqueezeAppend(more, a);
    SqueezeBlankIff(more);
    LeadingOfAppend(more, a);
    assert |Leading(c)| == |more| + |Leading(a)|;
  }

  // ---- without adjacent statuses --------------------------------------------------------------

  /** No status chunk follows text that ends with a status. */
  ghost predicate NoMeeting(chunks: seq<string>) {
    forall i | 0 <= i < |chunks| :: IsStatus(chunks[i]) ==> !EndsWithStatus(Concat(chunks[..i]))
  }

  lemma NoMeetingPrefix(chunks: seq<string>, n: nat)
    requires n <= |chunks| && NoMeeting(chunks)
    ensures NoMeeting(chunks[..n])
  {
    forall i | 0 <= i < n && IsStatus(chunks[..n][i]) ensures !EndsWithStatus(Concat(chunks[..n][..i])) {
      assert chunks[..n][..i] == chunks[..i];
    }
  }

  /** Wherever a batch starts in a sequence of such chunks, it is joined by plain concatenation. */
  lemma BatchIsSmooth(before: seq<string>, batch: seq<string>)
    requires NoMeeting(before + batch)
    ensures Smooth(batch)
  {
    var all := before + batch;
    forall i | 0 <= i < |batch| && IsStatus(batch[i]) ensures !EndsWithStatus(Concat(batch[..i])) {
      assert all[|before| + i] == batch[i] && all[..|before| + i] == before + batch[..i];
      NotMet(before, batch[..i], batch[i]);
    }
  }

  lemma NotMet(before: seq<string>, init: seq<string>, c: string)
    requires IsStatus(c) ==> !EndsWithStatus(Concat(before + init))
    ensures IsStatus(c) ==> !EndsWithStatus(Concat(init))
  {
    ConcatAppend(before, init);
    if EndsWithStatus(Concat(init)) {
      EndsWithStatusGrows(Concat(before), Concat(init));
    }
  }
}
