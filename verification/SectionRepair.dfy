/** The repair of the TopSQL section of a fault report: when the section between its two marks does
    not hold every shown SQL in full, it is replaced by text built from the evidence. */
module SectionRepair {
  import opened Seqs
  import opened Text
  import opened Search
  import opened Fence

  const START := "【TopSQL发现】"
  const END := "### 五、优化建议"
  const GAP := "\n\n"
  const SHOWN := 2

  // ---- the evidence and its text --------------------------------------------------------------

  predicate IsNumberText(s: string) { forall i | 0 <= i < |s| :: s[i] in "0123456789.+-einfa" }

  /** A number as the report prints it. */
  type NumberText = s: string | IsNumberText(s)

  datatype Record = Record(database: string, count: NumberText, average: NumberText, total: NumberText, sql: string)

  /** What was found out about the slowest statements; `error` is empty when there is no message. */
  datatype TopSqlEvidence = TopSqlEvidence(success: bool, rows: seq<Record>, error: string)

  function Decimal(n: nat): (s: NumberText)
    ensures s != []
  {
    if n < 10 then ["0123456789"[n]] else Decimal(n / 10) + ["0123456789"[n % 10]]
  }

  function Shown(records: seq<Record>): (shown: seq<Record>) {
    if |records| <= SHOWN then records else records[..SHOWN]
  }

  function DatabaseLine(index: nat, record: Record): string {
    Decimal(index) + ". 数据库：" + (if record.database == [] then "未知" else record.database)
  }

  function CountsLine(record: Record): string {
    "   执行次数：" + record.count + "，平均执行时间(s)：" + record.average + "，总执行时间(s)：" + record.total
  }

  const SQL_LINE := "   SQL："

  function Entry(index: nat, record: Record): seq<string> {
    [DatabaseLine(index, record), CountsLine(record), SQL_LINE, CodeBlock(record.sql)]
  }

  /** The rows for the records, numbered from 1. */
  function Entries(records: seq<Record>): seq<string> {
    if records == [] then []
    else
      Entries(records[..|records| - 1]) + Entry(|records|, records[|records| - 1])
  }

  function Footer(records: seq<Record>): string {
    "TopSQL 分析：共获取 " + Decimal(|records|) + " 条，展示前 " + Decimal(|Shown(records)|) + " 条。"
  }

  function Rows(records: seq<Record>): seq<string> {
    Entries(Shown(records)) + ["", Footer(records)]
  }

  function Expected(records: seq<Record>): string { JoinLines(Rows(records)) }

  lemma FourRows(before: seq<string>, a: string, b: string, c: string, d: string)
    ensures before + [a] + [b] + [c] + [d] == before + [a, b, c, d]
  {
  }

  predicate Usable(evidence: TopSqlEvidence) { evidence.success && evidence.rows != [] }

  function Unavailable(error: string): string {
    "未获取到有效 TopSQL。错误：" + if error == "" then "unknown" else error
  }

  /** `_top_sql_markdown`. */
  method TopSqlMarkdown(evidence: TopSqlEvidence) returns (markdown: string)
    ensures markdown == if Usable(evidence) then Expected(evidence.rows) else Unavailable(evidence.error)
  {
    if !evidence.success || evidence.rows == [] {
      return Unavailable(evidence.error);
    }
    var records := evidence.rows;
    var rows: seq<string> := [];
    var shown := Shown(records);
    for i := 0 to |shown|
      invariant rows == Entries(shown[..i])
    {
      assert shown[..i + 1][..i] == shown[..i];
      ghost var before := rows;
      rows := rows + [DatabaseLine(i + 1, shown[i])];
      rows := rows + [CountsLine(shown[i])];
      rows := rows + [SQL_LINE];
      var block := SqlCodeBlock(shown[i].sql);
      rows := rows + [block];
      FourRows(before, DatabaseLine(i + 1, shown[i]), CountsLine(shown[i]), SQL_LINE, block);
    }
    assert shown[..|shown|] == shown;
    rows := rows + [""];
    rows := rows + [Footer(records)];
    assert rows == Rows(records);
    markdown := JoinLines(rows);
  }

  // ---- finding and replacing the section ------------------------------------------------------

  /** Where the section starts: behind the first start mark. */
  function SectionStart(markdown: string): (n: nat)
    requires Contains(markdown, START)
    ensures n <= |markdown|
  {
    Find(markdown, START, 0) + |START|
  }

  /** Where the section ends: at the next end mark, or where the report does. */
  function SectionEnd(markdown: string): (n: nat)
    requires Contains(markdown, START)
    ensures SectionStart(markdown) <= n <= |markdown|
  {
    var e := Find(markdown, END, SectionStart(markdown));
    if e < 0 then |markdown| else e
  }

  /** `_section_after_marker`. */
  function Section(markdown: string): string {
    if Find(markdown, START, 0) < 0 then []
    else Strip(markdown[SectionStart(markdown)..SectionEnd(markdown)])
  }

  /** `_replace_between_markers`. */
  function Replace(markdown: string, replacement: string): string {
    if Find(markdown, START, 0) < 0 then markdown
    else
      var before := RStrip(markdown[..SectionStart(markdown)]);
      var after := LStrip(markdown[SectionEnd(markdown)..]);
      Strip(before + "\n" + Strip(replacement) + GAP + after)
  }

  ghost predicate HasFullSql(markdown: string, records: seq<Record>) {
    Section(markdown) != [] && HoldsFirst(Section(markdown), Shown(records), |Shown(records)|)
  }

  /** The first `n` SQLs stand in the section. */
  ghost predicate HoldsFirst(section: string, shown: seq<Record>, n: nat)
    requires n <= |shown|
  {
    forall i | 0 <= i < n :: Contains(section, CodeBlock(shown[i].sql))
  }

  /** `_top_sql_finding_has_full_sql`. */
  method TopSqlFindingHasFullSql(markdown: string, records: seq<Record>) returns (full: bool)
    ensures full <==> HasFullSql(markdown, records)
  {
    var section := Section(markdown);
    if section == [] {
      return false;
    }
    full := HoldsBlocks(section, Shown(records));
  }

  method HoldsBlocks(section: string, shown: seq<Record>) returns (all: bool)
    ensures all <==> HoldsFirst(section, shown, |shown|)
  {
    for i := 0 to |shown|
      invariant HoldsFirst(section, shown, i)
    {
      var block := SqlCodeBlock(shown[i].sql);
      if !Contains(section, block) {
        return false;
      }
    }
    all := true;
  }

  ghost function Ensured(markdown: string, records: seq<Record>): string {
    if records == [] || HasFullSql(markdown, records) then markdown else Replace(markdown, Expected(records))
  }

  /** `_ensure_top_sql_finding_section`. */
  method EnsureTopSqlFindingSection(markdown: string, evidence: TopSqlEvidence) returns (repaired: string)
    ensures repaired == if evidence.success then Ensured(markdown, evidence.rows) else markdown
  {
    if !evidence.success || evidence.rows == [] {
      return markdown;
    }
    var expected := TopSqlMarkdown(evidence);
    var full := TopSqlFindingHasFullSql(markdown, evidence.rows);
    if full {
      return markdown;
    }
    repaired := Replace(markdown, expected);
  }

  // ---- the text that is put in ----------------------------------------------------------------

  lemma DatabaseLineStarts(record: Record)
    ensures DatabaseLine(1, record) != [] && !IsSpace(DatabaseLine(1, record)[0])
  {
    assert DatabaseLine(1, record)[0] == Decimal(1)[0] == '1';
  }

  lemma {:induction false} EntriesStartWithDigit(records: seq<Record>)
    requires 0 < |records| <= SHOWN
    ensures Entries(records) != [] && Entries(records)[0] != []
    ensures !IsSpace(Entries(records)[0][0])
  {
    if |records| == 1 {
      DatabaseLineStarts(records[0]);
      assert Entries(records[..0]) == [];
    } else {
      EntriesStartWithDigit(records[..|records| - 1]);
    }
  }

  lemma {:induction false} JoinEnds(lines: seq<string>)
    requires |lines| > 1 && lines[0] != [] && lines[|lines| - 1] != []
    ensures JoinLines(lines) != [] && JoinLines(lines)[0] == lines[0][0]
    ensures JoinLines(lines)[|JoinLines(lines)| - 1] == lines[|lines| - 1][|lines[|lines| - 1]| - 1]
  {
    var rest := lines[1..];
    if |rest| == 1 {
      assert JoinLines(rest) == rest[0];
    } else {
      JoinLast(rest);
    }
  }

  lemma {:induction false} JoinLast(lines: seq<string>)
    requires lines != [] && lines[|lines| - 1] != []
    ensures JoinLines(lines) != []
    ensures JoinLines(lines)[|JoinLines(lines)| - 1] == lines[|lines| - 1][|lines[|lines| - 1]| - 1]
  {
    if |lines| == 1 {
      assert JoinLines(lines) == lines[0];
    } else {
      JoinLast(lines[1..]);
      JoinLinesStep(lines);
      LastOf(lines[0] + "\n", JoinLines(lines[1..]));
    }
  }

  lemma ExpectedIsTight(records: seq<Record>)
    requires records != []
    ensures Tight(Expected(records))
  {
    var rows := Rows(records);
    EntriesStartWithDigit(Shown(records));
    assert rows[0] == Entries(Shown(records))[0];
    var footer := Footer(records);
    assert rows[|rows| - 1] == footer && footer[|footer| - 1] == '。';
    JoinEnds(rows);
  }

  lemma {:induction false} EntriesHaveBlocks(records: seq<Record>, i: nat)
    requires i < |records|
    ensures CodeBlock(records[i].sql) in Entries(records)
  {
    if i < |records| - 1 {
      EntriesHaveBlocks(records[..|records| - 1], i);
    } else {
      assert Entries(records)[|Entries(records)| - 1] == CodeBlock(records[i].sql);
    }
  }

  /** The text put in holds the fenced block of every shown SQL. */
  lemma ExpectedHasBlocks(records: seq<Record>, i: nat)
    requires i < |Shown(records)|
    ensures Contains(Expected(records), CodeBlock(Shown(records)[i].sql))
  {
    EntriesHaveBlocks(Shown(records), i);
    var rows := Rows(records);
    assert CodeBlock(Shown(records)[i].sql) in rows;
    var k :| 0 <= k < |rows| && rows[k] == CodeBlock(Shown(records)[i].sql);
    JoinContainsEach(rows, k);
  }

  // ---- that text in full ----------------------------------------------------------------------

  /** The number a decimal text stands for. */
  function Value(s: string): int
    requires forall i | 0 <= i < |s| :: '0' <= s[i] <= '9'
  {
    if s == [] then 0 else 10 * Value(s[..|s| - 1]) + (s[|s| - 1] - '0') as int
  }

  lemma {:induction false} DecimalReads(n: nat)
    ensures forall i | 0 <= i < |Decimal(n)| :: '0' <= Decimal(n)[i] <= '9'
    ensures Value(Decimal(n)) == n
  {
    DigitReads(n % 10);
    if n < 10 {
      assert Value([]) == 0;
    } else {
      DecimalReads(n / 10);
      assert Decimal(n)[..|Decimal(n)| - 1] == Decimal(n / 10);
    }
  }

  lemma DigitReads(n: nat)
    requires n < 10
    ensures var digit := "0123456789"[n]; '0' <= digit <= '9' && (digit - '0') as int == n
  {
  }

  /** What is shown of one record. */
  function Paragraph(number: string, record: Record): string {
    number + ". 数据库：" + (if record.database != "" then record.database else "未知") + "\n"
    + "   执行次数：" + record.count + "，平均执行时间(s)：" + record.average + "，总执行时间(s)：" + record.total + "\n"
    + "   SQL：\n"
    + CodeBlock(record.sql) + "\n"
  }

  lemma {:induction false} JoinLinesAppend(a: seq<string>, b: seq<string>)
    requires a != [] && b != []
    ensures JoinLines(a + b) == JoinLines(a) + "\n" + JoinLines(b)
  {
    if |a| == 1 {
      assert (a + b)[1..] == b;
    } else {
      assert (a + b)[1..] == a[1..] + b;
      JoinLinesAppend(a[1..], b);
      Regroup(a[0] + "\n", JoinLines(a[1..]) + "\n", JoinLines(b));
      assert a[0] + "\n" + (JoinLines(a[1..]) + "\n" + JoinLines(b)) == JoinLines(a) + "\n" + JoinLines(b);
    }
  }

  lemma JoinTwo(a: string, b: string)
    ensures JoinLines([a, b]) == a + "\n" + b
  {
    assert [a, b][1..] == [b];
  }

  lemma JoinFour(a: string, b: string, c: string, d: string)
    ensures JoinLines([a, b, c, d]) == a + "\n" + b + "\n" + c + "\n" + d
  {
    JoinLinesAppend([a, b], [c, d]);
    assert [a, b] + [c, d] == [a, b, c, d];
    JoinTwo(a, b);
    JoinTwo(c, d);
    assert a + "\n" + b + "\n" + (c + "\n" + d) == a + "\n" + b + "\n" + c + "\n" + d;
  }

  lemma EntryIsParagraph(index: nat, record: Record)
    ensures JoinLines(Entry(index, record)) + "\n" == Paragraph(Decimal(index), record)
  {
    JoinFour(DatabaseLine(index, record), CountsLine(record), SQL_LINE, CodeBlock(record.sql));
  }

  function Counts(records: seq<Record>): string {
    "TopSQL 分析：共获取 " + Decimal(|records|) + " 条，展示前 " + (if |records| > 1 then "2" else "1") + " 条。"
  }

  lemma FooterIsCounts(records: seq<Record>)
    requires records != []
    ensures Footer(records) == Counts(records)
  {
    assert Decimal(1) == "1" && Decimal(2) == "2";
  }

  lemma BehindEntries(entries: seq<string>, footer: string)
    requires entries != []
    ensures JoinLines(entries + ["", footer]) == JoinLines(entries) + "\n" + "\n" + footer
  {
    JoinLinesAppend(entries, ["", footer]);
    assert ["", footer][1..] == [footer];
    var text := JoinLines(entries);
    assert text + "\n" + ("" + "\n" + footer) == text + "\n" + "\n" + footer;
  }

  /** The whole text: a paragraph for each of the first two records, an empty line, and the counts of the
      records there are and of those shown. */
  lemma ExpectedReads(records: seq<Record>)
    requires records != []
    ensures |records| == 1 ==> Expected(records) == Paragraph("1", records[0]) + "\n" + Counts(records)
    ensures |records| > 1 ==>
              Expected(records) == Paragraph("1", records[0]) + Paragraph("2", records[1]) + "\n" + Counts(records)
  {
    FooterIsCounts(records);
    if |records| == 1 {
      OneEntry(Shown(records));
      ParagraphsOf([records[0]]);
    } else {
      TwoEntries(Shown(records));
      ParagraphsOf([records[0], records[1]]);
    }
    BehindEntries(Entries(Shown(records)), Footer(records));
  }

  lemma ParagraphsOf(records: seq<Record>)
    requires 1 <= |records| <= 2
    ensures |records| == 1 ==> JoinLines(Entry(1, records[0])) + "\n" == Paragraph("1", records[0])
    ensures |records| == 2 ==>
              JoinLines(Entry(1, records[0]) + Entry(2, records[1])) + "\n"
              == Paragraph("1", records[0]) + Paragraph("2", records[1])
  {
    assert Decimal(1) == "1" && Decimal(2) == "2";
    EntryIsParagraph(1, records[0]);
    if |records| == 2 {
      EntryIsParagraph(2, records[1]);
      TwoJoined(Entry(1, records[0]), Entry(2, records[1]));
    }
  }

  lemma TwoJoined(a: seq<string>, b: seq<string>)
    requires a != [] && b != []
    ensures JoinLines(a + b) + "\n" == JoinLines(a) + "\n" + (JoinLines(b) + "\n")
  {
    JoinLinesAppend(a, b);
    Regroup(JoinLines(a) + "\n", JoinLines(b), "\n");
  }

  lemma OneEntry(records: seq<Record>)
    requires |records| == 1
    ensures Entries(records) == Entry(1, records[0])
  {
    assert records[..0] == [];
  }

  lemma TwoEntries(records: seq<Record>)
    requires |records| == 2
    ensures Entries(records) == Entry(1, records[0]) + Entry(2, records[1])
  {
    OneEntry(records[..1]);
  }

  // ---- the section in the report --------------------------------------------------------------

  /** The section is what stands, stripped, between the first start mark and the next end mark, or the end of
      the report; without a start mark it is empty. */
  lemma SectionBetween(markdown: string) returns (before: string, between: string, after: string)
    ensures Contains(markdown, START) ==>
              && markdown == before + START + between + after && Section(markdown) == Strip(between)
              && (forall i | 0 <= i < |before| :: !At(markdown, START, i)) && !Contains(between, END)
              && (after == [] || At(after, END, 0))
    ensures !Contains(markdown, START) ==> Section(markdown) == []
  {
    before, between, after := [], [], [];
    var at := Find(markdown, START, 0);
    if at >= 0 {
      var n, e := SectionStart(markdown), SectionEnd(markdown);
      before, between, after := markdown[..at], markdown[n..e], markdown[e..];
      FourParts(markdown, at, n, e);
      BetweenLacksEnd(markdown);
      AfterStartsWithEnd(markdown);
    }
  }

  lemma FourParts(s: string, a: nat, b: nat, c: nat)
    requires a <= b <= c <= |s|
    ensures s == s[..a] + s[a..b] + s[b..c] + s[c..]
  {
  }

  lemma BetweenLacksEnd(markdown: string)
    requires Contains(markdown, START)
    ensures !Contains(markdown[SectionStart(markdown)..SectionEnd(markdown)], END)
  {
    var n, e := SectionStart(markdown), SectionEnd(markdown);
    if Contains(markdown[n..e], END) {
      var i :| 0 <= i <= e - n && At(markdown[n..e], END, i);
      AtInSlice(markdown, END, n + i, n, e);
    }
  }

  lemma AfterStartsWithEnd(markdown: string)
    requires Contains(markdown, START)
    ensures markdown[SectionEnd(markdown)..] == [] || At(markdown[SectionEnd(markdown)..], END, 0)
  {
  }

  /** The test passes exactly when the section is not empty and holds the fenced SQL of each of the first two
      records. */
  lemma HasFullSqlIff(markdown: string, records: seq<Record>)
    ensures HasFullSql(markdown, records) <==>
              && Section(markdown) != []
              && forall i | 0 <= i < |records| && i < 2 :: Contains(Section(markdown), CodeBlock(records[i].sql))
  {
    forall i | 0 <= i < |records| && i < 2 ensures i < |Shown(records)| && Shown(records)[i] == records[i] {}
  }

  // ---- marks in that text ---------------------------------------------------------------------

  lemma PlainLacksEnd(plain: string)
    requires '#' !in plain
    ensures !Contains(plain, END)
  {
    ContainsAfterPlain(plain, [], END);
    assert plain + [] == plain;
  }

  lemma BlockContainsEndIff(sql: string)
    ensures Contains(CodeBlock(sql), END) <==> Contains(Strip(sql), END)
  {
    var ticks, value := Ticks(FenceLength(sql)), Strip(sql);
    PlainLacksEnd(ticks);
    PlainLacksEnd(ticks + "sql");
    ContainsAcrossBreak(value, ticks, END);
    ContainsAcrossBreak(ticks + "sql", value + "\n" + ticks, END);
    assert CodeBlock(sql) == (ticks + "sql") + "\n" + (value + "\n" + ticks);
  }

  lemma {:induction false} DecimalIsNumber(n: nat)
    ensures '#' !in Decimal(n)
  {
  }

  lemma DatabaseLineContainsEndIff(index: nat, record: Record)
    ensures Contains(DatabaseLine(index, record), END) <==> Contains(record.database, END)
  {
    var name := if record.database == [] then "未知" else record.database;
    PlainLacksEnd("未知");
    PlainLacksEnd([]);
    ContainsAfterPlain(Decimal(index) + ". 数据库：", name, END);
  }

  ghost predicate RecordHasEnd(record: Record) {
    Contains(record.database, END) || Contains(Strip(record.sql), END)
  }

  ghost predicate AnyRecordHasEnd(records: seq<Record>) {
    exists i | 0 <= i < |records| :: RecordHasEnd(records[i])
  }

  lemma AnyContainsAppend(a: seq<string>, b: seq<string>, mark: string)
    ensures AnyContains(a + b, mark) <==> AnyContains(a, mark) || AnyContains(b, mark)
  {
    var all := a + b;
    assert forall i | 0 <= i < |a| :: all[i] == a[i];
    assert forall i | 0 <= i < |b| :: all[|a| + i] == b[i];
  }

  lemma OneEntryContainsEndIff(index: nat, record: Record)
    ensures AnyContains(Entry(index, record), END) <==> RecordHasEnd(record)
  {
    DatabaseLineContainsEndIff(index, record);
    CountsLackEnd(record);
    PlainLacksEnd(SQL_LINE);
    BlockContainsEndIff(record.sql);
    AnyOfFour(DatabaseLine(index, record), CountsLine(record), SQL_LINE, CodeBlock(record.sql));
  }

  lemma CountsLackEnd(record: Record)
    ensures !Contains(CountsLine(record), END)
  {
    NumbersArePlain(record.count);
    NumbersArePlain(record.average);
    NumbersArePlain(record.total);
    assert '#' !in "   执行次数：" && '#' !in "，平均执行时间(s)：" && '#' !in "，总执行时间(s)：";
    PlainLacksEnd(CountsLine(record));
  }

  lemma NumbersArePlain(n: NumberText)
    ensures '#' !in n
  {
  }

  lemma AnyOfFour(a: string, b: string, c: string, d: string)
    ensures AnyContains([a, b, c, d], END)
       <==> Contains(a, END) || Contains(b, END) || Contains(c, END) || Contains(d, END)
  {
    var lines := [a, b, c, d];
    assert lines[0] == a && lines[1] == b && lines[2] == c && lines[3] == d;
  }

  lemma AnyRecordStep(records: seq<Record>)
    requires records != []
    ensures AnyRecordHasEnd(records)
       <==> AnyRecordHasEnd(records[..|records| - 1]) || RecordHasEnd(records[|records| - 1])
  {
    var before := records[..|records| - 1];
    assert forall i | 0 <= i < |before| :: before[i] == records[i];
  }

  lemma {:induction false} EntriesContainEndIff(records: seq<Record>)
    ensures AnyContains(Entries(records), END) <==> AnyRecordHasEnd(records)
  {
    if records == [] {
    } else {
      var before, record := records[..|records| - 1], records[|records| - 1];
      EntriesContainEndIff(before);
      OneEntryContainsEndIff(|records|, record);
      AnyContainsAppend(Entries(before), Entry(|records|, record), END);
      AnyRecordStep(records);
    }
  }

  lemma ExpectedContainsEndIff(records: seq<Record>)
    ensures Contains(Expected(records), END) <==> AnyRecordHasEnd(Shown(records))
  {
    EntriesContainEndIff(Shown(records));
    FooterLacksEnd(records);
    AnyContainsAppend(Entries(Shown(records)), ["", Footer(records)], END);
    JoinContains(Rows(records), END);
  }

  lemma FooterLacksEnd(records: seq<Record>)
    ensures !AnyContains(["", Footer(records)], END)
  {
    DecimalIsNumber(|records|);
    DecimalIsNumber(|Shown(records)|);
    PlainLacksEnd([]);
    PlainLacksEnd(Footer(records));
  }

  // ---- what a replacement makes of a report ---------------------------------------------------

  /** What follows the section, set off by an empty line. */
  function Tail(after: string): string {
    if after == [] then [] else GAP + RStrip(after)
  }

  /** The replaced report, given what stands before and behind the section. */
  function Rebuilt(before: string, replacement: string, after: string): string {
    before + ("\n" + replacement + Tail(after))
  }

  function Head(markdown: string): string
    requires Contains(markdown, START)
  {
    markdown[..SectionStart(markdown)]
  }

  function After(markdown: string): string
    requires Contains(markdown, START)
  {
    markdown[SectionEnd(markdown)..]
  }

  /** `head` ends with its first start mark. */
  ghost predicate Marked(head: string) {
    && |START| <= |head| && head[|head| - |START|..] == START
    && forall j | 0 <= j < |head| - |START| :: !At(head, START, j)
  }

  lemma HeadIsMarked(markdown: string)
    requires Contains(markdown, START)
    ensures Marked(Head(markdown))
  {
    var head, k := Head(markdown), Find(markdown, START, 0);
    assert head[k..] == markdown[k..k + |START|] == START;
    forall j | 0 <= j < |head| - |START| ensures !At(head, START, j) {
      AtInSlice(markdown, START, j, 0, |head|);
      assert markdown[0..|head|] == head;
    }
  }

  lemma MarkIsTight(head: string)
    requires Marked(head)
    ensures !IsSpace(head[|head| - 1]) && !IsSpace(head[|head| - |START|])
  {
    assert head[|head| - |START|..][|START| - 1] == START[|START| - 1] == '】';
    assert head[|head| - |START|..][0] == START[0] == '【';
  }

  lemma LStripKeepsMarked(head: string)
    requires Marked(head)
    ensures Marked(LStrip(head)) && LStrip(LStrip(head)) == LStrip(head)
  {
    MarkIsTight(head);
    LStripParts(head);
    var n := |head| - |LStrip(head)|;
    var kept := head[n..];
    LStripStops(head, |head| - |START|);
    assert kept[|kept| - |START|..] == head[|head| - |START|..];
    forall j | 0 <= j < |kept| - |START| ensures !At(kept, START, j) {
      AtInSlice(head, START, n + j, n, |head|);
      assert head[n..|head|] == kept;
    }
  }

  lemma AfterIsEmptyOrEnd(markdown: string)
    requires Contains(markdown, START)
    ensures After(markdown) == [] || At(After(markdown), END, 0)
    ensures LStrip(After(markdown)) == After(markdown)
  {
    var after, e := After(markdown), SectionEnd(markdown);
    if after != [] {
      assert After(markdown)[..|END|] == markdown[e..e + |END|];
      assert after[0] == END[0] == '#';
    }
  }

  lemma StripRebuilt(before: string, replacement: string, after: string)
    requires before != [] && !IsSpace(before[|before| - 1]) && Tight(replacement)
    requires after == [] || !IsSpace(after[0])
    ensures RStrip(before + "\n" + replacement + GAP + after) == Rebuilt(before, replacement, after)
  {
    var kept := before + "\n" + replacement;
    assert kept[|kept| - 1] == replacement[|replacement| - 1];
    StripTail(kept, after);
    RebuiltParts(before, replacement, after);
  }

  lemma RebuiltParts(before: string, replacement: string, after: string)
    ensures Rebuilt(before, replacement, after) == before + "\n" + replacement + Tail(after)
    ensures Rebuilt(before, replacement, after) == before + "\n" + (replacement + Tail(after))
  {
  }

  lemma StripTail(kept: string, after: string)
    requires kept != [] && !IsSpace(kept[|kept| - 1])
    requires after == [] || !IsSpace(after[0])
    ensures RStrip(kept + GAP + after) == kept + Tail(after)
  {
    if after == [] {
      StripGap(kept);
    } else {
      RStripBehind(kept + GAP, after);
      Regroup(kept, GAP, RStrip(after));
    }
  }

  lemma StripGap(kept: string)
    requires kept != [] && !IsSpace(kept[|kept| - 1])
    ensures RStrip(kept + GAP + []) == kept + []
  {
    assert kept + GAP + [] == kept + GAP && kept + [] == kept;
    RStripPast(kept, GAP);
  }

  lemma RStripBehind(front: string, s: string)
    requires s != [] && !IsSpace(s[0])
    ensures RStrip(front + s) == front + RStrip(s)
  {
    RStripParts(s);
    RStripStops(s, 0);
    var kept, blank := RStrip(s), s[|RStrip(s)|..];
    assert (front + kept)[|front + kept| - 1] == kept[|kept| - 1];
    RStripPast(front + kept, blank);
    assert front + s == front + kept + blank;
  }

  /** Outside the section a replacement changes white space only: leading white space of the report,
      the white space in front of the end mark, and trailing white space. */
  lemma ReplaceKeepsOutside(markdown: string, replacement: string)
    requires Contains(markdown, START) && Tight(replacement)
    ensures Replace(markdown, replacement) == Rebuilt(LStrip(Head(markdown)), replacement, After(markdown))
  {
    var head, after := Head(markdown), After(markdown);
    HeadIsMarked(markdown);
    MarkIsTight(head);
    AfterIsEmptyOrEnd(markdown);
    StripTight(replacement);
    RStripPast(head, []);
    assert head + [] == head;
    StripRebuilt(head, replacement, after);
    LStripRebuilt(head, replacement, after);
  }

  lemma StripTight(s: string)
    requires Tight(s)
    ensures Strip(s) == s
  {
    StripPast([], s, []);
    assert [] + s + [] == s;
  }

  lemma LStripRebuilt(head: string, replacement: string, after: string)
    requires head != [] && !IsSpace(head[|head| - 1])
    ensures LStrip(Rebuilt(head, replacement, after)) == Rebuilt(LStrip(head), replacement, after)
  {
    LStripOfHead(head, "\n" + replacement + Tail(after));
  }

  lemma {:induction false} LStripOfHead(head: string, more: string)
    requires head != [] && !IsSpace(head[|head| - 1])
    ensures LStrip(head + more) == LStrip(head) + more
  {
    var s := head + more;
    if !IsSpace(head[0]) {
    } else {
      assert s[1..] == head[1..] + more;
      LStripOfHead(head[1..], more);
    }
  }

  // ---- the repaired report --------------------------------------------------------------------

  /** An end mark, or the end of the report. */
  ghost predicate EndsSection(after: string) { after == [] || At(after, END, 0) }

  lemma TailHasEnd(after: string)
    requires At(after, END, 0)
    ensures At(Tail(after), END, 2)
  {
    assert after[..|END|][|END| - 1] == END[|END| - 1] == '议';
    RStripStops(after, |END| - 1);
    RStripParts(after);
    var kept := RStrip(after);
    assert kept[..|END|] == after[..|END|];
    assert Tail(after)[2..2 + |END|] == kept[..|END|];
  }

  lemma MarkBeforeGap(x: string, kept: string, mark: string, i: int)
    requires OneLine(mark) && At(x + "\n" + ("\n" + kept), mark, i) && i < |x| + 2
    ensures At(x, mark, i)
  {
    var behind := "\n" + kept;
    AtAcrossBreak(x, behind, mark, i);
    assert behind[0] == '\n' != mark[0];
  }

  lemma EndInBody(x: string, after: string, i: int)
    requires At(x + Tail(after), END, i) && (after != [] ==> i < |x| + 2)
    ensures At(x, END, i)
  {
    if after == [] {
      assert x + Tail(after) == x;
    } else {
      assert x + Tail(after) == x + "\n" + ("\n" + RStrip(after));
      MarkBeforeGap(x, RStrip(after), END, i);
    }
  }

  /** Up to the gap behind it, the end mark occurs in a rebuilt report only where it does in the text. */
  lemma EndInRebuilt(head: string, x: string, after: string, j: int)
    requires |head| <= j && (after != [] ==> j < |head| + |x| + 3)
    ensures At(Rebuilt(head, x, after), END, j) ==> At(x, END, j - |head| - 1)
  {
    if At(Rebuilt(head, x, after), END, j) {
      RebuiltParts(head, x, after);
      AtAcrossBreak(head, x + Tail(after), END, j);
      EndInBody(x, after, j - |head| - 1);
    }
  }

  lemma RebuiltStart(head: string, x: string, after: string)
    requires Marked(head)
    ensures Contains(Rebuilt(head, x, after), START) && Head(Rebuilt(head, x, after)) == head
  {
    var report := Rebuilt(head, x, after);
    var k := |head| - |START|;
    assert report[k..k + |START|] == head[k..];
    assert At(report, START, k);
    forall j | 0 <= j < k ensures !At(report, START, j) {
      AtInSlice(report, START, j, 0, |head|);
      assert report[0..|head|] == head;
    }
  }

  lemma SectionIs(report: string, x: string, gap: string)
    requires Contains(report, START) && Tight(x) && Blank(gap)
    requires report[SectionStart(report)..SectionEnd(report)] == "\n" + x + gap
    ensures Section(report) == x
  {
    StripPast("\n", x, gap);
  }

  /** When the text put in has no end mark, the section found afterwards is that text. */
  lemma RebuiltSection(head: string, x: string, after: string)
    requires Marked(head) && Tight(x) && EndsSection(after) && !Contains(x, END)
    ensures Section(Rebuilt(head, x, after)) == x
  {
    if after == [] {
      RebuiltWithoutEnd(head, x);
      RestOfRebuilt(head, x);
      SectionIs(Rebuilt(head, x, []), x, []);
    } else {
      RebuiltSectionEnd(head, x, after);
      SliceOfRebuilt(head, x, RStrip(after));
      SectionIs(Rebuilt(head, x, after), x, GAP);
    }
  }

  lemma RestOfRebuilt(head: string, x: string)
    ensures Rebuilt(head, x, [])[|head|..|Rebuilt(head, x, [])|] == "\n" + x + []
  {
  }

  lemma RebuiltWithoutEnd(head: string, x: string)
    requires Marked(head) && !Contains(x, END)
    ensures Contains(Rebuilt(head, x, []), START) && SectionStart(Rebuilt(head, x, [])) == |head|
    ensures SectionEnd(Rebuilt(head, x, [])) == |Rebuilt(head, x, [])|
  {
    var report := Rebuilt(head, x, []);
    RebuiltStart(head, x, []);
    forall j | |head| <= j <= |report| ensures !At(report, END, j) {
      EndInRebuilt(head, x, [], j);
    }
  }

  lemma SliceOfRebuilt(head: string, x: string, rest: string)
    ensures (head + ("\n" + x + (GAP + rest)))[|head|..|head| + |x| + 3] == "\n" + x + GAP
  {
  }

  lemma RebuiltSectionEnd(head: string, x: string, after: string)
    requires Marked(head) && At(after, END, 0) && !Contains(x, END)
    ensures Contains(Rebuilt(head, x, after), START) && SectionStart(Rebuilt(head, x, after)) == |head|
    ensures SectionEnd(Rebuilt(head, x, after)) == |head| + |x| + 3
  {
    var report := Rebuilt(head, x, after);
    RebuiltStart(head, x, after);
    forall j | |head| <= j < |head| + |x| + 3 ensures !At(report, END, j) {
      EndInRebuilt(head, x, after, j);
    }
    TailHasEnd(after);
    AppendAt(head + "\n" + x, Tail(after), END, 2);
    RebuiltParts(head, x, after);
    FindIs(report, END, |head|, |head| + |x| + 3);
  }

  lemma AppendAt(a: string, s: string, mark: string, i: int)
    requires At(s, mark, i)
    ensures At(a + s, mark, |a| + i)
  {
    AtWithin(a, s, [], mark, i);
    assert a + s + [] == a + s;
  }

  /** When the text put in has an end mark, the section found afterwards ends at the first one. */
  lemma RebuiltSectionIsCut(head: string, x: string, after: string, i: nat)
    requires Marked(head) && Find(x, END, 0) == i
    ensures Contains(Rebuilt(head, x, after), START) && SectionStart(Rebuilt(head, x, after)) == |head|
    ensures SectionEnd(Rebuilt(head, x, after)) == |head| + 1 + i
  {
    var report := Rebuilt(head, x, after);
    RebuiltStart(head, x, after);
    FirstEndIsKept(head, x, after, i);
    FindIs(report, END, |head|, |head| + 1 + i);
  }

  lemma FirstEndIsKept(head: string, x: string, after: string, i: nat)
    requires At(x, END, i) && forall j | 0 <= j < i :: !At(x, END, j)
    ensures At(Rebuilt(head, x, after), END, |head| + 1 + i)
    ensures forall j | |head| <= j < |head| + 1 + i :: !At(Rebuilt(head, x, after), END, j)
  {
    RebuiltParts(head, x, after);
    AtWithin(head + "\n", x, Tail(after), END, i);
    forall j | |head| <= j < |head| + 1 + i ensures !At(Rebuilt(head, x, after), END, j) {
      EndInRebuilt(head, x, after, j);
    }
  }

  lemma FindIs(s: string, part: string, start: nat, i: nat)
    requires start <= i <= |s| && At(s, part, i) && forall j | start <= j < i :: !At(s, part, j)
    ensures Find(s, part, start) == i
  {
  }

  /** No section ever holds the end mark. */
  lemma SectionLacksEnd(markdown: string)
    ensures !Contains(Section(markdown), END)
  {
    PlainLacksEnd([]);
    if Find(markdown, START, 0) >= 0 {
      var n, e := SectionStart(markdown), SectionEnd(markdown);
      if Contains(Section(markdown), END) {
        StripContained(markdown[n..e]);
        ContainsTransitive(markdown[n..e], Section(markdown), END);
        var i :| 0 <= i <= e - n && At(markdown[n..e], END, i);
        AtInSlice(markdown, END, n + i, n, e);
      }
    }
  }

  ghost predicate SqlsLackEnd(records: seq<Record>) {
    forall i | 0 <= i < |records| :: !Contains(Strip(records[i].sql), END)
  }

  ghost predicate DatabasesLackEnd(records: seq<Record>) {
    forall i | 0 <= i < |records| :: !Contains(records[i].database, END)
  }

  /** Only reports whose shown SQLs are free of the end mark can pass the test for full SQL. */
  lemma FullNeedsCleanSql(markdown: string, records: seq<Record>)
    requires HasFullSql(markdown, records)
    ensures SqlsLackEnd(Shown(records))
  {
    forall i | 0 <= i < |Shown(records)| ensures !Contains(Strip(Shown(records)[i].sql), END) {
      var sql := Shown(records)[i].sql;
      SectionLacksEnd(markdown);
      BlockContainsEndIff(sql);
      if Contains(Strip(sql), END) {
        ContainsTransitive(Section(markdown), CodeBlock(sql), END);
      }
    }
  }

  /** A report with a start mark that lacks full SQL is rebuilt around the text from the evidence. */
  lemma RepairIsRebuilt(markdown: string, records: seq<Record>)
    requires Contains(markdown, START) && records != [] && !HasFullSql(markdown, records)
    ensures Ensured(markdown, records) == Rebuilt(LStrip(Head(markdown)), Expected(records), After(markdown))
    ensures Marked(LStrip(Head(markdown))) && EndsSection(After(markdown))
  {
    ExpectedIsTight(records);
    ReplaceKeepsOutside(markdown, Expected(records));
    HeadIsMarked(markdown);
    LStripKeepsMarked(Head(markdown));
    AfterIsEmptyOrEnd(markdown);
  }

  /** The text up to its first end mark. */
  function BeforeEnd(x: string): string {
    if Find(x, END, 0) < 0 then x else x[..Find(x, END, 0)]
  }

  /** Every shown block stands in the text for the records before its first end mark. */
  ghost predicate SurvivesCut(records: seq<Record>) {
    forall i | 0 <= i < |Shown(records)| ::
      Contains(BeforeEnd(Expected(records)), CodeBlock(Shown(records)[i].sql))
  }

  lemma SectionOfRebuilt(head: string, x: string, after: string)
    requires Marked(head) && Tight(x) && EndsSection(after)
    ensures Section(Rebuilt(head, x, after)) == Strip("\n" + BeforeEnd(x))
  {
    if Contains(x, END) {
      SectionOfCut(head, x, after, Find(x, END, 0));
    } else {
      RebuiltSection(head, x, after);
      StripPast("\n", x, []);
      NothingAppended("\n" + x);
    }
  }

  lemma SectionOfCut(head: string, x: string, after: string, i: nat)
    requires Marked(head) && Find(x, END, 0) == i
    ensures Section(Rebuilt(head, x, after)) == Strip("\n" + x[..i])
  {
    var report := Rebuilt(head, x, after);
    RebuiltSectionIsCut(head, x, after, i);
    RebuiltSlice(head, x, after, i);
    SectionIsSlice(report, |head|, |head| + 1 + i, "\n" + x[..i]);
  }

  lemma SectionIsSlice(report: string, n: nat, e: nat, text: string)
    requires Contains(report, START) && SectionStart(report) == n && SectionEnd(report) == e && report[n..e] == text
    ensures Section(report) == Strip(text)
  {
  }

  lemma RebuiltSlice(head: string, x: string, after: string, i: nat)
    requires i <= |x|
    ensures |head| + 1 + i <= |Rebuilt(head, x, after)|
    ensures Rebuilt(head, x, after)[|head|..|head| + 1 + i] == "\n" + x[..i]
  {
  }

  lemma CodeBlockIsTight(sql: string)
    ensures Tight(CodeBlock(sql)) && CodeBlock(sql)[0] == '`'
  {
    var n := FenceLength(sql);
    assert CodeBlock(sql)[0] == Ticks(n)[0] && CodeBlock(sql)[|CodeBlock(sql)| - 1] == Ticks(n)[n - 1];
  }

  lemma BlankSlice(s: string, from: nat, to: nat)
    requires from <= to <= |s|
    ensures Blank(s[from..to]) ==> forall j | from <= j < to :: IsSpace(s[j])
  {
    forall j | from <= j < to ensures s[j] == s[from..to][j - from] {
    }
  }

  /** Stripping does not touch a part that neither starts nor ends with white space. */
  lemma TightSurvivesStrip(s: string, part: string)
    requires Tight(part)
    ensures Contains(Strip(s), part) <==> Contains(s, part)
  {
    var n, m := StripParts(s);
    if Contains(Strip(s), part) {
      StripContained(s);
      ContainsTransitive(s, Strip(s), part);
    }
    if Contains(s, part) {
      var i :| 0 <= i <= |s| && At(s, part, i);
      assert s[i] == s[i..i + |part|][0] && s[i + |part| - 1] == s[i..i + |part|][|part| - 1];
      BlankSlice(s, 0, n);
      BlankSlice(s, |s| - m, |s|);
      assert s[0..n] == s[..n] && s[|s| - m..|s|] == s[|s| - m..];
      AtInSlice(s, part, i, n, |s| - m);
    }
  }

  lemma BlockInSection(x: string, sql: string)
    ensures Contains(Strip("\n" + x), CodeBlock(sql)) <==> Contains(x, CodeBlock(sql))
  {
    CodeBlockIsTight(sql);
    TightSurvivesStrip("\n" + x, CodeBlock(sql));
    ContainsAfterPlain("\n", x, CodeBlock(sql));
  }

  lemma RebuiltIsFullIff(head: string, records: seq<Record>, after: string)
    requires Marked(head) && EndsSection(after) && records != []
    ensures HasFullSql(Rebuilt(head, Expected(records), after), records) <==> SurvivesCut(records)
  {
    var x := Expected(records);
    ExpectedIsTight(records);
    SectionOfRebuilt(head, x, after);
    forall i | 0 <= i < |Shown(records)|
      ensures Contains(Strip("\n" + BeforeEnd(x)), CodeBlock(Shown(records)[i].sql))
         <==> Contains(BeforeEnd(x), CodeBlock(Shown(records)[i].sql))
    {
      BlockInSection(BeforeEnd(x), Shown(records)[i].sql);
    }
    var first := Shown(records)[0].sql;
    CodeBlockIsTight(first);
    assert Contains([], CodeBlock(first)) ==> |CodeBlock(first)| <= 0;
  }

  /** When repair works, for all reports and records: the report was full before, or it has a start mark
      and no end mark cuts a shown block off the text that is put in. */
  lemma RepairIsFullIff(markdown: string, records: seq<Record>)
    requires records != []
    ensures HasFullSql(Ensured(markdown, records), records)
       <==> HasFullSql(markdown, records) || (Contains(markdown, START) && SurvivesCut(records))
  {
    if !HasFullSql(markdown, records) && Contains(markdown, START) {
      RepairIsRebuilt(markdown, records);
      RebuiltIsFullIff(LStrip(Head(markdown)), records, After(markdown));
    }
  }

  lemma BeforeEndLacksEnd(x: string)
    ensures !Contains(BeforeEnd(x), END)
  {
    var i := Find(x, END, 0);
    if Contains(BeforeEnd(x), END) {
      var j :| 0 <= j <= |BeforeEnd(x)| && At(BeforeEnd(x), END, j);
      if i >= 0 {
        assert x[0..i] == BeforeEnd(x);
        AtInSlice(x, END, j, 0, i);
      }
    }
  }

  /** With database names free of the end mark, the blocks survive exactly when the shown SQLs are free
      of it, too; SQLs that hold it never survive. */
  lemma SurvivesCutIff(records: seq<Record>)
    requires records != []
    ensures SurvivesCut(records) ==> SqlsLackEnd(Shown(records))
    ensures DatabasesLackEnd(Shown(records)) ==> (SurvivesCut(records) <==> SqlsLackEnd(Shown(records)))
  {
    var x := Expected(records);
    BeforeEndLacksEnd(x);
    if SurvivesCut(records) {
      forall i | 0 <= i < |Shown(records)| ensures !Contains(Strip(Shown(records)[i].sql), END) {
        BlockIsCutOff(BeforeEnd(x), Shown(records)[i].sql);
      }
    }
    if DatabasesLackEnd(Shown(records)) && SqlsLackEnd(Shown(records)) {
      ExpectedContainsEndIff(records);
      assert BeforeEnd(x) == x;
      forall i | 0 <= i < |Shown(records)| ensures Contains(x, CodeBlock(Shown(records)[i].sql)) {
        ExpectedHasBlocks(records, i);
      }
    }
  }

  lemma BlockIsCutOff(text: string, sql: string)
    requires !Contains(text, END) && Contains(text, CodeBlock(sql))
    ensures !Contains(Strip(sql), END)
  {
    BlockContainsEndIff(sql);
    if Contains(Strip(sql), END) {
      ContainsTransitive(text, CodeBlock(sql), END);
    }
  }

  lemma EndIsTight(after: string)
    requires At(after, END, 0)
    ensures !IsSpace(after[0])
  {
    assert after[0] == after[..|END|][0] == '#';
  }

  lemma LastOf(front: string, s: string)
    requires s != []
    ensures (front + s)[|front + s| - 1] == s[|s| - 1]
  {
  }

  lemma TailEndsTight(after: string)
    requires At(after, END, 0)
    ensures Tail(after) != [] && !IsSpace(Tail(after)[|Tail(after)| - 1])
  {
    EndIsTight(after);
    RStripStops(after, 0);
    RStripParts(after);
    LastOf(GAP, RStrip(after));
  }

  lemma RebuiltEndsTight(head: string, x: string, after: string)
    requires Tight(x) && EndsSection(after)
    ensures !IsSpace(Rebuilt(head, x, after)[|Rebuilt(head, x, after)| - 1])
  {
    RebuiltParts(head, x, after);
    if after == [] {
      assert Rebuilt(head, x, after) == head + "\n" + x;
      LastOf(head + "\n", x);
    } else {
      TailEndsTight(after);
      LastOf(head + "\n" + x, Tail(after));
    }
  }

  lemma RepairGrows(head: string, x: string, after: string)
    requires Marked(head) && LStrip(head) == head && Tight(x) && EndsSection(after) && Contains(x, END)
    ensures |Replace(Rebuilt(head, x, after), x)| > |Rebuilt(head, x, after)|
  {
    var report := Rebuilt(head, x, after);
    RebuiltStart(head, x, after);
    RebuiltSectionIsCut(head, x, after, Find(x, END, 0));
    ReplaceKeepsOutside(report, x);
    RebuiltEndsTight(head, x, after);
    GrowthOf(report, head, x, After(report));
  }

  lemma GrowthOf(report: string, head: string, x: string, rest: string)
    requires |rest| <= |report| < |rest| + |head| + 1 + |x|
    requires rest != [] && !IsSpace(rest[|rest| - 1])
    ensures |Rebuilt(head, x, rest)| > |report|
  {
    assert RStrip(rest) == rest;
  }

  lemma SecondRepairGrows(markdown: string, records: seq<Record>)
    requires Contains(markdown, START) && records != []
    requires !HasFullSql(markdown, records) && !SurvivesCut(records)
    ensures |Ensured(Ensured(markdown, records), records)| > |Ensured(markdown, records)|
  {
    RepairIsFullIff(markdown, records);
    RepairIsRebuilt(markdown, records);
    ExpectedIsTight(records);
    LStripKeepsMarked(Head(markdown)) by { HeadIsMarked(markdown); }
    if !Contains(Expected(records), END) {
      assert BeforeEnd(Expected(records)) == Expected(records);
      forall i | 0 <= i < |Shown(records)| ensures Contains(Expected(records), CodeBlock(Shown(records)[i].sql)) {
        ExpectedHasBlocks(records, i);
      }
    }
    RepairGrows(LStrip(Head(markdown)), Expected(records), After(markdown));
  }

  /** A second repair changes nothing exactly when the report was full before, or has no start mark, or
      no shown block is cut off; in all other cases the report grows. */
  lemma RepairIsIdempotentIff(markdown: string, records: seq<Record>)
    requires records != []
    ensures var once := Ensured(markdown, records);
            var twice := Ensured(once, records);
            && (twice == once
                <==> HasFullSql(markdown, records) || !Contains(markdown, START) || SurvivesCut(records))
            && (twice != once ==> |twice| > |once|)
  {
    RepairIsFullIff(markdown, records);
    if !HasFullSql(markdown, records) && Contains(markdown, START) && !SurvivesCut(records) {
      SecondRepairGrows(markdown, records);
    }
  }

  /** With database names free of the end mark the condition is one on the SQLs alone. */
  lemma CleanNamesRepairIff(markdown: string, records: seq<Record>)
    requires Contains(markdown, START) && records != [] && DatabasesLackEnd(Shown(records))
    ensures var once := Ensured(markdown, records);
            && (HasFullSql(once, records) <==> SqlsLackEnd(Shown(records)))
            && (Ensured(once, records) == once <==> SqlsLackEnd(Shown(records)))
  {
    RepairIsFullIff(markdown, records);
    RepairIsIdempotentIff(markdown, records);
    SurvivesCutIff(records);
    if HasFullSql(markdown, records) {
      FullNeedsCleanSql(markdown, records);
    }
  }

  /** Whenever a shown SQL holds the end mark, a second repair makes the report longer. */
  lemma MarkedSqlMakesItGrow(markdown: string, records: seq<Record>)
    requires Contains(markdown, START) && records != [] && !SqlsLackEnd(Shown(records))
    ensures |Ensured(Ensured(markdown, records), records)| > |Ensured(markdown, records)|
  {
    SurvivesCutIff(records);
    if HasFullSql(markdown, records) {
      FullNeedsCleanSql(markdown, records);
    }
    SecondRepairGrows(markdown, records);
  }
}
