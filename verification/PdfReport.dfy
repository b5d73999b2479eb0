/** The single page of an exported PDF report: its lines, their literal strings, and the five objects around them. */
module PdfReport {
  import opened Outcomes
  import opened Text
  import opened PdfFile

  const MAX_ROWS: nat := 200
  const MAX_TEXT: nat := 120
  const PAGE_LINES: nat := 60  // from y = 750 down in steps of 12 while y >= 40

  type Row = map<string, string>

  // -------------------------------------------------------------------- lines

  function RowText(columns: seq<string>, row: Row): string {
    Joined(seq(|columns|, i requires 0 <= i < |columns| => if columns[i] in row then row[columns[i]] else ""), " | ")
  }

  function Dashes(n: nat): string {
    seq(n, i => '-')
  }

  function RuleLength(header: nat): nat {
    if header < 20 then 20 else if header > 100 then 100 else header
  }

  function Notice(rows: nat): seq<string> {
    if rows > MAX_ROWS then ["... (" + Decimal(rows - MAX_ROWS) + " more rows)"] else []
  }

  function UpperChar(c: char): char {
    if 'a' <= c <= 'z' then c - 'a' + 'A' else c
  }

  predicate IsCased(c: char) {
    'a' <= c <= 'z' || 'A' <= c <= 'Z'
  }

  /** `str.title`: a letter is a capital exactly when no letter stands before it. */
  function Titled(s: string, afterLetter: bool): (r: string)
    ensures |r| == |s|
    ensures forall i :: 0 <= i < |s| ==>
      r[i] == if (if i == 0 then afterLetter else IsCased(s[i - 1])) then LowerChar(s[i]) else UpperChar(s[i])
  {
    if s == [] then []
    else [if afterLetter then LowerChar(s[0]) else UpperChar(s[0])] + Titled(s[1..], IsCased(s[0]))
  }

  function Spaced(s: string): string {
    seq(|s|, i requires 0 <= i < |s| => if s[i] == '_' then ' ' else s[i])
  }

  function Heading(title: string): string {
    Titled(Spaced(title), false)
  }

  function ReportLines(title: string, columns: seq<string>, rows: seq<Row>): seq<string> {
    var header := Joined(columns, " | ");
    var shown := if |rows| > MAX_ROWS then MAX_ROWS else |rows|;
    [Heading(title), "", header, Dashes(RuleLength(|header|))]
    + seq(shown, i requires 0 <= i < shown => RowText(columns, rows[i])) + Notice(|rows|)
  }

  /**
   The report line by line: heading, blank, header, a rule of 20 to 100 dashes,
   the first 200 rows cell by cell, and how many rows were left out.
   */
  lemma LinesOfReport(title: string, columns: seq<string>, rows: seq<Row>)
    ensures
      var lines, header := ReportLines(title, columns, rows), Joined(columns, " | ");
      && |lines| == (if |rows| > 200 then 205 else 4 + |rows|)
      && |lines[0]| == |title| && lines[1] == "" && lines[2] == header
      && |lines[3]| == (if |header| < 20 then 20 else if |header| > 100 then 100 else |header|)
      && (forall c :: c in lines[3] ==> c == '-')
      && (|rows| > 200 ==> lines[204] == "... (" + Decimal(|rows| - 200) + " more rows)")
  {
    assert |Heading(title)| == |title|;
    hide Decimal, RowText, Heading, Joined;
  }

  /** The cells of a row stand in the order of the columns; a missing one is empty. */
  lemma RowIsPrinted(title: string, columns: seq<string>, rows: seq<Row>, i: nat, cells: seq<string>)
    requires i < |rows| && i < 200 && |cells| == |columns|
    requires forall k :: 0 <= k < |columns| ==> cells[k] == if columns[k] in rows[i] then rows[i][columns[k]] else ""
    ensures |ReportLines(title, columns, rows)| > 4 + i && ReportLines(title, columns, rows)[4 + i] == Joined(cells, " | ")
  {
    hide Decimal, Heading, Joined, Dashes, RuleLength;
    var row := rows[i];
    assert cells == seq(|columns|, k requires 0 <= k < |columns| => if columns[k] in row then row[columns[k]] else "");
  }

  /** The heading: spaces for underscores, a capital where a word begins, small letters elsewhere. */
  lemma HeadingIsTitled(title: string, i: nat)
    requires i < |title|
    ensures |Heading(title)| == |title|
    ensures
      var inWord := i > 0 && ('a' <= title[i - 1] <= 'z' || 'A' <= title[i - 1] <= 'Z');
      Heading(title)[i] ==
      if title[i] == '_' then ' '
      else if 'a' <= title[i] <= 'z' && !inWord then title[i] - 'a' + 'A'
      else if 'A' <= title[i] <= 'Z' && inWord then title[i] - 'A' + 'a'
      else title[i]
  {
    var spaced := Spaced(title);
    assert Heading(title) == Titled(spaced, false);
    assert IsCased(' ') == IsCased('_') == false;
    assert Spaced(title)[i] == if title[i] == '_' then ' ' else title[i];
    assert i > 0 ==> Spaced(title)[i - 1] == if title[i - 1] == '_' then ' ' else title[i - 1];
  }

  method CollectLines(title: string, columns: seq<string>, rows: seq<Row>) returns (lines: seq<string>)
    ensures lines == ReportLines(title, columns, rows)
  {
    lines := [Heading(title), ""];
    lines := lines + [Joined(columns, " | ")];
    lines := lines + [Dashes(RuleLength(|lines[|lines| - 1]|))];
    ghost var head := lines;
    var i := 0;
    while i < |rows| && i < MAX_ROWS
      invariant i <= |rows| && i <= MAX_ROWS
      invariant lines == head + seq(i, k requires 0 <= k < i => RowText(columns, rows[k]))
    {
      lines := lines + [RowText(columns, rows[i])];
      i := i + 1;
    }
    if |rows| > MAX_ROWS {
      lines := lines + ["... (" + Decimal(|rows| - MAX_ROWS) + " more rows)"];
    }
  }

  // ------------------------------------------------------------ literal strings

  predicate IsSpecial(c: char) { c == '\\' || c == '(' || c == ')' }

  function EscapedChar(c: char): string {
    if IsSpecial(c) then ['\\', c] else [c]
  }

  /** A backslash before every backslash and parenthesis. */
  function Escaped(s: string): string {
    if s == [] then [] else EscapedChar(s[0]) + Escaped(s[1..])
  }

  /** `s.replace(c, "\\" + c)`. */
  function Replaced(s: string, c: char): string {
    if s == [] then [] else ReplacedChar(s[0], c) + Replaced(s[1..], c)
  }

  function ReplacedChar(d: char, c: char): string {
    if d == c then ['\\', c] else [d]
  }

  lemma ReplacedFirst(s: string, c: char)
    requires s != []
    ensures Replaced(s, c) == ReplacedChar(s[0], c) + Replaced(s[1..], c)
  {
  }

  lemma {:induction false} ReplacedOfConcat(a: string, b: string, c: char)
    ensures Replaced(a + b, c) == Replaced(a, c) + Replaced(b, c)
  {
    hide *;
    if a == [] {
      assert a + b == b;
      ReplacedNothing(c);
      assert Replaced([], c) + Replaced(b, c) == Replaced(b, c);
    } else {
      ReplacedFirst(a + b, c);
      ReplacedFirst(a, c);
      assert (a + b)[1..] == a[1..] + b;
      ReplacedOfConcat(a[1..], b, c);
      Regroup(ReplacedChar(a[0], c), Replaced(a[1..], c), Replaced(b, c));
    }
  }

  lemma ReplacedNothing(c: char)
    ensures Replaced([], c) == []
  {
  }

  lemma Regroup(a: string, b: string, c: string)
    ensures a + (b + c) == a + b + c
  {
  }

  /** Escaping the backslash first, then each parenthesis, escapes every special character once. */
  lemma {:induction false} ReplacingInOrder(s: string)
    ensures Replaced(Replaced(Replaced(s, '\\'), '('), ')') == Escaped(s)
  {
    if s != [] {
      ReplacingInOrder(s[1..]);
      var first := if s[0] == '\\' then ['\\', '\\'] else [s[0]];
      ReplacedOfConcat(first, Replaced(s[1..], '\\'), '(');
      ReplacedOfConcat(Replaced(first, '('), Replaced(Replaced(s[1..], '\\'), '('), ')');
      ReplacedOfOne(s[0]);
    }
  }

  lemma ReplacedOfOne(c: char)
    ensures
      var first := if c == '\\' then ['\\', '\\'] else [c];
      Replaced(Replaced(first, '('), ')') == if IsSpecial(c) then ['\\', c] else [c]
  {
    if c == '\\' {
      ReplacedPair('\\', '\\', '(');
      ReplacedPair('\\', '\\', ')');
    } else if c == '(' {
      ReplacedPair('\\', '(', ')');
    }
  }

  lemma ReplacedPair(a: char, b: char, c: char)
    ensures Replaced([a, b], c) == (if a == c then ['\\', c] else [a]) + (if b == c then ['\\', c] else [b])
  {
    ReplacedOfConcat([a], [b], c);
    assert [a] + [b] == [a, b];
  }

  function CutAt(s: string, n: nat): string {
    if |s| > n then s[..n] else s
  }

  function Cut(s: string): string {
    CutAt(s, MAX_TEXT)
  }

  /**
   A reader of literal strings (section 7.3.4.2 of ISO 32000-1), from behind the
   opening parenthesis: the text and what follows the closing one.
   */
  function ReadLiteral(s: string, depth: nat): Option<(string, string)> {
    if s == [] then None
    else if s[0] == '\\' then
      if |s| == 1 then None else Before([s[1]], ReadLiteral(s[2..], depth))
    else if s[0] == '(' then Before("(", ReadLiteral(s[1..], depth + 1))
    else if s[0] == ')' then
      if depth == 0 then Some(("", s[1..])) else Before(")", ReadLiteral(s[1..], depth - 1))
    else Before([s[0]], ReadLiteral(s[1..], depth))
  }

  function Before(text: string, r: Option<(string, string)>): Option<(string, string)> {
    match r
    case None => None
    case Some((t, rest)) => Some((text + t, rest))
  }

  /** The first `n` characters of the escaped text end inside an escape. */
  predicate Halves(line: string, n: nat) {
    line != [] &&
    var width := |EscapedChar(line[0])|;
    if width <= n then Halves(line[1..], n - width) else n == 1
  }

  /** How many characters of the line the first `n` of the escaped text hold completely. */
  function Kept(line: string, n: nat): (k: nat)
    ensures k <= |line|
  {
    if line == [] then 0
    else
      var width := |EscapedChar(line[0])|;
      if width <= n then 1 + Kept(line[1..], n - width) else 0
  }

  lemma {:induction false} NeverClosed(s: string, depth: nat)
    requires ')' !in s
    ensures ReadLiteral(s, depth).None?
    decreases |s|
  {
    if s != [] {
      if s[0] == '\\' {
        if |s| > 1 {
          NeverClosed(s[2..], depth);
        }
      } else if s[0] == '(' {
        NeverClosed(s[1..], depth + 1);
      } else {
        NeverClosed(s[1..], depth);
      }
    }
  }

  lemma ReadEscapedChar(c: char, s: string)
    ensures ReadLiteral(EscapedChar(c) + s, 0) == Before([c], ReadLiteral(s, 0))
  {
    var whole := EscapedChar(c) + s;
    assert IsSpecial(c) ==> whole[2..] == s;
    assert !IsSpecial(c) ==> whole[1..] == s;
  }

  lemma CutOfConcat(a: string, b: string, n: nat)
    requires |a| <= n
    ensures CutAt(a + b, n) == a + CutAt(b, n - |a|)
  {
  }

  /** Reading an escaped text that was cut after `n` characters and then closed. */
  lemma {:induction false} ReadCut(line: string, n: nat, rest: string)
    requires ')' !in rest
    ensures ReadLiteral(CutAt(Escaped(line), n) + ")" + rest, 0) ==
      if Halves(line, n) then None else Some((line[..Kept(line, n)], rest))
  {
    hide IsSpecial, EscapedChar, ReadLiteral, CutAt;
    if line == [] || n < |EscapedChar(line[0])| {
      ReadClosed(line, n, rest);
    } else {
      var first, tail := EscapedChar(line[0]), line[1..];
      var cut := CutAt(Escaped(tail), n - |first|);
      ReadCut(tail, n - |first|, rest);
      CutOfConcat(first, Escaped(tail), n);
      assert first + cut + ")" + rest == first + (cut + ")" + rest);
      ReadEscapedChar(line[0], cut + ")" + rest);
      assert line[..Kept(line, n)] == [line[0]] + tail[..Kept(tail, n - |first|)];
    }
  }

  /** Nothing of the line fits: the literal is closed at once, or its closing parenthesis is escaped. */
  lemma ReadClosed(line: string, n: nat, rest: string)
    requires ')' !in rest && (line == [] || n < |EscapedChar(line[0])|)
    ensures ReadLiteral(CutAt(Escaped(line), n) + ")" + rest, 0) == if Halves(line, n) then None else Some(("", rest))
  {
    var text := CutAt(Escaped(line), n);
    if line == [] || n == 0 {
      assert text + ")" + rest == ")" + rest;
      assert (")" + rest)[1..] == rest;
    } else {
      assert text == "\\";
      assert (text + ")" + rest)[2..] == rest;
      NeverClosed(rest, 0);
    }
  }

  /** Some special character's escape straddles the cut. */
  ghost predicate EscapeIsHalved(line: string) {
    exists k :: 0 <= k < |line| && |Escaped(line[..k])| == MAX_TEXT - 1 && IsSpecial(line[k])
  }

  lemma {:induction false} HalvesExactlyWhen(line: string, n: nat)
    ensures Halves(line, n) <==> n > 0 && exists k :: 0 <= k < |line| && |Escaped(line[..k])| == n - 1 && IsSpecial(line[k])
  {
    if line != [] {
      var width, tail := |EscapedChar(line[0])|, line[1..];
      assert forall k :: 0 < k <= |line| ==> line[..k][1..] == tail[..k - 1];
      assert forall k :: 0 < k <= |line| ==> |Escaped(line[..k])| == width + |Escaped(tail[..k - 1])|;
      if width <= n {
        HalvesExactlyWhen(tail, n - width);
      }
      assert Escaped(line[..0]) == [];
    }
  }

  /**
   The literal of a line is closed where the writer closes it, and holds the
   beginning of the line, exactly when the cut at 120 characters halves no escape.
   */
  lemma LiteralIsClosedExactlyWhen(line: string)
    ensures
      ReadLiteral(Cut(Escaped(line)) + ")" + " Tj ET", 0) ==
      if EscapeIsHalved(line) then None else Some((line[..Kept(line, MAX_TEXT)], " Tj ET"))
    ensures |Escaped(line)| <= MAX_TEXT ==> Kept(line, MAX_TEXT) == |line| && !EscapeIsHalved(line)
  {
    ReadCut(line, MAX_TEXT, " Tj ET");
    HalvesExactlyWhen(line, MAX_TEXT);
    if |Escaped(line)| <= MAX_TEXT {
      ShortIsKept(line, MAX_TEXT);
    }
  }

  lemma {:induction false} PlainIsNotEscaped(s: string)
    requires forall i :: 0 <= i < |s| ==> !IsSpecial(s[i])
    ensures Escaped(s) == s
  {
    if s != [] {
      PlainIsNotEscaped(s[1..]);
    }
  }

  function Plain(n: nat): (s: string)
    ensures |s| == n && forall i :: 0 <= i < n ==> s[i] == 'a'
  {
    seq(n, i => 'a')
  }

  /** A line whose literal is never closed: 119 plain characters and a parenthesis. */
  lemma ParenthesisAtTheCut()
    ensures
      var line := Plain(119) + "(";
      EscapeIsHalved(line) && ReadLiteral(Cut(Escaped(line)) + ")" + " Tj ET", 0) == None
  {
    hide ReadLiteral, CutAt, Cut, Escaped;
    var line := Plain(119) + "(";
    PlainIsNotEscaped(Plain(119));
    assert line[..119] == Plain(119) && line[119] == '(';
    LiteralIsClosedExactlyWhen(line);
  }

  lemma {:induction false} ShortIsKept(line: string, n: nat)
    requires |Escaped(line)| <= n
    ensures Kept(line, n) == |line| && !Halves(line, n)
  {
    if line != [] {
      ShortIsKept(line[1..], n - |EscapedChar(line[0])|);
    }
  }

  // --------------------------------------------------------------------- page

  function TextOperator(y: nat, text: string): string {
    "BT /F1 9 Tf 40 " + Decimal(y) + " Td (" + text + ") Tj ET"
  }

  function ContentLine(line: string, y: nat): string {
    TextOperator(y, Cut(Escaped(line)))
  }

  function Printed(lines: seq<string>): nat {
    if |lines| > PAGE_LINES then PAGE_LINES else |lines|
  }

  function Content(lines: seq<string>): (r: seq<string>)
    ensures |r| == Printed(lines)
  {
    seq(Printed(lines), i requires 0 <= i < Printed(lines) => ContentLine(lines[i], 750 - 12 * i))
  }

  /** Latin-1 with a question mark for everything else. */
  function Encoded(s: string): (r: string)
    ensures |r| == |s| && forall i :: 0 <= i < |r| ==> r[i] <= '\U{FF}'
    ensures forall i :: 0 <= i < |s| ==> (s[i] <= '\U{FF}' ==> r[i] == s[i]) && (s[i] > '\U{FF}' ==> r[i] == '?')
  {
    seq(|s|, i requires 0 <= i < |s| => if s[i] <= '\U{FF}' then s[i] else '?')
  }

  function PageStream(lines: seq<string>): string {
    Encoded(Joined(Content(lines), "\n"))
  }

  /** Line `i` of the page: at x = 40 and y = 750 - 12 i, the first 120 characters of the escaped text. */
  lemma LineIsPlaced(lines: seq<string>, i: nat)
    requires i < |lines| && i < 60
    ensures |Content(lines)| == if |lines| > 60 then 60 else |lines|
    ensures
      var safe := Replaced(Replaced(Replaced(lines[i], '\\'), '('), ')');
      Content(lines)[i] ==
      "BT /F1 9 Tf 40 " + Decimal(750 - 12 * i) + " Td (" + (if |safe| > 120 then safe[..120] else safe) + ") Tj ET"
  {
    hide Decimal, Escaped, Replaced;
    ReplacingInOrder(lines[i]);
  }

  lemma NextContent(lines: seq<string>, i: nat)
    requires i < |lines| && i < PAGE_LINES
    ensures Content(lines[..i + 1]) == Content(lines[..i]) + [TextOperator(750 - 12 * i, Cut(Escaped(lines[i])))]
  {
    hide TextOperator, Cut, Escaped;
    assert forall k :: 0 <= k < i ==> lines[..i + 1][k] == lines[..i][k];
  }

  lemma AllContent(lines: seq<string>)
    ensures Content(lines[..Printed(lines)]) == Content(lines)
  {
    hide ContentLine;
    assert forall k :: 0 <= k < Printed(lines) ==> lines[..Printed(lines)][k] == lines[k];
  }

  /** The page loop: it stops below y = 40. */
  method WritePage(lines: seq<string>) returns (stream: string)
    ensures stream == PageStream(lines)
  {
    hide ContentLine, Content, Joined, Cut;
    var content: seq<string> := [];
    var y := 750;
    var i := 0;
    assert content == Content(lines[..0]);
    while i < |lines| && y >= 40
      invariant i <= |lines| && y == 750 - 12 * i && i <= PAGE_LINES
      invariant content == Content(lines[..i])
    {
      ReplacingInOrder(lines[i]);
      var safe := Replaced(Replaced(Replaced(lines[i], '\\'), '('), ')');
      content := content + [TextOperator(y, Cut(safe))];
      NextContent(lines, i);
      i := i + 1;
      y := y - 12;
    }
    assert i == Printed(lines);
    AllContent(lines);
    stream := Encoded(Joined(content, "\n"));
  }

  /** Only 56 rows fit under the heading, so the note about omitted rows is never printed. */
  lemma OnlyTheFirstRowsArePrinted(title: string, columns: seq<string>, rows: seq<Row>)
    requires |rows| > 56
    ensures PageStream(ReportLines(title, columns, rows)) == PageStream(ReportLines(title, columns, rows[..56]))
  {
    var all, some := ReportLines(title, columns, rows), ReportLines(title, columns, rows[..56]);
    hide RowText, Dashes, RuleLength;
    assert |some| == PAGE_LINES && all[..PAGE_LINES] == some;
    SamePage(all, some);
  }

  lemma SamePage(a: seq<string>, b: seq<string>)
    requires |a| >= PAGE_LINES && |b| >= PAGE_LINES && a[..PAGE_LINES] == b[..PAGE_LINES]
    ensures PageStream(a) == PageStream(b)
  {
    hide ContentLine;
    forall i | 0 <= i < PAGE_LINES
      ensures a[i] == b[i]
    {
      assert a[..PAGE_LINES][i] == b[..PAGE_LINES][i];
    }
    assert Content(a) == Content(b);
  }

  // ------------------------------------------------------------------ objects

  const STREAM_HEAD := "4 0 obj<< /Length "
  const STREAM_OPEN := " >>stream\n"
  const STREAM_CLOSE := "\nendstream\nendobj\n"

  function StreamObject(stream: string): string {
    STREAM_HEAD + Decimal(|stream|) + STREAM_OPEN + stream + STREAM_CLOSE
  }

  const CATALOG := "1 0 obj<< /Type /Catalog /Pages 2 0 R >>endobj\n"
  const PAGES := "2 0 obj<< /Type /Pages /Kids [3 0 R] /Count 1 >>endobj\n"
  const PAGE_HEAD := "3 0 obj<< /Type /Page /Parent 2 0 R /MediaBox [0 0 612 792] "
  const PAGE := PAGE_HEAD + "/Contents 4 0 R /Resources << /Font << /F1 5 0 R >> >> >>endobj\n"
  const FONT := "5 0 obj<< /Type /Font /Subtype /Type1 /BaseFont /Helvetica >>endobj\n"

  function Objects(stream: string): seq<string> {
    [CATALOG, PAGES, PAGE, StreamObject(stream), FONT]
  }

  /** Reads the page stream the way a viewer does: entry 4 of the table, `/Length`, that many bytes, then the closing. */
  function ReadStream(file: string): Option<string> {
    match ReadOffset(file, 4)
    case None => None
    case Some(at) =>
      if !HasAt(file, at, STREAM_HEAD) then None
      else
        var digits := at + |STREAM_HEAD|;
        var end := DigitsEnd(file, digits);
        if end == digits || !HasAt(file, end, STREAM_OPEN) then None
        else
          var first, length := end + |STREAM_OPEN|, Value(file[digits..end]);
          if HasAt(file, first + length, STREAM_CLOSE) then Some(file[first..first + length]) else None
  }

  lemma LineLength(line: string, y: nat)
    requires y < 1000
    ensures |ContentLine(line, y)| <= 150
  {
    DecimalLength(y, 3);
    assert Power(3) == 1000 by {
      assert Power(2) == 10 * Power(1);
    }
    assert |Cut(Escaped(line))| <= MAX_TEXT;
  }

  lemma {:induction false} JoinedLength(parts: seq<string>, longest: nat)
    requires forall i :: 0 <= i < |parts| ==> |parts[i]| <= longest
    ensures |Joined(parts, "\n")| <= |parts| * (longest + 1)
  {
    if |parts| > 1 {
      JoinedLength(parts[1..], longest);
      assert |parts| * (longest + 1) == (|parts| - 1) * (longest + 1) + (longest + 1);
    }
  }

  /** A page has at most 60 lines of at most 150 bytes. */
  lemma PageIsShort(lines: seq<string>)
    ensures |PageStream(lines)| <= 60 * 151
  {
    hide ContentLine, Joined;
    var content := Content(lines);
    forall i | 0 <= i < |content|
      ensures |content[i]| <= 150
    {
      LineLength(lines[i], 750 - 12 * i);
    }
    JoinedLength(content, 150);
  }

  lemma ConcatOfFive(a: string, b: string, c: string, d: string, e: string)
    ensures Concat([a, b, c, d, e]) == a + b + c + d + e
  {
    assert [a, b, c, d, e][..4] == [a, b, c, d] && [a, b, c, d][..3] == [a, b, c];
    assert [a, b, c][..2] == [a, b] && [a, b][..1] == [a] && [a][..0] == [];
    assert Concat([a]) == a;
    assert Concat([a, b]) == a + b;
    assert Concat([a, b, c]) == a + b + c;
    assert Concat([a, b, c, d]) == a + b + c + d;
  }

  lemma FixedParts()
    ensures |CATALOG| + |PAGES| + |PAGE| + |FONT| + |STREAM_HEAD| + |STREAM_OPEN| + |STREAM_CLOSE| < 1000
  {
  }

  /** Every offset of a report fits the ten digits of its entry. */
  lemma OffsetsFit(stream: string)
    requires |stream| <= 60 * 151
    ensures OffsetOf(Objects(stream), 5) < LIMIT
  {
    FixedParts();
    hide CATALOG, PAGES, PAGE, FONT, STREAM_HEAD, STREAM_OPEN, STREAM_CLOSE, Concat;
    ConcatOfFive(CATALOG, PAGES, PAGE, StreamObject(stream), FONT);
    assert Objects(stream)[..5] == Objects(stream);
    DecimalLength(|stream|, 4);
    assert Power(4) == 10_000 by {
      assert Power(2) == 100;
      assert Power(4) == 100 * Power(2);
    }
  }

  lemma StreamParts(file: string, at: nat, stream: string)
    requires HasAt(file, at, StreamObject(stream))
    ensures
      var digits := at + |STREAM_HEAD|;
      var end := digits + |Decimal(|stream|)|;
      var first := end + |STREAM_OPEN|;
      && HasAt(file, at, STREAM_HEAD) && HasAt(file, digits, Decimal(|stream|)) && HasAt(file, end, STREAM_OPEN)
      && HasAt(file, first, stream) && HasAt(file, first + |stream|, STREAM_CLOSE)
  {
    hide STREAM_HEAD, STREAM_OPEN, STREAM_CLOSE, HasAt, Decimal;
    var digits := Decimal(|stream|);
    NestRight(STREAM_HEAD, digits, STREAM_OPEN, stream, STREAM_CLOSE);
    PrefixOfPart(file, at, STREAM_HEAD, digits + (STREAM_OPEN + (stream + STREAM_CLOSE)));
    var first := at + |STREAM_HEAD|;
    PrefixOfPart(file, first, digits, STREAM_OPEN + (stream + STREAM_CLOSE));
    PrefixOfPart(file, first + |digits|, STREAM_OPEN, stream + STREAM_CLOSE);
    PrefixOfPart(file, first + |digits| + |STREAM_OPEN|, stream, STREAM_CLOSE);
  }

  lemma OpenIsNoDigit()
    ensures |STREAM_OPEN| > 0 && !IsDigit(STREAM_OPEN[0])
  {
  }

  /** The stream object is read by its length, whatever bytes the stream holds. */
  lemma {:induction false} StreamIsRead(file: string, at: nat, stream: string)
    requires ReadOffset(file, 4) == Some(at) && HasAt(file, at, StreamObject(stream))
    ensures ReadStream(file) == Some(stream)
  {
    hide STREAM_HEAD, STREAM_OPEN, STREAM_CLOSE, StreamObject, ReadOffset, HasAt, Decimal, Value, IsDigit, DigitsEnd;
    StreamParts(file, at, stream);
    OpenIsNoDigit();
    var digits := at + |STREAM_HEAD|;
    var end := digits + |Decimal(|stream|)|;
    SliceAt(file, digits, Decimal(|stream|));
    SliceAt(file, end, STREAM_OPEN);
    SliceAt(file, end + |STREAM_OPEN|, stream);
    assert file[end] == file[end..end + |STREAM_OPEN|][0];
    DigitsEndAt(file, digits, end);
    ValueOfDecimal(|stream|);
  }

  lemma NestRight(a: string, b: string, c: string, d: string, e: string)
    ensures a + b + c + d + e == a + (b + (c + (d + e)))
  {
    assert a + b + c == a + (b + c);
    assert b + c + d + e == b + (c + (d + e));
  }

  lemma SliceAt(s: string, at: nat, text: string)
    requires HasAt(s, at, text)
    ensures at + |text| <= |s| && s[at..at + |text|] == text
  {
  }

  /** Entry `k` of the table leads to `text`. */
  predicate LeadsTo(file: string, k: nat, text: string) {
    ReadOffset(file, k).Some? && HasAt(file, ReadOffset(file, k).value, text)
  }

  /**
   `startxref` gives the table of six entries, the trailer behind it names object
   1 as the root, from there the references lead through catalog and page tree to
   the page, its font and its stream, and `/Length` delimits the stream.
   */
  ghost predicate IsReadable(file: string, stream: string) {
    HasFrame(file) && HasReferences(file) && ReadStream(file) == Some(stream)
  }

  ghost predicate HasFrame(file: string) {
    && HasAt(file, 0, "%PDF-1.4\n")
    && ReadStart(file).Some? && HasAt(file, ReadStart(file).value, "xref\n0 6\n")
    && HasAt(file, ReadStart(file).value + 9, "0000000000 65535 f \n")
    && HasAt(file, ReadStart(file).value + 129, "trailer<< /Size 6 /Root 1 0 R >>\n")
  }

  ghost predicate HasReferences(file: string) {
    && LeadsTo(file, 1, "1 0 obj<< /Type /Catalog /Pages 2 0 R >>endobj\n")
    && LeadsTo(file, 2, "2 0 obj<< /Type /Pages /Kids [3 0 R] /Count 1 >>endobj\n")
    && LeadsTo(file, 3, "3 0 obj<< /Type /Page /Parent 2 0 R /MediaBox [0 0 612 792] "
                        + "/Contents 4 0 R /Resources << /Font << /F1 5 0 R >> >> >>endobj\n")
    && LeadsTo(file, 4, "4 0 obj<< /Length ")
    && LeadsTo(file, 5, "5 0 obj<< /Type /Font /Subtype /Type1 /BaseFont /Helvetica >>endobj\n")
  }

  lemma ObjectTexts(stream: string)
    ensures
      var objects := Objects(stream);
      && |objects| == 5
      && objects[0] == "1 0 obj<< /Type /Catalog /Pages 2 0 R >>endobj\n"
      && objects[1] == "2 0 obj<< /Type /Pages /Kids [3 0 R] /Count 1 >>endobj\n"
      && objects[2] == "3 0 obj<< /Type /Page /Parent 2 0 R /MediaBox [0 0 612 792] "
                       + "/Contents 4 0 R /Resources << /Font << /F1 5 0 R >> >> >>endobj\n"
      && objects[3] == StreamObject(stream)
      && objects[4] == "5 0 obj<< /Type /Font /Subtype /Type1 /BaseFont /Helvetica >>endobj\n"
  {
  }

  /**
   `_to_pdf`. For every report: each of the five objects starts at the offset its
   table entry gives, `startxref` gives the table, and a reader that follows
   entry 4 and `/Length` recovers the page stream.
   */
  method ToPdf(title: string, columns: seq<string>, rows: seq<Row>) returns (file: string)
    ensures
      var stream := PageStream(ReportLines(title, columns, rows));
      file == File(Objects(stream)) && IsReadable(file, stream)
  {
    hide File, Objects, PageStream, ReportLines, IsReadable;
    var lines := CollectLines(title, columns, rows);
    var stream := WritePage(lines);
    var objects := Objects(stream);
    file := WriteFile(objects);
    PageIsShort(lines);
    ReportIsReadable(stream);
  }

  lemma ReportIsReadable(stream: string)
    requires |stream| <= 60 * 151
    ensures IsReadable(File(Objects(stream)), stream)
  {
    hide File, ReadOffset, ReadStart, ReadStream, HasAt, OffsetOf, Objects, StreamObject, STREAM_HEAD;
    var objects := Objects(stream);
    var file := File(objects);
    OffsetsFit(stream);
    ObjectTexts(stream);
    forall k: nat | k < 5
      ensures ReadOffset(file, k + 1) == Some(OffsetOf(objects, k)) && HasAt(file, OffsetOf(objects, k), objects[k])
    {
      OffsetsAreExact(objects, k);
    }
    assert LeadsTo(file, 1, objects[0]) && LeadsTo(file, 2, objects[1]) && LeadsTo(file, 3, objects[2]);
    assert LeadsTo(file, 4, objects[3]) && LeadsTo(file, 5, objects[4]);
    StreamIsRead(file, OffsetOf(objects, 3), stream);
    StreamHeadIsThere(file, OffsetOf(objects, 3), stream);
    TableIsFound(objects);
  }

  lemma StreamHeadIsThere(file: string, at: nat, stream: string)
    requires HasAt(file, at, StreamObject(stream))
    ensures HasAt(file, at, "4 0 obj<< /Length ")
  {
    StreamParts(file, at, stream);
  }

  lemma TableIsFound(objects: seq<string>)
    requires |objects| == 5 && OffsetOf(objects, 5) < LIMIT
    ensures
      var file := File(objects);
      && HasAt(file, 0, "%PDF-1.4\n")
      && ReadStart(file).Some? && HasAt(file, ReadStart(file).value, "xref\n0 6\n")
      && HasAt(file, ReadStart(file).value + 9, "0000000000 65535 f \n")
      && HasAt(file, ReadStart(file).value + 129, "trailer<< /Size 6 /Root 1 0 R >>\n")
  {
    SixEntries();
    hide *;
    StartIsExact(objects);
    FileFrame(objects);
    var table := OffsetOf(objects, 5);
    assert TableHead(6) + FREE + Entries(objects, 5) == TableHead(6) + (FREE + Entries(objects, 5));
    PrefixOfPart(File(objects), table, TableHead(6), FREE + Entries(objects, 5));
  }

  lemma SixEntries()
    ensures TableHead(6) == "xref\n0 6\n" && |TableHead(6)| == 9
    ensures "trailer<< /Size " + Decimal(6) + " /Root 1 0 R >>\n" == "trailer<< /Size 6 /Root 1 0 R >>\n"
  {
  }
}
