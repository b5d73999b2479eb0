/**
 The line parser for a problem's example block. Lines before the first header
 are ignored; each header opens a section that the following lines extend.
 */
module ExampleParser {
  import opened Outcomes
  import opened Text

  // -------------------------------------------------------------------- lines

  /** The characters `str.splitlines` breaks at. */
  predicate IsBreak(c: char) {
    '\U{A}' <= c <= '\U{D}' || '\U{1C}' <= c <= '\U{1E}' || c == '\U{85}' || c == '\U{2028}' || c == '\U{2029}'
  }

  /** `str.splitlines`: a carriage return and its line feed are one break, and a final break ends the last line. */
  function SplitLines(s: string): (lines: seq<string>)
    ensures forall line :: line in lines ==> forall i :: 0 <= i < |line| ==> !IsBreak(line[i])
    decreases |s|
  {
    if s == [] then []
    else
      var n := StopAt(s, IsBreak);
      if n == |s| then [s]
      else if s[n] == '\r' && n + 1 < |s| && s[n + 1] == '\n' then [s[..n]] + SplitLines(s[n + 2..])
      else [s[..n]] + SplitLines(s[n + 1..])
  }

  /** Stripped lines that are not blank. */
  ghost predicate AreClean(lines: seq<string>) {
    forall i :: 0 <= i < |lines| ==> lines[i] != [] && Trimmed(lines[i], IsSpace)
  }

  /** The stripped lines that are not blank. */
  function CleanLines(lines: seq<string>): (r: seq<string>)
    ensures AreClean(r)
  {
    if lines == [] then []
    else
      var line := Strip(lines[|lines| - 1]);
      if line == [] then CleanLines(lines[..|lines| - 1]) else CleanLines(lines[..|lines| - 1]) + [line]
  }

  predicate OneLine(s: string) {
    forall i :: 0 <= i < |s| ==> !IsBreak(s[i])
  }

  // ------------------------------------------------------------------ headers

  datatype Field = InputField | OutputField | ExplanationField

  function Name(f: Field): string {
    match f
    case InputField => "input"
    case OutputField => "output"
    case ExplanationField => "explanation"
  }

  /** What follows `name`, spaces and a colon, in any case. */
  function AfterName(line: string, name: string): Option<string> {
    if |line| >= |name| && Lower(line[..|name|]) == name then
      var rest := TrimStart(line[|name|..], IsSpace);
      if rest != [] && rest[0] == ':' then Some(Strip(rest[1..])) else None
    else None
  }

  datatype Header = Header(field: Field, rest: string)

  function HeaderOf(line: string): Option<Header> {
    if AfterName(line, "input").Some? then Some(Header(InputField, AfterName(line, "input").value))
    else if AfterName(line, "output").Some? then Some(Header(OutputField, AfterName(line, "output").value))
    else if AfterName(line, "explanation").Some? then Some(Header(ExplanationField, AfterName(line, "explanation").value))
    else None
  }

  // ----------------------------------------------------------------- sections

  datatype Section = Section(field: Field, content: seq<string>)

  function Opened(h: Header): Section {
    Section(h.field, if h.rest == "" then [] else [h.rest])
  }

  /** A header opens a section; any other line extends the last one, if there is one. */
  function Sections(lines: seq<string>): seq<Section> {
    if lines == [] then []
    else
      var before, line := Sections(lines[..|lines| - 1]), lines[|lines| - 1];
      match HeaderOf(line)
      case Some(h) => before + [Opened(h)]
      case None =>
        if before == [] then []
        else
          var last := before[|before| - 1];
          before[..|before| - 1] + [Section(last.field, last.content + [line])]
  }

  /** The content of the last section of a field that is not empty. */
  function ContentOf(sections: seq<Section>, f: Field): seq<string> {
    if sections == [] then []
    else
      var last := sections[|sections| - 1];
      if last.field == f && last.content != [] then last.content else ContentOf(sections[..|sections| - 1], f)
  }

  /** The lines of the three fields; no lines for an absent one. */
  datatype Example = Example(input: seq<string>, output: seq<string>, explanation: seq<string>)

  function ExampleOf(sections: seq<Section>): Example {
    Example(ContentOf(sections, InputField), ContentOf(sections, OutputField), ContentOf(sections, ExplanationField))
  }

  function Parse(text: string): Example {
    ExampleOf(Sections(CleanLines(SplitLines(text))))
  }

  // ------------------------------------------------------------------- parser

  datatype Values = Values(input: string, output: string, explanation: Option<string>)

  function ValuesOf(e: Example): Values {
    Values(Joined(e.input, "\n"), Joined(e.output, "\n"), if e.explanation == [] then None else Some(Joined(e.explanation, "\n")))
  }

  /** The values with the open section stored, if it has content. */
  function Stored(values: Values, current: Option<Field>, buffer: seq<string>): Values {
    if current.None? || buffer == [] then values
    else
      match current.value
      case InputField => values.(input := Joined(buffer, "\n"))
      case OutputField => values.(output := Joined(buffer, "\n"))
      case ExplanationField => values.(explanation := Some(Joined(buffer, "\n")))
  }

  lemma {:induction false} JoinedEnds(lines: seq<string>)
    requires lines != [] && AreClean(lines)
    ensures
      var s, last := Joined(lines, "\n"), lines[|lines| - 1];
      s != [] && s[0] == lines[0][0] && s[|s| - 1] == last[|last| - 1]
  {
    if |lines| > 1 {
      JoinedEnds(lines[1..]);
    }
  }

  method Flush(values: Values, current: Option<Field>, buffer: seq<string>) returns (r: Values)
    requires current.Some? ==> AreClean(buffer)
    ensures r == Stored(values, current, buffer)
  {
    if current.None? || buffer == [] {
      return values;
    }
    var joined := Strip(Joined(buffer, "\n"));
    assert joined == Joined(buffer, "\n") by {
      JoinedEnds(buffer);
      TrimKeepsTrimmed(Joined(buffer, "\n"), IsSpace);
    }
    match current.value {
      case InputField => r := values.(input := joined);
      case OutputField => r := values.(output := joined);
      case ExplanationField => r := values.(explanation := Some(joined));
    }
  }

  /** `current` and `buffer` are the section still open, `values` what the closed ones leave. */
  ghost predicate Tracks(sections: seq<Section>, values: Values, current: Option<Field>, buffer: seq<string>) {
    if sections == [] then values == Values("", "", None) && current == None
    else
      var last := sections[|sections| - 1];
      && current == Some(last.field) && buffer == last.content && AreClean(buffer)
      && values == ValuesOf(ExampleOf(sections[..|sections| - 1]))
  }

  lemma StoredSection(sections: seq<Section>, values: Values, current: Option<Field>, buffer: seq<string>)
    requires Tracks(sections, values, current, buffer)
    ensures Stored(values, current, buffer) == ValuesOf(ExampleOf(sections))
  {
  }

  lemma NoSections()
    ensures Sections(CleanLines([])) == []
  {
  }

  lemma HeaderRestIsTrimmed(line: string)
    requires HeaderOf(line).Some?
    ensures Trimmed(HeaderOf(line).value.rest, IsSpace)
  {
  }

  lemma NextLine(lines: seq<string>, i: nat)
    requires i < |lines|
    ensures
      var before, line := CleanLines(lines[..i]), Strip(lines[i]);
      CleanLines(lines[..i + 1]) == if line == [] then before else before + [line]
  {
    assert lines[..i + 1][..i] == lines[..i];
  }

  lemma NextSection(lines: seq<string>, line: string)
    ensures Sections(lines + [line]) ==
      var before := Sections(lines);
      if HeaderOf(line).Some? then before + [Opened(HeaderOf(line).value)]
      else if before == [] then []
      else
        var last := before[|before| - 1];
        before[..|before| - 1] + [Section(last.field, last.content + [line])]
  {
    assert (lines + [line])[..|lines|] == lines;
  }

  lemma NothingTracked()
    ensures Tracks(Sections(CleanLines([])), Values("", "", None), None, [])
  {
    NoSections();
  }

  lemma OpenContentIsClean(sections: seq<Section>, values: Values, current: Option<Field>, buffer: seq<string>)
    requires Tracks(sections, values, current, buffer)
    ensures current.Some? ==> AreClean(buffer)
  {
  }

  lemma HeaderOpens(before: seq<string>, line: string, values: Values, current: Option<Field>, buffer: seq<string>)
    requires Tracks(Sections(before), values, current, buffer) && HeaderOf(line).Some?
    ensures
      var h := HeaderOf(line).value;
      Tracks(Sections(before + [line]), Stored(values, current, buffer), Some(h.field), if h.rest == "" then [] else [h.rest])
  {
    hide Sections, HeaderOf, ContentOf, Joined, Stored, IsSpace;
    NextSection(before, line);
    StoredSection(Sections(before), values, current, buffer);
    HeaderRestIsTrimmed(line);
  }

  lemma LineExtends(before: seq<string>, line: string, values: Values, current: Option<Field>, buffer: seq<string>)
    requires Tracks(Sections(before), values, current, buffer) && HeaderOf(line).None?
    requires line != [] && Trimmed(line, IsSpace)
    ensures Tracks(Sections(before + [line]), values, current, buffer + [line])
  {
    hide Sections, HeaderOf, ContentOf, Joined, IsSpace;
    NextSection(before, line);
  }

  /** `_parse_pre_example`: one pass over the lines. */
  method ParsePreExample(text: string) returns (values: Values)
    ensures values.input == Joined(Parse(text).input, "\n") && values.output == Joined(Parse(text).output, "\n")
    ensures values.explanation ==
      if Parse(text).explanation == [] then None else Some(Joined(Parse(text).explanation, "\n"))
  {
    hide Sections, CleanLines, HeaderOf, ContentOf, Joined, SplitLines, Stored, Trim, IsSpace, Tracks, AreClean, Opened;
    values := Values("", "", None);
    var current: Option<Field>, buffer: seq<string> := None, [];
    var lines := SplitLines(text);
    NothingTracked();
    assert lines[..0] == [];
    for i := 0 to |lines|
      invariant Tracks(Sections(CleanLines(lines[..i])), values, current, buffer)
    {
      var stripped := Strip(lines[i]);
      ghost var before := CleanLines(lines[..i]);
      NextLine(lines, i);
      if stripped == [] {
        continue;
      }
      var header := HeaderOf(stripped);
      OpenContentIsClean(Sections(before), values, current, buffer);
      if header.Some? {
        HeaderOpens(before, stripped, values, current, buffer);
        values := Flush(values, current, buffer);
        current := Some(header.value.field);
        buffer := if header.value.rest == "" then [] else [header.value.rest];
      } else {
        LineExtends(before, stripped, values, current, buffer);
        buffer := buffer + [stripped];
      }
    }
    assert lines[..|lines|] == lines;
    OpenContentIsClean(Sections(CleanLines(lines)), values, current, buffer);
    StoredSection(Sections(CleanLines(lines)), values, current, buffer);
    values := Flush(values, current, buffer);
  }

  // --------------------------------------------------------------- round trip

  function Title(f: Field): string {
    match f
    case InputField => "Input"
    case OutputField => "Output"
    case ExplanationField => "Explanation"
  }

  /** How a header is written: its name in some case, spaces before the colon, and whether it has a line of its own. */
  datatype Style = Style(title: string, gap: string, apart: bool)

  ghost predicate IsStyle(f: Field, style: Style) {
    && Lower(style.title) == Name(f)
    && (forall c :: c in style.gap ==> IsSpace(c)) && OneLine(style.gap)
  }

  /** The lines of one section. Without content only the header is left. */
  function RenderedSection(content: seq<string>, style: Style): seq<string> {
    var header := style.title + style.gap + ":";
    if style.apart || content == [] then [header] + content else [header + " " + content[0]] + content[1..]
  }

  /** The lines of one field; none for an absent one. */
  function RenderedField(content: seq<string>, style: Style): seq<string> {
    if content == [] then [] else RenderedSection(content, style)
  }

  function Rendered(e: Example, styles: Field -> Style): seq<string> {
    RenderedField(e.input, styles(InputField)) + RenderedField(e.output, styles(OutputField))
    + RenderedField(e.explanation, styles(ExplanationField))
  }

  /** The canonical way: `Input: ` and so on in front of the first line. */
  function Canonical(f: Field): (style: Style)
    ensures !style.apart
  {
    Style(Title(f), "", false)
  }

  /** Stripped, non-blank single lines; those that follow the header line are not headers. */
  ghost predicate IsPlain(content: seq<string>, apart: bool) {
    && AreClean(content)
    && (forall i :: 0 <= i < |content| ==> OneLine(content[i]))
    && (forall i :: 0 <= i < |content| && (apart || i > 0) ==> HeaderOf(content[i]).None?)
  }

  ghost predicate IsPlainExample(e: Example, styles: Field -> Style) {
    && IsPlain(e.input, styles(InputField).apart) && IsPlain(e.output, styles(OutputField).apart)
    && IsPlain(e.explanation, styles(ExplanationField).apart)
  }

  lemma {:induction false} CleanOfConcat(a: seq<string>, b: seq<string>)
    ensures CleanLines(a + b) == CleanLines(a) + CleanLines(b)
  {
    hide Strip, AreClean;
    if b == [] {
      assert a + b == a;
    } else {
      CleanOfConcat(a, b[..|b| - 1]);
      assert (a + b)[..|a + b| - 1] == a + b[..|b| - 1];
      assert (a + b)[|a + b| - 1] == b[|b| - 1];
    }
  }

  lemma StripKeepsTrimmed(line: string)
    requires Trimmed(line, IsSpace)
    ensures Strip(line) == line
  {
    TrimKeepsTrimmed(line, IsSpace);
  }

  lemma {:induction false} CleanOfClean(lines: seq<string>)
    requires AreClean(lines)
    ensures CleanLines(lines) == lines
  {
    hide Strip, Trimmed;
    if lines != [] {
      StripKeepsTrimmed(lines[|lines| - 1]);
      CleanOfClean(lines[..|lines| - 1]);
    }
  }

  lemma FirstLineOfSplit(line: string, rest: string)
    requires OneLine(line)
    ensures SplitLines(line + "\n" + rest) == [line] + SplitLines(rest)
  {
    var text := line + ("\n" + rest);
    assert line + "\n" + rest == text;
    StopsAfter(line, "\n" + rest, IsBreak);
    assert text[..|line|] == line && text[|line| + 1..] == rest && text[|line|] == '\n';
  }

  /** Joining and splitting again keeps the lines, up to the blank ones. */
  lemma {:induction false} SplitOfJoined(lines: seq<string>)
    requires forall i :: 0 <= i < |lines| ==> OneLine(lines[i])
    ensures CleanLines(SplitLines(Joined(lines, "\n"))) == CleanLines(lines)
  {
    hide CleanLines, SplitLines;
    if |lines| == 1 {
      SplitOfOne(lines[0]);
      assert lines == [lines[0]];
    } else if |lines| > 1 {
      FirstLineOfSplit(lines[0], Joined(lines[1..], "\n"));
      SplitOfJoined(lines[1..]);
      CleanOfConcat([lines[0]], SplitLines(Joined(lines[1..], "\n")));
      CleanOfConcat([lines[0]], lines[1..]);
      assert lines == [lines[0]] + lines[1..];
    } else {
      assert lines == [];
      SplitOfOne("");
      BlankLine();
    }
  }

  lemma SplitOfOne(line: string)
    requires OneLine(line)
    ensures CleanLines(SplitLines(line)) == CleanLines([line])
  {
    StopsAfter(line, [], IsBreak);
    assert line + [] == line;
    BlankLine();
  }

  lemma BlankLine()
    ensures CleanLines([""]) == [] && CleanLines([]) == []
  {
  }

  lemma {:induction false} NoHeadersNoSections(lines: seq<string>)
    requires forall i :: 0 <= i < |lines| ==> HeaderOf(lines[i]).None?
    ensures Sections(lines) == []
  {
    if lines != [] {
      NoHeadersNoSections(lines[..|lines| - 1]);
    }
  }

  /** A line of another field's name is not a header of this one. */
  lemma OtherName(title: string, line: string, f: Field, g: Field)
    requires Lower(title) == Name(f) && title <= line
    ensures f != g ==> AfterName(line, Name(g)).None?
  {
    assert |Lower(title)| == |title|;
    if f != g && |line| >= |Name(g)| {
      assert line[0] == title[0] && LowerChar(title[0]) == Name(f)[0];
      assert Lower(line[..|Name(g)|])[0] == LowerChar(line[0]);
      assert Name(f)[0] != Name(g)[0];
    }
  }

  lemma AfterItsName(f: Field, title: string, gap: string, tail: string)
    requires Lower(title) == Name(f) && forall c :: c in gap ==> IsSpace(c)
    ensures AfterName(title + gap + ":" + tail, Name(f)) == Some(Strip(tail))
  {
    assert !IsSpace(':');
    hide IsSpace, Lower, Trim, TrimStart, Name;
    var line, n := title + gap + ":" + tail, |Name(f)|;
    assert |title| == n by {
      assert |Lower(title)| == |title|;
    }
    var colon := ":" + tail;
    assert line[..n] == title && line[n..] == gap + colon;
    StartIsSkipped(gap, colon, IsSpace);
    assert colon[1..] == tail;
  }

  /** A header is read whatever the case of its name, the spaces before the colon, and what follows, be it nothing. */
  lemma HeadersAreRead(f: Field, title: string, gap: string, tail: string)
    requires Lower(title) == Name(f) && forall c :: c in gap ==> IsSpace(c)
    ensures HeaderOf(title + gap + ":" + tail) == Some(Header(f, Strip(tail)))
  {
    hide AfterName, IsSpace, Lower, Strip;
    var line := title + gap + ":" + tail;
    AfterItsName(f, title, gap, tail);
    assert title <= line;
    OtherName(title, line, f, InputField);
    OtherName(title, line, f, OutputField);
  }

  lemma NameGapColon(line: string, name: string) returns (title: string, gap: string, tail: string)
    requires AfterName(line, name).Some?
    ensures line == title + gap + ":" + tail && Lower(title) == name
    ensures (forall c :: c in gap ==> IsSpace(c)) && AfterName(line, name).value == Strip(tail)
  {
    hide TrimStart, Lower, Strip, IsSpace;
    title := line[..|name|];
    var after := line[|name|..];
    var rest := TrimStart(after, IsSpace);
    TrimStartRemoves(after, IsSpace);
    gap, tail := after[..|after| - |rest|], rest[1..];
    assert line == title + after && after == gap + rest && rest == ":" + tail;
  }

  /** Nothing else is a header. */
  lemma OnlyHeadersAreRead(line: string) returns (title: string, gap: string, tail: string)
    requires HeaderOf(line).Some?
    ensures line == title + gap + ":" + tail && Lower(title) == Name(HeaderOf(line).value.field)
    ensures (forall c :: c in gap ==> IsSpace(c)) && HeaderOf(line).value.rest == Strip(tail)
  {
    hide AfterName, Lower, Strip, IsSpace;
    title, gap, tail := NameGapColon(line, Name(HeaderOf(line).value.field));
  }

  lemma StripAfterColon(content: string)
    requires content != [] && Trimmed(content, IsSpace)
    ensures Strip(" " + content) == content
  {
    StripRemoves(" ", content, "");
    assert " " + content + "" == " " + content;
  }

  lemma EmptyRest()
    ensures Strip("") == ""
  {
  }

  /** Plain lines extend the section that is open. */
  lemma {:induction false} LinesExtend(before: seq<string>, f: Field, head: seq<string>, content: seq<string>)
    requires forall i :: 0 <= i < |content| ==> HeaderOf(content[i]).None?
    requires Sections(before) != [] && Sections(before)[|Sections(before)| - 1] == Section(f, head)
    ensures Sections(before + content) == Sections(before)[..|Sections(before)| - 1] + [Section(f, head + content)]
  {
    hide HeaderOf, Sections;
    if content == [] {
      assert before + content == before && head + content == head;
    } else {
      var init, last := content[..|content| - 1], content[|content| - 1];
      LinesExtend(before, f, head, init);
      NextSection(before + init, last);
      assert before + content == before + init + [last] && head + content == head + init + [last];
    }
  }

  /** A rendered section adds one section with its lines, in every style. */
  lemma SectionsOfRendered(before: seq<string>, f: Field, content: seq<string>, style: Style)
    requires IsStyle(f, style) && IsPlain(content, style.apart)
    ensures Sections(before + RenderedSection(content, style)) == Sections(before) + [Section(f, content)]
  {
    hide HeaderOf, Sections, IsSpace, Trimmed, OneLine, Lower, Strip;
    var header := style.title + style.gap + ":";
    if style.apart || content == [] {
      EmptyRest();
      assert HeaderOf(header) == Some(Header(f, "")) by {
        HeadersAreRead(f, style.title, style.gap, "");
        assert style.title + style.gap + ":" + "" == header;
      }
      NextSection(before, header);
      LinesExtend(before + [header], f, [], content);
      assert [] + content == content;
      assert before + RenderedSection(content, style) == before + [header] + content;
    } else {
      HeadersAreRead(f, style.title, style.gap, " " + content[0]);
      StripAfterColon(content[0]);
      var first := header + " " + content[0];
      assert first == style.title + style.gap + ":" + (" " + content[0]);
      NextSection(before, first);
      LinesExtend(before + [first], f, [content[0]], content[1..]);
      assert before + RenderedSection(content, style) == before + [first] + content[1..];
      assert [content[0]] + content[1..] == content;
    }
  }

  lemma HeaderLineIsClean(f: Field, style: Style, content: string)
    requires IsStyle(f, style) && content != [] && Trimmed(content, IsSpace) && OneLine(content)
    ensures
      var header := style.title + style.gap + ":";
      && header != [] && Trimmed(header, IsSpace) && OneLine(header)
      && Trimmed(header + " " + content, IsSpace) && OneLine(header + " " + content)
  {
    TitleIsPlain(f, style.title);
    assert !IsSpace(':') && OneLine(":") && OneLine(" ");
    hide IsSpace, IsBreak;
    var header := style.title + style.gap + ":";
    assert header[0] == style.title[0] && header[|header| - 1] == ':';
    var line := header + " " + content;
    assert line[0] == header[0] && line[|line| - 1] == content[|content| - 1];
  }

  lemma TitleIsPlain(f: Field, title: string)
    requires Lower(title) == Name(f)
    ensures title != [] && OneLine(title) && !IsSpace(title[0])
  {
    assert |Lower(title)| == |title|;
    forall i | 0 <= i < |title|
      ensures !IsBreak(title[i]) && !IsSpace(title[i])
    {
      assert LowerChar(title[i]) == Name(f)[i] && 'a' <= Name(f)[i] <= 'z';
    }
  }

  lemma RenderedIsClean(f: Field, content: seq<string>, style: Style)
    requires IsStyle(f, style) && IsPlain(content, style.apart)
    ensures AreClean(RenderedSection(content, style))
    ensures forall i :: 0 <= i < |RenderedSection(content, style)| ==> OneLine(RenderedSection(content, style)[i])
  {
    HeaderLineIsClean(f, style, if content == [] then "x" else content[0]);
    hide IsSpace, IsBreak, Trimmed, HeaderOf, OneLine, Lower;
  }

  /** The text of lines that end in a line feed each, but for the last. */
  function TextOf(lines: seq<string>): string {
    Joined(lines, "\n")
  }

  /**
   Appending a section to any text sets that field, whatever it was before, and
   no other. A section without content changes nothing.
   */
  lemma {:induction false} LaterSectionWins(lines: seq<string>, f: Field, content: seq<string>, style: Style)
    requires forall i :: 0 <= i < |lines| ==> OneLine(lines[i])
    requires IsStyle(f, style) && IsPlain(content, style.apart)
    ensures
      var e := Parse(TextOf(lines));
      Parse(TextOf(lines + RenderedSection(content, style))) ==
      if content == [] then e
      else match f
           case InputField => e.(input := content)
           case OutputField => e.(output := content)
           case ExplanationField => e.(explanation := content)
  {
    hide HeaderOf, Sections, CleanLines, SplitLines, Joined, RenderedSection, IsStyle, IsPlain;
    var section := RenderedSection(content, style);
    RenderedIsClean(f, content, style);
    SplitOfJoined(lines);
    SplitOfJoined(lines + section);
    CleanOfConcat(lines, section);
    CleanOfClean(section);
    SectionsOfRendered(CleanLines(lines), f, content, style);
    LastSection(Sections(CleanLines(lines)), f, content, InputField);
    LastSection(Sections(CleanLines(lines)), f, content, OutputField);
    LastSection(Sections(CleanLines(lines)), f, content, ExplanationField);
  }

  lemma LastSection(sections: seq<Section>, f: Field, content: seq<string>, g: Field)
    ensures ContentOf(sections + [Section(f, content)], g) ==
      if f == g && content != [] then content else ContentOf(sections, g)
  {
    assert (sections + [Section(f, content)])[..|sections|] == sections;
  }

  lemma NothingParsed(lines: seq<string>)
    requires forall i :: 0 <= i < |lines| ==> OneLine(lines[i])
    requires forall i :: 0 <= i < |CleanLines(lines)| ==> HeaderOf(CleanLines(lines)[i]).None?
    ensures Parse(TextOf(lines)) == Example([], [], [])
  {
    hide HeaderOf, CleanLines, SplitLines, Joined;
    SplitOfJoined(lines);
    NoHeadersNoSections(CleanLines(lines));
  }

  lemma FieldLines(f: Field, content: seq<string>, style: Style, lines: seq<string>)
    requires IsStyle(f, style) && IsPlain(content, style.apart)
    requires forall i :: 0 <= i < |lines| ==> OneLine(lines[i])
    ensures
      var more := lines + RenderedField(content, style);
      && (forall i :: 0 <= i < |more| ==> OneLine(more[i]))
      && Parse(TextOf(more)) ==
         if content == [] then Parse(TextOf(lines))
         else match f
              case InputField => Parse(TextOf(lines)).(input := content)
              case OutputField => Parse(TextOf(lines)).(output := content)
              case ExplanationField => Parse(TextOf(lines)).(explanation := content)
  {
    hide Parse, TextOf, RenderedSection, IsStyle, IsPlain, OneLine;
    if content == [] {
      assert lines + [] == lines;
    } else {
      RenderedIsClean(f, content, style);
      LaterSectionWins(lines, f, content, style);
    }
  }

  /**
   Parsing a rendering gives the example back, in every style of headers and
   whatever text without headers comes first. An absent field stays absent.
   */
  lemma {:induction false} ParseOfRendered(preamble: seq<string>, e: Example, styles: Field -> Style)
    requires IsPlainExample(e, styles) && forall f :: IsStyle(f, styles(f))
    requires forall i :: 0 <= i < |preamble| ==> OneLine(preamble[i])
    requires forall i :: 0 <= i < |CleanLines(preamble)| ==> HeaderOf(CleanLines(preamble)[i]).None?
    ensures Parse(TextOf(preamble + Rendered(e, styles))) == e
  {
    hide Parse, TextOf, RenderedField, HeaderOf, CleanLines, IsStyle, IsPlain, OneLine;
    var one := preamble + RenderedField(e.input, styles(InputField));
    var two := one + RenderedField(e.output, styles(OutputField));
    NothingParsed(preamble);
    assert IsStyle(InputField, styles(InputField)) && IsStyle(OutputField, styles(OutputField));
    FieldLines(InputField, e.input, styles(InputField), preamble);
    FieldLines(OutputField, e.output, styles(OutputField), one);
    FieldLines(ExplanationField, e.explanation, styles(ExplanationField), two);
    assert preamble + Rendered(e, styles) == two + RenderedField(e.explanation, styles(ExplanationField));
  }

  // --------------------------------------------------------------- stability

  lemma StripKeepsOneLine(s: string)
    requires OneLine(s)
    ensures OneLine(Strip(s))
  {
    TrimWithin(s, IsSpace);
    forall i | 0 <= i < |Strip(s)|
      ensures !IsBreak(Strip(s)[i])
    {
      assert Strip(s)[i] in s;
    }
  }

  lemma {:induction false} CleanKeepsOneLine(lines: seq<string>)
    requires forall i :: 0 <= i < |lines| ==> OneLine(lines[i])
    ensures forall i :: 0 <= i < |CleanLines(lines)| ==> OneLine(CleanLines(lines)[i])
  {
    if lines != [] {
      CleanKeepsOneLine(lines[..|lines| - 1]);
      StripKeepsOneLine(lines[|lines| - 1]);
    }
  }

  lemma RestIsOneLine(line: string, name: string)
    requires OneLine(line)
    ensures AfterName(line, name).Some? ==> OneLine(AfterName(line, name).value)
  {
    hide Trim, IsSpace, Lower;
    if AfterName(line, name).Some? {
      var rest := TrimStart(line[|name|..], IsSpace);
      TrimStartRemoves(line[|name|..], IsSpace);
      assert OneLine(rest[1..]);
      StripKeepsOneLine(rest[1..]);
    }
  }

  lemma HeaderRestIsOneLine(line: string)
    requires OneLine(line) && HeaderOf(line).Some?
    ensures OneLine(HeaderOf(line).value.rest)
  {
    hide AfterName, OneLine;
    RestIsOneLine(line, "input");
    RestIsOneLine(line, "output");
    RestIsOneLine(line, "explanation");
  }

  lemma OpenedIsPlain(line: string)
    requires OneLine(line) && HeaderOf(line).Some?
    ensures IsPlain(Opened(HeaderOf(line).value).content, false)
  {
    hide HeaderOf, Trimmed, OneLine;
    HeaderRestIsTrimmed(line);
    HeaderRestIsOneLine(line);
  }

  lemma ExtendedIsPlain(content: seq<string>, line: string)
    requires IsPlain(content, false) && line != [] && Trimmed(line, IsSpace) && OneLine(line) && HeaderOf(line).None?
    ensures IsPlain(content + [line], false)
  {
    hide HeaderOf, Trimmed, OneLine;
  }

  lemma {:induction false} SectionsArePlain(lines: seq<string>)
    requires AreClean(lines) && forall i :: 0 <= i < |lines| ==> OneLine(lines[i])
    ensures forall k :: 0 <= k < |Sections(lines)| ==> IsPlain(Sections(lines)[k].content, false)
  {
    hide HeaderOf, Trimmed, OneLine, IsPlain, Opened;
    if lines != [] {
      var before, line := lines[..|lines| - 1], lines[|lines| - 1];
      SectionsArePlain(before);
      if HeaderOf(line).Some? {
        OpenedIsPlain(line);
      } else if Sections(before) != [] {
        ExtendedIsPlain(Sections(before)[|Sections(before)| - 1].content, line);
      }
    }
  }

  lemma {:induction false} ContentIsPlain(sections: seq<Section>, f: Field)
    requires forall k :: 0 <= k < |sections| ==> IsPlain(sections[k].content, false)
    ensures IsPlain(ContentOf(sections, f), false)
  {
    if sections != [] {
      ContentIsPlain(sections[..|sections| - 1], f);
    }
  }

  /** For every text: what was parsed, written canonically, parses to itself. */
  lemma {:induction false} ParseIsStable(text: string)
    ensures IsPlainExample(Parse(text), Canonical)
    ensures Parse(TextOf(Rendered(Parse(text), Canonical))) == Parse(text)
  {
    ParsedIsPlain(text);
    BlankLine();
    forall f: Field
      ensures IsStyle(f, Canonical(f))
    {
      LowerTitle(f);
    }
    hide Parse, TextOf, Rendered, CleanLines, IsStyle, Canonical, HeaderOf, IsPlain;
    ParseOfRendered([], Parse(text), Canonical);
    assert [] + Rendered(Parse(text), Canonical) == Rendered(Parse(text), Canonical);
  }

  lemma ParsedIsPlain(text: string)
    ensures IsPlainExample(Parse(text), Canonical)
  {
    hide Sections, CleanLines, ContentOf;
    var lines := SplitLines(text);
    CleanKeepsOneLine(lines);
    var sections := Sections(CleanLines(lines));
    SectionsArePlain(CleanLines(lines));
    ContentIsPlain(sections, InputField);
    ContentIsPlain(sections, OutputField);
    ContentIsPlain(sections, ExplanationField);
  }

  lemma LowerTitle(f: Field)
    ensures Lower(Title(f)) == Name(f)
  {
  }

  // ------------------------------------------------------------------ padding

  ghost predicate IsBlank(s: string) {
    forall c :: c in s ==> IsSpace(c) && !IsBreak(c)
  }

  lemma PaddedLine(left: string, line: string, right: string)
    requires IsBlank(left) && IsBlank(right) && OneLine(line) && (line == "" || Trimmed(line, IsSpace))
    ensures OneLine(left + line + right) && CleanLines([left + line + right]) == if line == "" then [] else [line]
  {
    hide IsSpace, IsBreak;
    var padded := left + line + right;
    forall i | 0 <= i < |padded|
      ensures !IsBreak(padded[i])
    {
      assert i < |left| ==> padded[i] in left;
      assert i >= |left| + |line| ==> padded[i] in right;
    }
    if line == "" {
      assert forall c :: c in padded ==> c in left || c in right;
      StartIsSkipped(padded, "", IsSpace);
      assert padded + "" == padded;
    } else {
      StripRemoves(left, line, right);
    }
    assert [padded][..0] == [];
  }

  /** Spaces around a line, and lines of spaces, make no difference. */
  lemma PaddingIsIgnored(before: seq<string>, left: string, line: string, right: string, after: seq<string>)
    requires IsBlank(left) && IsBlank(right) && OneLine(line) && (line == "" || Trimmed(line, IsSpace))
    requires (forall i :: 0 <= i < |before| ==> OneLine(before[i])) && (forall i :: 0 <= i < |after| ==> OneLine(after[i]))
    ensures Parse(TextOf(before + [left + line + right] + after)) ==
      Parse(TextOf(before + (if line == "" then [] else [line]) + after))
  {
    hide OneLine, IsBlank, Trimmed, Sections, CleanLines, SplitLines, Joined, ContentOf, IsSpace, IsBreak;
    var padded, plain := [left + line + right], if line == "" then [] else [line];
    PaddedLine(left, line, right);
    if line != "" {
      assert AreClean(plain);
    }
    CleanOfClean(plain);
    CleanOfConcat(before, padded);
    CleanOfConcat(before, plain);
    CleanOfConcat(before + padded, after);
    CleanOfConcat(before + plain, after);
    SplitOfJoined(before + padded + after);
    SplitOfJoined(before + plain + after);
  }

  // ------------------------------------------------------------------ line breaks

  /** Every break ends a line, a carriage return with its line feed is one break, and a final break opens no line. */
  lemma LinesBreak(line: string, c: char, rest: string)
    requires OneLine(line) && IsBreak(c) && (c == '\r' ==> rest == "" || rest[0] != '\n')
    ensures SplitLines(line + [c] + rest) == [line] + SplitLines(rest)
    ensures SplitLines(line + "\r\n" + rest) == [line] + SplitLines(rest)
  {
    BreakSplits(line, [c], rest);
    BreakSplits(line, "\r\n", rest);
  }

  lemma BreakSplits(line: string, ending: string, rest: string)
    requires OneLine(line)
    requires ending == "\r\n" || (|ending| == 1 && IsBreak(ending[0]) && (ending[0] == '\r' ==> rest == "" || rest[0] != '\n'))
    ensures SplitLines(line + ending + rest) == [line] + SplitLines(rest)
  {
    var text := line + (ending + rest);
    assert line + ending + rest == text;
    StopsAfter(line, ending + rest, IsBreak);
    assert text[..|line|] == line && text[|line| + |ending|..] == rest && text[|line|] == ending[0];
    assert |ending| == 2 ==> text[|line| + 1] == '\n';
    assert |ending| == 1 && rest != "" ==> text[|line| + 1] == rest[0];
  }

  /** Every break is a space, so a break never survives in a stripped line's ends. */
  lemma BreaksAreSpaces(c: char)
    ensures IsBreak(c) ==> IsSpace(c)
    ensures c in "\t " ==> IsSpace(c) && !IsBreak(c)
  {
  }
}
