/**
 * The proposal editor's Markdown section model: a document is cut into
 * sections at every line that starts with "## ", text before the first
 * heading becomes a special `_header` section, and the sections are written
 * back with blank lines between them. Section ids are random and are not
 * modelled.
 */
module ProposalParser {
  import opened Text

  const HeaderTitle: string := "_header"
  const HeadingMarker: string := "## "

  datatype Section = Section(title: string, content: string, isEditing: bool)

  predicate IsHeading(line: string) {
    StartsWith(line, HeadingMarker)
  }

  /** Number of lines before the first heading. */
  function LeadLength(lines: seq<string>): (n: nat)
    ensures n <= |lines|
    ensures forall i :: 0 <= i < n ==> !IsHeading(lines[i])
    ensures n < |lines| ==> IsHeading(lines[n])
  {
    if |lines| == 0 || IsHeading(lines[0]) then 0 else 1 + LeadLength(lines[1..])
  }

  /** The title of a heading line: the text after the marker, trimmed. */
  function TitleOf(line: string): string
    requires IsHeading(line)
  {
    Trim(line[|HeadingMarker|..])
  }

  /** One section per heading: its title, and the lines up to the next heading joined and trimmed. */
  function SectionsFrom(lines: seq<string>): seq<Section>
    requires |lines| == 0 || IsHeading(lines[0])
    decreases |lines|
  {
    if |lines| == 0 then []
    else
      var n := LeadLength(lines[1..]);
      [Section(TitleOf(lines[0]), Trim(Join(lines[1..][..n], "\n")), false)] + SectionsFrom(lines[1..][n..])
  }

  /** The text before the first heading, trimmed. */
  function HeaderText(lines: seq<string>): string {
    Trim(Join(lines[..LeadLength(lines)], "\n"))
  }

  /** parseMarkdownToSections on the lines of the document. */
  function ParseLines(lines: seq<string>): seq<Section> {
    var h := LeadLength(lines);
    var sections := SectionsFrom(lines[h..]);
    if h > 0 && |sections| > 0 && HeaderText(lines) != "" then [Section(HeaderTitle, HeaderText(lines), false)] + sections
    else sections
  }

  /** parseMarkdownToSections. */
  function Parse(markdown: string): seq<Section> {
    ParseLines(SplitLines(markdown))
  }

  /** The lines one section is written as, before the separating blank line. */
  function Core(s: Section): (r: seq<string>)
    ensures |r| > 0
  {
    if s.title == HeaderTitle then [s.content]
    else [HeadingMarker + s.title] + (if s.content != "" then ["", s.content] else [])
  }

  function Parts(sections: seq<Section>): seq<string>
    decreases |sections|
  {
    if |sections| == 0 then [] else Core(sections[0]) + [""] + Parts(sections[1..])
  }

  /** sectionsToMarkdown. */
  function ToMarkdown(sections: seq<Section>): string {
    Trim(Join(Parts(sections), "\n"))
  }

  // ------------------------------------------------------------- parse facts

  /** The titles of the heading lines, in order. */
  function HeadingTitles(lines: seq<string>): seq<string>
    decreases |lines|
  {
    if |lines| == 0 then []
    else (if IsHeading(lines[0]) then [TitleOf(lines[0])] else []) + HeadingTitles(lines[1..])
  }

  function Titles(sections: seq<Section>): (r: seq<string>)
    ensures |r| == |sections|
    decreases |sections|
  {
    if |sections| == 0 then [] else [sections[0].title] + Titles(sections[1..])
  }

  lemma {:induction false} HeadingTitlesSkip(lines: seq<string>, n: nat)
    requires n <= |lines|
    requires forall i :: 0 <= i < n ==> !IsHeading(lines[i])
    ensures HeadingTitles(lines) == HeadingTitles(lines[n..])
    decreases n
  {
    if n > 0 {
      HeadingTitlesSkip(lines[1..], n - 1);
      assert lines[1..][n - 1..] == lines[n..];
    }
  }

  lemma TitlesCons(s: Section, tail: seq<Section>)
    ensures Titles([s] + tail) == [s.title] + Titles(tail)
  {
    assert ([s] + tail)[1..] == tail;
  }

  /** Sections from a heading onward: one per heading line, titled by it, none being edited. */
  lemma SectionsFromTitles(lines: seq<string>)
    requires |lines| == 0 || IsHeading(lines[0])
    ensures Titles(SectionsFrom(lines)) == HeadingTitles(lines)
    ensures forall i :: 0 <= i < |SectionsFrom(lines)| ==> !SectionsFrom(lines)[i].isEditing
  {
    SectionsFromTitleList(lines);
    SectionsFromNotEditing(lines);
  }

  lemma {:induction false} SectionsFromTitleList(lines: seq<string>)
    requires |lines| == 0 || IsHeading(lines[0])
    ensures Titles(SectionsFrom(lines)) == HeadingTitles(lines)
    decreases |lines|
  {
    if |lines| > 0 {
      var rest := lines[1..];
      var n := LeadLength(rest);
      var tail := SectionsFrom(rest[n..]);
      var first := Section(TitleOf(lines[0]), Trim(Join(rest[..n], "\n")), false);
      calc {
        Titles(SectionsFrom(lines));
        Titles([first] + tail);
        { TitlesCons(first, tail); }
        [first.title] + Titles(tail);
        { SectionsFromTitleList(rest[n..]); }
        [TitleOf(lines[0])] + HeadingTitles(rest[n..]);
        { HeadingTitlesSkip(rest, n); }
        [TitleOf(lines[0])] + HeadingTitles(rest);
        HeadingTitles(lines);
      }
    }
  }

  ghost predicate NoneEditing(sections: seq<Section>) {
    forall i :: 0 <= i < |sections| ==> !sections[i].isEditing
  }

  lemma {:induction false} SectionsFromNotEditing(lines: seq<string>)
    requires |lines| == 0 || IsHeading(lines[0])
    ensures NoneEditing(SectionsFrom(lines))
    decreases |lines|
  {
    if |lines| > 0 {
      var rest := lines[1..];
      var n := LeadLength(rest);
      var first := Section(TitleOf(lines[0]), Trim(Join(rest[..n], "\n")), false);
      SectionsFromNotEditing(rest[n..]);
      NoneEditingCons(first, SectionsFrom(rest[n..]));
    }
  }

  lemma NoneEditingCons(s: Section, tail: seq<Section>)
    requires !s.isEditing && NoneEditing(tail)
    ensures NoneEditing([s] + tail)
  {
    forall i | 0 < i < |[s] + tail|
      ensures !([s] + tail)[i].isEditing
    {
      assert ([s] + tail)[i] == tail[i - 1];
    }
  }

  /**
   * The sections are the heading lines in order, each titled by its line,
   * preceded by a `_header` section exactly when some heading exists and the
   * text before the first heading is not blank; that text is the header's
   * content, trimmed. No heading, no sections.
   */
  lemma ParseStructure(markdown: string)
    ensures var lines := SplitLines(markdown); var r := Parse(markdown);
            var withHeader := HeadingTitles(lines) != [] && HeaderText(lines) != "";
      && (HeadingTitles(lines) == [] ==> r == [])
      && (withHeader ==> |r| > 0 && r[0] == Section(HeaderTitle, HeaderText(lines), false) && Titles(r[1..]) == HeadingTitles(lines))
      && (!withHeader ==> Titles(r) == HeadingTitles(lines))
      && forall i :: 0 <= i < |r| ==> !r[i].isEditing
  {
    ParseLinesStructure(SplitLines(markdown));
  }

  lemma ParseLinesStructure(lines: seq<string>)
    ensures var r := ParseLines(lines);
            var withHeader := HeadingTitles(lines) != [] && HeaderText(lines) != "";
      && (HeadingTitles(lines) == [] ==> r == [])
      && (withHeader ==> |r| > 0 && r[0] == Section(HeaderTitle, HeaderText(lines), false) && Titles(r[1..]) == HeadingTitles(lines))
      && (!withHeader ==> Titles(r) == HeadingTitles(lines))
      && forall i :: 0 <= i < |r| ==> !r[i].isEditing
  {
    var h := LeadLength(lines);
    var sections := SectionsFrom(lines[h..]);
    HeadingTitlesSkip(lines, h);
    SectionsFromTitles(lines[h..]);
    assert |sections| == |HeadingTitles(lines)|;
    if h == 0 {
      NoLeadNoHeader(lines);
    }
    if h > 0 && |sections| > 0 && HeaderText(lines) != "" {
      HeaderInFront(Section(HeaderTitle, HeaderText(lines), false), sections);
    }
  }

  /** Without lines before the first heading the header text is empty. */
  lemma NoLeadNoHeader(lines: seq<string>)
    requires LeadLength(lines) == 0
    ensures HeaderText(lines) == ""
  {
    assert lines[..0] == [];
    TrimIdentity("");
  }

  lemma HeaderInFront(s: Section, sections: seq<Section>)
    requires !s.isEditing && NoneEditing(sections)
    ensures ([s] + sections)[0] == s && ([s] + sections)[1..] == sections
    ensures NoneEditing([s] + sections)
  {
    NoneEditingCons(s, sections);
  }

  // ------------------------------------------------------------ round trip

  /** No line of the text is a heading. */
  ghost predicate NoHeadingLine(text: string) {
    forall i :: 0 <= i < |SplitLines(text)| ==> !IsHeading(SplitLines(text)[i])
  }

  /** A header section as the parser produces it: non-blank trimmed text without headings. */
  ghost predicate HeaderSection(s: Section) {
    && s.title == HeaderTitle && !s.isEditing
    && s.content != "" && Trimmed(s.content) && NoHeadingLine(s.content)
  }

  /**
   * A section after the header as the editor keeps it: a trimmed one-line
   * title other than `_header`, and trimmed content without heading lines.
   */
  ghost predicate NormalSection(s: Section) {
    && s.title != HeaderTitle && !s.isEditing
    && Trimmed(s.content) && NoHeadingLine(s.content)
    && s.title != "" && Trimmed(s.title) && '\n' !in s.title
  }

  ghost predicate AllNormal(sections: seq<Section>)
    decreases |sections|
  {
    |sections| == 0 || (NormalSection(sections[0]) && AllNormal(sections[1..]))
  }

  /** What the parser can give back: normal sections, optionally after a header, never nothing or a header alone. */
  ghost predicate WellFormed(sections: seq<Section>) {
    if |sections| > 0 && sections[0].title == HeaderTitle then
      HeaderSection(sections[0]) && |sections| > 1 && AllNormal(sections[1..])
    else
      |sections| > 0 && AllNormal(sections)
  }

  lemma {:induction false} AllNormalIndex(sections: seq<Section>)
    requires AllNormal(sections)
    ensures forall i :: 0 <= i < |sections| ==> NormalSection(sections[i])
    decreases |sections|
  {
    if |sections| > 0 {
      AllNormalIndex(sections[1..]);
      assert forall i :: 0 < i < |sections| ==> sections[i] == sections[1..][i - 1];
    }
  }

  lemma WellFormedTitles(sections: seq<Section>)
    requires WellFormed(sections)
    ensures forall i :: 0 <= i < |sections| ==> sections[i].title != HeaderTitle ==> '\n' !in sections[i].title
  {
    if sections[0].title == HeaderTitle {
      AllNormalIndex(sections[1..]);
      assert forall i :: 0 < i < |sections| ==> sections[i] == sections[1..][i - 1];
    } else {
      AllNormalIndex(sections);
    }
  }

  /** The lines of a section as it is written, ending with the blank separator line. */
  function Block(s: Section): seq<string> {
    if s.title == HeaderTitle then SplitLines(s.content) + [""]
    else [HeadingMarker + s.title] + Body(s.content) + [""]
  }

  function AllLines(sections: seq<Section>): seq<string>
    decreases |sections|
  {
    if |sections| == 0 then [] else Block(sections[0]) + AllLines(sections[1..])
  }

  lemma BlockLines(s: Section)
    requires s.title != HeaderTitle ==> '\n' !in s.title
    ensures SplitEach(Core(s) + [""]) == Block(s)
  {
    var c := Core(s);
    SplitEachConcat(c, [""]);
    assert SplitEach([""]) == [""];
    if s.title != HeaderTitle {
      var head := HeadingMarker + s.title;
      assert '\n' !in head;
      if s.content != "" {
        assert c == [head] + ["", s.content];
        SplitEachConcat([head], ["", s.content]);
        SplitEachConcat([""], [s.content]);
      }
    } else {
      assert SplitEach([s.content]) == SplitLines(s.content);
    }
  }

  /** Splitting the parts gives the blocks, section after section. */
  lemma {:induction false} PartsLines(sections: seq<Section>)
    requires forall i :: 0 <= i < |sections| ==> sections[i].title != HeaderTitle ==> '\n' !in sections[i].title
    ensures SplitEach(Parts(sections)) == AllLines(sections)
    decreases |sections|
  {
    if |sections| > 0 {
      PartsLines(sections[1..]);
      BlockLines(sections[0]);
      SplitEachConcat(Core(sections[0]) + [""], Parts(sections[1..]));
    }
  }

  lemma {:induction false} LeadLengthConcat(a: seq<string>, b: seq<string>)
    requires forall i :: 0 <= i < |a| ==> !IsHeading(a[i])
    ensures LeadLength(a + b) == |a| + LeadLength(b)
    decreases |a|
  {
    if |a| > 0 {
      LeadLengthConcat(a[1..], b);
      assert (a + b)[1..] == a[1..] + b;
    } else {
      assert a + b == b;
    }
  }

  /** The lines a normal section's content is written as, after its heading. */
  function Body(content: string): seq<string> {
    if content != "" then [""] + SplitLines(content) else []
  }

  /** The body a normal section is written with trims back to its content. */
  lemma BodyContent(content: string)
    requires Trimmed(content)
    ensures Trim(Join(Body(content) + [""], "\n")) == content
  {
    if content == "" {
      assert Body(content) + [""] == [""];
      TrimIdentity("");
    } else {
      var ls := SplitLines(content);
      var j := Join([""] + ls, "\n");
      JoinConcat([""], ls, "\n");
      JoinSplitLines(content);
      assert j == "\n" + content;
      JoinSnoc([""] + ls, "", "\n");
      assert Body(content) + [""] == ([""] + ls) + [""];
      assert Join(Body(content) + [""], "\n") == j + "\n" + "";
      assert j + "\n" + "" == "\n" + content + "\n";
      TrimWrappedInNewlines(content);
    }
  }

  lemma BodyHasNoHeading(content: string)
    requires NoHeadingLine(content)
    ensures forall i :: 0 <= i < |Body(content) + [""]| ==> !IsHeading((Body(content) + [""])[i])
  {
    var b := Body(content) + [""];
    forall i | 0 <= i < |b| ensures !IsHeading(b[i]) {
      if 0 < i < |Body(content)| {
        assert b[i] == SplitLines(content)[i - 1];
      }
    }
  }

  /** A heading line, lines without headings, then the rest: one section, then the sections of the rest. */
  lemma SectionsFromCons(head: string, mid: seq<string>, tail: seq<string>)
    requires IsHeading(head)
    requires forall i :: 0 <= i < |mid| ==> !IsHeading(mid[i])
    requires |tail| == 0 || IsHeading(tail[0])
    ensures SectionsFrom([head] + mid + tail) == [Section(TitleOf(head), Trim(Join(mid, "\n")), false)] + SectionsFrom(tail)
  {
    var lines := [head] + mid + tail;
    assert lines[0] == head;
    assert lines[1..] == mid + tail;
    LeadLengthConcat(mid, tail);
    assert LeadLength(tail) == 0;
    var n := LeadLength(lines[1..]);
    assert n == |mid|;
    assert lines[1..][..n] == mid;
    assert lines[1..][n..] == tail;
  }

  /** One written normal section in front of further sections parses back to itself. */
  lemma BlockParses(s: Section, tail: seq<string>)
    requires NormalSection(s)
    requires |tail| == 0 || IsHeading(tail[0])
    ensures IsHeading(Block(s)[0])
    ensures SectionsFrom(Block(s) + tail) == [s] + SectionsFrom(tail)
  {
    var head := HeadingMarker + s.title;
    var mid := Body(s.content) + [""];
    HeadingOf(s.title);
    BlockThenTail(s, []);
    calc {
      SectionsFrom(Block(s) + tail);
      { BlockThenTail(s, tail); }
      SectionsFrom([head] + mid + tail);
      { BodyHasNoHeading(s.content); SectionsFromCons(head, mid, tail); }
      [Section(s.title, Trim(Join(mid, "\n")), false)] + SectionsFrom(tail);
      { BodyContent(s.content); }
      [s] + SectionsFrom(tail);
    }
  }

  /** The heading line written for a trimmed title reads back as that title. */
  lemma HeadingOf(title: string)
    requires Trimmed(title)
    ensures IsHeading(HeadingMarker + title) && TitleOf(HeadingMarker + title) == title
  {
    var head := HeadingMarker + title;
    assert head[..|HeadingMarker|] == HeadingMarker;
    assert head[|HeadingMarker|..] == title;
    TrimIdentity(title);
  }

  /** A normal section's block is its heading line, then its body and the blank line. */
  lemma BlockThenTail(s: Section, tail: seq<string>)
    requires s.title != HeaderTitle
    ensures Block(s)[0] == HeadingMarker + s.title
    ensures Block(s) + tail == [HeadingMarker + s.title] + (Body(s.content) + [""]) + tail
  {
  }

  /** The first written section parses back to itself ahead of the rest. */
  lemma FirstBlockParses(sections: seq<Section>)
    requires |sections| > 0 && NormalSection(sections[0])
    requires |AllLines(sections[1..])| == 0 || IsHeading(AllLines(sections[1..])[0])
    ensures |AllLines(sections)| > 0 && IsHeading(AllLines(sections)[0])
    ensures SectionsFrom(AllLines(sections)) == [sections[0]] + SectionsFrom(AllLines(sections[1..]))
  {
    BlockParses(sections[0], AllLines(sections[1..]));
  }

  /** A non-empty list is its first element followed by the rest. */
  lemma FirstAndRest(sections: seq<Section>)
    requires |sections| > 0
    ensures [sections[0]] + sections[1..] == sections
  {
  }

  /** The blocks of well-formed normal sections parse back to them. */
  lemma {:induction false} NormalBlocksParse(sections: seq<Section>)
    requires AllNormal(sections)
    ensures |AllLines(sections)| == 0 || IsHeading(AllLines(sections)[0])
    ensures SectionsFrom(AllLines(sections)) == sections
    decreases |sections|
  {
    if |sections| > 0 {
      var rest := sections[1..];
      NormalBlocksParse(rest);
      FirstBlockParses(sections);
      FirstAndRest(sections);
    }
  }

  /** The header is written as its lines and a blank line, which join and trim back to it. */
  lemma HeaderLines(content: string)
    requires Trimmed(content) && NoHeadingLine(content)
    ensures forall i :: 0 <= i < |SplitLines(content) + [""]| ==> !IsHeading((SplitLines(content) + [""])[i])
    ensures Trim(Join(SplitLines(content) + [""], "\n")) == content
  {
    var ls := SplitLines(content);
    forall i | 0 <= i < |ls + [""]| ensures !IsHeading((ls + [""])[i]) {
      if i < |ls| {
        assert (ls + [""])[i] == ls[i];
      }
    }
    JoinSplitLines(content);
    JoinSnoc(ls, "", "\n");
    assert Join(ls + [""], "\n") == content + "\n";
    TrimDropsTrailingNewline(content);
    TrimIdentity(content);
  }

  /** Lines without headings in front of lines opening with a heading: they are the header text. */
  lemma ParseSplitsAtHeading(hl: seq<string>, t: seq<string>)
    requires forall i :: 0 <= i < |hl| ==> !IsHeading(hl[i])
    requires |t| > 0 && IsHeading(t[0])
    ensures LeadLength(hl + t) == |hl|
    ensures HeaderText(hl + t) == Trim(Join(hl, "\n"))
    ensures (hl + t)[|hl|..] == t
  {
    LeadLengthConcat(hl, t);
    assert (hl + t)[..|hl|] == hl;
  }

  /** Header lines in front of written normal sections parse to the header and those sections. */
  lemma HeaderThenSections(s: Section, rest: seq<Section>)
    requires HeaderSection(s) && |rest| > 0 && AllNormal(rest)
    ensures ParseLines(Block(s) + AllLines(rest)) == [s] + rest
  {
    var hl := SplitLines(s.content) + [""];
    var t := AllLines(rest);
    NormalBlocksParse(rest);
    assert |t| > 0;
    HeaderLines(s.content);
    assert Block(s) == hl;
    ParseSplitsAtHeading(hl, t);
    var lines := hl + t;
    assert HeaderText(lines) == s.content;
    assert SectionsFrom(lines[LeadLength(lines)..]) == rest;
  }

  /** The written lines of well-formed sections parse back to the sections. */
  lemma AllLinesParse(sections: seq<Section>)
    requires WellFormed(sections)
    ensures ParseLines(AllLines(sections)) == sections
  {
    if sections[0].title == HeaderTitle {
      HeaderThenSections(sections[0], sections[1..]);
      FirstAndRest(sections);
    } else {
      NormalBlocksParse(sections);
      HeadingFirstParse(AllLines(sections));
    }
  }

  /** Joining with one more blank line and trimming gives the same text. */
  lemma TrimJoinBlank(lines: seq<string>)
    ensures Trim(Join(lines + [""], "\n")) == Trim(Join(lines, "\n"))
  {
    var j := Join(lines, "\n");
    if |lines| > 0 {
      JoinSnoc(lines, "", "\n");
      assert j + "\n" + "" == j + "\n";
      TrimDropsTrailingNewline(j);
    } else {
      assert lines + [""] == [""];
      assert Join([""], "\n") == "" == j;
    }
  }

  /** A trailing blank line changes nothing: it only reaches a body that is trimmed anyway. */
  lemma {:induction false} SectionsFromBlankLine(lines: seq<string>)
    requires |lines| > 0 && IsHeading(lines[0])
    ensures SectionsFrom(lines + [""]) == SectionsFrom(lines)
    decreases |lines|
  {
    var head := lines[0];
    var rest := lines[1..];
    var n := LeadLength(rest);
    var mid := rest[..n];
    var tail := rest[n..];
    assert lines == [head] + mid + tail;
    if n < |rest| {
      assert lines + [""] == [head] + mid + (tail + [""]);
      SectionsFromCons(head, mid, tail);
      SectionsFromCons(head, mid, tail + [""]);
      SectionsFromBlankLine(tail);
    } else {
      assert tail == [];
      assert lines + [""] == [head] + (mid + [""]) + [];
      assert forall i :: 0 <= i < |mid + [""]| ==> !IsHeading((mid + [""])[i]) by {
        forall i | 0 <= i < |mid + [""]| ensures !IsHeading((mid + [""])[i]) {
          if i < |mid| {
            assert (mid + [""])[i] == rest[i];
          }
        }
      }
      SectionsFromCons(head, mid, []);
      SectionsFromCons(head, mid + [""], []);
      TrimJoinBlank(mid);
    }
  }

  /** Cutting lines at h, with and without a blank line appended. */
  lemma SnocAt(lines: seq<string>, h: nat)
    requires h <= |lines|
    ensures lines == lines[..h] + lines[h..]
    ensures lines + [""] == lines[..h] + (lines[h..] + [""])
    ensures (lines + [""])[..h] == lines[..h]
    ensures (lines + [""])[h..] == lines[h..] + [""]
  {
  }

  lemma ParseBlankLine(lines: seq<string>)
    ensures ParseLines(lines + [""]) == ParseLines(lines)
  {
    var h := LeadLength(lines);
    if h < |lines| {
      SnocAt(lines, h);
      LeadLengthConcat(lines[..h], lines[h..] + [""]);
      LeadLengthConcat(lines[..h], lines[h..]);
      SectionsFromBlankLine(lines[h..]);
    } else {
      LeadLengthConcat(lines, [""]);
      assert LeadLength([""]) == 1;
      assert (lines + [""])[h + 1..] == [];
      assert lines[h..] == [];
    }
  }

  /** The first part of the written sections starts with a non-white character. */
  lemma PartsFirst(sections: seq<Section>)
    requires WellFormed(sections)
    ensures |Parts(sections)| > 0 && |Parts(sections)[0]| > 0 && !IsWhite(Parts(sections)[0][0])
  {
    var s := sections[0];
    assert Parts(sections)[0] == Core(s)[0];
    if s.title != HeaderTitle {
      assert Core(s)[0][0] == '#';
    }
  }

  /** The last line a section is written with, before its blank separator, ends with a non-white character. */
  lemma CoreLast(s: Section)
    requires HeaderSection(s) || NormalSection(s)
    ensures var c := Core(s); |c[|c| - 1]| > 0 && !IsWhite(c[|c| - 1][|c[|c| - 1]| - 1])
  {
    if s.title != HeaderTitle && s.content == "" {
      var h := HeadingMarker + s.title;
      assert h[|h| - 1] == s.title[|s.title| - 1];
    }
  }

  /** The written parts: everything up to the final blank separator, whose last part ends with a non-white character. */
  lemma {:induction false} PartsLast(sections: seq<Section>) returns (q: seq<string>)
    requires |sections| > 0 && (HeaderSection(sections[0]) || NormalSection(sections[0]))
    requires AllNormal(sections[1..])
    ensures Parts(sections) == q + [""]
    ensures |q| > 0 && |q[|q| - 1]| > 0 && !IsWhite(q[|q| - 1][|q[|q| - 1]| - 1])
    decreases |sections|
  {
    var c := Core(sections[0]);
    if |sections| == 1 {
      q := c;
      assert Parts(sections) == c + [""] + Parts([]);
      CoreLast(sections[0]);
    } else {
      var rest := sections[1..];
      assert rest[1..] == sections[2..];
      var q' := PartsLast(rest);
      q := c + [""] + q';
      assert Parts(sections) == c + [""] + (q' + [""]);
    }
  }

  /**
   * Round trip: writing well-formed sections and parsing the text gives the
   * same titles and contents back, with no section being edited.
   */
  lemma RoundTrip(sections: seq<Section>)
    requires WellFormed(sections)
    ensures Parse(ToMarkdown(sections)) == sections
  {
    WrittenLines(sections);
    ParseBlankLine(SplitLines(ToMarkdown(sections)));
    AllLinesParse(sections);
  }

  /** The final trim only removes the closing newline: the text is the parts before the last blank one, joined. */
  lemma WrittenText(sections: seq<Section>) returns (q: seq<string>)
    requires WellFormed(sections)
    ensures |q| > 0 && Parts(sections) == q + [""]
    ensures ToMarkdown(sections) == Join(q, "\n")
  {
    q := PartsLast(sections);
    PartsFirst(sections);
    assert q[0] == Parts(sections)[0];
    var y := Join(q, "\n");
    JoinSnoc(q, "", "\n");
    assert Join(Parts(sections), "\n") == y + "\n";
    JoinFirstChar(q, "\n");
    JoinLastChar(q, "\n");
    assert Trimmed(y);
    TrimDropsTrailingNewline(y);
    TrimIdentity(y);
  }

  /** The lines of the written text, with the blank separator put back, are the blocks. */
  lemma WrittenLines(sections: seq<Section>)
    requires WellFormed(sections)
    ensures SplitLines(ToMarkdown(sections)) + [""] == AllLines(sections)
  {
    var q := WrittenText(sections);
    var y := Join(q, "\n");
    SplitLinesOfJoinedParts(q + [""]);
    JoinSnoc(q, "", "\n");
    SplitLinesAtNewline(y, "");
    SplitLinesOfJoinedParts(q);
    SplitEachConcat(q, [""]);
    assert SplitEach([""]) == [""];
    WellFormedTitles(sections);
    PartsLines(sections);
  }

  /**
   * A heading titled "_header" parses into a section that is then written
   * as bare header text, and that text alone parses to nothing: the round
   * trip needs titles other than "_header".
   */
  lemma HeaderTitleCollides(body: string)
    requires body != "" && Trimmed(body) && '\n' !in body && !IsHeading(body)
    ensures Parse(HeadingMarker + HeaderTitle + "\n" + body) == [Section(HeaderTitle, body, false)]
    ensures ToMarkdown([Section(HeaderTitle, body, false)]) == body
    ensures Parse(body) == []
  {
    HeaderHeadingParses(body);
    HeaderWrittenBare(body);
    LineWithoutHeadingParsesEmpty(body);
  }

  lemma HeaderHeadingParses(body: string)
    requires Trimmed(body) && '\n' !in body && !IsHeading(body)
    ensures Parse(HeadingMarker + HeaderTitle + "\n" + body) == [Section(HeaderTitle, body, false)]
  {
    HeaderTitleOf();
    HeadingThenLine(HeadingMarker + HeaderTitle, body);
  }

  lemma HeaderTitleOf()
    ensures IsHeading(HeadingMarker + HeaderTitle) && '\n' !in HeadingMarker + HeaderTitle
    ensures TitleOf(HeadingMarker + HeaderTitle) == HeaderTitle
  {
    var head := HeadingMarker + HeaderTitle;
    assert head[..|HeadingMarker|] == HeadingMarker;
    assert head[|HeadingMarker|..] == HeaderTitle;
    TrimIdentity(HeaderTitle);
  }

  /** A heading line and one line of text: one section holding that text. */
  lemma HeadingThenLine(head: string, line: string)
    requires IsHeading(head) && '\n' !in head
    requires Trimmed(line) && '\n' !in line && !IsHeading(line)
    ensures Parse(head + "\n" + line) == [Section(TitleOf(head), line, false)]
  {
    TwoLines(head, line);
    HeadingLineParse(head, line);
  }

  lemma TwoLines(a: string, b: string)
    requires '\n' !in a && '\n' !in b
    ensures SplitLines(a + "\n" + b) == [a, b]
  {
    SplitLinesAtNewline(a, b);
    assert SplitLines(a) == [a];
    assert SplitLines(b) == [b];
  }

  lemma HeadingLineParse(head: string, line: string)
    requires IsHeading(head) && Trimmed(line) && !IsHeading(line)
    ensures ParseLines([head, line]) == [Section(TitleOf(head), line, false)]
  {
    var lines := [head] + [line] + [];
    assert lines == [head, line];
    HeadingFirstParse(lines);
    SectionsFromCons(head, [line], []);
    TrimIdentity(line);
    assert Join([line], "\n") == line;
    assert SectionsFrom([]) == [];
  }

  /** Text opening with a heading has no header section. */
  lemma HeadingFirstParse(lines: seq<string>)
    requires |lines| > 0 && IsHeading(lines[0])
    ensures ParseLines(lines) == SectionsFrom(lines)
  {
    assert LeadLength(lines) == 0;
    assert lines[0..] == lines;
  }

  lemma HeaderWrittenBare(body: string)
    requires Trimmed(body)
    ensures ToMarkdown([Section(HeaderTitle, body, false)]) == body
  {
    assert Parts([Section(HeaderTitle, body, false)]) == [body] + [""];
    JoinSnoc([body], "", "\n");
    assert Join([body] + [""], "\n") == body + "\n";
    TrimDropsTrailingNewline(body);
    TrimIdentity(body);
  }

  lemma LineWithoutHeadingParsesEmpty(line: string)
    requires '\n' !in line && !IsHeading(line)
    ensures Parse(line) == []
  {
    assert SplitLines(line) == [line];
    assert LeadLength([line]) == 1;
    assert [line][1..] == [];
  }

  // ------------------------------------------------------- display name

  predicate AllDigits(s: string) {
    forall i :: 0 <= i < |s| ==> IsDigit(s[i])
  }

  /** Length of the leading run of characters satisfying white-space (or digit) tests. */
  function DigitRun(s: string): (n: nat)
    ensures n <= |s| && AllDigits(s[..n]) && (n < |s| ==> !IsDigit(s[n]))
  {
    if |s| == 0 || !IsDigit(s[0]) then 0
    else
      var n := 1 + DigitRun(s[1..]);
      assert s[..n] == [s[0]] + s[1..][..n - 1];
      n
  }

  function WhiteRun(s: string): (n: nat)
    ensures n <= |s| && (forall i :: 0 <= i < n ==> IsWhite(s[i])) && (n < |s| ==> !IsWhite(s[n]))
  {
    if |s| == 0 || !IsWhite(s[0]) then 0 else 1 + WhiteRun(s[1..])
  }

  predicate NoLineTerminator(s: string) {
    forall i :: 0 <= i < |s| ==> !IsLineTerminator(s[i])
  }

  /**
   * getSectionDisplayName: the capture group of ^\d+\.\s*(.+)$ when the
   * title matches, else the title. \s* is greedy, so the group starts after
   * the whole white-space run, or on its last character when nothing
   * follows the run.
   */
  function DisplayName(title: string): (r: string)
    ensures |r| <= |title| && r == title[|title| - |r|..]
  {
    var k := GroupStart(title);
    if k < 0 then title else title[k..]
  }

  /** Where the capture group starts, or -1 when the pattern does not match. */
  function GroupStart(title: string): (k: int)
    ensures -1 <= k < |title|
  {
    var d := DigitRun(title);
    if d == 0 || d == |title| || title[d] != '.' then -1
    else
      var w := WhiteRun(title[d + 1..]);
      var k := d + 1 + w;
      if k < |title| then (if NoLineTerminator(title[k..]) then k else -1)
      else if w > 0 && !IsLineTerminator(title[k - 1]) then k - 1
      else -1
  }

  /** The regular expression matches with the group starting at k. */
  ghost predicate MatchAt(title: string, d: nat, k: nat) {
    && 0 < d < k < |title|
    && AllDigits(title[..d]) && title[d] == '.'
    && (forall i :: d < i < k ==> IsWhite(title[i]))
    && NoLineTerminator(title[k..])
  }

  /**
   * The display name is the group of the regular expression's match and the
   * title itself when nothing matches. Where several ways of matching exist
   * the greedy \s* keeps the one whose group starts last, so the result is
   * the group of a match starting no earlier than any other.
   */
  lemma DisplayNameIsRegexGroup(title: string)
    ensures (forall d: nat, k: nat :: !MatchAt(title, d, k)) ==> DisplayName(title) == title
    ensures forall d: nat, k: nat :: MatchAt(title, d, k) ==>
      exists k0: nat :: k <= k0 && MatchAt(title, d, k0) && DisplayName(title) == title[k0..]
  {
    forall d: nat, k: nat | MatchAt(title, d, k)
      ensures exists k0: nat :: k <= k0 && MatchAt(title, d, k0) && DisplayName(title) == title[k0..]
    {
      var k0 := GreedyGroup(title, d, k);
    }
    if forall d: nat, k: nat :: !MatchAt(title, d, k) {
      NoMatchKeepsTitle(title);
    }
  }

  /** Given any match, the display name is the group of a match starting no earlier. */
  lemma GreedyGroup(title: string, d': nat, k': nat) returns (k0: nat)
    requires MatchAt(title, d', k')
    ensures k' <= k0 && MatchAt(title, d', k0) && DisplayName(title) == title[k0..]
  {
    var d := DigitRun(title);
    MatchDigits(title, d', k', d);
    var w := WhiteRun(title[d + 1..]);
    WhiteBound(title, d, k', w);
    WhiteBefore(title, d, w);
    if d + 1 + w < |title| {
      k0 := GroupAfterRun(title, d, k', w);
    } else {
      k0 := GroupOnLastWhite(title, d, k', w);
    }
  }

  lemma GroupAfterRun(title: string, d: nat, k': nat, w: nat) returns (k0: nat)
    requires MatchAt(title, d, k') && d == DigitRun(title) && w == WhiteRun(title[d + 1..])
    requires k' <= d + 1 + w < |title|
    requires forall i :: d < i < d + 1 + w ==> IsWhite(title[i])
    ensures k0 == d + 1 + w && MatchAt(title, d, k0) && DisplayName(title) == title[k0..]
  {
    k0 := d + 1 + w;
    SuffixKeepsNoLineTerminator(title, k', k0);
    assert MatchAt(title, d, k0);
    assert GroupStart(title) == k0;
  }

  lemma SuffixKeepsNoLineTerminator(s: string, j: nat, k: nat)
    requires j <= k <= |s| && NoLineTerminator(s[j..])
    ensures NoLineTerminator(s[k..])
  {
    forall i | 0 <= i < |s[k..]|
      ensures !IsLineTerminator(s[k..][i])
    {
      assert s[k..][i] == s[j..][i + k - j];
    }
  }

  lemma GroupOnLastWhite(title: string, d: nat, k': nat, w: nat) returns (k0: nat)
    requires MatchAt(title, d, k') && d == DigitRun(title) && w == WhiteRun(title[d + 1..])
    requires d + 1 + w == |title| && k' <= d + w && w > 0 && !IsLineTerminator(title[d + w])
    requires forall i :: d < i < d + 1 + w ==> IsWhite(title[i])
    ensures k0 == d + w && MatchAt(title, d, k0) && DisplayName(title) == title[k0..]
  {
    k0 := d + w;
    assert title[k0..] == [title[k0]];
  }

  /** Any match's digits are the whole leading digit run. */
  lemma MatchDigits(title: string, d': nat, k': nat, d: nat)
    requires MatchAt(title, d', k') && d == DigitRun(title)
    ensures d' == d
  {
  }

  /** The characters between the dot and the end of the white run are white. */
  lemma WhiteBefore(title: string, d: nat, w: nat)
    requires d < |title| && w == WhiteRun(title[d + 1..])
    ensures forall i :: d < i < d + 1 + w ==> IsWhite(title[i])
  {
    forall i | d < i < d + 1 + w ensures IsWhite(title[i]) {
      assert title[i] == title[d + 1..][i - d - 1];
    }
  }

  /** A match's group cannot start past the white run, and starts before its last character when the run ends the title. */
  lemma WhiteBound(title: string, d: nat, k': nat, w: nat)
    requires 0 < d < k' < |title| && title[d] == '.'
    requires forall i :: d < i < k' ==> IsWhite(title[i])
    requires NoLineTerminator(title[k'..])
    requires w == WhiteRun(title[d + 1..])
    ensures k' <= d + 1 + w
    ensures d + 1 + w == |title| ==> k' <= d + w && w > 0 && !IsLineTerminator(title[d + w])
  {
  }

  lemma NoMatchKeepsTitle(title: string)
    requires forall d: nat, k: nat :: !MatchAt(title, d, k)
    ensures DisplayName(title) == title
  {
    if GroupStart(title) >= 0 {
      var d := GroupStartMatches(title);
    }
  }

  /** Where the group starts, the pattern matches. */
  lemma GroupStartMatches(title: string) returns (d: nat)
    requires GroupStart(title) >= 0
    ensures MatchAt(title, d, GroupStart(title))
  {
    d := DigitRun(title);
    var w := WhiteRun(title[d + 1..]);
    WhiteBefore(title, d, w);
    var k := d + 1 + w;
    if k == |title| {
      assert title[k - 1..] == [title[k - 1]];
    }
  }

  /** The number is dropped from "1. 概要". */
  lemma DisplayNameDropsNumber()
    ensures DisplayName("1. 概要") == "概要"
  {
    var t := "1. 概要";
    assert DigitRun(t) == 1 by {
      assert t[1..] == ". 概要";
    }
    assert WhiteRun(t[2..]) == 1 by {
      assert t[2..] == " 概要" && t[2..][1..] == "概要";
    }
    assert t[3..] == "概要";
    assert GroupStart(t) == 3;
  }

  /** A title without a number stays as it is. */
  lemma DisplayNameKeepsPlainTitle()
    ensures DisplayName("概要") == "概要"
  {
    assert DigitRun("概要") == 0;
  }
}
