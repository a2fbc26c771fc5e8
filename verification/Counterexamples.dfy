/** Two documents: one whose heading paths are not its headings' ancestry, one whose chunk identifiers collide. */
module Counterexamples {
  import opened Results
  import opened Text
  import opened Headings
  import opened Sections
  import opened HeadingPaths
  import opened SectionSpans
  import opened ChunkIds
  import opened Chunking

  const SKIPPING: string := "# A\n### B\n### C\n"
  const REPEATING: string := "# A\n# A\n# A 2\n"

  lemma ThreeLines(a: string, b: string, c: string)
    requires NewlineFree(a) && NewlineFree(b) && NewlineFree(c)
    ensures SplitLines(a + "\n" + (b + "\n" + (c + "\n"))) == [a, b, c]
  {
    hide SplitLines;
    SplitCons(a, b + "\n" + (c + "\n"));
    SplitCons(b, c + "\n");
    SplitCons(c, "");
    assert c + "\n" + "" == c + "\n";
    SplitNothing();
  }

  lemma NoRun(line: string)
    requires line != "" && line[0] == '#'
    ensures RunLength(line, ' ') == RunLength(line, '`') == RunLength(line, '~') == 0
  {
  }

  lemma ReadsAs(line: string, marks: nat, text: string)
    requires RunLength(line, ' ') == RunLength(line, '`') == RunLength(line, '~') == 0
    requires RunLength(line, '#') == marks && 1 <= marks <= 6 && marks < |line| && line[marks] == ' '
    requires HeadingText(line[marks..]) == text
    ensures AtxHeading(line) == Some((marks, text)) && FenceOpener(line).None?
  {
    hide RunLength, HeadingText;
    assert line[0..] == line;
  }

  lemma RunOfMarks(line: string, marks: nat)
    requires marks < |line| && (forall i :: 0 <= i < marks ==> line[i] == '#') && line[marks] != '#'
    ensures RunLength(line, '#') == marks
  {
  }

  lemma TrimmedIsStripped(text: string)
    requires text != "" && Trimmed(text)
    ensures StripLeft(text) == text && StripRight(text) == text
  {
  }

  lemma HeadingTextOf(text: string)
    requires text != "" && Trimmed(text) && text[|text| - 1] != '#' && CollapseSpaces(text) == text
    ensures HeadingText(" " + text) == text
  {
    hide CollapseSpaces, StripRight;
    assert (" " + text)[1..] == text;
    assert StripLeft(" " + text) == text;
    StripOfTrimmed(text);
    TrimmedIsStripped(text);
    assert text[..|text| - 0] == text;
  }

  // A line of so many marks, a space and a text without blanks or marks at its ends.
  lemma HeadingLine(marks: nat, text: string)
    requires 1 <= marks <= 6 && text != "" && Trimmed(text) && text[|text| - 1] != '#' && CollapseSpaces(text) == text
    ensures var line := seq(marks, _ => '#') + " " + text;
            AtxHeading(line) == Some((marks, text)) && FenceOpener(line).None?
  {
    hide AtxHeading, FenceOpener, HeadingText, CollapseSpaces, Trimmed, RunLength;
    var line := seq(marks, _ => '#') + " " + text;
    assert line[marks..] == " " + text;
    NoRun(line);
    RunOfMarks(line, marks);
    HeadingTextOf(text);
    ReadsAs(line, marks, text);
  }

  // Lines that each begin a heading are the headings.
  lemma ThreeHeadings(lines: seq<string>, a: (nat, string), b: (nat, string), c: (nat, string))
    requires |lines| == 3
    requires AtxHeading(lines[0]) == Some(a) && AtxHeading(lines[1]) == Some(b) && AtxHeading(lines[2]) == Some(c)
    requires forall i :: 0 <= i < 3 ==> FenceOpener(lines[i]).None?
    ensures HeadingsOf(lines, 1) == [Heading(1, a.0, a.1), Heading(2, b.0, b.1), Heading(3, c.0, c.1)]
  {
    hide AtxHeading, FenceOpener;
    assert FenceBefore(lines, 0) == None && FenceBefore(lines, 1) == None && FenceBefore(lines, 2) == None;
    assert HeadingOn(lines, 1, 0) == Some(Heading(1, a.0, a.1));
    assert HeadingOn(lines, 1, 1) == Some(Heading(2, b.0, b.1));
    assert HeadingOn(lines, 1, 2) == Some(Heading(3, c.0, c.1));
    hide HeadingOn, FenceBefore;
    ScanLine(lines, 1, 0);
    ScanLine(lines, 1, 1);
    ScanLine(lines, 1, 2);
    assert Present(HeadingMarks(lines, 1, 0)) == [];
  }

  // ---- A skipped level ----

  lemma SkippingLines()
    ensures SplitLines(SKIPPING) == ["# A", "### B", "### C"] && !Blank(SKIPPING)
  {
    hide SplitLines;
    assert SKIPPING[0] == '#';
    ThreeLines("# A", "### B", "### C");
    assert SKIPPING == "# A" + "\n" + ("### B" + "\n" + ("### C" + "\n"));
  }

  // A mark, or three, before a letter.
  lemma LetterHeading(letter: char)
    requires 'A' <= letter <= 'Z'
    ensures AtxHeading("# " + [letter]) == Some((1, [letter])) && FenceOpener("# " + [letter]).None?
    ensures AtxHeading("### " + [letter]) == Some((3, [letter])) && FenceOpener("### " + [letter]).None?
  {
    hide AtxHeading, FenceOpener;
    assert [letter][1..] == "";
    HeadingLine(1, [letter]);
    HeadingLine(3, [letter]);
    assert seq(1, _ => '#') + " " + [letter] == "# " + [letter];
    assert seq(3, _ => '#') + " " + [letter] == "### " + [letter];
  }

  lemma SkippingHeadings()
    ensures HeadingsOf(SplitLines(SKIPPING), 1) == [Heading(1, 1, "A"), Heading(2, 3, "B"), Heading(3, 3, "C")]
  {
    hide SplitLines, HeadingsOf, AtxHeading, FenceOpener, Blank;
    SkippingLines();
    LetterHeading('A');
    LetterHeading('B');
    LetterHeading('C');
    assert "# " + "A" == "# A" && "### " + "B" == "### B" && "### " + "C" == "### C";
    ThreeHeadings(["# A", "### B", "### C"], (1, "A"), (3, "B"), (3, "C"));
  }

  lemma SkippingStack(t: string, headings: seq<Heading>)
    requires headings == [Heading(1, 1, "A"), Heading(2, 3, "B"), Heading(3, 3, "C")]
    ensures Chain(t, headings, 2) == ["A", "C"]
    ensures StackAfter(t, headings, 3) == ["A", "B", "C"]
  {
    var levels := LevelsOf(headings);
    assert Parent(levels, 2) == 0 && Parent(levels, 0) == -1;
    assert Chain(t, headings, 0) == ["A"];
    assert StackAfter(t, headings, 1) == ["A"];
    assert StackAfter(t, headings, 2) == ["A", "B"];
  }

  // A body that begins with a heading has no section but its headings'.
  lemma OnlyHeadingSections(t: string, body: string)
    requires !Blank(body)
    requires HeadingsOf(SplitLines(body), 1) != [] && HeadingsOf(SplitLines(body), 1)[0].line == 1
    ensures Extracted(t, body, 1).Ok? && |Extracted(t, body, 1).value| == |HeadingsOf(SplitLines(body), 1)|
  {
    hide SplitLines, HeadingsOf, Extracted, Blank, SectionsUpTo;
    ExtractedIs(t, body, 1);
    OneSectionPerHeading(SplitLines(body), t, 1, HeadingsOf(SplitLines(body), 1));
  }

  // A document whose second "###" is filed under the first, although only "#" encloses it.
  lemma SkippedLevelMisfiled(t: string)
    ensures Extracted(t, SKIPPING, 1).Ok? && |Extracted(t, SKIPPING, 1).value| == 3
    ensures Extracted(t, SKIPPING, 1).value[2].path == ["A", "B", "C"]
    ensures |HeadingsOf(SplitLines(SKIPPING), 1)| == 3
    ensures Chain(t, HeadingsOf(SplitLines(SKIPPING), 1), 2) == ["A", "C"]
  {
    hide SplitLines, HeadingsOf, Extracted, Chain, StackAfter, Blank;
    SkippingLines();
    SkippingHeadings();
    OnlyHeadingSections(t, SKIPPING);
    ExtractedHeadings(t, SKIPPING, 1);
    SkippingStack(t, HeadingsOf(SplitLines(SKIPPING), 1));
  }

  // ---- A repeated heading ----

  lemma RepeatingLines()
    ensures SplitLines(REPEATING) == ["# A", "# A", "# A 2"] && !Blank(REPEATING)
  {
    hide SplitLines;
    assert REPEATING[0] == '#';
    ThreeLines("# A", "# A", "# A 2");
    assert REPEATING == "# A" + "\n" + ("# A" + "\n" + ("# A 2" + "\n"));
  }

  lemma CollapseTwo()
    ensures CollapseSpaces("A 2") == "A 2"
  {
    assert "A 2"[1..] == " 2" && " 2"[1..] == "2" && "2"[1..] == "";
    assert CollapseSpaces("2") == "2" && CollapseSpaces(" 2") == " 2";
  }

  lemma TwoHeading()
    ensures AtxHeading("# A 2") == Some((1, "A 2")) && FenceOpener("# A 2").None?
  {
    hide AtxHeading, FenceOpener;
    CollapseTwo();
    HeadingLine(1, "A 2");
    assert seq(1, _ => '#') + " " + "A 2" == "# A 2";
  }

  lemma RepeatingHeadings()
    ensures HeadingsOf(SplitLines(REPEATING), 1) == [Heading(1, 1, "A"), Heading(2, 1, "A"), Heading(3, 1, "A 2")]
  {
    hide SplitLines, HeadingsOf, AtxHeading, FenceOpener, Blank;
    RepeatingLines();
    LetterHeading('A');
    assert "# " + "A" == "# A";
    TwoHeading();
    ThreeHeadings(["# A", "# A", "# A 2"], (1, "A"), (1, "A"), (1, "A 2"));
  }

  lemma RepeatingStack(t: string, headings: seq<Heading>)
    requires headings == [Heading(1, 1, "A"), Heading(2, 1, "A"), Heading(3, 1, "A 2")]
    ensures StackAfter(t, headings, 1) == ["A"] && StackAfter(t, headings, 2) == ["A"]
    ensures StackAfter(t, headings, 3) == ["A 2"]
  {
  }

  lemma RepeatingPaths(t: string)
    ensures Extracted(t, REPEATING, 1).Ok? && |Extracted(t, REPEATING, 1).value| == 3
    ensures var sections := Extracted(t, REPEATING, 1).value;
            sections[0].path == ["A"] && sections[1].path == ["A"] && sections[2].path == ["A 2"]
  {
    hide SplitLines, HeadingsOf, Extracted, StackAfter, Blank;
    RepeatingLines();
    RepeatingHeadings();
    OnlyHeadingSections(t, REPEATING);
    ExtractedHeadings(t, REPEATING, 1);
    var headings := HeadingsOf(SplitLines(REPEATING), 1);
    RepeatingStack(t, headings);
    var sections := Extracted(t, REPEATING, 1).value;
    assert SectionOfHeading(sections, headings, 0) == sections[0];
    assert SectionOfHeading(sections, headings, 1) == sections[1];
    assert SectionOfHeading(sections, headings, 2) == sections[2];
  }

  lemma BasesOfPaths(document: Document, sections: seq<Section>)
    requires |sections| == 3
    requires sections[0].path == ["A"] && sections[1].path == ["A"] && sections[2].path == ["A 2"]
    ensures var p := document.metadata.policyId + ":";
            BaseIds(document, sections) == [p + "a", p + "a", p + "a-2"]
  {
    hide SectionKey;
    RepeatedHeadingKeys();
  }

  // Headings "A", "A" and "A 2": the repetition of the first takes the identifier of the third.
  lemma RepeatedHeadingCollides(document: Document)
    requires document.body == REPEATING && document.bodyStartLine == 1
    ensures ChunksOf(document).Ok? && !DistinctChunkIds(ChunksOf(document).value)
  {
    hide ChunksOf, BaseIds, DistinctChunkIds, Extracted, Blank;
    RepeatingLines();
    RepeatingPaths(document.metadata.title);
    BasesOfPaths(document, SectionsIn(document).value);
    RepeatedKeysClash(document.metadata.policyId + ":");
    ChunkIdsDistinctExactly(document);
  }
}
