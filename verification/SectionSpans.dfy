/** What the section spans of a document promise: one section per heading, spans that tile the body,
    and text that is exactly the cited lines. */
module SectionSpans {
  import opened Results
  import opened Text
  import opened Headings
  import opened Sections

  // Every section cites lines of the body, and its content is exactly those lines, stripped.
  ghost predicate Cites(section: Section, lines: seq<string>, bodyStart: int) {
    && bodyStart <= section.startLine <= section.endLine <= LastLine(lines, bodyStart)
    && section.content == Strip(Join(LinesBetween(lines, bodyStart, section.startLine, section.endLine)))
  }

  ghost predicate AllCite(sections: seq<Section>, lines: seq<string>, bodyStart: int) {
    forall i :: 0 <= i < |sections| ==> Cites(sections[i], lines, bodyStart)
  }

  // The sections follow one another without a gap from line `first` to line `last`.
  ghost predicate Tiles(sections: seq<Section>, first: int, last: int) {
    if sections == [] then last == first - 1
    else
      && sections[0].startLine == first
      && (forall i :: 0 <= i < |sections| ==> sections[i].startLine <= sections[i].endLine)
      && (forall i :: 0 < i < |sections| ==> sections[i].startLine == sections[i - 1].endLine + 1)
      && sections[|sections| - 1].endLine == last
  }

  // Every heading is on a line that is not blank, as every ATX heading is.
  ghost predicate OnVisibleLines(headings: seq<Heading>, lines: seq<string>, bodyStart: int) {
    && InBody(headings, bodyStart, |lines|)
    && forall i :: 0 <= i < |headings| ==> !Blank(lines[headings[i].line - bodyStart])
  }

  ghost predicate BlankRange(lines: seq<string>, from: int, to: int) {
    forall k :: 0 <= k < |lines| && from <= k < to ==> Blank(lines[k])
  }

  lemma ContentBlank(lines: seq<string>, bodyStart: int, first: int, last: int)
    requires bodyStart <= first <= last + 1 <= bodyStart + |lines|
    ensures Strip(Join(LinesBetween(lines, bodyStart, first, last))) == "" <==>
              BlankRange(lines, first - bodyStart, last + 1 - bodyStart)
  {
    var cited := LinesBetween(lines, bodyStart, first, last);
    StripFacts(Join(cited));
    JoinBlank(cited);
    if forall i :: 0 <= i < |cited| ==> Blank(cited[i]) {
      forall k | 0 <= k < |lines| && first - bodyStart <= k < last + 1 - bodyStart ensures Blank(lines[k]) {
        assert cited[k - (first - bodyStart)] == lines[k];
      }
    }
  }

  lemma HeadingSectionKept(lines: seq<string>, title: string, bodyStart: int, headings: seq<Heading>, i: nat)
    requires OnVisibleLines(headings, lines, bodyStart) && i < |headings|
    ensures Cites(SectionAt(lines, title, bodyStart, headings, i), lines, bodyStart)
    ensures SectionAt(lines, title, bodyStart, headings, i).content != ""
  {
    ContentBlank(lines, bodyStart, headings[i].line, EndOf(headings, i, LastLine(lines, bodyStart)));
  }

  lemma {:induction false} AllKept(sections: seq<Section>)
    requires forall i :: 0 <= i < |sections| ==> sections[i].content != ""
    ensures Kept(sections) == sections
  {
    if sections != [] {
      AllKept(sections[..|sections| - 1]);
    }
  }

  // No heading is skipped and none is cut twice.
  lemma OneSectionPerHeading(lines: seq<string>, title: string, bodyStart: int, headings: seq<Heading>)
    requires OnVisibleLines(headings, lines, bodyStart)
    ensures SectionsUpTo(lines, title, bodyStart, headings, |headings|)
              == AllSections(lines, title, bodyStart, headings, |headings|)
  {
    var sections := AllSections(lines, title, bodyStart, headings, |headings|);
    forall i | 0 <= i < |sections| ensures sections[i].content != "" {
      HeadingSectionKept(lines, title, bodyStart, headings, i);
    }
    AllKept(sections);
  }

  lemma HeadingSectionsTile(lines: seq<string>, title: string, bodyStart: int, headings: seq<Heading>)
    requires OnVisibleLines(headings, lines, bodyStart) && headings != []
    ensures var cut := SectionsUpTo(lines, title, bodyStart, headings, |headings|);
            && |cut| == |headings|
            && Tiles(cut, headings[0].line, LastLine(lines, bodyStart))
            && AllCite(cut, lines, bodyStart)
  {
    var cut := SectionsUpTo(lines, title, bodyStart, headings, |headings|);
    OneSectionPerHeading(lines, title, bodyStart, headings);
    forall i | 0 <= i < |cut| ensures Cites(cut[i], lines, bodyStart) {
      HeadingSectionKept(lines, title, bodyStart, headings, i);
    }
  }

  // The span of line k is covered by exactly the sections that contain it.
  ghost predicate Covers(section: Section, k: int) {
    section.startLine <= k <= section.endLine
  }

  // Every section cites its own lines, and every line with content is in exactly one section.
  ghost predicate Faithful(sections: seq<Section>, lines: seq<string>, bodyStart: int) {
    && AllCite(sections, lines, bodyStart)
    && (forall i, j, k :: 0 <= i < j < |sections| && Covers(sections[i], k) ==> !Covers(sections[j], k))
    && (forall k :: 0 <= k < |lines| && !Blank(lines[k]) ==>
          exists i :: 0 <= i < |sections| && Covers(sections[i], bodyStart + k))
  }

  lemma {:induction false} TilesInOrder(sections: seq<Section>, first: int, last: int, i: nat, j: nat)
    requires Tiles(sections, first, last) && i < j < |sections|
    ensures sections[i].endLine < sections[j].startLine
  {
    if i + 1 < j {
      TilesInOrder(sections, first, last, i, j - 1);
    }
  }

  lemma {:induction false} TilesCover(sections: seq<Section>, first: int, last: int, k: int) returns (i: nat)
    requires Tiles(sections, first, last) && first <= k <= last
    ensures i < |sections| && Covers(sections[i], k)
    decreases |sections|
  {
    var n := |sections| - 1;
    if sections[n].startLine <= k {
      i := n;
    } else {
      assert n > 0;
      assert Tiles(sections[..n], first, sections[n].startLine - 1);
      i := TilesCover(sections[..n], first, sections[n].startLine - 1, k);
    }
  }

  lemma TilingIsFaithful(sections: seq<Section>, lines: seq<string>, bodyStart: int, first: int)
    requires bodyStart <= first <= LastLine(lines, bodyStart)
    requires Tiles(sections, first, LastLine(lines, bodyStart))
    requires AllCite(sections, lines, bodyStart)
    requires BlankRange(lines, 0, first - bodyStart)
    ensures Faithful(sections, lines, bodyStart)
  {
    var last := LastLine(lines, bodyStart);
    forall i, j, k | 0 <= i < j < |sections| && Covers(sections[i], k) ensures !Covers(sections[j], k) {
      TilesInOrder(sections, first, last, i, j);
    }
    forall k | 0 <= k < |lines| && !Blank(lines[k])
      ensures exists i :: 0 <= i < |sections| && Covers(sections[i], bodyStart + k)
    {
      var i := TilesCover(sections, first, last, bodyStart + k);
    }
  }

  lemma TilesPrepend(section: Section, cut: seq<Section>, last: int)
    requires cut != [] && Tiles(cut, section.endLine + 1, last) && section.startLine <= section.endLine
    ensures Tiles([section] + cut, section.startLine, last)
  {
    var sections := [section] + cut;
    assert forall i :: 0 < i < |sections| ==> sections[i] == cut[i - 1];
  }

  lemma WholeBodyCited(title: string, body: string, bodyStart: int)
    requires SplitLines(body) != []
    ensures var lines := SplitLines(body);
            Cites(Section([title], Strip(body), bodyStart, LastLine(lines, bodyStart)), lines, bodyStart)
  {
    var lines := SplitLines(body);
    StripSplit(body);
    assert LinesBetween(lines, bodyStart, bodyStart, LastLine(lines, bodyStart)) == lines;
  }

  // The sections tile the body from its first line, or from its first heading when only blank lines
  // come before that.
  ghost predicate TilesBody(sections: seq<Section>, lines: seq<string>, bodyStart: int, first: int) {
    && bodyStart <= first <= LastLine(lines, bodyStart)
    && Tiles(sections, first, LastLine(lines, bodyStart))
    && AllCite(sections, lines, bodyStart)
    && BlankRange(lines, 0, first - bodyStart)
  }

  lemma PreambleCites(lines: seq<string>, title: string, bodyStart: int, firstHeading: int)
    requires bodyStart <= firstHeading <= bodyStart + |lines|
    ensures var preamble := Preamble(lines, title, bodyStart, firstHeading);
            if preamble.None? then BlankRange(lines, 0, firstHeading - bodyStart)
            else
              && Cites(preamble.value, lines, bodyStart)
              && preamble.value.startLine == bodyStart && preamble.value.endLine == firstHeading - 1
  {
    ContentBlank(lines, bodyStart, bodyStart, firstHeading - 1);
  }

  lemma HeadedSectionsTile(lines: seq<string>, title: string, bodyStart: int, headings: seq<Heading>)
    returns (first: int)
    requires OnVisibleLines(headings, lines, bodyStart) && headings != []
    ensures TilesBody(AsSeq(Preamble(lines, title, bodyStart, headings[0].line))
                      + SectionsUpTo(lines, title, bodyStart, headings, |headings|), lines, bodyStart, first)
  {
    hide SectionsUpTo, Preamble, Cites;
    HeadingSectionsTile(lines, title, bodyStart, headings);
    var cut := SectionsUpTo(lines, title, bodyStart, headings, |headings|);
    var preamble := Preamble(lines, title, bodyStart, headings[0].line);
    PreambleCites(lines, title, bodyStart, headings[0].line);
    if preamble.None? {
      first := headings[0].line;
      assert AsSeq(preamble) + cut == cut;
    } else {
      first := bodyStart;
      TilesPrepend(preamble.value, cut, LastLine(lines, bodyStart));
      assert AsSeq(preamble) + cut == [preamble.value] + cut;
    }
  }

  lemma SectionsTile(title: string, body: string, bodyStart: int, headings: seq<Heading>) returns (first: int)
    requires OnVisibleLines(headings, SplitLines(body), bodyStart) && SplitLines(body) != []
    ensures TilesBody(SectionsOf(title, body, bodyStart, headings), SplitLines(body), bodyStart, first)
  {
    if headings == [] {
      first := bodyStart;
      WholeBodyCited(title, body, bodyStart);
    } else {
      first := HeadedSectionsTile(SplitLines(body), title, bodyStart, headings);
    }
  }

  lemma AtxHeadingsVisible(lines: seq<string>, bodyStart: int)
    ensures OnVisibleLines(HeadingsOf(lines, bodyStart), lines, bodyStart)
  {
    hide HeadingOn, HeadingsOf;
    HeadingsInBody(lines, bodyStart);
    var headings := HeadingsOf(lines, bodyStart);
    forall i | 0 <= i < |headings| ensures !Blank(lines[headings[i].line - bodyStart]) {
      HeadingsExact(lines, bodyStart, headings[i]);
    }
  }

  // Every body with usable content is cut, and cut faithfully.
  lemma ExtractedFaithful(title: string, body: string, bodyStart: int)
    requires !Blank(body)
    ensures Extracted(title, body, bodyStart).Ok?
    ensures Faithful(Extracted(title, body, bodyStart).value, SplitLines(body), bodyStart)
    ensures Extracted(title, body, bodyStart).value != []
  {
    var lines := SplitLines(body);
    StripFacts(body);
    SplitLineList(body);
    AtxHeadingsVisible(lines, bodyStart);
    var sections := SectionsOf(title, body, bodyStart, HeadingsOf(lines, bodyStart));
    var first := SectionsTile(title, body, bodyStart, HeadingsOf(lines, bodyStart));
    TilingIsFaithful(sections, lines, bodyStart, first);
    assert sections != [];
  }
}
