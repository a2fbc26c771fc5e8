/** Citation coordinates from end to end: from the text of a file, through parsing and chunking, to the
    line span that a citation shows. */
module Coordinates {
  import opened Text
  import opened Sections
  import opened SectionSpans
  import opened Chunking
  import opened Frontmatter

  // The document has the body that parsing the file text gives, whatever its metadata.
  ghost predicate ParsedFrom(document: Document, text: string) {
    && ParseText(text).Ok?
    && document.body == ParseText(text).value.body
    && document.bodyStartLine == ParseText(text).value.bodyStart
  }

  // Lines `first` to `last` of the file, counted from one.
  function FileLines(text: string, first: nat, last: nat): seq<string>
    requires 1 <= first <= last <= |SplitLines(text)|
  {
    SplitLines(text)[first - 1..last]
  }

  // The chunk's span is first-last, and applied to the file it gives the chunk's text.
  ghost predicate QuotesFile(chunk: Chunk, text: string, first: nat, last: nat) {
    && 1 <= first <= last <= |SplitLines(text)|
    && chunk.lines == FormatSpan(first, last)
    && chunk.text == Strip(Join(FileLines(text, first, last)))
  }

  ghost predicate CitesLine(chunk: Chunk, k: nat) {
    exists first: nat, last: nat :: chunk.lines == FormatSpan(first, last) && first <= k <= last
  }

  lemma CitesLineMeaning(chunk: Chunk, first: nat, last: nat, k: nat)
    requires chunk.lines == FormatSpan(first, last)
    ensures CitesLine(chunk, k) <==> first <= k <= last
  {
    if CitesLine(chunk, k) {
      var f: nat, l: nat :| chunk.lines == FormatSpan(f, l) && f <= k <= l;
      SpanInjective(first, last, f, l);
    }
  }

  lemma SectionQuotes(document: Document, text: string, section: Section, chunkId: string)
    requires ParsedFrom(document, text)
    requires Cites(section, SplitLines(document.body), document.bodyStartLine)
    ensures 0 <= section.startLine
    ensures QuotesFile(ChunkOf(document, section, chunkId), text, section.startLine, section.endLine)
  {
    hide Strip, JoinWith, SplitLines, ParseText, FormatSpan;
    BodyLinesAreFileLines(text);
    var lines, start := SplitLines(text), document.bodyStartLine;
    assert LinesBetween(SplitLines(document.body), start, section.startLine, section.endLine)
        == FileLines(text, section.startLine, section.endLine);
  }

  // Every chunk quotes exactly the file lines that its citation names.
  lemma EveryCitationQuotes(document: Document, text: string, i: nat)
    requires ParsedFrom(document, text)
    ensures ChunksOf(document).Ok?
    ensures i < |ChunksOf(document).value| ==>
              exists first: nat, last: nat :: QuotesFile(ChunksOf(document).value[i], text, first, last)
  {
    StripFacts(document.body);
    ExtractedFaithful(document.metadata.title, document.body, document.bodyStartLine);
    var chunks, sections := ChunksOf(document).value, SectionsIn(document).value;
    if i < |chunks| {
      SectionQuotes(document, text, sections[i], chunks[i].chunkId);
      assert QuotesFile(chunks[i], text, sections[i].startLine, sections[i].endLine);
    }
  }

  ghost predicate CiteAs(chunks: seq<Chunk>, sections: seq<Section>) {
    && |chunks| == |sections|
    && forall i, k: nat :: 0 <= i < |chunks| ==> (CitesLine(chunks[i], k) <==> Covers(sections[i], k))
  }

  lemma ChunksCiteTheirSections(document: Document)
    requires !Blank(document.body)
    ensures ChunksOf(document).Ok? && SectionsIn(document).Ok?
    ensures Faithful(SectionsIn(document).value, SplitLines(document.body), document.bodyStartLine)
    ensures CiteAs(ChunksOf(document).value, SectionsIn(document).value)
  {
    ExtractedFaithful(document.metadata.title, document.body, document.bodyStartLine);
    var chunks, sections := ChunksOf(document).value, SectionsIn(document).value;
    hide CitesLine, FormatSpan, SplitLines;
    forall i, k: nat | 0 <= i < |chunks| ensures CitesLine(chunks[i], k) <==> Covers(sections[i], k) {
      assert Cites(sections[i], SplitLines(document.body), document.bodyStartLine);
      CitesLineMeaning(chunks[i], sections[i].startLine, sections[i].endLine, k);
    }
  }

  ghost predicate CitedExactlyOnce(chunks: seq<Chunk>, k: nat) {
    && (exists i :: 0 <= i < |chunks| && CitesLine(chunks[i], k))
    && (forall i, j :: 0 <= i < j < |chunks| && CitesLine(chunks[i], k) ==> !CitesLine(chunks[j], k))
  }

  lemma CoveredLineCitedOnce(chunks: seq<Chunk>, sections: seq<Section>, lines: seq<string>, start: nat, i: nat)
    requires CiteAs(chunks, sections) && Faithful(sections, lines, start)
    requires i < |lines| && !Blank(lines[i])
    ensures CitedExactlyOnce(chunks, start + i)
  {
    hide CitesLine, Blank;
    var n :| 0 <= n < |sections| && Covers(sections[n], start + i);
    assert CitesLine(chunks[n], start + i);
  }

  lemma BodyLine(document: Document, text: string, k: nat)
    requires ParsedFrom(document, text) && 1 <= document.bodyStartLine <= k <= |SplitLines(text)|
    ensures !Blank(document.body)
    ensures k - document.bodyStartLine < |SplitLines(document.body)|
    ensures SplitLines(document.body)[k - document.bodyStartLine] == SplitLines(text)[k - 1]
  {
    StripFacts(document.body);
    BodyLinesAreFileLines(text);
  }

  // Every line of the body that has content is cited by exactly one chunk.
  lemma EveryLineCitedOnce(document: Document, text: string, k: nat)
    requires ParsedFrom(document, text)
    requires 1 <= document.bodyStartLine <= k <= |SplitLines(text)| && !Blank(SplitLines(text)[k - 1])
    ensures ChunksOf(document).Ok? && CitedExactlyOnce(ChunksOf(document).value, k)
  {
    hide *;
    BodyLine(document, text, k);
    ChunksCiteTheirSections(document);
    CoveredLineCitedOnce(ChunksOf(document).value, SectionsIn(document).value, SplitLines(document.body),
                         document.bodyStartLine, k - document.bodyStartLine);
  }
}
