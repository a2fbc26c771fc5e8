/** Heading-aware sections of a document body, as src/policynim/ingest/chunking.py cuts them and as
    the parser in src/policynim/ingest/parser.py cuts them from headings in body coordinates. */
module Sections {
  import opened Results
  import opened Text
  import opened Headings

  datatype Section = Section(path: seq<string>, content: string, startLine: int, endLine: int)

  datatype SectionError = NoLines | NoUsableContent | NoSections

  // A heading as the Markdown tokenizer reports it: its first line counted from the top of the body.
  datatype HeadingToken = HeadingToken(level: nat, title: string, startLine: int)

  function LastLine(lines: seq<string>, bodyStart: int): int {
    bodyStart + |lines| - 1
  }

  function Titled(h: Heading, documentTitle: string): string {
    if h.title == "" then documentTitle else h.title
  }

  function Truncated(stack: seq<string>, n: nat): seq<string> {
    if n < |stack| then stack[..n] else stack
  }

  // The heading stack after the first n headings.
  function StackAfter(documentTitle: string, headings: seq<Heading>, n: nat): (stack: seq<string>)
    requires n <= |headings|
    ensures n > 0 ==> stack != []
  {
    if n == 0 then []
    else
      var h := headings[n - 1];
      Truncated(StackAfter(documentTitle, headings, n - 1), if h.level > 0 then h.level - 1 else 0)
      + [Titled(h, documentTitle)]
  }

  // A section runs to the line before the next heading, or to the end of the body.
  function EndOf(headings: seq<Heading>, i: nat, lastLine: int): int
    requires i < |headings|
  {
    if i + 1 < |headings| then headings[i + 1].line - 1 else lastLine
  }

  function LinesBetween(lines: seq<string>, bodyStart: int, first: int, last: int): seq<string>
    requires bodyStart <= first <= last + 1 <= bodyStart + |lines|
  {
    lines[first - bodyStart..last + 1 - bodyStart]
  }

  function SectionAt(lines: seq<string>, title: string, bodyStart: int, headings: seq<Heading>, i: nat): Section
    requires InBody(headings, bodyStart, |lines|) && i < |headings|
  {
    var first, last := headings[i].line, EndOf(headings, i, LastLine(lines, bodyStart));
    Section(StackAfter(title, headings, i + 1), Strip(Join(LinesBetween(lines, bodyStart, first, last))), first, last)
  }

  // A section without content is left out.
  function WhenPresent(section: Section): seq<Section> {
    if section.content == "" then [] else [section]
  }

  function Kept(sections: seq<Section>): seq<Section> {
    if sections == [] then [] else Kept(sections[..|sections| - 1]) + WhenPresent(sections[|sections| - 1])
  }

  function AllSections(lines: seq<string>, title: string, bodyStart: int, headings: seq<Heading>, n: nat)
    : (sections: seq<Section>)
    requires InBody(headings, bodyStart, |lines|) && n <= |headings|
    ensures |sections| == n
    ensures forall i :: 0 <= i < n ==> sections[i] == SectionAt(lines, title, bodyStart, headings, i)
  {
    seq(n, i requires 0 <= i < n => SectionAt(lines, title, bodyStart, headings, i))
  }

  // What the first n headings cut.
  function SectionsUpTo(lines: seq<string>, title: string, bodyStart: int, headings: seq<Heading>, n: nat): seq<Section>
    requires InBody(headings, bodyStart, |lines|) && n <= |headings|
  {
    Kept(AllSections(lines, title, bodyStart, headings, n))
  }

  lemma CutNext(lines: seq<string>, title: string, bodyStart: int, headings: seq<Heading>, n: nat)
    requires InBody(headings, bodyStart, |lines|) && n < |headings|
    ensures SectionsUpTo(lines, title, bodyStart, headings, n + 1) ==
              SectionsUpTo(lines, title, bodyStart, headings, n)
              + WhenPresent(SectionAt(lines, title, bodyStart, headings, n))
  {
    var next := AllSections(lines, title, bodyStart, headings, n + 1);
    assert next[..n] == AllSections(lines, title, bodyStart, headings, n);
  }

  function Preamble(lines: seq<string>, title: string, bodyStart: int, firstHeading: int): Option<Section>
    requires bodyStart <= firstHeading <= bodyStart + |lines|
  {
    if firstHeading <= bodyStart then None
    else
      var content := Strip(Join(LinesBetween(lines, bodyStart, bodyStart, firstHeading - 1)));
      if content == "" then None
      else Some(Section([title, "Preamble"], content, bodyStart, firstHeading - 1))
  }

  // The sections that a list of headings cuts a body into.
  function SectionsOf(title: string, body: string, bodyStart: int, headings: seq<Heading>): seq<Section>
    requires InBody(headings, bodyStart, |SplitLines(body)|)
  {
    var lines := SplitLines(body);
    if headings == [] then [Section([title], Strip(body), bodyStart, LastLine(lines, bodyStart))]
    else AsSeq(Preamble(lines, title, bodyStart, headings[0].line))
         + SectionsUpTo(lines, title, bodyStart, headings, |headings|)
  }

  // The chunker's own extraction, failures included.
  function Extracted(title: string, body: string, bodyStart: int): Result<seq<Section>, SectionError> {
    var lines := SplitLines(body);
    if lines == [] then Err(NoLines)
    else if Strip(body) == "" then Err(NoUsableContent)
    else
      HeadingsInBody(lines, bodyStart);
      var sections := SectionsOf(title, body, bodyStart, HeadingsOf(lines, bodyStart));
      if sections == [] then Err(NoSections) else Ok(sections)
  }

  // One turn of the chunker's loop: the section of heading `index`, and the heading stack after it.
  method CutSection(lines: seq<string>, title: string, bodyStart: int, headings: seq<Heading>, index: nat,
                    stack: seq<string>)
    returns (section: Section, next: seq<string>)
    requires InBody(headings, bodyStart, |lines|) && index < |headings|
    requires stack == StackAfter(title, headings, index)
    ensures section == SectionAt(lines, title, bodyStart, headings, index)
    ensures next == StackAfter(title, headings, index + 1)
  {
    hide Strip, JoinWith;
    var heading := headings[index];
    var end := if index + 1 < |headings| then headings[index + 1].line - 1 else bodyStart + |lines| - 1;
    if end < heading.line {
      end := heading.line;
    }
    next := Truncated(stack, if heading.level > 0 then heading.level - 1 else 0) + [Titled(heading, title)];
    var content := Strip(Join(lines[heading.line - bodyStart..end - bodyStart + 1]));
    section := Section(next, content, heading.line, end);
  }

  method CutSections(lines: seq<string>, title: string, bodyStart: int, headings: seq<Heading>)
    returns (sections: seq<Section>)
    requires InBody(headings, bodyStart, |lines|)
    ensures sections == SectionsUpTo(lines, title, bodyStart, headings, |headings|)
  {
    assert SectionsUpTo(lines, title, bodyStart, headings, 0) == [];
    assert StackAfter(title, headings, 0) == [];
    hide *;
    sections := [];
    var stack: seq<string> := [];
    var index := 0;
    while index < |headings|
      invariant 0 <= index <= |headings|
      invariant stack == StackAfter(title, headings, index)
      invariant sections == SectionsUpTo(lines, title, bodyStart, headings, index)
    {
      var section;
      section, stack := CutSection(lines, title, bodyStart, headings, index, stack);
      CutNext(lines, title, bodyStart, headings, index);
      sections := sections + WhenPresent(section);
      index := index + 1;
    }
  }

  method ExtractSections(title: string, body: string, bodyStart: int)
    returns (r: Result<seq<Section>, SectionError>)
    ensures r == Extracted(title, body, bodyStart)
  {
    var lines := SplitLines(body);
    if lines == [] {
      return Err(NoLines);
    }
    if Strip(body) == "" {
      return Err(NoUsableContent);
    }
    var headings := FindHeadingEvents(lines, bodyStart);
    HeadingsInBody(lines, bodyStart);
    if headings == [] {
      return Ok([Section([title], Strip(body), bodyStart, bodyStart + |lines| - 1)]);
    }
    var cut := CutSections(lines, title, bodyStart, headings);
    var sections := AsSeq(Preamble(lines, title, bodyStart, headings[0].line)) + cut;
    r := if sections == [] then Err(NoSections) else Ok(sections);
  }

  // ---- The parser's extraction over tokenizer headings ----

  function Absolute(tokens: seq<HeadingToken>, bodyStart: int): (headings: seq<Heading>)
    ensures |headings| == |tokens|
    ensures forall i :: 0 <= i < |tokens| ==>
              headings[i] == Heading(bodyStart + tokens[i].startLine - 1, tokens[i].level, tokens[i].title)
  {
    seq(|tokens|, i requires 0 <= i < |tokens| =>
      Heading(bodyStart + tokens[i].startLine - 1, tokens[i].level, tokens[i].title))
  }

  // The tokenizer reports headings in order, on lines of the body.
  ghost predicate TokensInBody(tokens: seq<HeadingToken>, count: nat) {
    && (forall i :: 0 <= i < |tokens| ==> 1 <= tokens[i].startLine <= count)
    && (forall i, j :: 0 <= i < j < |tokens| ==> tokens[i].startLine < tokens[j].startLine)
  }

  lemma AbsoluteInBody(tokens: seq<HeadingToken>, bodyStart: int, count: nat)
    requires TokensInBody(tokens, count)
    ensures InBody(Absolute(tokens, bodyStart), bodyStart, count)
  {
  }

  function TokenEnd(tokens: seq<HeadingToken>, i: nat, count: nat): (end: int)
    requires TokensInBody(tokens, count) && i < |tokens|
    ensures tokens[i].startLine <= end <= count
  {
    if i + 1 < |tokens| then tokens[i + 1].startLine - 1 else count
  }

  lemma SameSection(lines: seq<string>, title: string, bodyStart: int, tokens: seq<HeadingToken>, i: nat)
    requires TokensInBody(tokens, |lines|) && i < |tokens|
    ensures var headings, first, last := Absolute(tokens, bodyStart), tokens[i].startLine, TokenEnd(tokens, i, |lines|);
            SectionAt(lines, title, bodyStart, headings, i) ==
            Section(StackAfter(title, headings, i + 1), Strip(Join(lines[first - 1..last])),
                    bodyStart + first - 1, bodyStart + last - 1)
  {
    var headings, first, last := Absolute(tokens, bodyStart), tokens[i].startLine, TokenEnd(tokens, i, |lines|);
    assert EndOf(headings, i, LastLine(lines, bodyStart)) == bodyStart + last - 1;
    assert LinesBetween(lines, bodyStart, bodyStart + first - 1, bodyStart + last - 1) == lines[first - 1..last];
  }

  // One turn of the parser's loop, in body coordinates.
  method CutToken(lines: seq<string>, title: string, bodyStart: int, tokens: seq<HeadingToken>, index: nat,
                  stack: seq<string>)
    returns (section: Section, next: seq<string>)
    requires TokensInBody(tokens, |lines|) && index < |tokens|
    requires stack == StackAfter(title, Absolute(tokens, bodyStart), index)
    ensures InBody(Absolute(tokens, bodyStart), bodyStart, |lines|)
    ensures section == SectionAt(lines, title, bodyStart, Absolute(tokens, bodyStart), index)
    ensures next == StackAfter(title, Absolute(tokens, bodyStart), index + 1)
  {
    hide Strip, JoinWith;
    var token := tokens[index];
    var end := TokenEnd(tokens, index, |lines|);
    if end < token.startLine {
      end := token.startLine;
    }
    next := Truncated(stack, if token.level > 0 then token.level - 1 else 0)
            + [if token.title == "" then title else token.title];
    var content := Strip(Join(lines[token.startLine - 1..end]));
    SameSection(lines, title, bodyStart, tokens, index);
    section := Section(next, content, bodyStart + token.startLine - 1, bodyStart + end - 1);
  }

  // The parser cuts, in body coordinates, the sections of the same headings in file coordinates.
  method CutTokens(lines: seq<string>, title: string, bodyStart: int, tokens: seq<HeadingToken>)
    returns (sections: seq<Section>)
    requires TokensInBody(tokens, |lines|)
    ensures InBody(Absolute(tokens, bodyStart), bodyStart, |lines|)
    ensures sections == SectionsUpTo(lines, title, bodyStart, Absolute(tokens, bodyStart), |tokens|)
  {
    AbsoluteInBody(tokens, bodyStart, |lines|);
    assert SectionsUpTo(lines, title, bodyStart, Absolute(tokens, bodyStart), 0) == [];
    assert StackAfter(title, Absolute(tokens, bodyStart), 0) == [];
    hide *;
    sections := [];
    var stack: seq<string> := [];
    var index := 0;
    while index < |tokens|
      invariant 0 <= index <= |tokens|
      invariant stack == StackAfter(title, Absolute(tokens, bodyStart), index)
      invariant sections == SectionsUpTo(lines, title, bodyStart, Absolute(tokens, bodyStart), index)
    {
      var section;
      section, stack := CutToken(lines, title, bodyStart, tokens, index, stack);
      CutNext(lines, title, bodyStart, Absolute(tokens, bodyStart), index);
      sections := sections + WhenPresent(section);
      index := index + 1;
    }
  }

  method PreambleOfTokens(lines: seq<string>, title: string, bodyStart: int, firstHeading: int)
    returns (preamble: Option<Section>)
    requires 1 <= firstHeading <= |lines|
    ensures preamble == Preamble(lines, title, bodyStart, bodyStart + firstHeading - 1)
  {
    if firstHeading <= 1 {
      return None;
    }
    var content := Strip(Join(lines[..firstHeading - 1]));
    assert lines[..firstHeading - 1] == LinesBetween(lines, bodyStart, bodyStart, bodyStart + firstHeading - 2);
    if content == "" {
      return None;
    }
    return Some(Section([title, "Preamble"], content, bodyStart, bodyStart + firstHeading - 2));
  }

  // Given the same headings, the parser extracts the same sections as the chunker.
  method ParserSections(title: string, body: string, bodyStart: int, tokens: seq<HeadingToken>)
    returns (r: Result<seq<Section>, SectionError>)
    requires TokensInBody(tokens, |SplitLines(body)|)
    ensures Strip(body) == "" ==> r == Ok([])
    ensures Strip(body) != "" ==>
              var sections := SectionsOf(title, body, bodyStart, Absolute(tokens, bodyStart));
              r == if sections == [] then Err(NoSections) else Ok(sections)
  {
    hide Strip, SplitLines, SectionsUpTo;
    if Strip(body) == "" {
      return Ok([]);
    }
    var lines := SplitLines(body);
    if tokens == [] {
      return Ok([Section([title], Strip(body), bodyStart, bodyStart + |lines| - 1)]);
    }
    var preamble := PreambleOfTokens(lines, title, bodyStart, tokens[0].startLine);
    var cut := CutTokens(lines, title, bodyStart, tokens);
    var sections := AsSeq(preamble) + cut;
    r := if sections == [] then Err(NoSections) else Ok(sections);
  }
}
