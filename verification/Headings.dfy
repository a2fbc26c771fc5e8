/** Fenced code blocks and ATX headings: the line scanner of src/policynim/ingest/chunking.py. */
module Headings {
  import opened Results
  import opened Text

  // An open code fence: its marker character and the length of its opening run.
  datatype Fence = Fence(marker: char, length: nat)

  // A heading in absolute file coordinates.
  datatype Heading = Heading(line: int, level: nat, title: string)

  // The length of the run of c that starts s.
  function RunLength(s: string, c: char): (n: nat)
    ensures n <= |s| && (forall i :: 0 <= i < n ==> s[i] == c) && (n < |s| ==> s[n] != c)
  {
    if s != "" && s[0] == c then 1 + RunLength(s[1..], c) else 0
  }

  // The line past its indent, when the indent is at most three spaces.
  function Unindented(line: string): Option<string> {
    var indent := RunLength(line, ' ');
    if indent > 3 then None else Some(line[indent..])
  }

  function FenceOpener(line: string): (r: Option<Fence>)
    ensures r.Some? ==> r.value.length >= 3 && (r.value.marker == '`' || r.value.marker == '~')
  {
    match Unindented(line)
    case None => None
    case Some(text) =>
      if RunLength(text, '`') >= 3 then Some(Fence('`', RunLength(text, '`')))
      else if RunLength(text, '~') >= 3 then Some(Fence('~', RunLength(text, '~')))
      else None
  }

  // A closing run is at least as long as the opening one and nothing but spaces or tabs follows it.
  predicate ClosesFence(line: string, fence: Fence) {
    match Unindented(line)
    case None => false
    case Some(text) =>
      var n := RunLength(text, fence.marker);
      n >= fence.length && forall i :: n <= i < |text| ==> text[i] == ' ' || text[i] == '\t'
  }

  function TrailingRun(s: string, cs: set<char>): (n: nat)
    ensures n <= |s| && (forall i :: |s| - n <= i < |s| ==> s[i] in cs) && (n < |s| ==> s[|s| - n - 1] !in cs)
  {
    if s != "" && s[|s| - 1] in cs then 1 + TrailingRun(s[..|s| - 1], cs) else 0
  }

  // Removes a closing run of '#' that spaces or tabs separate from the title.
  function DropClosingMarks(text: string): string {
    var marks := TrailingRun(text, {'#'});
    var gap := TrailingRun(text[..|text| - marks], {' ', '\t'});
    if marks > 0 && gap > 0 then text[..|text| - marks - gap] else text
  }

  // " ".join(text.split()) of a stripped text: every run of whitespace becomes one space.
  function CollapseSpaces(text: string): string {
    if text == "" then ""
    else if !IsSpace(text[0]) then [text[0]] + CollapseSpaces(text[1..])
    else if |text| > 1 && IsSpace(text[1]) then CollapseSpaces(text[1..])
    else " " + CollapseSpaces(text[1..])
  }

  function HeadingText(raw: string): string {
    var text := Strip(raw);
    if text == "" then "" else CollapseSpaces(Strip(DropClosingMarks(text)))
  }

  // The level and title of an ATX heading line.
  function AtxHeading(line: string): (r: Option<(nat, string)>)
    ensures r.Some? ==> 1 <= r.value.0 <= 6 && !Blank(line)
  {
    match Unindented(line)
    case None => None
    case Some(text) =>
      var run := RunLength(text, '#');
      var level := if run > 6 then 6 else run;
      if level == 0 || (level < |text| && !IsSpace(text[level])) then None
      else
        assert line[RunLength(line, ' ')] == '#';
        Some((level, HeadingText(text[level..])))
  }

  // ---- The fence state ----

  // The fence left open by the lines before line i.
  function FenceBefore(lines: seq<string>, i: nat): Option<Fence>
    requires i <= |lines|
  {
    if i == 0 then None
    else match FenceBefore(lines, i - 1)
      case None => FenceOpener(lines[i - 1])
      case Some(fence) => if ClosesFence(lines[i - 1], fence) then None else Some(fence)
  }

  // Line j, outside any fence itself, opens a fence that no line before line i closes.
  ghost predicate OpenSince(lines: seq<string>, j: nat, i: nat)
    requires i <= |lines|
  {
    && j < i
    && FenceBefore(lines, j).None?
    && FenceOpener(lines[j]).Some?
    && forall k :: j < k < i ==> !ClosesFence(lines[k], FenceOpener(lines[j]).value)
  }

  lemma OpensBefore(lines: seq<string>, i: nat)
    requires i <= |lines|
    ensures forall j: nat :: OpenSince(lines, j, i) ==> j < i && FenceOpener(lines[j]).Some?
  {
  }

  lemma OpenLater(lines: seq<string>, j: nat, i: nat)
    requires 0 < i <= |lines|
    ensures OpenSince(lines, j, i) <==>
              if j < i - 1 then OpenSince(lines, j, i - 1) && !ClosesFence(lines[i - 1], FenceOpener(lines[j]).value)
              else j == i - 1 && FenceBefore(lines, j).None? && FenceOpener(lines[j]).Some?
  {
    hide FenceOpener, ClosesFence, FenceBefore;
  }

  // The scanner's state is the code block that encloses the line, described without the scanner.
  lemma {:induction false} FenceMeaning(lines: seq<string>, i: nat)
    requires i <= |lines|
    ensures FenceBefore(lines, i).Some? <==> exists j: nat :: OpenSince(lines, j, i)
    ensures forall j: nat :: OpenSince(lines, j, i) ==> FenceBefore(lines, i) == FenceOpener(lines[j])
  {
    hide FenceOpener, ClosesFence, OpenSince;
    OpensBefore(lines, i);
    if i > 0 {
      FenceMeaning(lines, i - 1);
      OpensBefore(lines, i - 1);
      forall j: nat | j < i && OpenSince(lines, j, i)
        ensures FenceBefore(lines, i).Some? && FenceBefore(lines, i) == FenceOpener(lines[j])
      {
        OpenLater(lines, j, i);
      }
      if FenceBefore(lines, i).Some? {
        if FenceBefore(lines, i - 1).None? {
          OpenLater(lines, i - 1, i);
        } else {
          var j: nat :| OpenSince(lines, j, i - 1);
          OpenLater(lines, j, i);
        }
      }
    }
  }

  // ---- Heading events ----

  // The heading on line i, when that line is a heading outside every fence and opens none.
  function HeadingOn(lines: seq<string>, bodyStart: int, i: nat): (r: Option<Heading>)
    requires i < |lines|
    ensures r.Some? ==> r.value.line == bodyStart + i && 1 <= r.value.level <= 6 && !Blank(lines[i])
    ensures r.Some? ==> FenceBefore(lines, i).None? && FenceOpener(lines[i]).None?
  {
    if FenceBefore(lines, i).Some? || FenceOpener(lines[i]).Some? then None
    else match AtxHeading(lines[i])
      case None => None
      case Some((level, title)) => Some(Heading(bodyStart + i, level, title))
  }

  function HeadingMarks(lines: seq<string>, bodyStart: int, n: nat): (marks: seq<Option<Heading>>)
    requires n <= |lines|
    ensures |marks| == n && forall i :: 0 <= i < n ==> marks[i] == HeadingOn(lines, bodyStart, i)
  {
    seq(n, i requires 0 <= i < n => HeadingOn(lines, bodyStart, i))
  }

  // The headings of the document: exactly its heading lines outside code blocks, in order.
  function HeadingsOf(lines: seq<string>, bodyStart: int): seq<Heading> {
    Present(HeadingMarks(lines, bodyStart, |lines|))
  }

  // Strictly increasing lines inside the body.
  ghost predicate InBody(headings: seq<Heading>, bodyStart: int, count: int) {
    && (forall i :: 0 <= i < |headings| ==> bodyStart <= headings[i].line < bodyStart + count)
    && (forall i, j :: 0 <= i < j < |headings| ==> headings[i].line < headings[j].line)
  }

  ghost predicate Placed(marks: seq<Option<Heading>>, bodyStart: int) {
    forall i :: 0 <= i < |marks| && marks[i].Some? ==> marks[i].value.line == bodyStart + i
  }

  lemma {:induction false} MarksInBody(marks: seq<Option<Heading>>, bodyStart: int)
    requires Placed(marks, bodyStart)
    ensures InBody(Present(marks), bodyStart, |marks|)
  {
    if marks != [] {
      MarksInBody(marks[..|marks| - 1], bodyStart);
    }
  }

  lemma MarkMember(marks: seq<Option<Heading>>, bodyStart: int, h: Heading)
    requires Placed(marks, bodyStart)
    ensures h in Present(marks) <==> 0 <= h.line - bodyStart < |marks| && marks[h.line - bodyStart] == Some(h)
  {
    hide Present;
    PresentMember(marks, h);
    if Some(h) in marks {
      var i :| 0 <= i < |marks| && marks[i] == Some(h);
      assert h.line == bodyStart + i;
    }
  }

  lemma HeadingsInBody(lines: seq<string>, bodyStart: int)
    ensures InBody(HeadingsOf(lines, bodyStart), bodyStart, |lines|)
  {
    hide HeadingOn, Present;
    MarksInBody(HeadingMarks(lines, bodyStart, |lines|), bodyStart);
  }

  // A heading is found exactly when some line outside every code block is that heading.
  lemma HeadingsExact(lines: seq<string>, bodyStart: int, h: Heading)
    ensures h in HeadingsOf(lines, bodyStart) <==>
              0 <= h.line - bodyStart < |lines| && HeadingOn(lines, bodyStart, h.line - bodyStart) == Some(h)
  {
    hide HeadingOn, Present;
    var marks, i := HeadingMarks(lines, bodyStart, |lines|), h.line - bodyStart;
    MarkMember(marks, bodyStart, h);
    if 0 <= i < |lines| {
      assert marks[i] == HeadingOn(lines, bodyStart, i);
    }
  }

  lemma ScanLine(lines: seq<string>, bodyStart: int, i: nat)
    requires i < |lines|
    ensures Present(HeadingMarks(lines, bodyStart, i + 1)) ==
              Present(HeadingMarks(lines, bodyStart, i)) + AsSeq(HeadingOn(lines, bodyStart, i))
  {
    var marks := HeadingMarks(lines, bodyStart, i + 1);
    assert marks[..i] == HeadingMarks(lines, bodyStart, i);
  }

  // One turn of the scanner: the heading on this line, if any, and the fence open after it.
  method ScanOneLine(lines: seq<string>, bodyStart: int, index: nat, fence: Option<Fence>)
    returns (heading: Option<Heading>, next: Option<Fence>)
    requires index < |lines| && fence == FenceBefore(lines, index)
    ensures heading == HeadingOn(lines, bodyStart, index)
    ensures next == FenceBefore(lines, index + 1)
  {
    hide FenceOpener, ClosesFence, AtxHeading;
    var line := lines[index];
    if fence.Some? {
      return None, if ClosesFence(line, fence.value) then None else fence;
    }
    var opener := FenceOpener(line);
    if opener.Some? {
      return None, opener;
    }
    var atx := AtxHeading(line);
    if atx.Some? {
      return Some(Heading(bodyStart + index, atx.value.0, atx.value.1)), None;
    }
    return None, None;
  }

  method FindHeadingEvents(lines: seq<string>, bodyStart: int) returns (events: seq<Heading>)
    ensures events == HeadingsOf(lines, bodyStart)
  {
    assert Present(HeadingMarks(lines, bodyStart, 0)) == [];
    assert FenceBefore(lines, 0) == None;
    assert HeadingsOf(lines, bodyStart) == Present(HeadingMarks(lines, bodyStart, |lines|));
    hide *;
    events := [];
    var fence: Option<Fence> := None;
    var index := 0;
    while index < |lines|
      invariant 0 <= index <= |lines|
      invariant fence == FenceBefore(lines, index)
      invariant events == Present(HeadingMarks(lines, bodyStart, index))
    {
      var heading;
      heading, fence := ScanOneLine(lines, bodyStart, index, fence);
      ScanLine(lines, bodyStart, index);
      events := events + AsSeq(heading);
      index := index + 1;
    }
  }
}
