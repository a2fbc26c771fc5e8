/** Splitting frontmatter from the Markdown body: `_split_frontmatter` of src/policynim/ingest/parser.py. */
module Frontmatter {
  import opened Results
  import opened Text

  datatype ParseError = UnclosedFrontmatter | NoUsableBody

  // The raw frontmatter text, when there is one, the body, and the body's first line in the file.
  datatype Parts = Parts(frontmatter: Option<string>, body: string, bodyStart: nat)

  predicate Opens(lines: seq<string>) {
    lines != [] && Strip(lines[0]) == "---"
  }

  predicate IsCloser(line: string) {
    Strip(line) == "---" || Strip(line) == "..."
  }

  // The first closing line at or after line i.
  function CloserFrom(lines: seq<string>, i: nat): (r: Option<nat>)
    ensures r.Some? ==> i <= r.value < |lines| && IsCloser(lines[r.value])
    ensures r.Some? ==> forall k :: i <= k < r.value ==> !IsCloser(lines[k])
    ensures r.None? ==> forall k :: i <= k < |lines| ==> !IsCloser(lines[k])
    decreases |lines| - i
  {
    if i >= |lines| then None
    else if IsCloser(lines[i]) then Some(i)
    else CloserFrom(lines, i + 1)
  }

  function BodyAfter(text: string, lines: seq<string>, closing: nat): string
    requires closing < |lines|
  {
    var body := Join(lines[closing + 1..]);
    if EndsWithNewline(text) && body != "" then body + "\n" else body
  }

  function SplitParts(text: string): Result<Parts, ParseError> {
    var lines := SplitLines(text);
    if !Opens(lines) then Ok(Parts(None, text, 1))
    else match CloserFrom(lines, 1)
      case None => Err(UnclosedFrontmatter)
      case Some(closing) =>
        Ok(Parts(Some(Join(lines[1..closing])), BodyAfter(text, lines, closing), closing + 2))
  }

  method SplitFrontmatter(text: string) returns (r: Result<Parts, ParseError>)
    ensures r == SplitParts(text)
  {
    var lines := SplitLines(text);
    if lines == [] || Strip(lines[0]) != "---" {
      return Ok(Parts(None, text, 1));
    }
    var closing: Option<nat> := None;
    var index := 1;
    while index < |lines| && closing.None?
      invariant 1 <= index <= |lines|
      invariant closing.None? ==> CloserFrom(lines, 1) == CloserFrom(lines, index)
      invariant closing.Some? ==> CloserFrom(lines, 1) == closing && closing.value < |lines|
      decreases |lines| - index, closing.None?
    {
      if Strip(lines[index]) == "---" || Strip(lines[index]) == "..." {
        closing := Some(index);
      } else {
        index := index + 1;
      }
    }
    if closing.None? {
      return Err(UnclosedFrontmatter);
    }
    var body := Join(lines[closing.value + 1..]);
    if EndsWithNewline(text) {
      body := if body != "" then body + "\n" else "";
    }
    return Ok(Parts(Some(Join(lines[1..closing.value])), body, closing.value + 2));
  }

  // Parsing also refuses a body without content.
  function ParseText(text: string): Result<Parts, ParseError> {
    match SplitParts(text)
    case Err(e) => Err(e)
    case Ok(parts) => if Strip(parts.body) == "" then Err(NoUsableBody) else Ok(parts)
  }

  lemma JoinNothing()
    ensures Join([]) == ""
  {
  }

  lemma LinesAfter(text: string, closing: nat)
    requires closing < |SplitLines(text)| && BodyAfter(text, SplitLines(text), closing) != ""
    ensures SplitLines(BodyAfter(text, SplitLines(text), closing)) == SplitLines(text)[closing + 1..]
    ensures closing + 1 < |SplitLines(text)|
  {
    hide JoinWith, SplitLines, EndsWithNewline;
    SplitLineList(text);
    if !EndsWithNewline(text) { LastLineFacts(text); }
    var lines := SplitLines(text);
    var rest := lines[closing + 1..];
    if rest == [] {
      JoinNothing();
      assert false;
    }
    JoinSplit(rest);
    assert rest[|rest| - 1] == lines[|lines| - 1];
  }

  ghost predicate Delimits(line: string) {
    Strip(line) in ["---", "..."]
  }

  // Line k ends the frontmatter, and the parts are what stands before and after it.
  ghost predicate PartedAt(text: string, parts: Parts, k: nat) {
    var lines := SplitLines(text);
    && 1 <= k < |lines| && Delimits(lines[k]) && (forall j :: 1 <= j < k ==> !Delimits(lines[j]))
    && parts.frontmatter == Some(Join(lines[1..k]))
    && parts.bodyStart == k + 2
    && if parts.body == "" then Join(lines[k + 1..]) == ""
       else SplitLines(parts.body) == lines[k + 1..] && (EndsWithNewline(text) ==> EndsWithNewline(parts.body))
  }

  // The frontmatter is what stands between a first line of three dashes and the next line of three dashes or
  // dots; the body is what follows, line for line, and keeps the file's final line break.
  lemma FrontmatterExactly(text: string)
    ensures var lines, r := SplitLines(text), SplitParts(text);
            if lines == [] || Strip(lines[0]) != "---" then r == Ok(Parts(None, text, 1))
            else if forall k :: 1 <= k < |lines| ==> !Delimits(lines[k]) then r == Err(UnclosedFrontmatter)
            else r.Ok? && exists k :: PartedAt(text, r.value, k)
  {
    hide Strip, SplitLines, JoinWith;
    var lines := SplitLines(text);
    assert forall k :: 0 <= k < |lines| ==> (Delimits(lines[k]) <==> IsCloser(lines[k]));
    if Opens(lines) && CloserFrom(lines, 1).Some? {
      var k := CloserFrom(lines, 1).value;
      if BodyAfter(text, lines, k) != "" {
        LinesAfter(text, k);
      }
      assert PartedAt(text, SplitParts(text).value, k);
    }
  }

  // The body's lines are the file's own lines from `bodyStart` on.
  lemma BodyLinesAreFileLines(text: string)
    requires ParseText(text).Ok?
    ensures var parts, lines := ParseText(text).value, SplitLines(text);
            1 <= parts.bodyStart <= |lines| && SplitLines(parts.body) == lines[parts.bodyStart - 1..]
  {
    hide Strip, CloserFrom, BodyAfter, SplitLines;
    StripFacts(ParseText(text).value.body);
    SplitLineList(text);
    var lines := SplitLines(text);
    if !Opens(lines) {
      assert lines[0..] == lines;
    } else {
      LinesAfter(text, CloserFrom(lines, 1).value);
    }
  }
}
