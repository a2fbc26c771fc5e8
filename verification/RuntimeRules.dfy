/** The runtime_rules block of a document's frontmatter, read line by line: what the index-driven parsers of
    src/policynim/ingest/parser.py accept, and what they make of it. */
module RuntimeRules {
  import opened Results
  import opened Text

  datatype Value = Scalar(text: string) | Items(items: seq<string>)

  // What turns an inline value or a list item into a value, and what accepts a rule's fields, is left open;
  // None stands for a refusal.
  datatype Normalisers = Normalisers(inline: (string, string) -> Option<Value>, item: string -> Option<string>,
                                     accepts: map<string, Value> -> bool)

  datatype Kind = Skip | Opener | Item | Key | Stop | Bad

  predicate Indented(line: string) {
    line != "" && (line[0] == ' ' || line[0] == '\t')
  }

  predicate Skipped(line: string) {
    var stripped := Strip(line);
    stripped == "" || stripped[0] == '#'
  }

  function KindOf(line: string): Kind {
    if Skipped(line) then Skip
    else if StartsWith(line, "  - ") then Opener
    else if StartsWith(line, "      - ") then Item
    else if StartsWith(line, "    ") && !StartsWith(line, "      ") then Key
    else if !Indented(line) then Stop
    else Bad
  }

  // ---- Fields ----

  predicate IsKeyChar(c: char) {
    'A' <= c <= 'Z' || 'a' <= c <= 'z' || '0' <= c <= '9' || c == '_' || c == '-'
  }

  function KeyLength(s: string): (n: nat)
    ensures n <= |s|
    ensures forall i :: 0 <= i < n ==> IsKeyChar(s[i])
    ensures n < |s| ==> !IsKeyChar(s[n])
  {
    if s == "" || !IsKeyChar(s[0]) then 0 else 1 + KeyLength(s[1..])
  }

  predicate IsMatcher(key: string) {
    key == "path_globs" || key == "command_regexes" || key == "url_host_patterns"
  }

  predicate IsAllowed(key: string) {
    key == "action" || key == "effect" || key == "reason" || IsMatcher(key)
  }

  // A field's key, with its value unless a list of items is to follow.
  datatype Head = Head(key: string, inline: Option<Value>)

  function HeadOf(norm: Normalisers, line: string): Option<Head> {
    if |line| < 4 then None
    else
      var text := line[4..];
      var n := KeyLength(text);
      if n == 0 || n == |text| || text[n] != ':' || !IsAllowed(text[..n]) then None
      else
        var key, remainder := text[..n], Strip(text[n + 1..]);
        if remainder != "" then
          var value := norm.inline(key, remainder);
          if value.Some? then Some(Head(key, value)) else None
        else if IsMatcher(key) then Some(Head(key, None))
        else None
  }

  function ItemOf(norm: Normalisers, line: string): Option<string> {
    if |line| < 8 then None else norm.item(Strip(line[8..]))
  }

  // The items that follow, up to the next line that is neither an item nor skipped.
  function ItemsFrom(norm: Normalisers, lines: seq<string>, i: nat): seq<string>
    decreases |lines| - i
  {
    if i >= |lines| then []
    else
      match KindOf(lines[i])
      case Skip => ItemsFrom(norm, lines, i + 1)
      case Item => AsSeq(ItemOf(norm, lines[i])) + ItemsFrom(norm, lines, i + 1)
      case _ => []
  }

  // ---- The block, line by line ----

  // The first line at or after i that is neither indented nor skipped.
  function BlockEnd(lines: seq<string>, i: nat): (end: nat)
    requires i <= |lines|
    ensures i <= end <= |lines|
    ensures forall k :: i <= k < end ==> !KindOf(lines[k]).Stop?
    ensures end < |lines| ==> KindOf(lines[end]).Stop?
    decreases |lines| - i
  {
    if i == |lines| || KindOf(lines[i]).Stop? then i else BlockEnd(lines, i + 1)
  }

  // A rule as far as it has been read: its fields, its opening line and its last line with content.
  datatype Draft = Draft(fields: map<string, Value>, start: nat, end: nat)

  function WithField(draft: Draft, norm: Normalisers, lines: seq<string>, i: nat): (r: Draft)
    requires i < |lines|
    ensures r.start == draft.start && r.end == i
  {
    var head := HeadOf(norm, lines[i]);
    if head.None? then draft.(end := i)
    else
      var value := if head.value.inline.Some? then head.value.inline.value else Items(ItemsFrom(norm, lines, i + 1));
      draft.(fields := draft.fields[head.value.key := value], end := i)
  }

  function Amended(drafts: seq<Draft>, norm: Normalisers, lines: seq<string>, i: nat): seq<Draft>
    requires i < |lines|
  {
    match KindOf(lines[i])
    case Opener => drafts + [WithField(Draft(map[], i, i), norm, lines, i)]
    case Key =>
      if drafts == [] then [] else drafts[..|drafts| - 1] + [WithField(drafts[|drafts| - 1], norm, lines, i)]
    case Item =>
      if drafts == [] then [] else drafts[..|drafts| - 1] + [drafts[|drafts| - 1].(end := i)]
    case _ => drafts
  }

  // The rules that the lines from `start` up to i make: an opener starts one, and whatever has content
  // belongs to the one last opened.
  function Drafts(norm: Normalisers, lines: seq<string>, start: nat, i: nat): seq<Draft>
    requires i <= |lines|
  {
    if i <= start then [] else Amended(Drafts(norm, lines, start, i - 1), norm, lines, i - 1)
  }

  predicate AwaitsList(norm: Normalisers, line: string) {
    var head := HeadOf(norm, line);
    head.Some? && head.value.inline.None?
  }

  // An item may stand here: the last line that is neither an item nor skipped is a key awaiting a list.
  predicate ListOpen(norm: Normalisers, lines: seq<string>, start: nat, i: nat)
    requires i <= |lines|
  {
    i > start &&
    match KindOf(lines[i - 1])
    case Skip => ListOpen(norm, lines, start, i - 1)
    case Item => ListOpen(norm, lines, start, i - 1)
    case Opener => AwaitsList(norm, lines[i - 1])
    case Key => AwaitsList(norm, lines[i - 1])
    case _ => false
  }

  // The line may stand where it does: an opener with a field, a field new to its rule, or an item of a list.
  predicate Fits(norm: Normalisers, lines: seq<string>, start: nat, i: nat)
    requires i < |lines|
  {
    match KindOf(lines[i])
    case Skip => true
    case Opener => HeadOf(norm, lines[i]).Some?
    case Item => ListOpen(norm, lines, start, i) && ItemOf(norm, lines[i]).Some?
    case Key =>
      var drafts, head := Drafts(norm, lines, start, i), HeadOf(norm, lines[i]);
      drafts != [] && head.Some? && head.value.key !in drafts[|drafts| - 1].fields
    case _ => false
  }

  // Every line up to the block's end fits, and every rule is accepted.
  ghost predicate WellFormed(norm: Normalisers, lines: seq<string>, start: nat)
    requires start <= |lines|
  {
    var end := BlockEnd(lines, start);
    && (forall i :: start <= i < end ==> Fits(norm, lines, start, i))
    && forall draft :: draft in Drafts(norm, lines, start, end) ==> norm.accepts(draft.fields)
  }

  // A finished rule, with its first and last line counted in the file.
  datatype Rule = Rule(fields: map<string, Value>, startLine: nat, endLine: nat)

  function FrontmatterLine(index: nat): nat {
    index + 2
  }

  function Finished(drafts: seq<Draft>): (rules: seq<Rule>)
    ensures |rules| == |drafts|
    ensures forall i :: 0 <= i < |drafts| ==>
              rules[i] == Rule(drafts[i].fields, FrontmatterLine(drafts[i].start), FrontmatterLine(drafts[i].end))
  {
    seq(|drafts|, i requires 0 <= i < |drafts| =>
      Rule(drafts[i].fields, FrontmatterLine(drafts[i].start), FrontmatterLine(drafts[i].end)))
  }

  // ---- Spans ----

  // Where the next span begins, or the lines read end.
  function NextStart(i: nat, drafts: seq<Draft>, k: nat): nat
    requires k < |drafts|
  {
    if k + 1 < |drafts| then drafts[k + 1].start else i
  }

  ghost predicate SpanAt(lines: seq<string>, start: nat, i: nat, drafts: seq<Draft>, k: nat)
    requires i <= |lines| && k < |drafts|
  {
    var draft, next := drafts[k], NextStart(i, drafts, k);
    && start <= draft.start <= draft.end < next <= i
    && KindOf(lines[draft.start]).Opener?
    && (KindOf(lines[draft.end]).Opener? || KindOf(lines[draft.end]).Key? || KindOf(lines[draft.end]).Item?)
    && (forall j :: draft.start < j < next ==> !KindOf(lines[j]).Opener?)
    && forall j :: draft.end < j < next ==> !KindOf(lines[j]).Key? && !KindOf(lines[j]).Item?
  }

  // Spans lie apart and in order; each begins at its own opener and ends at a line with content, and lines
  // between them or behind the last are skipped.
  ghost predicate SpansLaid(lines: seq<string>, start: nat, i: nat, drafts: seq<Draft>)
    requires i <= |lines|
  {
    && (forall k :: 0 <= k < |drafts| ==> SpanAt(lines, start, i, drafts, k))
    && forall j :: start <= j < i && (drafts == [] || j < drafts[0].start) ==> !KindOf(lines[j]).Opener?
  }

  lemma AmendedSpans(norm: Normalisers, lines: seq<string>, start: nat, i: nat, drafts: seq<Draft>)
    requires start <= i < |lines| && SpansLaid(lines, start, i, drafts)
    ensures SpansLaid(lines, start, i + 1, Amended(drafts, norm, lines, i))
  {
    hide KindOf, HeadOf, ItemsFrom;
    var after, next := Amended(drafts, norm, lines, i), i + 1;
    forall k | 0 <= k < |after| ensures SpanAt(lines, start, next, after, k) {
      if k < |drafts| {
        assert SpanAt(lines, start, i, drafts, k);
      }
    }
    assert drafts != [] ==> SpanAt(lines, start, i, drafts, 0);
    assert drafts != [] ==> after != [] && after[0].start == drafts[0].start < i;
    assert forall j :: start <= j < next && (after == [] || j < after[0].start) ==> !KindOf(lines[j]).Opener?;
  }

  lemma NoSpans(lines: seq<string>, start: nat)
    requires start <= |lines|
    ensures SpansLaid(lines, start, start, [])
  {
  }

  lemma {:induction false} DraftSpans(norm: Normalisers, lines: seq<string>, start: nat, i: nat)
    requires start <= i <= |lines|
    ensures SpansLaid(lines, start, i, Drafts(norm, lines, start, i))
  {
    hide KindOf, SpansLaid, Amended;
    if i > start {
      DraftSpans(norm, lines, start, i - 1);
      AmendedSpans(norm, lines, start, i - 1, Drafts(norm, lines, start, i - 1));
    } else {
      NoSpans(lines, start);
    }
  }
}
