/** Text as the ingest code sees it: Python's strip, join and (newline-only) splitlines. */
module Text {

  // The code points for which str.isspace() holds, which str.strip() removes.
  predicate IsSpace(c: char) {
    || '\t' <= c <= '\r'
    || '\U{1C}' <= c <= ' '
    || c == '\U{85}' || c == '\U{A0}' || c == '\U{1680}'
    || '\U{2000}' <= c <= '\U{200A}'
    || c == '\U{2028}' || c == '\U{2029}' || c == '\U{202F}' || c == '\U{205F}' || c == '\U{3000}'
  }

  predicate Blank(s: string) {
    forall i :: 0 <= i < |s| ==> IsSpace(s[i])
  }

  function StripLeft(s: string): string {
    if s != "" && IsSpace(s[0]) then StripLeft(s[1..]) else s
  }

  function StripRight(s: string): string {
    if s != "" && IsSpace(s[|s| - 1]) then StripRight(s[..|s| - 1]) else s
  }

  function Strip(s: string): string {
    StripRight(StripLeft(s))
  }

  predicate Trimmed(s: string) {
    s != "" ==> !IsSpace(s[0]) && !IsSpace(s[|s| - 1])
  }

  predicate StartsBlank(s: string) {
    s != "" && IsSpace(s[0])
  }

  predicate NewlineFree(s: string) {
    '\n' !in s
  }

  // The position of the first line break, or the length of the text.
  function LineEnd(s: string): (k: nat)
    ensures k <= |s| && NewlineFree(s[..k]) && (k < |s| ==> s[k] == '\n')
  {
    if s == "" || s[0] == '\n' then 0 else 1 + LineEnd(s[1..])
  }

  // A final line break ends the last line; it does not open an empty one.
  function SplitLines(s: string): seq<string>
    decreases |s|
  {
    if s == "" then []
    else
      var k := LineEnd(s);
      [s[..k]] + SplitLines(if k < |s| then s[k + 1..] else "")
  }

  // separator.join(parts)
  function JoinWith(separator: string, parts: seq<string>): string {
    if |parts| == 0 then ""
    else if |parts| == 1 then parts[0]
    else parts[0] + separator + JoinWith(separator, parts[1..])
  }

  function Join(lines: seq<string>): string {
    JoinWith("\n", lines)
  }

  predicate EndsWithNewline(s: string) {
    s != "" && s[|s| - 1] == '\n'
  }

  predicate StartsWith(s: string, prefix: string) {
    prefix <= s
  }

  // ---- Stripping ----

  lemma {:induction false} StripLeftFacts(s: string)
    ensures StripLeft(s) == "" <==> Blank(s)
    ensures StripLeft(s) != "" ==> !IsSpace(StripLeft(s)[0])
    ensures StripLeft(s + "\n") == if Blank(s) then "" else StripLeft(s) + "\n"
  {
    if s == "" {
      assert "\n"[1..] == "" && s + "\n" == "\n";
    } else {
      assert (s + "\n")[1..] == s[1..] + "\n" && (s + "\n")[0] == s[0];
      assert Blank(s) <==> IsSpace(s[0]) && Blank(s[1..]) by {
        if IsSpace(s[0]) && Blank(s[1..]) {
          forall i | 0 <= i < |s| ensures IsSpace(s[i]) {
            if i > 0 { assert s[i] == s[1..][i - 1]; }
          }
        }
      }
      if IsSpace(s[0]) { StripLeftFacts(s[1..]); }
    }
  }

  lemma {:induction false} StripRightFacts(s: string)
    ensures StripRight(s) == "" <==> Blank(s)
    ensures StripRight(s) != "" ==> StripRight(s)[0] == s[0] && !IsSpace(StripRight(s)[|StripRight(s)| - 1])
  {
    if s != "" && IsSpace(s[|s| - 1]) {
      StripRightFacts(s[..|s| - 1]);
      assert Blank(s) <==> Blank(s[..|s| - 1]);
    }
  }

  lemma StripFacts(s: string)
    ensures Strip(s) == "" <==> Blank(s)
    ensures Trimmed(Strip(s))
    ensures Strip(s + "\n") == Strip(s)
  {
    StripLeftFacts(s);
    StripRightFacts(StripLeft(s));
    var left := StripLeft(s);
    if !Blank(s) {
      assert (left + "\n")[..|left + "\n"| - 1] == left;
      assert left != "" && !IsSpace(left[0]);
    }
  }

  lemma {:induction false} StripLeftOf(before: string, rest: string)
    requires Blank(before) && (rest != "" ==> !IsSpace(rest[0]))
    ensures StripLeft(before + rest) == rest
  {
    if before == "" {
      assert before + rest == rest;
    } else {
      StripLeftOf(before[1..], rest);
      assert (before + rest)[1..] == before[1..] + rest;
    }
  }

  lemma {:induction false} StripRightOf(rest: string, after: string)
    requires Blank(after) && (rest != "" ==> !IsSpace(rest[|rest| - 1]))
    ensures StripRight(rest + after) == rest
  {
    if after == "" {
      assert rest + after == rest;
    } else {
      StripRightOf(rest, after[..|after| - 1]);
      assert (rest + after)[..|rest + after| - 1] == rest + after[..|after| - 1];
    }
  }

  lemma {:induction false} StripLeftSplits(s: string) returns (before: string)
    ensures s == before + StripLeft(s) && Blank(before)
  {
    if s != "" && IsSpace(s[0]) {
      before := StripLeftSplits(s[1..]);
      before := [s[0]] + before;
    } else {
      before := "";
    }
  }

  lemma {:induction false} StripRightSplits(s: string) returns (after: string)
    ensures s == StripRight(s) + after && Blank(after)
  {
    if s != "" && IsSpace(s[|s| - 1]) {
      after := StripRightSplits(s[..|s| - 1]);
      after := after + [s[|s| - 1]];
    } else {
      after := "";
    }
  }

  ghost predicate Between(s: string, text: string) {
    exists before, after :: s == before + text + after && Blank(before) && Blank(after)
  }

  lemma StripSplits(s: string)
    ensures Between(s, Strip(s))
  {
    hide StripLeft, StripRight;
    var head := StripLeftSplits(s);
    var tail := StripRightSplits(StripLeft(s));
    assert s == head + Strip(s) + tail;
  }

  lemma StripOf(before: string, text: string, after: string)
    requires Blank(before) && Blank(after) && Trimmed(text)
    ensures Strip(before + text + after) == text
  {
    hide StripLeft, StripRight;
    var s := before + text + after;
    if text == "" {
      StripFacts(s);
    } else {
      assert s == before + (text + after) && (text + after)[0] == text[0];
      StripLeftOf(before, text + after);
      StripRightOf(text, after);
    }
  }

  // A stripped text is what is left between the blanks at its ends.
  lemma StripExactly(s: string, text: string)
    ensures Strip(s) == text <==> Trimmed(text) && Between(s, text)
  {
    hide Strip, Blank, Trimmed;
    StripFacts(s);
    StripSplits(s);
    if Trimmed(text) && Between(s, text) {
      var before, after :| s == before + text + after && Blank(before) && Blank(after);
      StripOf(before, text, after);
    }
  }

  lemma StripOfTrimmed(s: string)
    requires Trimmed(s)
    ensures Strip(s) == s
  {
  }

  // ---- Lines ----

  lemma {:induction false} JoinCons(line: string, rest: seq<string>)
    ensures Join([line] + rest) == if rest == [] then line else line + "\n" + Join(rest)
  {
    assert ([line] + rest)[1..] == rest;
  }

  lemma {:induction false} LineEndOfLine(line: string, rest: string)
    requires NewlineFree(line)
    ensures LineEnd(line + "\n" + rest) == |line| && LineEnd(line) == |line|
  {
    if line != "" {
      assert (line + "\n" + rest)[1..] == line[1..] + "\n" + rest;
      LineEndOfLine(line[1..], rest);
    } else {
      assert line + "\n" + rest == "\n" + rest;
    }
  }

  lemma SplitCons(line: string, rest: string)
    requires NewlineFree(line)
    ensures SplitLines(line + "\n" + rest) == [line] + SplitLines(rest)
  {
    var s := line + "\n" + rest;
    LineEndOfLine(line, rest);
    assert s[..|line|] == line && s[|line| + 1..] == rest;
  }

  lemma SplitSingle(line: string)
    requires NewlineFree(line) && line != ""
    ensures SplitLines(line) == [line]
  {
    LineEndOfLine(line, "");
    assert line[..|line|] == line;
    assert SplitLines("") == [];
  }

  predicate LineList(lines: seq<string>) {
    forall i :: 0 <= i < |lines| ==> NewlineFree(lines[i])
  }

  lemma {:induction false} SplitLineList(s: string)
    ensures LineList(SplitLines(s))
    ensures SplitLines(s) == [] <==> s == ""
    decreases |s|
  {
    if s != "" {
      var k := LineEnd(s);
      SplitLineList(if k < |s| then s[k + 1..] else "");
    }
  }

  // The text is these lines joined, plus the final line break it may end in.
  predicate Rejoins(s: string, lines: seq<string>) {
    && lines != []
    && if EndsWithNewline(s) then s == Join(lines) + "\n" else s == Join(lines) && lines[|lines| - 1] != ""
  }

  lemma RejoinsCons(line: string, rest: string, lines: seq<string>)
    requires rest != "" && Rejoins(rest, lines)
    ensures Rejoins(line + "\n" + rest, [line] + lines)
  {
    JoinCons(line, lines);
    var s := line + "\n" + rest;
    assert rest[|rest| - 1] == s[|s| - 1];
    if EndsWithNewline(rest) {
      assert s == (line + "\n" + Join(lines)) + "\n";
    }
  }

  lemma {:induction false} SplitJoin(s: string)
    requires s != ""
    ensures Rejoins(s, SplitLines(s))
    decreases |s|
  {
    var k := LineEnd(s);
    var line := s[..k];
    if k == |s| {
      assert line == s;
      SplitSingle(s);
    } else {
      var rest := s[k + 1..];
      assert s == line + "\n" + rest;
      if rest == "" {
        assert SplitLines(s) == [line] + SplitLines("") == [line];
      } else {
        SplitJoin(rest);
        RejoinsCons(line, rest, SplitLines(rest));
      }
    }
  }

  // Only a text that ends in a line break can have an empty last line.
  lemma LastLineFacts(s: string)
    requires s != "" && !EndsWithNewline(s)
    ensures SplitLines(s) != [] && SplitLines(s)[|SplitLines(s)| - 1] != ""
  {
    hide SplitLines, JoinWith;
    SplitJoin(s);
  }

  lemma SplitNothing()
    ensures SplitLines("") == []
  {
  }

  // Joining and splitting again gives the same lines, with or without a final line break.
  lemma {:induction false} JoinSplit(lines: seq<string>)
    requires LineList(lines) && lines != []
    ensures SplitLines(Join(lines) + "\n") == lines
    ensures lines[|lines| - 1] != "" ==> SplitLines(Join(lines)) == lines
  {
    hide SplitLines, JoinWith, LineEnd;
    var line, rest := lines[0], lines[1..];
    assert lines == [line] + rest;
    JoinCons(line, rest);
    if rest == [] {
      SplitNothing();
      SplitCons(line, "");
      assert line + "\n" + "" == line + "\n";
      if line != "" { SplitSingle(line); }
    } else {
      JoinSplit(rest);
      SplitCons(line, Join(rest));
      SplitCons(line, Join(rest) + "\n");
      assert Join(lines) + "\n" == line + "\n" + (Join(rest) + "\n");
    }
  }

  lemma {:induction false} JoinBlank(lines: seq<string>)
    ensures Blank(Join(lines)) <==> forall i :: 0 <= i < |lines| ==> Blank(lines[i])
  {
    if |lines| > 1 {
      JoinBlank(lines[1..]);
      var head, tail := lines[0] + "\n", Join(lines[1..]);
      assert Join(lines) == head + tail;
      if Blank(Join(lines)) {
        assert forall i :: 0 <= i < |lines[0]| ==> lines[0][i] == Join(lines)[i];
        assert forall i :: 0 <= i < |tail| ==> tail[i] == Join(lines)[|head| + i];
        forall i | 0 <= i < |lines| ensures Blank(lines[i]) {
          if i > 0 { assert lines[i] == lines[1..][i - 1]; }
        }
      }
      if forall i :: 0 <= i < |lines| ==> Blank(lines[i]) {
        assert Blank(lines[0]) && Blank(tail);
        assert Blank(head + tail);
      }
    }
  }

  lemma StripSplit(s: string)
    ensures Strip(Join(SplitLines(s))) == Strip(s)
  {
    if s != "" { SplitJoin(s); }
    StripFacts(Join(SplitLines(s)));
  }
}
