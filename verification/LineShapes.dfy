/** Fences, headings and code blocks described by what their lines look like, and the scanner of
    src/policynim/ingest/chunking.py held against those descriptions. */
module LineShapes {
  import opened Results
  import opened Text
  import opened Headings

  function Copies(c: char, n: nat): (s: string)
    ensures |s| == n && forall i :: 0 <= i < n ==> s[i] == c
  {
    seq(n, _ => c)
  }

  // Up to three spaces, a run of so many marks, and something that does not go on with the run.
  ghost predicate Marked(line: string, indent: nat, c: char, n: nat, rest: string) {
    && indent <= 3
    && line == Copies(' ', indent) + Copies(c, n) + rest
    && (rest != "" ==> rest[0] != c)
  }

  lemma RunNext(c: char, line: string)
    ensures RunLength([c] + line, c) == 1 + RunLength(line, c)
  {
    assert ([c] + line)[1..] == line;
  }

  lemma NoRun(c: char, rest: string)
    requires rest != "" ==> rest[0] != c
    ensures RunLength(rest, c) == 0
  {
  }

  lemma {:induction false} RunOf(c: char, n: nat, rest: string)
    requires rest != "" ==> rest[0] != c
    ensures RunLength(Copies(c, n) + rest, c) == n
  {
    hide RunLength;
    var line := Copies(c, n) + rest;
    if n > 0 {
      RunOf(c, n - 1, rest);
      RunNext(c, Copies(c, n - 1) + rest);
      assert line == [c] + (Copies(c, n - 1) + rest);
    } else {
      NoRun(c, rest);
      assert line == rest;
    }
  }

  lemma MarkedUnindents(line: string, indent: nat, c: char, n: nat, rest: string)
    requires Marked(line, indent, c, n, rest) && c != ' ' && n > 0
    ensures Unindented(line) == Some(Copies(c, n) + rest)
    ensures RunLength(Copies(c, n) + rest, c) == n
  {
    hide RunLength;
    var text := Copies(c, n) + rest;
    assert line == Copies(' ', indent) + text && text[0] == c;
    RunOf(' ', indent, text);
    assert line[indent..] == text;
    RunOf(c, n, rest);
  }

  // The converse: the run that the scanner measures is one.
  lemma MeasuredIsMarked(line: string, c: char)
    requires Unindented(line).Some?
    ensures var text, indent := Unindented(line).value, RunLength(line, ' ');
            var n := RunLength(text, c);
            Marked(line, indent, c, n, text[n..])
  {
    hide RunLength;
    var text, indent := Unindented(line).value, RunLength(line, ' ');
    var n := RunLength(text, c);
    assert line == Copies(' ', indent) + text;
    assert text == Copies(c, n) + text[n..];
  }

  lemma OtherRun(c: char, n: nat, rest: string, other: char)
    requires n > 0 && other != c
    ensures RunLength(Copies(c, n) + rest, other) == 0
  {
    assert (Copies(c, n) + rest)[0] == c;
  }

  // ---- Fences ----

  // Three or more backticks or tildes open a code block.
  ghost predicate Opens(line: string, c: char, n: nat) {
    && (c == '`' || c == '~')
    && n >= 3
    && exists indent: nat, rest: string :: Marked(line, indent, c, n, rest)
  }

  // At least as many of the same, with nothing but spaces and tabs behind them, close it.
  ghost predicate Closes(line: string, c: char, n: nat) {
    exists indent: nat, m: nat, rest: string ::
      && Marked(line, indent, c, m, rest)
      && m >= n
      && forall i :: 0 <= i < |rest| ==> rest[i] == ' ' || rest[i] == '\t'
  }

  lemma OpensExactly(line: string, c: char, n: nat)
    ensures FenceOpener(line) == Some(Fence(c, n)) <==> Opens(line, c, n)
  {
    hide RunLength, Marked, Unindented;
    if Opens(line, c, n) {
      var indent: nat, rest: string :| Marked(line, indent, c, n, rest);
      MarkedUnindents(line, indent, c, n, rest);
      if c == '~' {
        OtherRun(c, n, rest, '`');
      }
    }
    if FenceOpener(line) == Some(Fence(c, n)) {
      MeasuredIsMarked(line, c);
    }
  }

  lemma ClosesExactly(line: string, c: char, n: nat)
    requires c != ' ' && n > 0
    ensures ClosesFence(line, Fence(c, n)) <==> Closes(line, c, n)
  {
    hide RunLength, Marked, Unindented;
    if Closes(line, c, n) {
      var indent: nat, m: nat, rest: string :|
        && Marked(line, indent, c, m, rest)
        && m >= n
        && forall i :: 0 <= i < |rest| ==> rest[i] == ' ' || rest[i] == '\t';
      MarkedUnindents(line, indent, c, m, rest);
      forall i | m <= i < |Copies(c, m) + rest|
        ensures (Copies(c, m) + rest)[i] == ' ' || (Copies(c, m) + rest)[i] == '\t'
      {
        assert (Copies(c, m) + rest)[i] == rest[i - m];
      }
    }
    if ClosesFence(line, Fence(c, n)) {
      MeasuredIsMarked(line, c);
      var text := Unindented(line).value;
      var m := RunLength(text, c);
      assert forall i :: 0 <= i < |text[m..]| ==> text[m..][i] == text[m + i];
    }
  }

  // ---- Closing marks ----

  // A text that ends in a run of marks, set off by spaces or tabs from what is before.
  ghost predicate ClosedBy(text: string, body: string, gap: string, marks: string) {
    && text == body + gap + marks
    && gap != "" && (forall i :: 0 <= i < |gap| ==> gap[i] == ' ' || gap[i] == '\t')
    && marks != "" && (forall i :: 0 <= i < |marks| ==> marks[i] == '#')
    && (body != "" ==> body[|body| - 1] != ' ' && body[|body| - 1] != '\t')
  }

  lemma {:induction false} TrailingOf(before: string, run: string, cs: set<char>)
    requires forall i :: 0 <= i < |run| ==> run[i] in cs
    requires before != "" ==> before[|before| - 1] !in cs
    ensures TrailingRun(before + run, cs) == |run|
  {
    var all := before + run;
    if run == "" {
      assert all == before;
    } else {
      TrailingOf(before, run[..|run| - 1], cs);
      assert all[..|all| - 1] == before + run[..|run| - 1];
    }
  }

  lemma ClosedDrops(text: string, body: string, gap: string, marks: string)
    requires ClosedBy(text, body, gap, marks)
    ensures DropClosingMarks(text) == body
  {
    hide TrailingRun;
    TrailingOf(body + gap, marks, {'#'});
    assert text[..|text| - |marks|] == body + gap;
    TrailingOf(body, gap, {' ', '\t'});
    assert text[..|body|] == body;
  }

  lemma DroppedWasClosed(text: string)
    requires DropClosingMarks(text) != text
    ensures exists gap, marks :: ClosedBy(text, DropClosingMarks(text), gap, marks)
  {
    hide TrailingRun;
    var n := |text| - TrailingRun(text, {'#'});
    var m := n - TrailingRun(text[..n], {' ', '\t'});
    assert text == text[..m] + text[m..n] + text[n..];
    assert ClosedBy(text, text[..m], text[m..n], text[n..]);
  }

  lemma ClosedShorter(text: string, body: string, gap: string, marks: string)
    requires ClosedBy(text, body, gap, marks)
    ensures body != text
  {
  }

  // Closing marks go, and anything else stays.
  ghost predicate WithoutMarks(text: string, body: string) {
    || (exists gap, marks :: ClosedBy(text, body, gap, marks))
    || (body == text && !exists other, gap, marks :: ClosedBy(text, other, gap, marks))
  }

  lemma DropsExactly(text: string, body: string)
    ensures DropClosingMarks(text) == body <==> WithoutMarks(text, body)
  {
    hide DropClosingMarks, ClosedBy;
    forall other, gap, marks | ClosedBy(text, other, gap, marks)
      ensures DropClosingMarks(text) == other && other != text
    {
      ClosedDrops(text, other, gap, marks);
      ClosedShorter(text, other, gap, marks);
    }
    if DropClosingMarks(text) != text {
      DroppedWasClosed(text);
    }
  }

  // ---- Words ----

  ghost predicate Word(w: string) {
    w != "" && forall i :: 0 <= i < |w| ==> !IsSpace(w[i])
  }

  ghost predicate FirstWord(text: string, before: string, word: string, after: string) {
    && text == before + word + after
    && Blank(before) && Word(word) && (after != "" ==> IsSpace(after[0]))
  }

  lemma WordEdges(text: string, before: string, word: string, after: string)
    requires FirstWord(text, before, word, after)
    ensures text != ""
    ensures IsSpace(text[0]) <==> before != ""
    ensures after == "" ==> !IsSpace(text[|text| - 1])
  {
    assert text[0] == if before == "" then word[0] else before[0];
    if after == "" {
      assert text[|text| - 1] == word[|word| - 1];
    }
  }

  // The words of a text, in order, with blanks around and between them.
  ghost predicate HasWords(text: string, words: seq<string>)
    decreases |words|
  {
    if words == [] then Blank(text)
    else exists before: string, after: string ::
      FirstWord(text, before, words[0], after) && HasWords(after, words[1..])
  }

  lemma {:induction false} CollapseWord(word: string, after: string)
    requires forall i :: 0 <= i < |word| ==> !IsSpace(word[i])
    ensures CollapseSpaces(word + after) == word + CollapseSpaces(after)
  {
    var text := word + after;
    if word == "" {
      assert text == after;
    } else {
      CollapseWord(word[1..], after);
      assert text[1..] == word[1..] + after;
    }
  }

  lemma {:induction false} CollapseBlanks(before: string, text: string)
    requires before != "" && Blank(before) && text != "" && !IsSpace(text[0])
    ensures CollapseSpaces(before + text) == " " + CollapseSpaces(text)
  {
    var all := before + text;
    assert all[1..] == before[1..] + text;
    if |before| == 1 {
      assert all[1..] == text;
    } else {
      CollapseBlanks(before[1..], text);
    }
  }

  lemma NothingCollapses()
    ensures CollapseSpaces("") == ""
  {
  }

  // The collapsed first word, and what is left.
  lemma CollapseFirst(text: string, before: string, word: string, after: string)
    requires FirstWord(text, before, word, after)
    ensures CollapseSpaces(text) == (if before == "" then "" else " ") + (word + CollapseSpaces(after))
  {
    hide CollapseSpaces;
    CollapseWord(word, after);
    assert text == before + (word + after) && (word + after)[0] == word[0];
    if before == "" {
      assert text == word + after;
    } else {
      CollapseBlanks(before, word + after);
    }
  }

  lemma NothingJoins()
    ensures JoinWith(" ", []) == ""
  {
  }

  lemma AfterWord(text: string, before: string, word: string, after: string)
    requires FirstWord(text, before, word, after)
    ensures after != "" ==> IsSpace(after[0]) && text[|text| - 1] == after[|after| - 1]
  {
  }

  lemma Nonempty(text: string, words: seq<string>)
    requires HasWords(text, words) && words != []
    ensures text != ""
  {
  }

  lemma JoinFirst(words: seq<string>)
    requires words != []
    ensures JoinWith(" ", words) == words[0] + (if |words| > 1 then " " + JoinWith(" ", words[1..]) else "")
  {
  }

  lemma {:induction false} CollapseJoins(text: string, words: seq<string>)
    requires HasWords(text, words) && (text != "" ==> !IsSpace(text[|text| - 1]))
    ensures CollapseSpaces(text) == (if text != "" && IsSpace(text[0]) then " " else "") + JoinWith(" ", words)
    decreases |words|
  {
    hide CollapseSpaces, FirstWord, JoinWith;
    if words == [] {
      NothingCollapses();
      NothingJoins();
    } else {
      var before: string, after: string :|
        FirstWord(text, before, words[0], after) && HasWords(after, words[1..]);
      WordEdges(text, before, words[0], after);
      AfterWord(text, before, words[0], after);
      CollapseJoins(after, words[1..]);
      CollapseFirst(text, before, words[0], after);
      JoinFirst(words);
      NothingJoins();
      if words[1..] != [] {
        Nonempty(after, words[1..]);
      }
    }
  }

  lemma {:induction false} CutLeft(text: string, words: seq<string>)
    requires HasWords(text, words) && text != "" && IsSpace(text[0])
    ensures HasWords(text[1..], words)
  {
    if words != [] {
      var before: string, after: string :|
        FirstWord(text, before, words[0], after) && HasWords(after, words[1..]);
      WordEdges(text, before, words[0], after);
      assert FirstWord(text[1..], before[1..], words[0], after);
    }
  }

  lemma {:induction false} CutRight(text: string, words: seq<string>)
    requires HasWords(text, words) && text != "" && IsSpace(text[|text| - 1])
    ensures HasWords(text[..|text| - 1], words)
    decreases |words|
  {
    if words != [] {
      var before: string, after: string :|
        FirstWord(text, before, words[0], after) && HasWords(after, words[1..]);
      WordEdges(text, before, words[0], after);
      CutRight(after, words[1..]);
      assert FirstWord(text[..|text| - 1], before, words[0], after[..|after| - 1]);
    }
  }

  lemma {:induction false} CutLefts(text: string, words: seq<string>)
    requires HasWords(text, words)
    ensures HasWords(StripLeft(text), words)
  {
    if text != "" && IsSpace(text[0]) {
      CutLeft(text, words);
      CutLefts(text[1..], words);
    }
  }

  lemma {:induction false} CutRights(text: string, words: seq<string>)
    requires HasWords(text, words)
    ensures HasWords(StripRight(text), words)
  {
    if text != "" && IsSpace(text[|text| - 1]) {
      CutRight(text, words);
      CutRights(text[..|text| - 1], words);
    }
  }

  // A stripped and collapsed text is its words with single spaces between them.
  lemma CollapsedWords(text: string, words: seq<string>)
    requires HasWords(text, words)
    ensures CollapseSpaces(Strip(text)) == JoinWith(" ", words)
  {
    hide HasWords, CollapseSpaces, StripLeft, StripRight;
    CutLefts(text, words);
    CutRights(StripLeft(text), words);
    StripFacts(text);
    CollapseJoins(Strip(text), words);
    assert "" + JoinWith(" ", words) == JoinWith(" ", words);
  }

  lemma BlankBefore(c: char, rest: string, words: seq<string>)
    requires IsSpace(c) && HasWords(rest, words)
    ensures HasWords([c] + rest, words)
  {
    if words != [] {
      var before: string, after: string :|
        FirstWord(rest, before, words[0], after) && HasWords(after, words[1..]);
      assert FirstWord([c] + rest, [c] + before, words[0], after);
    }
  }

  lemma LetterBefore(c: char, rest: string, words: seq<string>)
    requires !IsSpace(c) && rest != "" && !IsSpace(rest[0]) && words != [] && HasWords(rest, words)
    ensures HasWords([c] + rest, [[c] + words[0]] + words[1..])
  {
    var before: string, after: string :|
      FirstWord(rest, before, words[0], after) && HasWords(after, words[1..]);
    WordEdges(rest, before, words[0], after);
    var longer := [[c] + words[0]] + words[1..];
    assert longer[1..] == words[1..];
    assert FirstWord([c] + rest, "", longer[0], after);
  }

  lemma WordBefore(c: char, rest: string, words: seq<string>)
    requires !IsSpace(c) && (rest != "" ==> IsSpace(rest[0])) && HasWords(rest, words)
    ensures HasWords([c] + rest, [[c]] + words)
  {
    var longer := [[c]] + words;
    assert longer[1..] == words;
    assert FirstWord([c] + rest, "", longer[0], rest);
  }

  lemma NoWords()
    ensures HasWords("", [])
  {
  }

  lemma {:induction false} WordsExist(text: string) returns (words: seq<string>)
    ensures HasWords(text, words)
    ensures text != "" && !IsSpace(text[0]) ==> words != []
  {
    hide HasWords;
    if text == "" {
      NoWords();
      words := [];
    } else {
      var c, rest := text[0], text[1..];
      assert text == [c] + rest;
      words := WordsExist(rest);
      if IsSpace(c) {
        BlankBefore(c, rest, words);
      } else if rest != "" && !IsSpace(rest[0]) {
        LetterBefore(c, rest, words);
        words := [[c] + words[0]] + words[1..];
      } else {
        WordBefore(c, rest, words);
        words := [[c]] + words;
      }
    }
  }

  // ---- Headings ----

  // What follows the marks, stripped and without closing marks, is the title but for blanks: its words.
  ghost predicate HasTitle(rest: string, title: string) {
    exists body, words :: WithoutMarks(Strip(rest), body) && HasWords(body, words) && title == JoinWith(" ", words)
  }

  lemma TitleOf(rest: string)
    ensures HeadingText(rest) == CollapseSpaces(Strip(DropClosingMarks(Strip(rest))))
  {
    if Strip(rest) == "" {
      assert DropClosingMarks("") == "" && Strip("") == "" && CollapseSpaces("") == "";
    }
  }

  lemma TitleExactly(rest: string, title: string)
    ensures HeadingText(rest) == title <==> HasTitle(rest, title)
  {
    hide WithoutMarks, HasWords, DropClosingMarks, CollapseSpaces, Strip;
    var text := Strip(rest);
    var body := DropClosingMarks(text);
    TitleOf(rest);
    DropsExactly(text, body);
    var words := WordsExist(body);
    CollapsedWords(body, words);
    if HasTitle(rest, title) {
      var b, ws :| WithoutMarks(text, b) && HasWords(b, ws) && title == JoinWith(" ", ws);
      DropsExactly(text, b);
      CollapsedWords(b, ws);
    }
  }

  // One to six marks with a blank or the end of the line behind them, and the title.
  ghost predicate Heads(line: string, level: nat, title: string) {
    && 1 <= level <= 6
    && exists indent: nat, rest: string ::
      Marked(line, indent, '#', level, rest) && (rest != "" ==> IsSpace(rest[0])) && HasTitle(rest, title)
  }

  lemma HeadsExactly(line: string, level: nat, title: string)
    ensures AtxHeading(line) == Some((level, title)) <==> Heads(line, level, title)
  {
    hide RunLength, Marked, Unindented, HeadingText, HasTitle;
    if Heads(line, level, title) {
      var indent: nat, rest: string :|
        Marked(line, indent, '#', level, rest) && (rest != "" ==> IsSpace(rest[0])) && HasTitle(rest, title);
      MarkedUnindents(line, indent, '#', level, rest);
      var text := Copies('#', level) + rest;
      TitleExactly(rest, title);
      assert text[level..] == rest;
      assert level < |text| ==> text[level] == rest[0];
    }
    if AtxHeading(line) == Some((level, title)) {
      MeasuredIsMarked(line, '#');
      var text := Unindented(line).value;
      var run := RunLength(text, '#');
      TitleExactly(text[level..], title);
    }
  }
}
