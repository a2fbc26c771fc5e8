/** Where the rules of a runtime_rules block lie, in the block and in the file. */
module RuleSpans {
  import opened Text
  import opened Frontmatter
  import opened RuntimeRules

  // The rules of a block, once it has been accepted.
  ghost function BlockRules(norm: Normalisers, lines: seq<string>, start: nat): seq<Rule>
    requires start <= |lines|
  {
    Finished(Drafts(norm, lines, start, BlockEnd(lines, start)))
  }

  // The frontmatter line that carries a line number of the file.
  predicate HasLine(lines: seq<string>, number: nat) {
    FrontmatterLine(0) <= number < FrontmatterLine(|lines|)
  }

  function LineAt(lines: seq<string>, number: nat): string
    requires HasLine(lines, number)
  {
    lines[number - FrontmatterLine(0)]
  }

  predicate Carries(line: string) {
    KindOf(line).Opener? || KindOf(line).Key? || KindOf(line).Item?
  }

  predicate CoversLine(rule: Rule, index: nat) {
    rule.startLine <= FrontmatterLine(index) <= rule.endLine
  }

  ghost predicate RuleInPlace(lines: seq<string>, rules: seq<Rule>, k: nat)
    requires k < |rules|
  {
    var rule := rules[k];
    && rule.startLine <= rule.endLine
    && HasLine(lines, rule.startLine) && HasLine(lines, rule.endLine)
    && KindOf(LineAt(lines, rule.startLine)).Opener?
    && Carries(LineAt(lines, rule.endLine))
    && (k + 1 < |rules| ==> rule.endLine < rules[k + 1].startLine)
  }

  // A rule's span begins at its own opener, ends at a key or an item, and ends before the next one begins.
  lemma RulesInPlace(norm: Normalisers, lines: seq<string>, start: nat)
    requires start <= |lines|
    ensures var rules := BlockRules(norm, lines, start);
            forall k :: 0 <= k < |rules| ==> RuleInPlace(lines, rules, k)
  {
    hide KindOf, Drafts;
    var end := BlockEnd(lines, start);
    var drafts := Drafts(norm, lines, start, end);
    var rules := Finished(drafts);
    DraftSpans(norm, lines, start, end);
    forall k | 0 <= k < |rules| ensures RuleInPlace(lines, rules, k) {
      assert SpanAt(lines, start, end, drafts, k);
    }
  }

  lemma {:induction false} SpansApart(lines: seq<string>, rules: seq<Rule>, a: nat, b: nat)
    requires forall k :: 0 <= k < |rules| ==> RuleInPlace(lines, rules, k)
    requires a < b < |rules|
    ensures rules[a].endLine < rules[b].startLine
    decreases b - a
  {
    hide KindOf;
    assert RuleInPlace(lines, rules, a) && RuleInPlace(lines, rules, b - 1);
    if a + 1 < b {
      SpansApart(lines, rules, a, b - 1);
    }
  }

  // The last rule that begins at or before a line.
  lemma {:induction false} RuleBefore(starts: seq<nat>, j: nat) returns (k: nat)
    requires starts != [] && starts[0] <= j
    ensures k < |starts| && starts[k] <= j && (k + 1 < |starts| ==> j < starts[k + 1])
  {
    k := 0;
    if |starts| > 1 && starts[1] <= j {
      var rest := RuleBefore(starts[1..], j);
      k := rest + 1;
    }
  }

  lemma OnlyRule(lines: seq<string>, rules: seq<Rule>, j: nat, k: nat)
    requires forall i :: 0 <= i < |rules| ==> RuleInPlace(lines, rules, i)
    requires k < |rules| && CoversLine(rules[k], j)
    ensures forall i :: 0 <= i < |rules| ==> (CoversLine(rules[i], j) <==> i == k)
  {
    hide KindOf;
    forall i | 0 <= i < |rules| ensures CoversLine(rules[i], j) <==> i == k {
      if i < k { SpansApart(lines, rules, i, k); }
      if k < i { SpansApart(lines, rules, k, i); }
    }
  }

  lemma {:induction false} BegunList(norm: Normalisers, lines: seq<string>, start: nat, i: nat)
    requires i <= |lines| && ListOpen(norm, lines, start, i)
    requires forall j :: start <= j < i ==> Fits(norm, lines, start, j)
    ensures Drafts(norm, lines, start, i) != []
  {
    hide KindOf, HeadOf, ItemOf;
    assert Fits(norm, lines, start, i - 1);
    if KindOf(lines[i - 1]).Item? || KindOf(lines[i - 1]).Skip? {
      BegunList(norm, lines, start, i - 1);
    }
  }

  lemma {:induction false} Begun(norm: Normalisers, lines: seq<string>, start: nat, i: nat)
    requires start < i <= |lines| && !KindOf(lines[i - 1]).Skip?
    requires forall j :: start <= j < i ==> Fits(norm, lines, start, j)
    ensures Drafts(norm, lines, start, i) != []
  {
    hide KindOf, HeadOf, ItemOf;
    assert Fits(norm, lines, start, i - 1);
    if KindOf(lines[i - 1]).Item? {
      BegunList(norm, lines, start, i - 1);
    }
  }

  // Rules once begun stay, where they began.
  lemma {:induction false} BegunStays(norm: Normalisers, lines: seq<string>, start: nat, i: nat, j: nat)
    requires start <= i <= j <= |lines| && Drafts(norm, lines, start, i) != []
    ensures Drafts(norm, lines, start, j) != []
    ensures Drafts(norm, lines, start, j)[0].start == Drafts(norm, lines, start, i)[0].start
  {
    hide KindOf, HeadOf;
    if i < j {
      BegunStays(norm, lines, start, i, j - 1);
    }
  }

  // The first line with content is an opener.
  lemma SomeRuleBegun(norm: Normalisers, lines: seq<string>, start: nat, j: nat)
    requires start <= |lines| && WellFormed(norm, lines, start)
    requires start <= j < BlockEnd(lines, start) && !KindOf(lines[j]).Skip?
    ensures var drafts := Drafts(norm, lines, start, BlockEnd(lines, start));
            drafts != [] && drafts[0].start <= j
  {
    hide KindOf, HeadOf, ItemOf, BlockEnd;
    var end := BlockEnd(lines, start);
    Begun(norm, lines, start, j + 1);
    BegunStays(norm, lines, start, j + 1, end);
    DraftSpans(norm, lines, start, j + 1);
    assert SpanAt(lines, start, j + 1, Drafts(norm, lines, start, j + 1), 0);
  }

  // In a well-formed block every line with content lies in the span of exactly one rule.
  lemma EveryLineInOneRule(norm: Normalisers, lines: seq<string>, start: nat, j: nat) returns (k: nat)
    requires start <= |lines| && WellFormed(norm, lines, start)
    requires start <= j < BlockEnd(lines, start) && !KindOf(lines[j]).Skip?
    ensures var rules := BlockRules(norm, lines, start);
            k < |rules| && forall i :: 0 <= i < |rules| ==> (CoversLine(rules[i], j) <==> i == k)
  {
    hide KindOf, Drafts, HeadOf, ItemOf, ListOpen, BlockEnd;
    var end := BlockEnd(lines, start);
    var drafts := Drafts(norm, lines, start, end);
    DraftSpans(norm, lines, start, end);
    RulesInPlace(norm, lines, start);
    assert Fits(norm, lines, start, j);
    SomeRuleBegun(norm, lines, start, j);
    var starts := seq(|drafts|, i requires 0 <= i < |drafts| => drafts[i].start);
    k := RuleBefore(starts, j);
    assert SpanAt(lines, start, end, drafts, k);
    assert CoversLine(BlockRules(norm, lines, start)[k], j);
    OnlyRule(lines, BlockRules(norm, lines, start), j, k);
  }

  // ---- In the file ----

  lemma {:induction false} JoinEmptyLast(front: seq<string>)
    requires front != []
    ensures Join(front + [""]) == Join(front) + "\n"
  {
    var all := front + [""];
    assert all[1..] == front[1..] + [""];
    if |front| > 1 {
      JoinEmptyLast(front[1..]);
      assert Join(all) == front[0] + "\n" + Join(all[1..]);
    } else {
      assert all[1..] == [""] && Join(front) == front[0];
      assert Join(all) == front[0] + "\n" + Join([""]) == front[0] + "\n" + "";
    }
  }

  lemma JoinNone()
    ensures Join([]) == "" && Join([""]) == "" && SplitLines("") == []
  {
  }

  // Joined and split again, lines are what they were, but for an empty last one.
  lemma SplitOfJoin(lines: seq<string>)
    requires LineList(lines)
    ensures SplitLines(Join(lines)) <= lines
  {
    hide JoinWith, SplitLines;
    if lines == [] {
      JoinNone();
    } else if lines[|lines| - 1] != "" {
      JoinSplit(lines);
    } else {
      var front := lines[..|lines| - 1];
      assert lines == front + [""];
      if front == [] {
        JoinNone();
      } else {
        JoinEmptyLast(front);
        JoinSplit(front);
      }
    }
  }

  // Line numbers of the frontmatter are line numbers of the file.
  lemma FrontmatterInFile(text: string, number: nat)
    requires SplitParts(text).Ok? && SplitParts(text).value.frontmatter.Some?
    requires HasLine(SplitLines(SplitParts(text).value.frontmatter.value), number)
    ensures 1 <= number <= |SplitLines(text)|
    ensures LineAt(SplitLines(SplitParts(text).value.frontmatter.value), number) == SplitLines(text)[number - 1]
  {
    hide SplitLines, JoinWith, BodyAfter, CloserFrom;
    var lines := SplitLines(text);
    SplitLineList(text);
    var closing := CloserFrom(lines, 1).value;
    SplitOfJoin(lines[1..closing]);
  }

  // In file coordinates, each rule's first line is its own opener and its last line a key or an item.
  lemma RulesInFile(text: string, norm: Normalisers, start: nat, k: nat)
    requires SplitParts(text).Ok? && SplitParts(text).value.frontmatter.Some?
    requires start <= |SplitLines(SplitParts(text).value.frontmatter.value)|
    requires k < |BlockRules(norm, SplitLines(SplitParts(text).value.frontmatter.value), start)|
    ensures var rule := BlockRules(norm, SplitLines(SplitParts(text).value.frontmatter.value), start)[k];
            && 1 <= rule.startLine <= rule.endLine <= |SplitLines(text)|
            && KindOf(SplitLines(text)[rule.startLine - 1]).Opener?
            && Carries(SplitLines(text)[rule.endLine - 1])
  {
    hide SplitLines, SplitParts, KindOf, Drafts, BlockEnd;
    var lines := SplitLines(SplitParts(text).value.frontmatter.value);
    RulesInPlace(norm, lines, start);
    var rules := BlockRules(norm, lines, start);
    assert RuleInPlace(lines, rules, k);
    FrontmatterInFile(text, rules[k].startLine);
    FrontmatterInFile(text, rules[k].endLine);
  }
}
