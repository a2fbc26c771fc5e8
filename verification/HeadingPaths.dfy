/** When the heading stack is the true chain of enclosing headings, and when it is not. */
module HeadingPaths {
  import opened Text
  import opened Results
  import opened Headings
  import opened Sections
  import opened SectionSpans

  function LevelsOf(headings: seq<Heading>): (levels: seq<nat>)
    ensures |levels| == |headings| && forall i :: 0 <= i < |headings| ==> levels[i] == headings[i].level
  {
    seq(|headings|, i requires 0 <= i < |headings| => headings[i].level)
  }

  // The nearest heading at or before j that is shallower than the given level, or -1.
  function NearestAbove(levels: seq<nat>, j: int, level: nat): (p: int)
    requires -1 <= j < |levels|
    ensures -1 <= p <= j
    ensures p >= 0 ==> levels[p] < level
    ensures forall k :: p < k <= j ==> levels[k] >= level
  {
    if j < 0 || levels[j] < level then j else NearestAbove(levels, j - 1, level)
  }

  // The heading that encloses heading i: the nearest earlier one that is shallower.
  function Parent(levels: seq<nat>, i: nat): (p: int)
    requires i < |levels|
    ensures -1 <= p < i
  {
    NearestAbove(levels, i - 1, levels[i])
  }

  // How many headings enclose heading i, itself included.
  function Depth(levels: seq<nat>, i: int): nat
    requires -1 <= i < |levels|
    decreases i + 1
  {
    if i < 0 then 0 else Depth(levels, Parent(levels, i)) + 1
  }

  // The titles from the outermost enclosing heading down to heading i; empty for no heading at all.
  function Chain(documentTitle: string, headings: seq<Heading>, i: int): (chain: seq<string>)
    requires -1 <= i < |headings|
    ensures |chain| == Depth(LevelsOf(headings), i)
    decreases i + 1
  {
    if i < 0 then []
    else Chain(documentTitle, headings, Parent(LevelsOf(headings), i)) + [Titled(headings[i], documentTitle)]
  }

  ghost predicate Leveled(levels: seq<nat>) {
    forall i :: 0 <= i < |levels| ==> levels[i] >= 1
  }

  // Each enclosing heading is on a level of its own.
  lemma {:induction false} DepthBound(levels: seq<nat>, i: nat)
    requires Leveled(levels) && i < |levels|
    ensures 1 <= Depth(levels, i) <= levels[i]
  {
    var p := Parent(levels, i);
    if p >= 0 {
      DepthBound(levels, p);
    }
  }

  lemma {:induction false} SkipToParent(levels: seq<nat>, j: int, p: int, level: nat)
    requires -1 <= p <= j < |levels|
    requires forall k :: p < k <= j ==> levels[k] >= level
    ensures NearestAbove(levels, j, level) == NearestAbove(levels, p, level)
  {
    if p < j {
      SkipToParent(levels, j - 1, p, level);
    }
  }

  lemma NearestAboveHere(levels: seq<nat>, j: int, level: nat)
    requires -1 <= j < |levels| && (j >= 0 ==> levels[j] < level)
    ensures NearestAbove(levels, j, level) == j
  {
  }

  // Looking upwards from j for a shallower heading finds one of the headings that enclose j.
  lemma {:induction false} NearestAboveIsAncestor(t: string, headings: seq<Heading>, j: int, level: nat)
    requires -1 <= j < |headings|
    ensures Chain(t, headings, NearestAbove(LevelsOf(headings), j, level)) <= Chain(t, headings, j)
    decreases j + 1
  {
    hide NearestAbove, Depth, Titled;
    var levels := LevelsOf(headings);
    if j >= 0 && levels[j] >= level {
      var parent := Parent(levels, j);
      SkipToParent(levels, j, parent, level);
      NearestAboveIsAncestor(t, headings, parent, level);
    } else {
      NearestAboveHere(levels, j, level);
    }
  }

  // Heading i continues its predecessor downwards, or all the levels above its own are present.
  ghost predicate Nested(levels: seq<nat>, i: nat)
    requires i < |levels|
  {
    i == 0 || levels[i] > levels[i - 1] || Depth(levels, i) == levels[i]
  }

  ghost predicate StackIsChain(t: string, headings: seq<Heading>, i: nat)
    requires i < |headings|
  {
    StackAfter(t, headings, i + 1) == Chain(t, headings, i)
  }

  lemma TruncationKeeps(before: seq<string>, above: seq<string>, n: nat, title: string)
    requires above <= before
    ensures Truncated(before, n) + [title] == above + [title] <==> |above| == if n < |before| then n else |before|
  {
    var kept := Truncated(before, n);
    if |kept| == |above| {
      assert kept == above;
    } else {
      assert |kept + [title]| != |above + [title]|;
    }
  }

  lemma ChainUnfolds(t: string, headings: seq<Heading>, i: nat)
    requires i < |headings|
    ensures var levels := LevelsOf(headings);
            && Chain(t, headings, i) == Chain(t, headings, Parent(levels, i)) + [Titled(headings[i], t)]
            && Depth(levels, i) == Depth(levels, Parent(levels, i)) + 1
  {
  }

  lemma StackUnfolds(t: string, headings: seq<Heading>, i: nat)
    requires 0 < i < |headings| && headings[i].level >= 1 && StackIsChain(t, headings, i - 1)
    ensures StackAfter(t, headings, i + 1)
         == Truncated(Chain(t, headings, i - 1), headings[i].level - 1) + [Titled(headings[i], t)]
  {
    hide Chain, Truncated, Titled;
  }

  // Deeper than its predecessor, a heading has that as its parent; otherwise the parent lies further up.
  lemma ParentOfNext(levels: seq<nat>, i: nat)
    requires 0 < i < |levels|
    ensures Parent(levels, i) == i - 1 <==> levels[i] > levels[i - 1]
  {
  }

  lemma {:induction false} AncestorDepth(levels: seq<nat>, j: int, level: nat)
    requires -1 <= j < |levels|
    ensures var p := NearestAbove(levels, j, level);
            Depth(levels, p) <= Depth(levels, j) && (p < j ==> Depth(levels, p) < Depth(levels, j))
    decreases j + 1
  {
    hide NearestAbove;
    if j >= 0 && levels[j] >= level {
      var parent := Parent(levels, j);
      SkipToParent(levels, j, parent, level);
      AncestorDepth(levels, parent, level);
    } else {
      NearestAboveHere(levels, j, level);
    }
  }

  // Cutting the stack off above a heading leaves its parent's depth exactly when the heading is nested.
  lemma DepthsDecide(levels: seq<nat>, i: nat)
    requires Leveled(levels) && 0 < i < |levels|
    ensures var room, before := levels[i] - 1, Depth(levels, i - 1);
            Depth(levels, Parent(levels, i)) == (if room < before then room else before) <==> Nested(levels, i)
  {
    hide NearestAbove;
    ParentOfNext(levels, i);
    DepthBound(levels, i - 1);
    DepthBound(levels, i);
    AncestorDepth(levels, i - 1, levels[i]);
  }

  lemma LevelAt(levels: seq<nat>, i: nat)
    requires Leveled(levels) && i < |levels|
    ensures levels[i] >= 1
  {
  }

  lemma ParentIsAncestor(t: string, headings: seq<Heading>, i: nat)
    requires 0 < i < |headings|
    ensures Chain(t, headings, Parent(LevelsOf(headings), i)) <= Chain(t, headings, i - 1)
  {
    hide Chain, NearestAbove;
    NearestAboveIsAncestor(t, headings, i - 1, headings[i].level);
  }

  // From a right stack, the next heading path is right exactly when that heading is nested.
  lemma StackStep(t: string, headings: seq<Heading>, i: nat)
    requires Leveled(LevelsOf(headings)) && 0 < i < |headings|
    requires StackIsChain(t, headings, i - 1)
    ensures StackIsChain(t, headings, i) <==> Nested(LevelsOf(headings), i)
  {
    hide Chain, StackAfter, Parent, NearestAbove, Truncated, Titled, Depth, Leveled, Nested, LevelsOf;
    var levels, level, title := LevelsOf(headings), headings[i].level, Titled(headings[i], t);
    LevelAt(levels, i);
    var before, above := Chain(t, headings, i - 1), Chain(t, headings, Parent(levels, i));
    StackUnfolds(t, headings, i);
    ChainUnfolds(t, headings, i);
    ParentIsAncestor(t, headings, i);
    TruncationKeeps(before, above, level - 1, title);
    DepthsDecide(levels, i);
  }

  lemma FirstPathRight(t: string, headings: seq<Heading>)
    requires headings != []
    ensures StackIsChain(t, headings, 0) && Nested(LevelsOf(headings), 0)
  {
    assert StackAfter(t, headings, 0) == [];
    assert Parent(LevelsOf(headings), 0) == -1;
  }

  // All heading paths are right exactly when all headings are nested, which is a matter of their levels.
  lemma {:induction false} PathsRightExactly(t: string, headings: seq<Heading>, n: nat)
    requires Leveled(LevelsOf(headings)) && n <= |headings|
    ensures (forall i :: 0 <= i < n ==> StackIsChain(t, headings, i))
       <==> (forall i :: 0 <= i < n ==> Nested(LevelsOf(headings), i))
  {
    hide StackIsChain, Nested, LevelsOf, Leveled;
    if n == 1 {
      FirstPathRight(t, headings);
    } else if n > 1 {
      PathsRightExactly(t, headings, n - 1);
      if forall i :: 0 <= i < n - 1 ==> StackIsChain(t, headings, i) {
        assert StackIsChain(t, headings, n - 2);
        StackStep(t, headings, n - 1);
      }
    }
  }

  // Levels start at one and never skip one on the way down.
  ghost predicate NoSkippedLevel(levels: seq<nat>) {
    && Leveled(levels)
    && (levels != [] ==> levels[0] == 1)
    && forall i :: 0 < i < |levels| ==> levels[i] <= levels[i - 1] + 1
  }

  lemma {:induction false} LevelReached(levels: seq<nat>, i: nat, level: nat) returns (j: nat)
    requires NoSkippedLevel(levels) && i < |levels| && 1 <= level <= levels[i]
    ensures j <= i && levels[j] == level
    ensures forall k :: j < k <= i ==> levels[k] >= level
  {
    if levels[i] == level {
      j := i;
    } else {
      j := LevelReached(levels, i - 1, level);
    }
  }

  lemma {:induction false} DepthIsLevel(levels: seq<nat>, i: nat)
    requires NoSkippedLevel(levels) && i < |levels|
    ensures Depth(levels, i) == levels[i]
  {
    if levels[i] > 1 {
      var j := LevelReached(levels, i - 1, levels[i] - 1);
      var p := Parent(levels, i);
      assert p >= j;
      DepthIsLevel(levels, p);
    }
  }

  // With levels that never skip, every heading path is the chain of enclosing headings.
  lemma UnskippedPathsRight(t: string, headings: seq<Heading>, i: nat)
    requires NoSkippedLevel(LevelsOf(headings)) && i < |headings|
    ensures StackIsChain(t, headings, i)
    ensures |Chain(t, headings, i)| == headings[i].level
  {
    hide StackIsChain, Chain;
    var levels := LevelsOf(headings);
    forall k | 0 <= k < |headings| ensures Nested(levels, k) {
      DepthIsLevel(levels, k);
    }
    PathsRightExactly(t, headings, |headings|);
    DepthIsLevel(levels, i);
  }

  // ---- Documents ----

  lemma FoundHeadingsLeveled(lines: seq<string>, bodyStart: int)
    ensures Leveled(LevelsOf(HeadingsOf(lines, bodyStart)))
  {
    hide HeadingsOf, HeadingOn;
    var headings := HeadingsOf(lines, bodyStart);
    forall i | 0 <= i < |headings| ensures headings[i].level >= 1 {
      HeadingsExact(lines, bodyStart, headings[i]);
    }
  }

  // The section that a heading of a document is cut into: the last sections, one for each heading.
  function SectionOfHeading(sections: seq<Section>, headings: seq<Heading>, i: nat): Section
    requires |headings| <= |sections| && i < |headings|
  {
    sections[|sections| - |headings| + i]
  }

  lemma ExtractedIs(title: string, body: string, bodyStart: int)
    requires !Blank(body)
    ensures OnVisibleLines(HeadingsOf(SplitLines(body), bodyStart), SplitLines(body), bodyStart)
    ensures Extracted(title, body, bodyStart)
         == Ok(SectionsOf(title, body, bodyStart, HeadingsOf(SplitLines(body), bodyStart)))
  {
    hide HeadingsOf, SplitLines, SectionsOf, Strip, Blank, Faithful;
    ExtractedFaithful(title, body, bodyStart);
    AtxHeadingsVisible(SplitLines(body), bodyStart);
  }

  lemma HeadingSectionsLast(title: string, body: string, bodyStart: int, headings: seq<Heading>, i: nat)
    requires OnVisibleLines(headings, SplitLines(body), bodyStart) && i < |headings|
    ensures var sections := SectionsOf(title, body, bodyStart, headings);
            && |headings| <= |sections|
            && SectionOfHeading(sections, headings, i) == SectionAt(SplitLines(body), title, bodyStart, headings, i)
  {
    hide SplitLines, SectionsUpTo, Preamble, SectionAt;
    OneSectionPerHeading(SplitLines(body), title, bodyStart, headings);
  }

  // A path ends with its heading's title, or with the document's when the heading has none.
  lemma PathEnds(title: string, headings: seq<Heading>, i: nat)
    requires i < |headings|
    ensures var path := StackAfter(title, headings, i + 1);
            path != [] && path[|path| - 1] == if headings[i].title == "" then title else headings[i].title
  {
  }

  // Every heading of a body with content has its section, which begins on its line, under the stack's path.
  lemma ExtractedHeadings(title: string, body: string, bodyStart: int)
    requires !Blank(body)
    ensures Extracted(title, body, bodyStart).Ok?
    ensures var sections, headings := Extracted(title, body, bodyStart).value, HeadingsOf(SplitLines(body), bodyStart);
            && |headings| <= |sections|
            && forall i :: 0 <= i < |headings| ==>
                 && SectionOfHeading(sections, headings, i).startLine == headings[i].line
                 && SectionOfHeading(sections, headings, i).path == StackAfter(title, headings, i + 1)
  {
    hide HeadingsOf, SplitLines, StackAfter, SectionsOf, Extracted, SectionOfHeading, Strip, Blank;
    ExtractedIs(title, body, bodyStart);
    var headings := HeadingsOf(SplitLines(body), bodyStart);
    if headings != [] {
      HeadingSectionsLast(title, body, bodyStart, headings, 0);
    }
    forall i | 0 <= i < |headings|
      ensures |headings| <= |Extracted(title, body, bodyStart).value|
      ensures SectionOfHeading(Extracted(title, body, bodyStart).value, headings, i)
           == SectionAt(SplitLines(body), title, bodyStart, headings, i)
    {
      HeadingSectionsLast(title, body, bodyStart, headings, i);
    }
  }

  // What is not a heading's section is the whole body, or the preamble before the first heading.
  lemma OtherSections(title: string, body: string, bodyStart: int)
    requires !Blank(body)
    ensures Extracted(title, body, bodyStart).Ok?
    ensures var sections, headings := Extracted(title, body, bodyStart).value, HeadingsOf(SplitLines(body), bodyStart);
            if headings == [] then |sections| == 1 && sections[0].path == [title]
            else
              && |headings| <= |sections| <= |headings| + 1
              && (|sections| > |headings| ==>
                    && sections[0].path == [title, "Preamble"]
                    && sections[0].startLine == bodyStart && sections[0].endLine == headings[0].line - 1)
  {
    hide HeadingsOf, SplitLines, StackAfter, Extracted, Strip, Blank, SectionsUpTo;
    ExtractedIs(title, body, bodyStart);
    var headings := HeadingsOf(SplitLines(body), bodyStart);
    if headings != [] {
      OneSectionPerHeading(SplitLines(body), title, bodyStart, headings);
    }
  }

  // The heading paths of a document are the chains of its headings exactly when all of these are nested.
  lemma DocumentPathsRightExactly(title: string, body: string, bodyStart: int)
    requires !Blank(body)
    ensures Extracted(title, body, bodyStart).Ok?
    ensures var sections, headings := Extracted(title, body, bodyStart).value, HeadingsOf(SplitLines(body), bodyStart);
            && |headings| <= |sections|
            && ((forall i :: 0 <= i < |headings| ==>
                   SectionOfHeading(sections, headings, i).path == Chain(title, headings, i))
                <==> (forall i :: 0 <= i < |headings| ==> Nested(LevelsOf(headings), i)))
  {
    hide HeadingsOf, SplitLines, StackAfter, Chain, Nested, Extracted, Blank, SectionOfHeading;
    ExtractedHeadings(title, body, bodyStart);
    FoundHeadingsLeveled(SplitLines(body), bodyStart);
    var headings := HeadingsOf(SplitLines(body), bodyStart);
    PathsRightExactly(title, headings, |headings|);
    assert forall i :: 0 <= i < |headings| ==>
      (StackIsChain(title, headings, i) <==> StackAfter(title, headings, i + 1) == Chain(title, headings, i));
  }
}
