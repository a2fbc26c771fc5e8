/** What the lines of a runtime_rules block say, line by line: keys, values and items by their text, and a
    rule's fields by the lines in its span; after src/policynim/ingest/parser.py. */
module RuleFields {
  import opened Results
  import opened Text
  import opened Seqs
  import opened RuntimeRules
  import opened RuleSpans

  // ---- One line ----

  // The first character that is no blank stands in one place.
  lemma FirstContent(line: string, a: string, b: string)
    requires a < line && b < line && Blank(a) && Blank(b)
    requires !IsSpace(line[|a|]) && !IsSpace(line[|b|])
    ensures a == b
  {
    assert forall i :: 0 <= i < |a| ==> line[i] == a[i];
    assert forall i :: 0 <= i < |b| ==> line[i] == b[i];
  }

  // Blank lines are skipped, and those with a hash mark before anything else.
  lemma SkippedExactly(line: string)
    ensures Skipped(line) <==>
              Blank(line) || exists before, rest :: line == before + "#" + rest && Blank(before)
  {
    hide Strip;
    StripFacts(line);
    StripExactly(line, Strip(line));
    var before, after :| line == before + Strip(line) + after && Blank(before) && Blank(after);
    if Strip(line) != "" && Strip(line)[0] == '#' {
      assert line == before + "#" + (Strip(line)[1..] + after);
    }
    if head, rest :| line == head + "#" + rest && Blank(head) {
      if Strip(line) != "" {
        FirstContent(line, head, before);
      }
    }
  }

  // Three fields take a single value, and three a value or a list.
  predicate SingleKey(key: string) {
    key in ["action", "effect", "reason"]
  }

  predicate ListKey(key: string) {
    key in ["path_globs", "command_regexes", "url_host_patterns"]
  }

  // Behind the first four characters stand the key, a colon, and the value; only a list may follow instead.
  ghost predicate ReadsAs(norm: Normalisers, line: string, head: Head) {
    && |line| >= 4
    && (SingleKey(head.key) || ListKey(head.key))
    && exists rest :: line[4..] == head.key + ":" + rest
         && if Strip(rest) != "" then head.inline.Some? && norm.inline(head.key, Strip(rest)) == head.inline
            else ListKey(head.key) && head.inline.None?
  }

  lemma KnownKeys(key: string)
    ensures IsAllowed(key) <==> SingleKey(key) || ListKey(key)
    ensures IsMatcher(key) <==> ListKey(key)
    ensures IsAllowed(key) ==> key != "" && forall i :: 0 <= i < |key| ==> IsKeyChar(key[i])
  {
  }

  lemma {:induction false} KeyLengthOf(key: string, rest: string)
    requires forall i :: 0 <= i < |key| ==> IsKeyChar(key[i])
    ensures KeyLength(key + ":" + rest) == |key|
  {
    var text := key + ":" + rest;
    if key == "" {
      assert text[0] == ':';
    } else {
      KeyLengthOf(key[1..], rest);
      assert text[1..] == key[1..] + ":" + rest;
    }
  }

  lemma HeadExactly(norm: Normalisers, line: string, head: Head)
    ensures HeadOf(norm, line) == Some(head) <==> ReadsAs(norm, line, head)
  {
    hide IsAllowed, IsMatcher, SingleKey, ListKey, KeyLength, Strip, IsKeyChar;
    KnownKeys(head.key);
    if ReadsAs(norm, line, head) {
      var rest :| line[4..] == head.key + ":" + rest
         && if Strip(rest) != "" then head.inline.Some? && norm.inline(head.key, Strip(rest)) == head.inline
            else ListKey(head.key) && head.inline.None?;
      var text, n := line[4..], |head.key|;
      KeyLengthOf(head.key, rest);
      assert text[..n] == head.key && text[n] == ':' && text[n + 1..] == rest;
    }
    if HeadOf(norm, line) == Some(head) {
      var text := line[4..];
      var n := KeyLength(text);
      assert text == text[..n] + ":" + text[n + 1..];
    }
  }

  // ---- Lists ----

  // The line is a key, or an opener with one, and awaits a list.
  predicate Awaits(norm: Normalisers, line: string) {
    (KindOf(line).Opener? || KindOf(line).Key?) && AwaitsList(norm, line)
  }

  predicate ListPart(line: string) {
    KindOf(line).Skip? || KindOf(line).Item?
  }

  // An item may stand on line i exactly when some line above awaits a list, with only items and skipped
  // lines in between.
  lemma {:induction false} ListOpenExactly(norm: Normalisers, lines: seq<string>, start: nat, i: nat)
    requires i <= |lines|
    ensures ListOpen(norm, lines, start, i) <==>
              exists j :: start <= j < i && Awaits(norm, lines[j]) && forall m :: j < m < i ==> ListPart(lines[m])
  {
    hide KindOf, AwaitsList;
    if i > start {
      ListOpenExactly(norm, lines, start, i - 1);
      if ListPart(lines[i - 1]) {
        assert !Awaits(norm, lines[i - 1]);
      }
    }
  }

  // Six spaces, a dash, a space, and the item.
  lemma ItemExactly(norm: Normalisers, line: string, item: string)
    ensures KindOf(line).Item? && ItemOf(norm, line) == Some(item) <==>
              !Skipped(line) && exists rest :: line == "      - " + rest && norm.item(Strip(rest)) == Some(item)
  {
    hide Skipped, Strip;
    if KindOf(line).Item? {
      assert line == "      - " + line[8..];
    }
    if rest :| line == "      - " + rest && norm.item(Strip(rest)) == Some(item) {
      assert line[8..] == rest;
      assert line[2] == ' ' && "  - "[2] == '-';
    }
  }

  // Line m lists an item that can be read.
  predicate Lists(norm: Normalisers, line: string) {
    KindOf(line).Item? && ItemOf(norm, line).Some?
  }

  ghost predicate ItemsAt(norm: Normalisers, lines: seq<string>, items: seq<string>, at: seq<nat>) {
    && |at| == |items|
    && forall k :: 0 <= k < |at| ==> at[k] < |lines| && Some(items[k]) == ItemOf(norm, lines[at[k]])
  }

  lemma MoreItems(norm: Normalisers, lines: seq<string>, items: seq<string>, at: seq<nat>, i: nat)
    requires i < |lines| && Lists(norm, lines[i]) && ItemsAt(norm, lines, items, at)
    ensures ItemsAt(norm, lines, [ItemOf(norm, lines[i]).value] + items, [i] + at)
  {
    hide KindOf, ItemOf;
  }

  lemma ItemsNext(norm: Normalisers, lines: seq<string>, i: nat)
    requires i <= |lines|
    ensures ItemsFrom(norm, lines, i) ==
              if i == |lines| || !ListPart(lines[i]) then []
              else if Lists(norm, lines[i]) then [ItemOf(norm, lines[i]).value] + ItemsFrom(norm, lines, i + 1)
              else ItemsFrom(norm, lines, i + 1)
    ensures Increasing([]) && ItemsAt(norm, lines, [], [])
    ensures i < |lines| && Lists(norm, lines[i]) ==> ListPart(lines[i])
  {
    hide KindOf, ItemOf;
  }

  // The items listed from line i on are those of the item lines up to the first other line with content.
  lemma {:induction false} ItemsListed(norm: Normalisers, lines: seq<string>, i: nat)
    returns (at: seq<nat>, end: nat)
    requires i <= |lines|
    ensures i <= end <= |lines|
    ensures forall m :: i <= m < end ==> ListPart(lines[m])
    ensures end < |lines| ==> !ListPart(lines[end])
    ensures Increasing(at) && ItemsAt(norm, lines, ItemsFrom(norm, lines, i), at)
    ensures forall m :: m in at <==> i <= m < end && Lists(norm, lines[m])
    decreases |lines| - i
  {
    hide KindOf, ItemOf, ItemsAt, Increasing, Lists, ListPart;
    at, end := [], i;
    ItemsNext(norm, lines, i);
    if i < |lines| && ListPart(lines[i]) {
      at, end := ItemsListed(norm, lines, i + 1);
      if Lists(norm, lines[i]) {
        MoreItems(norm, lines, ItemsFrom(norm, lines, i + 1), at, i);
        IncreasingPrepend(at, i);
        at := [i] + at;
      }
    }
  }

  // ---- The fields of a rule ----

  // Line j gives the field this value: its own, or the items listed behind it.
  ghost predicate FieldAt(norm: Normalisers, lines: seq<string>, j: nat, key: string, value: Value)
    requires j < |lines|
  {
    && (KindOf(lines[j]).Opener? || KindOf(lines[j]).Key?)
    && exists inline: Option<Value> ::
         && HeadOf(norm, lines[j]) == Some(Head(key, inline))
         && value == if inline.Some? then inline.value else Items(ItemsFrom(norm, lines, j + 1))
  }

  // Some line from `from` up to `to` gives the field this value.
  ghost predicate Said(norm: Normalisers, lines: seq<string>, from: nat, to: nat, key: string, value: Value)
    requires to <= |lines|
  {
    exists j :: from <= j < to && FieldAt(norm, lines, j, key, value)
  }

  predicate Has(fields: map<string, Value>, key: string, value: Value) {
    key in fields && fields[key] == value
  }

  // The fields are those that the lines from the rule's first up to `next` give.
  ghost predicate Given(norm: Normalisers, lines: seq<string>, draft: Draft, next: nat)
    requires next <= |lines|
  {
    forall key, value :: Has(draft.fields, key, value) <==> Said(norm, lines, draft.start, next, key, value)
  }

  lemma SaidNext(norm: Normalisers, lines: seq<string>, from: nat, i: nat, key: string, value: Value)
    requires from <= i < |lines|
    ensures Said(norm, lines, from, i + 1, key, value) <==>
              Said(norm, lines, from, i, key, value) || FieldAt(norm, lines, i, key, value)
    ensures !Said(norm, lines, i, i, key, value)
  {
    hide FieldAt;
  }

  lemma OneField(norm: Normalisers, lines: seq<string>, j: nat)
    requires j < |lines|
    ensures var head := HeadOf(norm, lines[j]);
            forall key, value ::
              FieldAt(norm, lines, j, key, value) <==>
                && (KindOf(lines[j]).Opener? || KindOf(lines[j]).Key?)
                && head.Some? && key == head.value.key
                && value == (if head.value.inline.Some? then head.value.inline.value
                             else Items(ItemsFrom(norm, lines, j + 1)))
  {
    hide KindOf, HeadOf, ItemsFrom;
    var head := HeadOf(norm, lines[j]);
    if head.Some? {
      assert head == Some(Head(head.value.key, head.value.inline));
    }
  }

  lemma GivenOn(norm: Normalisers, lines: seq<string>, draft: Draft, i: nat, after: Draft)
    requires draft.start <= i < |lines| && Given(norm, lines, draft, i) && after.start == draft.start
    requires forall key, value ::
               Has(after.fields, key, value) <==> Has(draft.fields, key, value) || FieldAt(norm, lines, i, key, value)
    ensures Given(norm, lines, after, i + 1)
  {
    hide FieldAt, Said, Has;
    forall key, value
      ensures Has(after.fields, key, value) <==> Said(norm, lines, after.start, i + 1, key, value)
    {
      SaidNext(norm, lines, draft.start, i, key, value);
    }
  }

  lemma GivenField(norm: Normalisers, lines: seq<string>, draft: Draft, i: nat)
    requires draft.start <= i < |lines| && Given(norm, lines, draft, i)
    requires KindOf(lines[i]).Key? && HeadOf(norm, lines[i]).Some?
    requires HeadOf(norm, lines[i]).value.key !in draft.fields
    ensures Given(norm, lines, WithField(draft, norm, lines, i), i + 1)
  {
    hide KindOf, HeadOf, ItemsFrom, FieldAt, Given;
    OneField(norm, lines, i);
    GivenOn(norm, lines, draft, i, WithField(draft, norm, lines, i));
  }

  lemma GivenFirst(norm: Normalisers, lines: seq<string>, i: nat)
    requires i < |lines| && KindOf(lines[i]).Opener? && HeadOf(norm, lines[i]).Some?
    ensures Given(norm, lines, WithField(Draft(map[], i, i), norm, lines, i), i + 1)
  {
    hide KindOf, HeadOf, ItemsFrom, FieldAt, Said;
    OneField(norm, lines, i);
    forall key, value ensures
      Has(WithField(Draft(map[], i, i), norm, lines, i).fields, key, value) <==> Said(norm, lines, i, i + 1, key, value)
    {
      SaidNext(norm, lines, i, i, key, value);
    }
  }

  lemma GivenPast(norm: Normalisers, lines: seq<string>, draft: Draft, i: nat, after: Draft)
    requires draft.start <= i < |lines| && Given(norm, lines, draft, i)
    requires ListPart(lines[i]) && after.start == draft.start && after.fields == draft.fields
    ensures Given(norm, lines, after, i + 1)
  {
    hide KindOf, HeadOf, ItemsFrom, FieldAt, Given;
    OneField(norm, lines, i);
    GivenOn(norm, lines, draft, i, after);
  }

  ghost predicate AllGiven(norm: Normalisers, lines: seq<string>, i: nat, drafts: seq<Draft>)
    requires i <= |lines|
  {
    forall k :: 0 <= k < |drafts| ==>
      && NextStart(i, drafts, k) <= |lines|
      && drafts[k].start <= i
      && Given(norm, lines, drafts[k], NextStart(i, drafts, k))
  }

  lemma GivenLast(norm: Normalisers, lines: seq<string>, i: nat, drafts: seq<Draft>, after: seq<Draft>)
    requires i < |lines| && ListPart(lines[i]) && AllGiven(norm, lines, i, drafts)
    requires after == Amended(drafts, norm, lines, i)
    ensures |after| == |drafts|
    ensures drafts != [] ==> Given(norm, lines, after[|after| - 1], i + 1)
  {
    hide KindOf, Given;
    if drafts != [] {
      GivenPast(norm, lines, drafts[|drafts| - 1], i, after[|drafts| - 1]);
    }
  }

  lemma AmendedGiven(norm: Normalisers, lines: seq<string>, start: nat, i: nat)
    requires start <= i < |lines| && Fits(norm, lines, start, i)
    requires AllGiven(norm, lines, i, Drafts(norm, lines, start, i))
    ensures AllGiven(norm, lines, i + 1, Drafts(norm, lines, start, i + 1))
  {
    hide KindOf, HeadOf, ItemsFrom, Given, ListOpen, ItemOf;
    var drafts, after := Drafts(norm, lines, start, i), Drafts(norm, lines, start, i + 1);
    assert after == Amended(drafts, norm, lines, i);
    var last := |drafts| - 1;
    match KindOf(lines[i]) {
      case Opener =>
        GivenFirst(norm, lines, i);
      case Key =>
        GivenField(norm, lines, drafts[last], i);
      case Item => GivenLast(norm, lines, i, drafts, after);
      case Skip => GivenLast(norm, lines, i, drafts, after);
      case _ =>
    }
    forall k | 0 <= k < |after|
      ensures NextStart(i + 1, after, k) <= |lines| && after[k].start <= i + 1
      ensures Given(norm, lines, after[k], NextStart(i + 1, after, k))
    {
      if k < |drafts| {
        assert NextStart(i, drafts, k) <= |lines|;
      }
    }
  }

  lemma NoneGiven(norm: Normalisers, lines: seq<string>, i: nat, start: nat)
    requires i <= start && i <= |lines|
    ensures AllGiven(norm, lines, i, Drafts(norm, lines, start, i))
  {
  }

  lemma {:induction false} FieldsRead(norm: Normalisers, lines: seq<string>, start: nat, i: nat)
    requires start <= i <= |lines| && forall j :: start <= j < i ==> Fits(norm, lines, start, j)
    ensures AllGiven(norm, lines, i, Drafts(norm, lines, start, i))
  {
    hide Fits, AllGiven;
    if start < i {
      FieldsRead(norm, lines, start, i - 1);
      AmendedGiven(norm, lines, start, i - 1);
    } else {
      NoneGiven(norm, lines, i, start);
    }
  }

  // Behind a rule's last line, nothing gives it a field.
  lemma SpanGives(norm: Normalisers, lines: seq<string>, start: nat, i: nat, drafts: seq<Draft>, k: nat,
                  key: string, value: Value)
    requires i <= |lines| && k < |drafts| && SpanAt(lines, start, i, drafts, k)
    requires AllGiven(norm, lines, i, drafts)
    ensures Has(drafts[k].fields, key, value) <==>
              exists j :: drafts[k].start <= j <= drafts[k].end && FieldAt(norm, lines, j, key, value)
  {
    hide KindOf, HeadOf, ItemsFrom, Has;
    assert NextStart(i, drafts, k) <= |lines|;
  }

  // In an accepted block, a rule has a field with a value exactly when a line of its span gives it.
  lemma RuleHasFields(norm: Normalisers, lines: seq<string>, start: nat, k: nat, key: string, value: Value)
    requires start <= |lines| && WellFormed(norm, lines, start)
    requires k < |BlockRules(norm, lines, start)|
    ensures var rule := BlockRules(norm, lines, start)[k];
            Has(rule.fields, key, value) <==>
              exists j :: 0 <= j < |lines| && CoversLine(rule, j) && FieldAt(norm, lines, j, key, value)
  {
    hide KindOf, Drafts, HeadOf, ItemsFrom, Fits, BlockEnd, FieldAt, Given, Has;
    var end := BlockEnd(lines, start);
    var drafts := Drafts(norm, lines, start, end);
    FieldsRead(norm, lines, start, end);
    DraftSpans(norm, lines, start, end);
    assert SpanAt(lines, start, end, drafts, k);
    SpanGives(norm, lines, start, end, drafts, k, key, value);
  }
}
