/** The index-driven parsers of the runtime_rules block, against its line-by-line reading. */
module RuleParsers {
  import opened Results
  import opened Text
  import opened RuntimeRules

  // ---- Reading on ----

  ghost predicate Fine(norm: Normalisers, lines: seq<string>, start: nat, i: nat) {
    i <= |lines| && forall j :: start <= j < i ==> Fits(norm, lines, start, j)
  }

  // No item may follow, or none does.
  ghost predicate ListClosed(norm: Normalisers, lines: seq<string>, start: nat, i: nat) {
    && i <= |lines|
    && (ListOpen(norm, lines, start, i) && i < |lines| ==> !KindOf(lines[i]).Skip? && !KindOf(lines[i]).Item?)
  }

  lemma InBlock(norm: Normalisers, lines: seq<string>, start: nat, i: nat)
    requires start <= i <= |lines| && Fine(norm, lines, start, i)
    ensures i <= BlockEnd(lines, start)
    ensures i == |lines| || KindOf(lines[i]).Stop? ==> BlockEnd(lines, start) == i
    ensures i < |lines| && !KindOf(lines[i]).Stop? ==> i < BlockEnd(lines, start)
  {
    hide KindOf, Drafts, ListOpen;
    var end := BlockEnd(lines, start);
    assert end < i ==> Fits(norm, lines, start, end);
  }

  // The first line that does not fit lies in the block, and spoils it.
  lemma Spoiled(norm: Normalisers, lines: seq<string>, start: nat, i: nat)
    requires start <= i < |lines| && Fine(norm, lines, start, i)
    requires !Fits(norm, lines, start, i) && !KindOf(lines[i]).Stop?
    ensures i < BlockEnd(lines, start) && !WellFormed(norm, lines, start)
  {
    hide KindOf, Drafts, ListOpen, BlockEnd;
    InBlock(norm, lines, start, i);
  }

  lemma SkipStep(norm: Normalisers, lines: seq<string>, start: nat, i: nat)
    requires start <= i < |lines| && KindOf(lines[i]).Skip?
    requires Fine(norm, lines, start, i) && ListClosed(norm, lines, start, i)
    ensures Fine(norm, lines, start, i + 1) && ListClosed(norm, lines, start, i + 1)
    ensures Drafts(norm, lines, start, i + 1) == Drafts(norm, lines, start, i)
  {
    hide KindOf, HeadOf;
  }

  predicate ListLine(norm: Normalisers, line: string) {
    KindOf(line).Skip? || (KindOf(line).Item? && ItemOf(norm, line).Some?)
  }

  function EndingAt(drafts: seq<Draft>, last: Option<nat>): seq<Draft> {
    if drafts == [] || last.None? then drafts
    else drafts[..|drafts| - 1] + [drafts[|drafts| - 1].(end := last.value)]
  }

  // The last item among the lines from `from` up to `to`.
  function LastItem(lines: seq<string>, from: nat, to: nat): Option<nat>
    requires to <= |lines|
  {
    if to <= from then None
    else if KindOf(lines[to - 1]).Item? then Some(to - 1)
    else LastItem(lines, from, to - 1)
  }

  // One line of a list fits where a list is open, and moves at most the end of the rule.
  lemma ListLineFits(norm: Normalisers, lines: seq<string>, start: nat, from: nat, i: nat, drafts: seq<Draft>)
    requires start <= from <= i < |lines| && Fine(norm, lines, start, i) && ListOpen(norm, lines, start, i)
    requires ListLine(norm, lines[i])
    requires Drafts(norm, lines, start, i) == EndingAt(drafts, LastItem(lines, from, i))
    ensures Fine(norm, lines, start, i + 1) && ListOpen(norm, lines, start, i + 1)
    ensures Drafts(norm, lines, start, i + 1) == EndingAt(drafts, LastItem(lines, from, i + 1))
  {
    hide KindOf, HeadOf, ItemOf;
    assert Fits(norm, lines, start, i);
  }

  // Lines of a list fit where a list is open, and move only the end of the rule.
  lemma {:induction false} ListFits(norm: Normalisers, lines: seq<string>, start: nat, from: nat, to: nat)
    requires start <= from <= to <= |lines| && Fine(norm, lines, start, from) && ListOpen(norm, lines, start, from)
    requires forall j :: from <= j < to ==> ListLine(norm, lines[j])
    ensures Fine(norm, lines, start, to) && ListOpen(norm, lines, start, to)
    ensures Drafts(norm, lines, start, to) == EndingAt(Drafts(norm, lines, start, from), LastItem(lines, from, to))
  {
    hide KindOf, HeadOf, Fine, ListOpen, Drafts, Fits, ListLine;
    if from < to {
      hide EndingAt, LastItem;
      ListFits(norm, lines, start, from, to - 1);
      ListLineFits(norm, lines, start, from, to - 1, Drafts(norm, lines, start, from));
    }
  }

  // Further lines leave the rules before an opener alone.
  lemma {:induction false} DraftsGrow(norm: Normalisers, lines: seq<string>, start: nat, i: nat, j: nat)
    requires start <= i < j <= |lines| && KindOf(lines[i]).Opener?
    ensures Drafts(norm, lines, start, i) < Drafts(norm, lines, start, j)
  {
    hide KindOf, HeadOf;
    if i + 1 < j {
      DraftsGrow(norm, lines, start, i, j - 1);
    }
  }

  // ---- One field ----

  // A consumed field: its key and value, the line after it, and its last line with content.
  datatype RuleField = RuleField(key: string, value: Value, next: nat, last: nat)

  ghost predicate Consumed(norm: Normalisers, lines: seq<string>, i: nat, field: RuleField)
    requires i < |lines|
  {
    var head := HeadOf(norm, lines[i]);
    && head.Some?
    && field.key == head.value.key
    && i < field.next <= |lines|
    && (forall j :: i < j < field.next ==> ListLine(norm, lines[j]))
    && (if head.value.inline.Some? then field.value == head.value.inline.value && field.next == i + 1
        else
          && field.value == Items(ItemsFrom(norm, lines, i + 1))
          && (field.next < |lines| ==> !KindOf(lines[field.next]).Skip? && !KindOf(lines[field.next]).Item?))
    && var last := LastItem(lines, i + 1, field.next);
       field.last == if last.Some? then last.value else i
  }

  // A field that cannot be read, or that awaits a list broken off at line k.
  ghost predicate Broken(norm: Normalisers, lines: seq<string>, i: nat, k: nat)
    requires i < |lines|
  {
    || (k == i && HeadOf(norm, lines[i]).None?)
    || (&& AwaitsList(norm, lines[i]) && i < k < |lines|
        && (forall j :: i < j < k ==> ListLine(norm, lines[j]))
        && (KindOf(lines[k]).Bad? || (KindOf(lines[k]).Item? && ItemOf(norm, lines[k]).None?)))
  }

  lemma FieldRead(norm: Normalisers, lines: seq<string>, start: nat, i: nat, field: RuleField)
    requires start <= i < |lines| && Fine(norm, lines, start, i) && Fits(norm, lines, start, i)
    requires KindOf(lines[i]).Opener? || KindOf(lines[i]).Key?
    requires Consumed(norm, lines, i, field)
    ensures Fine(norm, lines, start, field.next) && ListClosed(norm, lines, start, field.next)
    ensures Drafts(norm, lines, start, field.next)
         == EndingAt(Amended(Drafts(norm, lines, start, i), norm, lines, i), LastItem(lines, i + 1, field.next))
  {
    hide KindOf, HeadOf, Amended;
    if AwaitsList(norm, lines[i]) {
      ListFits(norm, lines, start, i + 1, field.next);
    } else {
      assert LastItem(lines, i + 1, i + 1) == None;
    }
  }

  lemma OpenerRead(norm: Normalisers, lines: seq<string>, start: nat, i: nat, field: RuleField)
    requires start <= i < |lines| && Fine(norm, lines, start, i)
    requires KindOf(lines[i]).Opener? && Consumed(norm, lines, i, field)
    ensures Fine(norm, lines, start, field.next) && ListClosed(norm, lines, start, field.next)
    ensures Drafts(norm, lines, start, field.next)
         == Drafts(norm, lines, start, i) + [Draft(map[field.key := field.value], i, field.last)]
  {
    hide KindOf, HeadOf, Drafts, ListClosed;
    FieldRead(norm, lines, start, i, field);
  }

  lemma KeyRead(norm: Normalisers, lines: seq<string>, start: nat, i: nat, field: RuleField,
                earlier: seq<Draft>, draft: Draft)
    requires start <= i < |lines| && Fine(norm, lines, start, i)
    requires Drafts(norm, lines, start, i) == earlier + [draft] && field.key !in draft.fields
    requires KindOf(lines[i]).Key? && Consumed(norm, lines, i, field)
    ensures Fine(norm, lines, start, field.next) && ListClosed(norm, lines, start, field.next)
    ensures Drafts(norm, lines, start, field.next)
         == earlier + [Draft(draft.fields[field.key := field.value], draft.start, field.last)]
  {
    hide KindOf, HeadOf, Drafts, ListClosed;
    FieldRead(norm, lines, start, i, field);
  }

  lemma BlockBeyond(lines: seq<string>, start: nat, k: nat)
    requires start <= k < |lines| && forall j :: start <= j <= k ==> !KindOf(lines[j]).Stop?
    ensures k < BlockEnd(lines, start)
  {
    hide KindOf;
  }

  // A broken field spoils the block at the line that breaks it, or before.
  lemma FieldBroken(norm: Normalisers, lines: seq<string>, start: nat, i: nat, k: nat)
    requires start <= i < |lines| && Fine(norm, lines, start, i) && Broken(norm, lines, i, k)
    requires KindOf(lines[i]).Opener? || KindOf(lines[i]).Key? || KindOf(lines[i]).Bad?
    ensures k < BlockEnd(lines, start) && !WellFormed(norm, lines, start)
  {
    hide KindOf, HeadOf, Drafts, ItemOf, WellFormed, BlockEnd;
    if !Fits(norm, lines, start, i) {
      Spoiled(norm, lines, start, i);
      BlockBeyond(lines, start, k);
    } else {
      ListFits(norm, lines, start, i + 1, k);
      Spoiled(norm, lines, start, k);
    }
  }

  // The prefixes the parsers look at, in whatever order, tell the kinds of lines apart.
  lemma Kinds(line: string)
    ensures KindOf(line).Skip? <==> Skipped(line)
    ensures !Skipped(line) ==>
              && (KindOf(line).Opener? <==> StartsWith(line, "  - "))
              && (KindOf(line).Item? <==> StartsWith(line, "      - "))
              && (KindOf(line).Key? <==> StartsWith(line, "    ") && !StartsWith(line, "      "))
              && (KindOf(line).Stop? <==> !Indented(line))
    ensures StartsWith(line, "      - ") ==> |line| >= 8
    ensures StartsWith(line, "  - ") || StartsWith(line, "    ") ==> |line| >= 4
    ensures StartsWith(line, "      ") ==> |line| > 4 && line[4] == ' '
  {
    assert StartsWith(line, "  - ") ==> line[2] == "  - "[2] && line[0] == "  - "[0];
    assert StartsWith(line, "    ") ==> line[2] == "    "[2] && line[0] == "    "[0];
    assert StartsWith(line, "      ") ==> line[4] == "      "[4] && line[2] == "      "[2] && line[0] == "      "[0];
    assert StartsWith(line, "      - ") ==> StartsWith(line, "      ");
  }

  // Past line i, the list is what it was from line i on.
  lemma ListGoesOn(norm: Normalisers, lines: seq<string>, start: nat, i: nat)
    requires start <= i < |lines| && ListLine(norm, lines[i])
    ensures KindOf(lines[i]).Skip? ==>
              && ItemsFrom(norm, lines, i) == ItemsFrom(norm, lines, i + 1)
              && LastItem(lines, start, i + 1) == LastItem(lines, start, i)
    ensures KindOf(lines[i]).Item? ==>
              && ItemsFrom(norm, lines, i) == [ItemOf(norm, lines[i]).value] + ItemsFrom(norm, lines, i + 1)
              && LastItem(lines, start, i + 1) == Some(i)
  {
    hide KindOf, ItemOf;
  }

  lemma NoItem(lines: seq<string>, i: nat)
    requires i <= |lines|
    ensures LastItem(lines, i, i) == None
  {
  }

  lemma ListEnds(norm: Normalisers, lines: seq<string>, i: nat)
    requires i < |lines| ==> !KindOf(lines[i]).Skip? && !KindOf(lines[i]).Item?
    ensures ItemsFrom(norm, lines, i) == []
  {
    hide KindOf;
  }

  // The items of a block list, the line that ends it, and its last item.
  method ParseMatcherList(norm: Normalisers, lines: seq<string>, start: nat)
    returns (r: Result<(seq<string>, nat, Option<nat>), nat>)
    requires start <= |lines|
    ensures r.Ok? ==>
              && start <= r.value.1 <= |lines|
              && (forall j :: start <= j < r.value.1 ==> ListLine(norm, lines[j]))
              && (r.value.1 < |lines| ==> !KindOf(lines[r.value.1]).Skip? && !KindOf(lines[r.value.1]).Item?)
              && r.value.0 == ItemsFrom(norm, lines, start)
              && r.value.2 == LastItem(lines, start, r.value.1)
    ensures r.Err? ==>
              && start <= r.error < |lines|
              && (forall j :: start <= j < r.error ==> ListLine(norm, lines[j]))
              && (KindOf(lines[r.error]).Bad? || (KindOf(lines[r.error]).Item? && ItemOf(norm, lines[r.error]).None?))
  {
    hide KindOf, Skipped, Strip, StartsWith, Indented, ItemsFrom, LastItem;
    NoItem(lines, start);
    var values: seq<string> := [];
    var index := start;
    var lastItem: Option<nat> := None;
    while index < |lines|
      invariant start <= index <= |lines|
      invariant forall j :: start <= j < index ==> ListLine(norm, lines[j])
      invariant values + ItemsFrom(norm, lines, index) == ItemsFrom(norm, lines, start)
      invariant lastItem == LastItem(lines, start, index)
    {
      var line := lines[index];
      Kinds(line);
      if Skipped(line) {
        ListGoesOn(norm, lines, start, index);
        index := index + 1;
      } else if StartsWith(line, "      - ") {
        var item := norm.item(Strip(line[8..]));
        if item.None? {
          return Err(index);
        }
        ListGoesOn(norm, lines, start, index);
        values := values + [item.value];
        lastItem := Some(index);
        index := index + 1;
      } else if StartsWith(line, "    ") && !StartsWith(line, "      ") {
        break;
      } else if StartsWith(line, "  - ") || !Indented(line) {
        break;
      } else {
        return Err(index);
      }
    }
    ListEnds(norm, lines, index);
    return Ok((values, index, lastItem));
  }

  method ConsumeField(norm: Normalisers, lines: seq<string>, i: nat) returns (r: Result<RuleField, nat>)
    requires i < |lines| && |lines[i]| >= 4
    ensures r.Ok? ==> Consumed(norm, lines, i, r.value)
    ensures r.Err? ==> Broken(norm, lines, i, r.error)
  {
    hide KindOf, ItemsFrom, ListLine, Strip, LastItem;
    NoItem(lines, i + 1);
    var text := lines[i][4..];
    var n := KeyLength(text);
    if n == 0 || n == |text| || text[n] != ':' {
      return Err(i);
    }
    var key, remainder := text[..n], Strip(text[n + 1..]);
    if !IsAllowed(key) {
      return Err(i);
    }
    if remainder != "" {
      var value := norm.inline(key, remainder);
      if value.None? {
        return Err(i);
      }
      return Ok(RuleField(key, value.value, i + 1, i));
    }
    if !IsMatcher(key) {
      return Err(i);
    }
    var list := ParseMatcherList(norm, lines, i + 1);
    match list {
      case Err(k) => return Err(k);
      case Ok((values, next, lastItem)) =>
        return Ok(RuleField(key, Items(values), next, if lastItem.Some? then lastItem.value else i));
    }
  }

  // ---- One rule ----

  lemma HeadNotDeep(norm: Normalisers, line: string)
    requires StartsWith(line, "      ")
    ensures HeadOf(norm, line).None?
  {
    Kinds(line);
    assert line[4..][0] == ' ';
  }

  lemma {:induction false} LastItemRange(lines: seq<string>, from: nat, to: nat)
    requires to <= |lines|
    ensures LastItem(lines, from, to).Some? ==> from <= LastItem(lines, from, to).value < to
  {
    if from < to {
      LastItemRange(lines, from, to - 1);
    }
  }

  // A field that repeats a key of its rule spoils the block.
  lemma RepeatedKey(norm: Normalisers, lines: seq<string>, start: nat, i: nat, field: RuleField,
                    earlier: seq<Draft>, draft: Draft)
    requires start <= i < |lines| && Fine(norm, lines, start, i) && KindOf(lines[i]).Key?
    requires Drafts(norm, lines, start, i) == earlier + [draft] && field.key in draft.fields
    requires Consumed(norm, lines, i, field)
    ensures i <= field.last < BlockEnd(lines, start) && !WellFormed(norm, lines, start)
  {
    hide KindOf, HeadOf, ItemOf, WellFormed, BlockEnd, LastItem;
    LastItemRange(lines, i + 1, field.next);
    Spoiled(norm, lines, start, i);
    BlockBeyond(lines, start, field.last);
  }

  // A complete rule that is not accepted spoils the block.
  lemma Unaccepted(norm: Normalisers, lines: seq<string>, start: nat, i: nat, earlier: seq<Draft>, draft: Draft)
    requires start <= i <= |lines| && Fine(norm, lines, start, i)
    requires i < |lines| ==> KindOf(lines[i]).Opener? || KindOf(lines[i]).Stop?
    requires Drafts(norm, lines, start, i) == earlier + [draft] && !norm.accepts(draft.fields)
    ensures !WellFormed(norm, lines, start)
  {
    hide KindOf, Drafts, BlockEnd;
    InBlock(norm, lines, start, i);
    var end := BlockEnd(lines, start);
    if i < end {
      DraftsGrow(norm, lines, start, i, end);
    }
    assert Drafts(norm, lines, start, end)[|earlier|] == draft;
  }

  lemma OpenerPrefix(line: string)
    requires KindOf(line).Opener?
    ensures |line| >= 4
  {
  }

  lemma OpenerInBlock(norm: Normalisers, lines: seq<string>, start: nat, s: nat)
    requires start <= s < |lines| && KindOf(lines[s]).Opener? && Fine(norm, lines, start, s)
    ensures s < BlockEnd(lines, start)
  {
    hide KindOf;
    InBlock(norm, lines, start, s);
  }

  lemma StrayItem(norm: Normalisers, lines: seq<string>, start: nat, i: nat)
    requires start <= i < |lines| && KindOf(lines[i]).Item?
    requires Fine(norm, lines, start, i) && ListClosed(norm, lines, start, i)
    ensures i < BlockEnd(lines, start) && !WellFormed(norm, lines, start)
  {
    hide KindOf;
    Spoiled(norm, lines, start, i);
  }

  // A line indented by four that is neither an item nor an opener is a key if it can be read at all.
  lemma KeyOrBad(norm: Normalisers, line: string)
    requires !Skipped(line) && StartsWith(line, "    ") && !StartsWith(line, "  - ") && !StartsWith(line, "      - ")
    ensures KindOf(line).Key? || KindOf(line).Bad?
    ensures HeadOf(norm, line).Some? ==> KindOf(line).Key?
  {
    hide HeadOf;
    if StartsWith(line, "      ") {
      HeadNotDeep(norm, line);
    }
    Kinds(line);
  }

  method ParseRule(norm: Normalisers, lines: seq<string>, ghost start: nat, s: nat)
    returns (r: Result<(Draft, nat), nat>)
    requires start <= s < |lines| && KindOf(lines[s]).Opener? && Fine(norm, lines, start, s)
    ensures r.Ok? ==>
              var (draft, next) := r.value;
              && s < next <= |lines| && Fine(norm, lines, start, next) && ListClosed(norm, lines, start, next)
              && Drafts(norm, lines, start, next) == Drafts(norm, lines, start, s) + [draft]
              && norm.accepts(draft.fields)
              && (next < |lines| ==> KindOf(lines[next]).Opener? || KindOf(lines[next]).Stop?)
    ensures r.Err? ==> start <= r.error < BlockEnd(lines, start) && !WellFormed(norm, lines, start)
  {
    hide KindOf, Skipped, HeadOf, Drafts, WellFormed, Fine, ListClosed, BlockEnd, StartsWith, Indented, LastItem;
    ghost var earlier := Drafts(norm, lines, start, s);
    Kinds(lines[s]);
    OpenerPrefix(lines[s]);
    var first := ConsumeField(norm, lines, s);
    if first.Err? {
      FieldBroken(norm, lines, start, s, first.error);
      return Err(first.error);
    }
    OpenerRead(norm, lines, start, s, first.value);
    LastItemRange(lines, s + 1, first.value.next);
    var fields := map[first.value.key := first.value.value];
    var index, lastContent := first.value.next, first.value.last;
    while index < |lines|
      invariant s <= lastContent < index <= |lines|
      invariant Fine(norm, lines, start, index) && ListClosed(norm, lines, start, index)
      invariant Drafts(norm, lines, start, index) == earlier + [Draft(fields, s, lastContent)]
    {
      var line := lines[index];
      Kinds(line);
      if Skipped(line) {
        SkipStep(norm, lines, start, index);
        index := index + 1;
      } else if StartsWith(line, "  - ") {
        break;
      } else if StartsWith(line, "      - ") {
        StrayItem(norm, lines, start, index);
        return Err(index);
      } else if StartsWith(line, "    ") {
        var field := ConsumeField(norm, lines, index);
        KeyOrBad(norm, line);
        if field.Err? {
          FieldBroken(norm, lines, start, index, field.error);
          return Err(field.error);
        }
        if field.value.key in fields {
          RepeatedKey(norm, lines, start, index, field.value, earlier, Draft(fields, s, lastContent));
          return Err(field.value.last);
        }
        KeyRead(norm, lines, start, index, field.value, earlier, Draft(fields, s, lastContent));
        LastItemRange(lines, index + 1, field.value.next);
        fields := fields[field.value.key := field.value.value];
        index := field.value.next;
        lastContent := if lastContent > field.value.last then lastContent else field.value.last;
      } else if Indented(line) {
        Spoiled(norm, lines, start, index);
        return Err(index);
      } else {
        break;
      }
    }
    var draft := Draft(fields, s, lastContent);
    if !norm.accepts(fields) {
      Unaccepted(norm, lines, start, index, earlier, draft);
      OpenerInBlock(norm, lines, start, s);
      return Err(s);
    }
    return Ok((draft, index));
  }

  lemma NothingRead(norm: Normalisers, lines: seq<string>, start: nat)
    requires start <= |lines|
    ensures Fine(norm, lines, start, start) && ListClosed(norm, lines, start, start)
    ensures Drafts(norm, lines, start, start) == []
  {
  }

  lemma NotARule(norm: Normalisers, lines: seq<string>, start: nat, i: nat)
    requires start <= i < |lines| && Fine(norm, lines, start, i) && ListClosed(norm, lines, start, i)
    requires || KindOf(lines[i]).Item? || KindOf(lines[i]).Bad?
             || (KindOf(lines[i]).Key? && Drafts(norm, lines, start, i) == [])
    ensures i < BlockEnd(lines, start) && !WellFormed(norm, lines, start)
  {
    hide KindOf;
    Spoiled(norm, lines, start, i);
  }

  lemma AllFine(norm: Normalisers, lines: seq<string>, start: nat, end: nat)
    requires start <= |lines| && BlockEnd(lines, start) == end && Fine(norm, lines, start, end)
    requires forall draft :: draft in Drafts(norm, lines, start, end) ==> norm.accepts(draft.fields)
    ensures WellFormed(norm, lines, start)
  {
  }

  // The block is accepted exactly when it is well formed, and then gives the rules of its line-by-line
  // reading; a refusal points into the block.
  method ParseRuntimeRules(norm: Normalisers, lines: seq<string>, start: nat)
    returns (r: Result<(seq<Rule>, nat), nat>)
    requires start <= |lines|
    ensures r.Ok? <==> WellFormed(norm, lines, start)
    ensures r.Ok? ==>
              var end := BlockEnd(lines, start);
              r.value == (Finished(Drafts(norm, lines, start, end)), end)
    ensures r.Err? ==> FrontmatterLine(start) <= r.error < FrontmatterLine(BlockEnd(lines, start))
  {
    hide KindOf, Skipped, HeadOf, Drafts, WellFormed, Fine, ListClosed, BlockEnd, StartsWith, Indented;
    var rules: seq<Draft> := [];
    var index := start;
    NothingRead(norm, lines, start);
    while index < |lines|
      invariant start <= index <= |lines|
      invariant Fine(norm, lines, start, index) && ListClosed(norm, lines, start, index)
      invariant Drafts(norm, lines, start, index) == rules
      invariant forall draft :: draft in rules ==> norm.accepts(draft.fields)
      invariant rules != [] && index < |lines| ==> KindOf(lines[index]).Opener? || KindOf(lines[index]).Stop?
    {
      var line := lines[index];
      Kinds(line);
      if Skipped(line) {
        SkipStep(norm, lines, start, index);
        index := index + 1;
      } else if StartsWith(line, "  - ") {
        var rule := ParseRule(norm, lines, start, index);
        if rule.Err? {
          return Err(FrontmatterLine(rule.error));
        }
        rules := rules + [rule.value.0];
        index := rule.value.1;
      } else if Indented(line) {
        NotARule(norm, lines, start, index);
        return Err(FrontmatterLine(index));
      } else {
        break;
      }
    }
    InBlock(norm, lines, start, index);
    AllFine(norm, lines, start, index);
    return Ok((Finished(rules), index));
  }
}
