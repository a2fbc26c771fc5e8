/** The two recognisers of src/policynim/source_units.py accept exactly the drafts that a selection can
    be materialised into. */
module Recognisers {
  import opened Results
  import opened Seqs
  import opened Catalog
  import opened OutputBudget

  // ---- Resolved selections ----

  lemma ResolvedUnits(catalog: SourceCatalog, selection: SourceSelection)
    requires Valid(catalog) && Resolve(catalog, selection).Ok?
    ensures From(Resolve(catalog, selection).value, catalog)
    ensures Resolve(catalog, selection).value == [] <==> selection.insufficientContext
  {
    hide WithinBudget, WellFormedUnit;
    if !selection.insufficientContext {
      var which := Named(catalog.units, selection.sourceIds);
      KeepNoDup(catalog.units, which);
      forall u ensures u in Keep(catalog.units, which) <==> u in catalog.units && u in which {
        KeepMember(catalog.units, which, u);
      }
      var id := selection.sourceIds[0];
      assert id in selection.sourceIds && id in SourceIds(catalog.units);
      var i :| 0 <= i < |catalog.units| && SourceIds(catalog.units)[i] == id;
      assert catalog.units[i] in Keep(catalog.units, which);
    }
  }

  // Naming units of the catalogue selects exactly them, in catalogue order.
  lemma SelectByName(catalog: SourceCatalog, units: seq<SourceUnit>)
    requires Valid(catalog) && From(units, catalog) && units != []
    ensures var selection := SourceSelection(SourceIds(units), false);
            Resolve(catalog, selection) == Ok(Keep(catalog.units, set u | u in units))
  {
    hide WithinBudget, WellFormedUnit, Keep;
    var ids, all := SourceIds(units), catalog.units;
    assert |ids| > 0;
    assert NoDup(ids) by {
      forall i, j | 0 <= i < j < |ids| ensures ids[i] != ids[j] {
        assert units[i] in all && units[j] in all && units[i] != units[j];
      }
    }
    forall id | id in ids ensures id in SourceIds(all) {
      var i :| 0 <= i < |ids| && ids[i] == id;
      assert units[i] in all;
      var j :| 0 <= j < |all| && all[j] == units[i];
      assert SourceIds(all)[j] == id;
    }
    forall j | 0 <= j < |all| ensures all[j] in Named(all, ids) <==> all[j] in units {
      if all[j].sourceId in ids {
        var i :| 0 <= i < |ids| && ids[i] == all[j].sourceId;
        assert units[i] in all;
        var k :| 0 <= k < |all| && all[k] == units[i];
        assert k == j;
      }
      if all[j] in units {
        var i :| 0 <= i < |units| && units[i] == all[j];
        assert ids[i] == all[j].sourceId;
      }
    }
    KeepSame(all, Named(all, ids), set u | u in units);
  }

  // ---- Compiler drafts ----

  // The first unit that a step quotes with all its citations.
  function FirstQuoted(units: seq<SourceUnit>, step: Constraint): (r: Option<SourceUnit>)
    ensures r.Some? ==> r.value in units && Quote(r.value) == step
    ensures r.None? ==> forall u :: u in units ==> Quote(u) != step
  {
    if units == [] then None
    else if Quote(units[0]) == step then Some(units[0])
    else FirstQuoted(units[1..], step)
  }

  // Only required steps, at least one, no two alike, each quoting a unit whole.
  ghost predicate QuotesUnits(catalog: SourceCatalog, draft: CompiledDraft) {
    && !draft.insufficientContext
    && draft.forbiddenPatterns == draft.architecturalExpectations == draft.testExpectations
       == draft.styleConstraints == []
    && draft.requiredSteps != []
    && NoDup(draft.requiredSteps)
    && forall step :: step in draft.requiredSteps ==> FirstQuoted(catalog.units, step).Some?
  }

  ghost function Quoted(catalog: SourceCatalog, steps: seq<Constraint>): (units: seq<SourceUnit>)
    requires forall step :: step in steps ==> FirstQuoted(catalog.units, step).Some?
    ensures |units| == |steps|
    ensures forall i :: 0 <= i < |steps| ==> units[i] in catalog.units && Quote(units[i]) == steps[i]
  {
    seq(|steps|, i requires 0 <= i < |steps| => FirstQuoted(catalog.units, steps[i]).value)
  }

  lemma QuotesUnitsMeaning(catalog: SourceCatalog, draft: CompiledDraft)
    requires QuotesUnits(catalog, draft)
    ensures From(Quoted(catalog, draft.requiredSteps), catalog)
    ensures draft == CompiledFrom(Quoted(catalog, draft.requiredSteps))
  {
    hide FirstQuoted;
    var units := Quoted(catalog, draft.requiredSteps);
    assert NoDup(units);
    assert Quotes(units) == draft.requiredSteps;
  }

  // Accepted drafts are the materialisations of distinct units, in any order, whose quotes all differ.
  lemma QuotesUnitsExactly(catalog: SourceCatalog, draft: CompiledDraft)
    ensures QuotesUnits(catalog, draft) <==>
              exists units ::
                From(units, catalog) && units != [] && NoDup(Quotes(units)) && draft == CompiledFrom(units)
  {
    hide FirstQuoted;
    if QuotesUnits(catalog, draft) {
      QuotesUnitsMeaning(catalog, draft);
      assert NoDup(Quotes(Quoted(catalog, draft.requiredSteps)));
    }
    if exists units :: From(units, catalog) && units != [] && NoDup(Quotes(units)) && draft == CompiledFrom(units) {
      var units :| From(units, catalog) && units != [] && NoDup(Quotes(units)) && draft == CompiledFrom(units);
      forall step | step in draft.requiredSteps ensures FirstQuoted(catalog.units, step).Some? {
        var i :| 0 <= i < |units| && Quotes(units)[i] == step;
        assert units[i] in catalog.units && Quote(units[i]) == step;
      }
    }
  }

  lemma QuotesUnitsFit(catalog: SourceCatalog, draft: CompiledDraft)
    requires Valid(catalog) && QuotesUnits(catalog, draft)
    ensures FitsOutput(CompiledJson(draft))
  {
    hide Valid, FitsOutput, CompiledJson;
    QuotesUnitsMeaning(catalog, draft);
    CompiledFits(catalog, Quoted(catalog, draft.requiredSteps));
  }

  // The steps quote units, none twice, and `seen` are those units' identifiers.
  ghost predicate Seen(catalog: SourceCatalog, steps: seq<Constraint>, seen: set<string>) {
    && NoDup(steps)
    && (forall step :: step in steps ==> FirstQuoted(catalog.units, step).Some?)
    && seen == set step | step in steps :: FirstQuoted(catalog.units, step).value.sourceId
  }

  lemma SameIdSameUnit(catalog: SourceCatalog, u: SourceUnit, v: SourceUnit)
    requires DistinctOwners(catalog.units) && u in catalog.units && v in catalog.units && u.sourceId == v.sourceId
    ensures u == v
  {
  }

  lemma SeenAgain(catalog: SourceCatalog, steps: seq<Constraint>, seen: set<string>, step: Constraint)
    requires DistinctOwners(catalog.units) && Seen(catalog, steps, seen) && FirstQuoted(catalog.units, step).Some?
    ensures FirstQuoted(catalog.units, step).value.sourceId in seen <==> step in steps
  {
    hide FirstQuoted, DistinctOwners, NoDup;
    var unit := FirstQuoted(catalog.units, step).value;
    if unit.sourceId in seen {
      var other :| other in steps && FirstQuoted(catalog.units, other).value.sourceId == unit.sourceId;
      SameIdSameUnit(catalog, unit, FirstQuoted(catalog.units, other).value);
    }
  }

  lemma SeenMore(catalog: SourceCatalog, steps: seq<Constraint>, seen: set<string>, step: Constraint)
    requires Seen(catalog, steps, seen) && step !in steps && FirstQuoted(catalog.units, step).Some?
    ensures Seen(catalog, steps + [step], seen + {FirstQuoted(catalog.units, step).value.sourceId})
  {
    hide FirstQuoted;
  }

  lemma SeenNone(catalog: SourceCatalog)
    ensures Seen(catalog, [], {})
  {
  }

  lemma SeenAll(catalog: SourceCatalog, steps: seq<Constraint>, seen: set<string>)
    requires Seen(catalog, steps, seen)
    ensures NoDup(steps) && forall step :: step in steps ==> FirstQuoted(catalog.units, step).Some?
    ensures seen == {} <==> steps == []
  {
    if steps != [] {
      assert FirstQuoted(catalog.units, steps[0]).value.sourceId in seen;
    }
  }

  // The loop over the steps, with the identifiers of the units seen so far.
  method StepsQuoteUnits(catalog: SourceCatalog, steps: seq<Constraint>) returns (ok: bool)
    requires Valid(catalog)
    ensures ok <==>
              && steps != [] && NoDup(steps)
              && forall step :: step in steps ==> FirstQuoted(catalog.units, step).Some?
  {
    hide WithinBudget, WellFormedUnit, FirstQuoted, Seen, DistinctOwners;
    var seen: set<string> := {};
    SeenNone(catalog);
    var i := 0;
    while i < |steps|
      invariant 0 <= i <= |steps|
      invariant Seen(catalog, steps[..i], seen)
    {
      var unit := FirstQuoted(catalog.units, steps[i]);
      if unit.None? {
        assert steps[i] in steps;
        return false;
      }
      SeenAgain(catalog, steps[..i], seen, steps[i]);
      if unit.value.sourceId in seen {
        return false;
      }
      SeenMore(catalog, steps[..i], seen, steps[i]);
      assert steps[..i + 1] == steps[..i] + [steps[i]];
      seen := seen + {unit.value.sourceId};
      i := i + 1;
    }
    assert steps[..|steps|] == steps;
    SeenAll(catalog, steps, seen);
    ok := seen != {};
  }

  // The recogniser of compiler drafts; its size check never refuses a draft that quotes units.
  method AcceptsCompiler(catalog: SourceCatalog, draft: CompiledDraft) returns (ok: bool)
    requires Valid(catalog)
    ensures ok <==> QuotesUnits(catalog, draft)
  {
    hide Valid, FitsOutput, CompiledJson, FirstQuoted, NoDup;
    if draft.insufficientContext {
      return false;
    }
    if !FitsOutput(CompiledJson(draft)) {
      if QuotesUnits(catalog, draft) {
        QuotesUnitsFit(catalog, draft);
      }
      return false;
    }
    if draft.forbiddenPatterns != [] || draft.architecturalExpectations != [] || draft.testExpectations != []
       || draft.styleConstraints != [] {
      return false;
    }
    ok := StepsQuoteUnits(catalog, draft.requiredSteps);
  }

  // ---- Preflight drafts ----

  // The draft is this one, up to missing top-level references where those are allowed.
  ghost predicate Renders(draft: PreflightDraft, expected: PreflightDraft, allowMissing: bool) {
    if allowMissing then
      && draft.(citationIds := expected.citationIds) == expected
      && NoDup(draft.citationIds)
      && forall c :: c in draft.citationIds ==> c in expected.citationIds
    else draft == expected
  }

  // The selection resolves to some units, and the draft is what they are materialised into.
  ghost predicate HonestFor(catalog: SourceCatalog, draft: PreflightDraft, allowMissing: bool,
                            selection: SourceSelection)
  {
    && Resolve(catalog, selection).Ok?
    && Resolve(catalog, selection).value != []
    && Renders(draft, PreflightFrom(Resolve(catalog, selection).value), allowMissing)
  }

  ghost predicate Honest(catalog: SourceCatalog, draft: PreflightDraft, allowMissing: bool) {
    exists selection :: HonestFor(catalog, draft, allowMissing, selection)
  }

  function Matching(units: seq<SourceUnit>, statement: string, guidance: Guidance): set<SourceUnit> {
    set u | u in units && u.body == statement && u.policyId == guidance.policyId && u.title == guidance.title
  }

  // A unit of a valid catalogue is the only one that its own body and guidance match.
  lemma MatchIsUnit(catalog: SourceCatalog, unit: SourceUnit)
    requires Valid(catalog) && unit in catalog.units
    ensures Keep(catalog.units, Matching(catalog.units, unit.body, Guide(unit))) == [unit]
  {
    hide WithinBudget, WellFormedUnit, Keep;
    KeepOne(catalog.units, Matching(catalog.units, unit.body, Guide(unit)), unit);
  }

  lemma HonestFits(catalog: SourceCatalog, draft: PreflightDraft, allowMissing: bool, selection: SourceSelection)
    requires Valid(catalog) && HonestFor(catalog, draft, allowMissing, selection)
    ensures FitsOutput(PreflightJson(draft))
  {
    hide Valid, FitsOutput, PreflightJson, Resolve;
    var units := Resolve(catalog, selection).value;
    ResolvedUnits(catalog, selection);
    UniqueFacts(Citations(units));
    PreflightFits(catalog, units, draft.citationIds);
    assert draft == PreflightFrom(units).(citationIds := draft.citationIds);
  }

  // What a selection resolves to is resolved again by naming it.
  lemma ResolveAgain(catalog: SourceCatalog, selection: SourceSelection)
    requires Valid(catalog) && Resolve(catalog, selection).Ok? && Resolve(catalog, selection).value != []
    ensures var units := Resolve(catalog, selection).value;
            Resolve(catalog, SourceSelection(SourceIds(units), false)) == Ok(units)
  {
    hide WithinBudget, WellFormedUnit, Keep;
    var units := Resolve(catalog, selection).value;
    ResolvedUnits(catalog, selection);
    SelectByName(catalog, units);
    var which := Named(catalog.units, selection.sourceIds);
    forall i | 0 <= i < |catalog.units| ensures catalog.units[i] in which <==> catalog.units[i] in units {
      KeepMember(catalog.units, which, catalog.units[i]);
    }
    KeepSame(catalog.units, which, set u | u in units);
  }

  // The units that the first i statements and guidances must be, for any selection the draft is honest for.
  ghost predicate SelectedSoFar(catalog: SourceCatalog, draft: PreflightDraft, allowMissing: bool,
                                selected: seq<SourceUnit>, i: nat)
  {
    forall selection :: HonestFor(catalog, draft, allowMissing, selection) ==>
      i <= |Resolve(catalog, selection).value| && selected == Resolve(catalog, selection).value[..i]
  }

  lemma HonestStep(catalog: SourceCatalog, draft: PreflightDraft, allowMissing: bool, selection: SourceSelection,
                   i: nat)
    requires Valid(catalog) && HonestFor(catalog, draft, allowMissing, selection)
    requires i < |draft.planSteps| == |draft.applicablePolicies|
    ensures var units := Resolve(catalog, selection).value;
            && i < |units|
            && Keep(catalog.units, Matching(catalog.units, draft.planSteps[i], draft.applicablePolicies[i]))
                 == [units[i]]
            && units[i] !in units[..i]
  {
    hide Valid, Resolve;
    var units := Resolve(catalog, selection).value;
    ResolvedUnits(catalog, selection);
    assert draft.planSteps == Bodies(units) && draft.applicablePolicies == Guides(units);
    MatchIsUnit(catalog, units[i]);
  }

  // The loop that pairs statements with guidance: `selected` grows while each pair matches one new unit.
  method PairUnits(catalog: SourceCatalog, draft: PreflightDraft, ghost allowMissing: bool)
    returns (selected: Option<seq<SourceUnit>>)
    requires Valid(catalog) && |draft.planSteps| == |draft.applicablePolicies|
    ensures selected.Some? ==>
              && From(selected.value, catalog)
              && |selected.value| == |draft.planSteps|
              && SelectedSoFar(catalog, draft, allowMissing, selected.value, |draft.planSteps|)
    ensures selected.None? ==> !Honest(catalog, draft, allowMissing)
  {
    hide Valid, Resolve, Renders, Keep, Matching;
    var found: seq<SourceUnit> := [];
    var i := 0;
    while i < |draft.planSteps|
      invariant 0 <= i <= |draft.planSteps|
      invariant From(found, catalog) && |found| == i
      invariant SelectedSoFar(catalog, draft, allowMissing, found, i)
    {
      var which := Matching(catalog.units, draft.planSteps[i], draft.applicablePolicies[i]);
      var matches := Keep(catalog.units, which);
      forall selection | HonestFor(catalog, draft, allowMissing, selection)
        ensures |matches| == 1 && matches[0] !in found
        ensures i < |Resolve(catalog, selection).value|
        ensures found + matches == Resolve(catalog, selection).value[..i + 1]
      {
        HonestStep(catalog, draft, allowMissing, selection, i);
        TakeNext(Resolve(catalog, selection).value, i);
      }
      if |matches| != 1 || matches[0] in found {
        return None;
      }
      KeepMember(catalog.units, which, matches[0]);
      found := found + matches;
      i := i + 1;
    }
    return Some(found);
  }

  lemma HonestShape(catalog: SourceCatalog, draft: PreflightDraft, allowMissing: bool, selection: SourceSelection)
    requires Valid(catalog) && HonestFor(catalog, draft, allowMissing, selection)
    ensures FitsOutput(PreflightJson(draft))
    ensures !draft.insufficientContext && draft.summary == EXTRACTIVE_SUMMARY
    ensures draft.implementationGuidance == draft.reviewFlags == draft.testsRequired == []
    ensures |draft.planSteps| == |draft.applicablePolicies| == |Resolve(catalog, selection).value| > 0
  {
    hide Valid, Resolve, FitsOutput, PreflightJson;
    HonestFits(catalog, draft, allowMissing, selection);
    ResolvedUnits(catalog, selection);
  }

  // The free prose of a draft is service-owned or absent.
  predicate PlainShape(draft: PreflightDraft) {
    && FitsOutput(PreflightJson(draft))
    && !draft.insufficientContext
    && draft.summary == EXTRACTIVE_SUMMARY
    && draft.implementationGuidance == draft.reviewFlags == draft.testsRequired == []
    && |draft.planSteps| == |draft.applicablePolicies|
  }

  lemma HonestIsPlain(catalog: SourceCatalog, draft: PreflightDraft, allowMissing: bool)
    requires Valid(catalog) && Honest(catalog, draft, allowMissing)
    ensures PlainShape(draft) && |draft.planSteps| > 0
  {
    var selection :| HonestFor(catalog, draft, allowMissing, selection);
    HonestShape(catalog, draft, allowMissing, selection);
  }

  // After the loop only the comparison with the expected draft is left to decide.
  lemma HonestDecided(catalog: SourceCatalog, draft: PreflightDraft, allowMissing: bool, selected: seq<SourceUnit>)
    requires Valid(catalog) && From(selected, catalog) && selected != []
    requires |draft.planSteps| == |draft.applicablePolicies|
    requires SelectedSoFar(catalog, draft, allowMissing, selected, |draft.planSteps|)
    ensures var selection := SourceSelection(SourceIds(selected), false);
            && Resolve(catalog, selection).Ok?
            && (Honest(catalog, draft, allowMissing) <==>
                  Renders(draft, PreflightFrom(Resolve(catalog, selection).value), allowMissing))
  {
    hide Valid, Resolve, Renders, From, PlainShape, Keep, PreflightFrom;
    var selection := SourceSelection(SourceIds(selected), false);
    SelectByName(catalog, selected);
    ResolvedUnits(catalog, selection);
    if Honest(catalog, draft, allowMissing) {
      var other :| HonestFor(catalog, draft, allowMissing, other);
      HonestShape(catalog, draft, allowMissing, other);
      var units := Resolve(catalog, other).value;
      assert units[..|draft.planSteps|] == units;
      ResolveAgain(catalog, other);
    }
  }

  method CompareDrafts(draft: PreflightDraft, expected: PreflightDraft, allowMissing: bool) returns (ok: bool)
    ensures ok <==> Renders(draft, expected, allowMissing)
  {
    if allowMissing {
      if !NoDup(draft.citationIds) || exists c :: c in draft.citationIds && c !in expected.citationIds {
        return false;
      }
      return draft.(citationIds := expected.citationIds) == expected;
    }
    return draft == expected;
  }

  // The recogniser of preflight drafts accepts a draft exactly when some selection is materialised
  // into it, and with missing references allowed exactly when the draft lists some of its references once.
  method AcceptsPreflight(catalog: SourceCatalog, draft: PreflightDraft, allowMissing: bool) returns (ok: bool)
    requires Valid(catalog)
    ensures ok <==> Honest(catalog, draft, allowMissing)
  {
    hide Valid, Honest, FitsOutput, PreflightJson, Renders, Resolve, From;
    if Honest(catalog, draft, allowMissing) {
      HonestIsPlain(catalog, draft, allowMissing);
    }
    if !FitsOutput(PreflightJson(draft)) {
      return false;
    }
    if draft.insufficientContext || draft.summary != EXTRACTIVE_SUMMARY
       || draft.implementationGuidance != [] || draft.reviewFlags != [] || draft.testsRequired != [] {
      return false;
    }
    if |draft.planSteps| != |draft.applicablePolicies| {
      return false;
    }
    var paired := PairUnits(catalog, draft, allowMissing);
    if paired.None? {
      return false;
    }
    var selected := paired.value;
    if selected == [] {
      return false;
    }
    HonestDecided(catalog, draft, allowMissing, selected);
    var expected := PreflightDraftOf(catalog, SourceSelection(SourceIds(selected), false)).value;
    ok := CompareDrafts(draft, expected, allowMissing);
  }
}
