/** The size bound behind the output budget: what a valid catalogue can be made to say always fits. */
module OutputBudget {
  import opened Seqs
  import opened Json
  import opened Catalog

  function FieldSize(e: Encoding, field: Field): nat {
    TextSize(e, field.name) + SeparatorSize(e) + Size(e, field.value)
  }

  lemma AddField(e: Encoding, fields: seq<Field>, field: Field)
    ensures FieldsSize(e, fields + [field]) ==
              FieldsSize(e, fields) + (if fields == [] then 0 else SeparatorSize(e)) + FieldSize(e, field)
  {
    assert (fields + [field])[..|fields|] == fields;
  }

  lemma TwoFields(e: Encoding, a: Field, b: Field)
    ensures FieldsSize(e, [a, b]) == FieldSize(e, a) + FieldSize(e, b) + SeparatorSize(e)
  {
    AddField(e, [], a);
    AddField(e, [a], b);
    assert [] + [a] == [a] && [a] + [b] == [a, b];
  }

  lemma TwoMoreFields(e: Encoding, fields: seq<Field>, a: Field, b: Field)
    requires fields != []
    ensures FieldsSize(e, fields + [a, b]) ==
              FieldsSize(e, fields) + FieldSize(e, a) + FieldSize(e, b) + 2 * SeparatorSize(e)
  {
    AddField(e, fields, a);
    AddField(e, fields + [a], b);
    assert fields + [a] + [b] == fields + [a, b];
  }

  lemma FourFields(e: Encoding, a: Field, b: Field, c: Field, d: Field)
    ensures FieldsSize(e, [a, b, c, d]) ==
              FieldSize(e, a) + FieldSize(e, b) + FieldSize(e, c) + FieldSize(e, d) + 3 * SeparatorSize(e)
  {
    TwoFields(e, a, b);
    TwoMoreFields(e, [a, b], c, d);
    assert [a, b] + [c, d] == [a, b, c, d];
  }

  lemma SixFields(e: Encoding, a: Field, b: Field, c: Field, d: Field, f: Field, g: Field)
    ensures FieldsSize(e, [a, b, c, d, f, g]) ==
              FieldSize(e, a) + FieldSize(e, b) + FieldSize(e, c) + FieldSize(e, d) + FieldSize(e, f)
              + FieldSize(e, g) + 5 * SeparatorSize(e)
  {
    FourFields(e, a, b, c, d);
    TwoMoreFields(e, [a, b, c, d], f, g);
    assert [a, b, c, d] + [f, g] == [a, b, c, d, f, g];
  }

  // The size of a text field, up to the longest escape for every character of its name.
  lemma FieldBound(field: Field)
    ensures Size(EscapedAscii, field.value) <= FieldSize(EscapedAscii, field)
         <= Size(EscapedAscii, field.value) + 4 + 12 * |field.name|
  {
    CharsWithin(EscapedAscii, field.name);
  }

  // ---- Lists ----

  function TextCost(text: string): nat {
    TextSize(EscapedAscii, text) + 2
  }

  function UnitCost(unit: SourceUnit): nat {
    Size(EscapedAscii, UnitJson(unit)) + 2
  }

  function CitationsCost(unit: SourceUnit): nat {
    Total(unit.citationIds, TextCost)
  }

  lemma AddItem(items: seq<Json>, item: Json)
    ensures ItemsSize(EscapedAscii, items + [item]) ==
              ItemsSize(EscapedAscii, items) + (if items == [] then 0 else 2) + Size(EscapedAscii, item)
  {
    assert (items + [item])[..|items|] == items;
  }

  lemma {:induction false} TextItemsCost(texts: seq<string>)
    ensures |TextItems(texts)| == |texts|
    ensures ItemsSize(EscapedAscii, TextItems(texts)) + (if texts == [] then 0 else 2) == Total(texts, TextCost)
  {
    if texts != [] {
      var front := texts[..|texts| - 1];
      TextItemsCost(front);
      AddItem(TextItems(front), Text(texts[|texts| - 1]));
    }
  }

  lemma {:induction false} UnitItemsCost(units: seq<SourceUnit>)
    ensures |UnitItems(units)| == |units|
    ensures ItemsSize(EscapedAscii, UnitItems(units)) + (if units == [] then 0 else 2) == Total(units, UnitCost)
  {
    if units != [] {
      var front := units[..|units| - 1];
      UnitItemsCost(front);
      AddItem(UnitItems(front), UnitJson(units[|units| - 1]));
    }
  }

  // The policy, title, body and citations of a unit all occur in its payload.
  lemma UnitParts(unit: SourceUnit)
    ensures TextSize(EscapedAscii, unit.policyId) + TextSize(EscapedAscii, unit.title)
            + TextSize(EscapedAscii, unit.body) + CitationsCost(unit) <= UnitCost(unit)
  {
    hide CharsSize, ItemsSize, FieldsSize, TextItems, Total;
    var fields := UnitJson(unit).fields;
    SixFields(EscapedAscii, fields[0], fields[1], fields[2], fields[3], fields[4], fields[5]);
    TextItemsCost(unit.citationIds);
    forall i | 0 <= i < 6 ensures Size(EscapedAscii, fields[i].value) <= FieldSize(EscapedAscii, fields[i]) {
      FieldBound(fields[i]);
    }
  }

  lemma RationaleBound()
    ensures TextSize(EscapedAscii, EXTRACTIVE_RATIONALE) <= 800
  {
    CharsWithin(EscapedAscii, EXTRACTIVE_RATIONALE);
  }

  lemma GuidanceBound(unit: SourceUnit)
    ensures Size(EscapedAscii, GuidanceJson(Guide(unit))) <=
              1300 + TextSize(EscapedAscii, unit.policyId) + TextSize(EscapedAscii, unit.title) + CitationsCost(unit)
  {
    hide CharsSize, TextSize, ItemsSize, FieldsSize, FieldSize, TextItems, Total;
    var fields := GuidanceJson(Guide(unit)).fields;
    FourFields(EscapedAscii, fields[0], fields[1], fields[2], fields[3]);
    FieldBound(fields[0]);
    FieldBound(fields[1]);
    FieldBound(fields[2]);
    FieldBound(fields[3]);
    RationaleBound();
    TextItemsCost(unit.citationIds);
  }

  lemma ConstraintBound(unit: SourceUnit)
    ensures Size(EscapedAscii, ConstraintJson(Quote(unit))) <=
              300 + TextSize(EscapedAscii, unit.body) + CitationsCost(unit)
  {
    hide CharsSize, ItemsSize, FieldsSize, TextItems, Total;
    var fields := ConstraintJson(Quote(unit)).fields;
    TwoFields(EscapedAscii, fields[0], fields[1]);
    FieldBound(fields[0]);
    FieldBound(fields[1]);
    TextItemsCost(unit.citationIds);
  }

  // ---- Whole drafts ----

  lemma GuidesOfLast(units: seq<SourceUnit>)
    requires units != []
    ensures var front, unit := units[..|units| - 1], units[|units| - 1];
            && GuidanceItems(Guides(units)) == GuidanceItems(Guides(front)) + [GuidanceJson(Guide(unit))]
            && Bodies(units) == Bodies(front) + [unit.body]
            && Citations(units) == Citations(front) + unit.citationIds
            && ConstraintItems(Quotes(units)) == ConstraintItems(Quotes(front)) + [ConstraintJson(Quote(unit))]
  {
    var front, unit := units[..|units| - 1], units[|units| - 1];
    assert Guides(units)[..|units| - 1] == Guides(front);
    assert Quotes(units)[..|units| - 1] == Quotes(front);
  }

  // Per unit, a preflight draft repeats at most twice what the payload already holds, and 1310 more.
  lemma {:induction false} PreflightPartsBound(units: seq<SourceUnit>)
    ensures ItemsSize(EscapedAscii, GuidanceItems(Guides(units))) + Total(Bodies(units), TextCost)
            + Total(Citations(units), TextCost) <= 2 * Total(units, UnitCost) + 1310 * |units|
  {
    if units != [] {
      var front, unit := units[..|units| - 1], units[|units| - 1];
      PreflightPartsBound(front);
      hide Size, ItemsSize, TextSize, UnitJson, GuidanceJson, Guides, Bodies, GuidanceItems, Citations;
      GuidesOfLast(units);
      AddItem(GuidanceItems(Guides(front)), GuidanceJson(Guide(unit)));
      TotalAppend(Bodies(front), [unit.body], TextCost);
      TotalAppend(Citations(front), unit.citationIds, TextCost);
      assert [unit.body][..0] == [];
      GuidanceBound(unit);
      UnitParts(unit);
    }
  }

  lemma {:induction false} CompiledPartsBound(units: seq<SourceUnit>)
    ensures ItemsSize(EscapedAscii, ConstraintItems(Quotes(units))) <= Total(units, UnitCost) + 302 * |units|
  {
    if units != [] {
      var front, unit := units[..|units| - 1], units[|units| - 1];
      CompiledPartsBound(front);
      hide Size, ItemsSize, TextSize, UnitJson, ConstraintJson, Quotes, ConstraintItems;
      GuidesOfLast(units);
      AddItem(ConstraintItems(Quotes(front)), ConstraintJson(Quote(unit)));
      ConstraintBound(unit);
      UnitParts(unit);
    }
  }

  // A list of units taken from a catalogue without repetition.
  ghost predicate From(units: seq<SourceUnit>, catalog: SourceCatalog) {
    NoDup(units) && forall u :: u in units ==> u in catalog.units
  }

  lemma PayloadBound(units: seq<SourceUnit>, catalog: SourceCatalog)
    requires Valid(catalog) && From(units, catalog)
    ensures Total(units, UnitCost) <= MAX_SOURCE_BYTES && |units| <= MAX_SOURCE_CHUNKS
  {
    hide Total, UnitItems, UnitJson, ItemsSize;
    UnitItemsCost(catalog.units);
    SubsetTotal(units, catalog.units, UnitCost);
  }

  lemma EightFieldsBound(fields: seq<Field>)
    requires |fields| == 8
    requires forall i :: 0 <= i < 8 ==> |fields[i].name| <= 26
    ensures FieldsSize(EscapedAscii, fields) <=
              Size(EscapedAscii, fields[0].value) + Size(EscapedAscii, fields[1].value)
              + Size(EscapedAscii, fields[2].value) + Size(EscapedAscii, fields[3].value)
              + Size(EscapedAscii, fields[4].value) + Size(EscapedAscii, fields[5].value)
              + Size(EscapedAscii, fields[6].value) + Size(EscapedAscii, fields[7].value) + 2700
  {
    hide FieldsSize, FieldSize, Size;
    SixFields(EscapedAscii, fields[0], fields[1], fields[2], fields[3], fields[4], fields[5]);
    TwoMoreFields(EscapedAscii, fields[..6], fields[6], fields[7]);
    assert fields[..6] == [fields[0], fields[1], fields[2], fields[3], fields[4], fields[5]];
    assert fields[..6] + [fields[6], fields[7]] == fields;
    forall i | 0 <= i < 8
      ensures FieldSize(EscapedAscii, fields[i]) <= Size(EscapedAscii, fields[i].value) + 316
    {
      FieldBound(fields[i]);
    }
  }

  lemma ListSize(items: seq<Json>)
    ensures Size(EscapedAscii, List(items)) == 2 + ItemsSize(EscapedAscii, items)
  {
  }

  lemma TextListBound(texts: seq<string>)
    ensures Size(EscapedAscii, List(TextItems(texts))) <= 2 + Total(texts, TextCost)
    ensures texts == [] ==> Total(texts, TextCost) == 0
  {
    TextItemsCost(texts);
  }

  lemma PreflightJsonBound(draft: PreflightDraft)
    requires draft.implementationGuidance == draft.reviewFlags == draft.testsRequired == []
    ensures Size(EscapedAscii, PreflightJson(draft)) <=
              3000 + TextSize(EscapedAscii, draft.summary)
              + ItemsSize(EscapedAscii, GuidanceItems(draft.applicablePolicies))
              + Total(draft.planSteps, TextCost) + Total(draft.citationIds, TextCost)
  {
    hide TextSize, ItemsSize, FieldsSize, TextItems, Total, GuidanceItems;
    var fields := PreflightJson(draft).fields;
    EightFieldsBound(fields);
    ListSize(GuidanceItems(draft.applicablePolicies));
    TextListBound(draft.planSteps);
    TextListBound([]);
    TextListBound(draft.citationIds);
  }

  // Every preflight draft over units of a valid catalogue fits, whichever of their citations it lists.
  lemma PreflightFits(catalog: SourceCatalog, units: seq<SourceUnit>, citationIds: seq<string>)
    requires Valid(catalog) && From(units, catalog)
    requires NoDup(citationIds) && forall c :: c in citationIds ==> c in Citations(units)
    ensures FitsOutput(PreflightJson(PreflightFrom(units).(citationIds := citationIds)))
  {
    hide Valid, From, NoDup, Size, ItemsSize, CharsSize, Total, GuidanceItems, Guides, Bodies, Citations, PreflightJson;
    var draft := PreflightFrom(units).(citationIds := citationIds);
    PayloadBound(units, catalog);
    PreflightPartsBound(units);
    SubsetTotal(citationIds, Citations(units), TextCost);
    CharsWithin(EscapedAscii, EXTRACTIVE_SUMMARY);
    PreflightJsonBound(draft);
    EscapedIsLongest(CompactUtf8, PreflightJson(draft));
  }

  lemma SixFieldsBound(fields: seq<Field>)
    requires |fields| == 6
    requires forall i :: 0 <= i < 6 ==> |fields[i].name| <= 26
    ensures FieldsSize(EscapedAscii, fields) <=
              Size(EscapedAscii, fields[0].value) + Size(EscapedAscii, fields[1].value)
              + Size(EscapedAscii, fields[2].value) + Size(EscapedAscii, fields[3].value)
              + Size(EscapedAscii, fields[4].value) + Size(EscapedAscii, fields[5].value) + 2700
  {
    hide FieldsSize, FieldSize, Size;
    SixFields(EscapedAscii, fields[0], fields[1], fields[2], fields[3], fields[4], fields[5]);
    assert fields == [fields[0], fields[1], fields[2], fields[3], fields[4], fields[5]];
    forall i | 0 <= i < 6
      ensures FieldSize(EscapedAscii, fields[i]) <= Size(EscapedAscii, fields[i].value) + 316
    {
      FieldBound(fields[i]);
    }
  }

  lemma CompiledJsonBound(draft: CompiledDraft)
    requires draft.forbiddenPatterns == draft.architecturalExpectations == draft.testExpectations
          == draft.styleConstraints == []
    ensures Size(EscapedAscii, CompiledJson(draft)) <=
              3000 + ItemsSize(EscapedAscii, ConstraintItems(draft.requiredSteps))
  {
    assert ItemsSize(EscapedAscii, ConstraintItems([])) == 0;
    hide TextSize, ItemsSize, FieldsSize, ConstraintItems;
    var fields := CompiledJson(draft).fields;
    SixFieldsBound(fields);
    ListSize(ConstraintItems(draft.requiredSteps));
    ListSize(ConstraintItems([]));
  }

  // Every compiler draft that quotes units of a valid catalogue, in any order, fits.
  lemma CompiledFits(catalog: SourceCatalog, units: seq<SourceUnit>)
    requires Valid(catalog) && From(units, catalog)
    ensures FitsOutput(CompiledJson(CompiledFrom(units)))
  {
    hide Valid, From, Size, ItemsSize, Total, ConstraintItems, Quotes, CompiledJson;
    PayloadBound(units, catalog);
    CompiledPartsBound(units);
    CompiledJsonBound(CompiledFrom(units));
    EscapedIsLongest(CompactUtf8, CompiledJson(CompiledFrom(units)));
  }
}
