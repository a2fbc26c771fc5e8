/** What a selection by short identifiers resolves to, and what the preflight draft over it says, in terms of
    the documents behind the catalogue; after src/policynim/source_units.py. */
module Selections {
  import opened Results
  import opened Seqs
  import opened Chunking
  import opened Catalog
  import opened OutputBudget
  import opened Recognisers
  import opened PinnedSources
  import opened Grounding
  import opened PacketContents

  ghost predicate Known(units: seq<SourceUnit>, id: string) {
    exists u :: u in units && u.sourceId == id
  }

  // Nothing at all when the context is insufficient, and otherwise at least one identifier, none twice, and
  // only identifiers that some unit has.
  ghost predicate Selectable(catalog: SourceCatalog, selection: SourceSelection) {
    var ids := selection.sourceIds;
    if selection.insufficientContext then ids == []
    else
      && |ids| > 0
      && (forall i, j :: 0 <= i < j < |ids| ==> ids[i] != ids[j])
      && forall i :: 0 <= i < |ids| ==> Known(catalog.units, ids[i])
  }

  lemma SourceIdsMember(units: seq<SourceUnit>, id: string)
    ensures id in SourceIds(units) <==> Known(units, id)
  {
    if id in SourceIds(units) {
      var i :| 0 <= i < |units| && SourceIds(units)[i] == id;
      assert units[i] in units;
    }
    if u :| u in units && u.sourceId == id {
      var i :| 0 <= i < |units| && units[i] == u;
      assert SourceIds(units)[i] == id;
    }
  }

  lemma ResolvesExactly(catalog: SourceCatalog, selection: SourceSelection)
    ensures Resolve(catalog, selection).Ok? <==> Selectable(catalog, selection)
  {
    var ids := selection.sourceIds;
    forall i | 0 <= i < |ids|
      ensures ids[i] in SourceIds(catalog.units) <==> Known(catalog.units, ids[i])
    {
      SourceIdsMember(catalog.units, ids[i]);
    }
    if Selectable(catalog, selection) {
      forall id | id in ids ensures id in SourceIds(catalog.units) {
        var i :| 0 <= i < |ids| && ids[i] == id;
      }
    }
  }

  // A selection resolves to exactly the units it names, in the catalogue's order, and names no others.
  lemma ResolvesTo(catalog: SourceCatalog, selection: SourceSelection) returns (at: seq<nat>)
    requires Resolve(catalog, selection).Ok?
    ensures var units := Resolve(catalog, selection).value;
            && |at| == |units|
            && Increasing(at)
            && (forall i :: 0 <= i < |at| ==> at[i] < |catalog.units| && units[i] == catalog.units[at[i]])
            && (forall k :: 0 <= k < |catalog.units| ==>
                  (k in at <==> catalog.units[k].sourceId in selection.sourceIds))
            && forall id :: id in selection.sourceIds ==> exists i :: 0 <= i < |units| && units[i].sourceId == id
  {
    ResolvesExactly(catalog, selection);
    at := [];
    if !selection.insufficientContext {
      var which := Named(catalog.units, selection.sourceIds);
      at := KeepPositions(catalog.units, which);
      forall k | 0 <= k < |catalog.units|
        ensures k in at <==> catalog.units[k].sourceId in selection.sourceIds
      {
        assert catalog.units[k] in catalog.units;
      }
      forall id | id in selection.sourceIds
        ensures exists i :: 0 <= i < |at| && catalog.units[at[i]].sourceId == id
      {
        SourceIdsMember(catalog.units, id);
        var u :| u in catalog.units && u.sourceId == id;
        var k :| 0 <= k < |catalog.units| && catalog.units[k] == u;
        assert k in at;
        var i :| 0 <= i < |at| && at[i] == k;
      }
    }
  }

  // ---- Drafts ----

  // The guidance is the document's policy, with all its chunks.
  ghost predicate GuidesTo(guide: Guidance, d: Document) {
    && guide.policyId == d.metadata.policyId
    && guide.title == d.metadata.title
    && guide.rationale == EXTRACTIVE_RATIONALE
    && ChunksOf(d).Ok? && |guide.citationIds| == |ChunksOf(d).value|
    && forall k :: 0 <= k < |guide.citationIds| ==> guide.citationIds[k] == ChunksOf(d).value[k].chunkId
  }

  lemma GuidesDocument(documents: seq<Document>, context: seq<ScoredChunk>, unit: SourceUnit, d: Document)
    requires IsDocument(documents, context, unit, d)
    ensures GuidesTo(Guide(unit), d)
  {
    hide ChunksOf, Chunks;
  }

  // The lists follow one another, in order, and are all of it.
  ghost predicate Joined(ids: seq<string>, guides: seq<Guidance>, starts: seq<nat>) {
    && |starts| == |guides| + 1 && starts[0] == 0 && starts[|guides|] == |ids|
    && forall i :: 0 <= i < |guides| ==>
         && starts[i + 1] == starts[i] + |guides[i].citationIds|
         && Holding(ids, starts[i], guides[i].citationIds)
  }

  ghost predicate GuidedBy(units: seq<SourceUnit>, documents: seq<Document>, given: seq<Document>) {
    && |given| == |units|
    && forall i :: 0 <= i < |given| ==>
         given[i] in documents && units[i].body == given[i].body && GuidesTo(Guide(units[i]), given[i])
  }

  lemma GuidedDocuments(documents: seq<Document>, context: seq<ScoredChunk>, catalog: SourceCatalog,
                        units: seq<SourceUnit>)
    returns (given: seq<Document>)
    requires Pinned(documents, context, catalog) && forall u :: u in units ==> u in catalog.units
    ensures GuidedBy(units, documents, given)
  {
    hide Pinned, IsDocument, GuidesTo;
    given := DocumentsOf(documents, context, catalog, units);
    forall i | 0 <= i < |given|
      ensures given[i] in documents && units[i].body == given[i].body && GuidesTo(Guide(units[i]), given[i])
    {
      GivenDocument(documents, context, units[i], given[i]);
      DocumentBody(documents, context, units[i], given[i]);
      GuidesDocument(documents, context, units[i], given[i]);
    }
  }

  // The draft names these documents, quotes them whole, and refers to all their chunks.
  ghost predicate Introduces(draft: PreflightDraft, documents: seq<Document>, given: seq<Document>,
                             starts: seq<nat>)
  {
    && draft.summary == EXTRACTIVE_SUMMARY
    && draft.implementationGuidance == draft.reviewFlags == draft.testsRequired == []
    && |draft.planSteps| == |draft.applicablePolicies| == |given|
    && (forall i :: 0 <= i < |given| ==>
          && given[i] in documents
          && draft.planSteps[i] == given[i].body
          && GuidesTo(draft.applicablePolicies[i], given[i]))
    && Joined(draft.citationIds, draft.applicablePolicies, starts)
  }

  lemma DraftIntroduces(documents: seq<Document>, units: seq<SourceUnit>, given: seq<Document>)
    returns (starts: seq<nat>)
    requires GuidedBy(units, documents, given) && NoDup(Citations(units))
    ensures Introduces(PreflightFrom(units), documents, given, starts)
  {
    hide Citations, GuidesTo, NoDup, Unique, Holding;
    UniqueOfNoDup(Citations(units));
    starts := CitationsLaid(units);
  }

  // A preflight draft over a pinned catalogue says what is in the selected documents, and nothing else.
  lemma PreflightSays(documents: seq<Document>, context: seq<ScoredChunk>, catalog: SourceCatalog,
                      selection: SourceSelection)
    returns (given: seq<Document>, starts: seq<nat>)
    requires Pinned(documents, context, catalog) && Resolve(catalog, selection).Ok?
    ensures PreflightDraftOf(catalog, selection).Ok?
    ensures var draft := PreflightDraftOf(catalog, selection).value;
            && (draft.insufficientContext <==> selection.insufficientContext)
            && (given == [] <==> selection.insufficientContext)
            && Introduces(draft, documents, given, starts)
  {
    hide Pinned, Resolve, Citations, Valid, NoDup, GuidesTo, Introduces;
    PinnedParts(documents, context, catalog);
    ResolvedUnits(catalog, selection);
    var units := Resolve(catalog, selection).value;
    given := GuidedDocuments(documents, context, catalog, units);
    CitationsNoDup(documents, context, catalog, units);
    starts := DraftIntroduces(documents, units, given);
  }

  // A compiler draft over it quotes the same documents.
  lemma CompilerSays(documents: seq<Document>, context: seq<ScoredChunk>, catalog: SourceCatalog,
                     selection: SourceSelection)
    returns (given: seq<Document>)
    requires Pinned(documents, context, catalog) && Resolve(catalog, selection).Ok?
    ensures CompilerDraft(catalog, selection).Ok?
    ensures var draft := CompilerDraft(catalog, selection).value;
            && (draft.insufficientContext <==> selection.insufficientContext)
            && draft.forbiddenPatterns == draft.architecturalExpectations == draft.testExpectations
               == draft.styleConstraints == []
            && |draft.requiredSteps| == |given|
            && forall i :: 0 <= i < |given| ==>
                 && given[i] in documents && ChunksOf(given[i]).Ok?
                 && draft.requiredSteps[i].statement == given[i].body
                 && |draft.requiredSteps[i].citationIds| == |ChunksOf(given[i]).value|
                 && forall k :: 0 <= k < |ChunksOf(given[i]).value| ==>
                      draft.requiredSteps[i].citationIds[k] == ChunksOf(given[i]).value[k].chunkId
  {
    hide Pinned, Resolve, ChunksOf, Chunks, Valid, NoDup;
    PinnedParts(documents, context, catalog);
    ResolvedUnits(catalog, selection);
    given := DocumentsOf(documents, context, catalog, Resolve(catalog, selection).value);
  }

  // ---- Which drafts are accepted ----

  // Positions of units in the catalogue's order.
  ghost predicate Picks(catalog: SourceCatalog, at: seq<nat>) {
    Increasing(at) && forall i :: 0 <= i < |at| ==> at[i] < |catalog.units|
  }

  function Picked(catalog: SourceCatalog, at: seq<nat>): (units: seq<SourceUnit>)
    requires forall i :: 0 <= i < |at| ==> at[i] < |catalog.units|
    ensures |units| == |at| && forall i :: 0 <= i < |at| ==> units[i] == catalog.units[at[i]]
  {
    seq(|at|, i requires 0 <= i < |at| => catalog.units[at[i]])
  }

  lemma IncreasingLast(front: seq<nat>, x: nat)
    requires Increasing(front + [x])
    ensures Increasing(front)
    ensures forall k :: k in front ==> k < x
  {
    var at := front + [x];
    forall i, j | 0 <= i < j < |front| ensures front[i] < front[j] {
      assert at[i] < at[j];
    }
    forall k | k in front ensures k < x {
      var i :| 0 <= i < |front| && front[i] == k;
      assert at[i] < at[|front|];
    }
  }

  lemma NotEmpty(s: seq<nat>)
    ensures s == [] || exists k :: k in s
  {
    if s != [] {
      assert s[0] in s;
    }
  }

  // Two increasing lists of the same numbers are equal.
  lemma {:induction false} IncreasingSame(a: seq<nat>, b: seq<nat>)
    requires Increasing(a) && Increasing(b)
    requires forall k :: k in a <==> k in b
    ensures a == b
  {
    hide Increasing;
    if a != [] && b != [] {
      var front, x := a[..|a| - 1], a[|a| - 1];
      var rest, y := b[..|b| - 1], b[|b| - 1];
      assert a == front + [x] && b == rest + [y];
      IncreasingLast(front, x);
      IncreasingLast(rest, y);
      assert x in b && y in a;
      forall k ensures k in front <==> k in rest {
        assert k in front ==> k in b;
        assert k in rest ==> k in a;
      }
      IncreasingSame(front, rest);
    } else {
      NotEmpty(a);
      NotEmpty(b);
    }
  }

  lemma PickedSelectable(catalog: SourceCatalog, at: seq<nat>)
    requires DistinctOwners(catalog.units) && Picks(catalog, at) && at != []
    ensures Selectable(catalog, SourceSelection(SourceIds(Picked(catalog, at)), false))
  {
    var selection := SourceSelection(SourceIds(Picked(catalog, at)), false);
    var ids := selection.sourceIds;
    forall i | 0 <= i < |ids| ensures Known(catalog.units, ids[i]) {
      assert catalog.units[at[i]] in catalog.units && catalog.units[at[i]].sourceId == ids[i];
    }
    forall i, j | 0 <= i < j < |ids| ensures ids[i] != ids[j] {
      assert at[i] < at[j];
    }
  }

  lemma PickedNamed(catalog: SourceCatalog, at: seq<nat>, k: nat)
    requires DistinctOwners(catalog.units) && Picks(catalog, at) && k < |catalog.units|
    ensures catalog.units[k].sourceId in SourceIds(Picked(catalog, at)) <==> k in at
  {
    var ids := SourceIds(Picked(catalog, at));
    if k in at {
      var i :| 0 <= i < |at| && at[i] == k;
      assert ids[i] == catalog.units[k].sourceId;
    }
    if catalog.units[k].sourceId in ids {
      var i :| 0 <= i < |ids| && ids[i] == catalog.units[k].sourceId;
      assert at[i] == k;
    }
  }

  // Naming units in the catalogue's order selects just those.
  lemma PickedResolve(catalog: SourceCatalog, at: seq<nat>)
    requires DistinctOwners(catalog.units) && Picks(catalog, at) && at != []
    ensures Resolve(catalog, SourceSelection(SourceIds(Picked(catalog, at)), false)) == Ok(Picked(catalog, at))
  {
    hide Resolve, Selectable, DistinctOwners;
    var selection := SourceSelection(SourceIds(Picked(catalog, at)), false);
    PickedSelectable(catalog, at);
    ResolvesExactly(catalog, selection);
    var others := ResolvesTo(catalog, selection);
    forall k ensures k in at <==> k in others {
      if 0 <= k < |catalog.units| {
        PickedNamed(catalog, at, k);
      }
    }
    IncreasingSame(at, others);
    assert Resolve(catalog, selection).value == Picked(catalog, at);
  }

  // References of the guidance, none twice.
  ghost predicate SomeOf(ids: seq<string>, guides: seq<Guidance>) {
    && (forall i, j :: 0 <= i < j < |ids| ==> ids[i] != ids[j])
    && forall c :: c in ids ==> exists i :: 0 <= i < |guides| && c in guides[i].citationIds
  }

  // The draft is what these units of the catalogue are rendered as: their bodies and guidance in order, no
  // prose of its own, and their references, one list after another, or where some may be missing, some of
  // them once each.
  ghost predicate Shows(catalog: SourceCatalog, draft: PreflightDraft, at: seq<nat>, allowMissing: bool)
    requires Picks(catalog, at)
  {
    && at != []
    && !draft.insufficientContext && draft.summary == EXTRACTIVE_SUMMARY
    && draft.implementationGuidance == draft.reviewFlags == draft.testsRequired == []
    && |draft.planSteps| == |draft.applicablePolicies| == |at|
    && (forall i :: 0 <= i < |at| ==>
          var unit, guide := catalog.units[at[i]], draft.applicablePolicies[i];
          && draft.planSteps[i] == unit.body
          && guide.policyId == unit.policyId && guide.title == unit.title
          && guide.rationale == EXTRACTIVE_RATIONALE && guide.citationIds == unit.citationIds)
    && if allowMissing then SomeOf(draft.citationIds, draft.applicablePolicies)
       else exists starts :: Joined(draft.citationIds, draft.applicablePolicies, starts)
  }

  // Lists that follow one another are the concatenation.
  lemma {:induction false} JoinedIs(units: seq<SourceUnit>, ids: seq<string>, starts: seq<nat>, n: nat)
    requires n <= |units| && |starts| == |units| + 1 && starts[0] == 0
    requires forall i :: 0 <= i < |units| ==>
               starts[i + 1] == starts[i] + |units[i].citationIds| && Holding(ids, starts[i], units[i].citationIds)
    ensures starts[n] <= |ids| && ids[..starts[n]] == Citations(units[..n])
  {
    if n > 0 {
      JoinedIs(units, ids, starts, n - 1);
      assert units[..n][..n - 1] == units[..n - 1];
      assert Holding(ids, starts[n - 1], units[n - 1].citationIds);
      assert ids[..starts[n]] == ids[..starts[n - 1]] + ids[starts[n - 1]..starts[n]];
    }
  }

  lemma CitedByGuide(units: seq<SourceUnit>, c: string)
    ensures c in Citations(units) <==> exists i :: 0 <= i < |Guides(units)| && c in Guides(units)[i].citationIds
  {
    hide Citations;
    CitationsMember(units, c);
    if u :| u in units && c in u.citationIds {
      var i :| 0 <= i < |units| && units[i] == u;
      assert Guides(units)[i] == Guide(u);
    }
    if i :| 0 <= i < |Guides(units)| && c in Guides(units)[i].citationIds {
      assert units[i] in units;
    }
  }

  lemma SomeShown(units: seq<SourceUnit>, ids: seq<string>)
    ensures SomeOf(ids, Guides(units)) <==> NoDup(ids) && forall c :: c in ids ==> c in Citations(units)
  {
    hide Citations, Guides;
    forall c | c in ids
      ensures c in Citations(units) <==> exists i :: 0 <= i < |Guides(units)| && c in Guides(units)[i].citationIds
    {
      CitedByGuide(units, c);
    }
  }

  lemma AllShown(units: seq<SourceUnit>, ids: seq<string>)
    ensures (exists starts :: Joined(ids, Guides(units), starts)) <==> ids == Citations(units)
  {
    hide Holding, Citations;
    if starts :| Joined(ids, Guides(units), starts) {
      JoinedIs(units, ids, starts, |units|);
      assert units[..|units|] == units && ids[..|ids|] == ids;
    }
    if ids == Citations(units) {
      var starts := CitationsLaid(units);
      assert Joined(ids, Guides(units), starts);
    }
  }

  lemma ShowsRenders(catalog: SourceCatalog, draft: PreflightDraft, at: seq<nat>, allowMissing: bool)
    requires Picks(catalog, at) && NoDup(Citations(Picked(catalog, at)))
    ensures Shows(catalog, draft, at, allowMissing) <==>
              at != [] && Renders(draft, PreflightFrom(Picked(catalog, at)), allowMissing)
  {
    hide Joined, SomeOf, Citations, NoDup, Unique;
    var units := Picked(catalog, at);
    var expected := PreflightFrom(units);
    UniqueOfNoDup(Citations(units));
    if Shows(catalog, draft, at, allowMissing) {
      assert draft.planSteps == expected.planSteps;
      assert draft.applicablePolicies == expected.applicablePolicies;
    }
    if draft.applicablePolicies == Guides(units) {
      SomeShown(units, draft.citationIds);
      AllShown(units, draft.citationIds);
    }
  }

  lemma PickedFrom(catalog: SourceCatalog, at: seq<nat>)
    requires Valid(catalog) && Picks(catalog, at)
    ensures From(Picked(catalog, at), catalog) && DistinctOwners(catalog.units)
  {
    hide WithinBudget, WellFormedUnit;
  }

  // Over a pinned catalogue, a draft is accepted exactly when some units, in the catalogue's order, are
  // rendered as it, whatever it is that wrote the draft.
  lemma AcceptedExactly(documents: seq<Document>, context: seq<ScoredChunk>, catalog: SourceCatalog,
                        draft: PreflightDraft, allowMissing: bool)
    requires Pinned(documents, context, catalog)
    ensures Honest(catalog, draft, allowMissing) <==>
              exists at :: Picks(catalog, at) && Shows(catalog, draft, at, allowMissing)
  {
    hide Pinned, Resolve, Shows, Renders, Valid, PreflightFrom, NoDup;
    PinnedParts(documents, context, catalog);
    if Honest(catalog, draft, allowMissing) {
      var selection :| HonestFor(catalog, draft, allowMissing, selection);
      var at := ResolvesTo(catalog, selection);
      ResolvedUnits(catalog, selection);
      assert Picked(catalog, at) == Resolve(catalog, selection).value;
      CitationsNoDup(documents, context, catalog, Picked(catalog, at));
      ShowsRenders(catalog, draft, at, allowMissing);
    }
    if at :| Picks(catalog, at) && Shows(catalog, draft, at, allowMissing) {
      PickedFrom(catalog, at);
      CitationsNoDup(documents, context, catalog, Picked(catalog, at));
      ShowsRenders(catalog, draft, at, allowMissing);
      PickedResolve(catalog, at);
      assert HonestFor(catalog, draft, allowMissing, SourceSelection(SourceIds(Picked(catalog, at)), false));
    }
  }
}
