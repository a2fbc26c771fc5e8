/** What a compiled packet says, told in terms of the documents and files behind it: whole bodies, all their
    chunks as citations in order, each at its place in the file; after src/policynim/services/compiler.py. */
module PacketContents {
  import opened Text
  import opened Seqs
  import opened Chunking
  import opened Coordinates
  import opened Catalog
  import opened OutputBudget
  import opened Recognisers
  import opened PinnedSources
  import opened SourceBinding
  import opened UnitSources
  import opened Compilation
  import opened Grounding

  // The step is the whole document, with all its chunks and its one policy.
  ghost predicate StepOf(step: CompiledConstraint, d: Document) {
    && step.statement == d.body
    && step.sourcePolicyIds == [d.metadata.policyId]
    && ChunksOf(d).Ok? && |step.citationIds| == |ChunksOf(d).value|
    && forall k :: 0 <= k < |step.citationIds| ==> step.citationIds[k] == ChunksOf(d).value[k].chunkId
  }

  ghost predicate CitationFor(citation: Citation, c: Chunk) {
    && citation.chunkId == c.chunkId
    && citation.policyId == c.policy.policyId
    && citation.title == c.policy.title
    && citation.path == c.path
    && citation.section == c.section
    && citation.lines == c.lines
  }

  // The citations from `start` on are those of the document's chunks, in order.
  ghost predicate CitesFrom(citations: seq<Citation>, start: nat, d: Document) {
    && ChunksOf(d).Ok? && start + |ChunksOf(d).value| <= |citations|
    && forall k :: 0 <= k < |ChunksOf(d).value| ==> CitationFor(citations[start + k], ChunksOf(d).value[k])
  }

  // The documents' citations follow one another from `starts[0]` to the end.
  ghost predicate Laid(citations: seq<Citation>, starts: seq<nat>, given: seq<Document>) {
    && |starts| == |given| + 1 && starts[0] == 0 && starts[|given|] == |citations|
    && forall i :: 0 <= i < |given| ==>
         && CitesFrom(citations, starts[i], given[i])
         && starts[i + 1] == starts[i] + |ChunksOf(given[i]).value|
  }

  // ---- Citations of units, one list after another ----

  ghost predicate Holding(ids: seq<string>, start: nat, part: seq<string>) {
    start + |part| <= |ids| && ids[start..start + |part|] == part
  }

  lemma StillHolding(ids: seq<string>, more: seq<string>, start: nat, part: seq<string>)
    requires Holding(ids, start, part)
    ensures Holding(ids + more, start, part)
  {
    assert (ids + more)[start..start + |part|] == ids[start..start + |part|];
  }

  lemma HoldingLast(ids: seq<string>, part: seq<string>)
    ensures Holding(ids + part, |ids|, part)
  {
  }

  lemma CitationsLast(units: seq<SourceUnit>)
    ensures Citations(units) ==
              if units == [] then [] else Citations(units[..|units| - 1]) + units[|units| - 1].citationIds
  {
  }

  lemma {:induction false} CitationsLaid(units: seq<SourceUnit>) returns (starts: seq<nat>)
    ensures |starts| == |units| + 1 && starts[0] == 0 && starts[|units|] == |Citations(units)|
    ensures forall i :: 0 <= i < |units| ==>
              && starts[i + 1] == starts[i] + |units[i].citationIds|
              && Holding(Citations(units), starts[i], units[i].citationIds)
  {
    hide Holding, Citations;
    CitationsLast(units);
    if units == [] {
      starts := [0];
    } else {
      var n := |units| - 1;
      var earlier, last := Citations(units[..n]), units[n].citationIds;
      starts := CitationsLaid(units[..n]);
      forall i | 0 <= i < n ensures Holding(earlier + last, starts[i], units[i].citationIds) {
        assert units[..n][i] == units[i];
        StillHolding(earlier, last, starts[i], units[i].citationIds);
      }
      HoldingLast(earlier, last);
      starts := starts + [|earlier| + |last|];
    }
  }

  // ---- The documents of a packet ----

  // The document that a unit of the catalogue is.
  lemma DocumentOf(documents: seq<Document>, context: seq<ScoredChunk>, catalog: SourceCatalog, unit: SourceUnit)
    returns (d: Document)
    requires Pinned(documents, context, catalog) && unit in catalog.units
    ensures d in documents && InContext(d, context)
    ensures d.metadata.policyId == unit.policyId && d.metadata.title == unit.title && d.body == unit.body
    ensures |unit.citationIds| == |ChunksOf(d).value|
    ensures forall k :: 0 <= k < |unit.citationIds| ==> unit.citationIds[k] == ChunksOf(d).value[k].chunkId
  {
    hide Pinned, ChunksOf, OnlyAt;
    var at := UnitsComeFrom(documents, context, catalog);
    var i :| 0 <= i < |catalog.units| && catalog.units[i] == unit;
    d := documents[at[i]];
  }

  ghost predicate IsDocument(documents: seq<Document>, context: seq<ScoredChunk>, unit: SourceUnit, d: Document) {
    && d in documents && InContext(d, context)
    && d.metadata.policyId == unit.policyId && d.metadata.title == unit.title && d.body == unit.body
    && |unit.citationIds| == |ChunksOf(d).value|
    && forall k :: 0 <= k < |unit.citationIds| ==> unit.citationIds[k] == ChunksOf(d).value[k].chunkId
  }

  lemma {:induction false} DocumentsOf(documents: seq<Document>, context: seq<ScoredChunk>, catalog: SourceCatalog,
                                       units: seq<SourceUnit>)
    returns (given: seq<Document>)
    requires Pinned(documents, context, catalog) && forall u :: u in units ==> u in catalog.units
    ensures |given| == |units|
    ensures forall i :: 0 <= i < |units| ==> IsDocument(documents, context, units[i], given[i])
  {
    hide Pinned, ChunksOf, InContext;
    given := [];
    if units != [] {
      var n := |units| - 1;
      given := DocumentsOf(documents, context, catalog, units[..n]);
      var d := DocumentOf(documents, context, catalog, units[n]);
      given := given + [d];
    }
  }

  lemma CitedFrom(documents: seq<Document>, context: seq<ScoredChunk>, unit: SourceUnit, d: Document,
                  ids: seq<string>, start: nat, byId: map<string, Chunk>)
    requires IsDocument(documents, context, unit, d)
    requires Holding(ids, start, unit.citationIds)
    requires forall id :: id in ids ==> id in byId
    requires forall c :: c in Chunks(context) ==> c.chunkId in byId && byId[c.chunkId] == c
    ensures CitesFrom(CitationsFor(ids, byId), start, d)
  {
    hide ChunksOf, Chunks;
    var chunks, citations := ChunksOf(d).value, CitationsFor(ids, byId);
    forall k | 0 <= k < |chunks| ensures CitationFor(citations[start + k], chunks[k]) {
      assert ids[start..start + |unit.citationIds|][k] == ids[start + k];
      assert chunks[k] in chunks;
    }
  }

  lemma CitationsLaidOut(documents: seq<Document>, context: seq<ScoredChunk>, units: seq<SourceUnit>,
                         given: seq<Document>, byId: map<string, Chunk>)
    returns (starts: seq<nat>)
    requires |given| == |units|
    requires forall i :: 0 <= i < |units| ==> IsDocument(documents, context, units[i], given[i])
    requires forall id :: id in Citations(units) ==> id in byId
    requires forall c :: c in Chunks(context) ==> c.chunkId in byId && byId[c.chunkId] == c
    ensures Laid(CitationsFor(Citations(units), byId), starts, given)
  {
    hide ChunksOf, Chunks, CitesFrom, Citations, Holding;
    starts := CitationsLaid(units);
    forall i | 0 <= i < |given| ensures CitesFrom(CitationsFor(Citations(units), byId), starts[i], given[i]) {
      CitedFrom(documents, context, units[i], given[i], Citations(units), starts[i], byId);
    }
  }

  // ---- The packet ----

  lemma StepIsDocument(documents: seq<Document>, context: seq<ScoredChunk>, unit: SourceUnit, d: Document)
    requires IsDocument(documents, context, unit, d)
    ensures StepOf(Grounded(unit), d)
  {
    hide ChunksOf, Chunks;
  }

  // Everything in a packet whose context sufficed: one whole document for each step that the draft quotes,
  // all of different policies, and their chunks as citations, one document after another.
  ghost predicate Says(packet: Packet, documents: seq<Document>, given: seq<Document>) {
    && !packet.insufficientContext
    && packet.forbiddenPatterns == packet.architecturalExpectations == packet.testExpectations
       == packet.styleConstraints == []
    && |given| == |packet.requiredSteps| > 0
    && (forall i :: 0 <= i < |given| ==> given[i] in documents && StepOf(packet.requiredSteps[i], given[i]))
    && (forall i, j :: 0 <= i < j < |given| ==> given[i].metadata.policyId != given[j].metadata.policyId)
    && exists starts :: Laid(packet.citations, starts, given)
  }

  // A packet without enough context says nothing.
  predicate SaysNothing(packet: Packet) {
    && packet.insufficientContext
    && packet.requiredSteps == packet.forbiddenPatterns == packet.architecturalExpectations
       == packet.testExpectations == packet.styleConstraints == []
    && packet.citations == []
  }

  lemma DifferentPolicies(catalog: SourceCatalog, units: seq<SourceUnit>, i: nat, j: nat)
    requires DistinctOwners(catalog.units) && From(units, catalog) && i < j < |units|
    ensures units[i].policyId != units[j].policyId
  {
    assert units[i] in units && units[j] in units;
    var k :| 0 <= k < |catalog.units| && catalog.units[k] == units[i];
    var l :| 0 <= l < |catalog.units| && catalog.units[l] == units[j];
  }

  lemma ValidOwners(catalog: SourceCatalog)
    requires Valid(catalog)
    ensures DistinctOwners(catalog.units)
  {
  }

  lemma GivenDocument(documents: seq<Document>, context: seq<ScoredChunk>, unit: SourceUnit, d: Document)
    requires IsDocument(documents, context, unit, d)
    ensures d in documents && d.metadata.policyId == unit.policyId
  {
  }

  lemma PacketSays(documents: seq<Document>, context: seq<ScoredChunk>, catalog: SourceCatalog,
                   arranged: seq<ScoredChunk>, selection: SelectionPacket, units: seq<SourceUnit>)
    returns (given: seq<Document>)
    requires Held(documents, context, catalog, arranged) && From(units, catalog) && units != []
    requires forall id :: id in Citations(units) ==> id in ContextById(arranged)
    ensures Says(GroundedPacket(selection, units, ContextById(arranged)), documents, given)
    ensures |given| == |units|
    ensures forall i :: 0 <= i < |units| ==> IsDocument(documents, context, units[i], given[i])
  {
    hide Held, Supplied, Pinned, Valid, Binds, ContextById, Citations, StepOf, IsDocument, Laid, Chunks, DistinctOwners;
    HeldPinned(documents, context, catalog, arranged);
    SuppliedFacts(documents, context, catalog, arranged);
    given := DocumentsOf(documents, context, catalog, units);
    var packet := GroundedPacket(selection, units, ContextById(arranged));
    forall i | 0 <= i < |units| ensures given[i] in documents && StepOf(packet.requiredSteps[i], given[i]) {
      StepIsDocument(documents, context, units[i], given[i]);
      GivenDocument(documents, context, units[i], given[i]);
    }
    forall i, j | 0 <= i < j < |given| ensures given[i].metadata.policyId != given[j].metadata.policyId {
      ValidOwners(catalog);
      DifferentPolicies(catalog, units, i, j);
      GivenDocument(documents, context, units[i], given[i]);
      GivenDocument(documents, context, units[j], given[j]);
    }
    var starts := CitationsLaidOut(documents, context, units, given, ContextById(arranged));
  }

  lemma DocumentBody(documents: seq<Document>, context: seq<ScoredChunk>, unit: SourceUnit, d: Document)
    requires IsDocument(documents, context, unit, d)
    ensures d.body == unit.body
  {
  }

  // Whatever a compiler answers over a pinned catalogue, the packet repeats the selection and says nothing,
  // or its steps are the whole documents that the answer quotes, in the answer's order.
  lemma CompiledPacketSays(documents: seq<Document>, context: seq<ScoredChunk>, catalog: SourceCatalog,
                           arranged: seq<ScoredChunk>, selection: SelectionPacket, draft: CompiledDraft,
                           later: SourceCatalog)
    returns (given: seq<Document>)
    requires Held(documents, context, catalog, arranged)
    ensures var r := Compiled(selection, arranged, catalog, draft, later);
            r.Ok? ==>
              && r.value.selection == selection
              && if r.value.insufficientContext then SaysNothing(r.value)
                 else
                   && Says(r.value, documents, given)
                   && |given| == |draft.requiredSteps|
                   && forall i :: 0 <= i < |given| ==> draft.requiredSteps[i].statement == given[i].body
  {
    hide Held, FitsOutput, PacketJson, ContextById, Citations, FirstQuoted, NoDup, From, Says, Compiled;
    CompilationFailsClosed(documents, context, catalog, arranged, selection, draft, later);
    var r := Compiled(selection, arranged, catalog, draft, later);
    given := [];
    if !selection.insufficientContext && later == catalog && QuotesUnits(catalog, draft) {
      var units := Quoted(catalog, draft.requiredSteps);
      given := PacketSays(documents, context, catalog, arranged, selection, units);
      forall i | 0 <= i < |given| ensures draft.requiredSteps[i].statement == given[i].body {
        assert Quote(units[i]) == draft.requiredSteps[i];
        DocumentBody(documents, context, units[i], given[i]);
      }
    }
  }

  // ---- The files behind it ----

  // The citation names the document's file and, by line numbers of that file, lines that are the text.
  ghost predicate Locates(citation: Citation, d: Document, file: string, text: string) {
    && citation.path == d.sourcePath
    && citation.policyId == d.metadata.policyId
    && citation.title == d.metadata.title
    && exists first: nat, last: nat ::
         && 1 <= first <= last <= |SplitLines(file)|
         && citation.lines == FormatSpan(first, last)
         && text == Strip(Join(FileLines(file, first, last)))
  }

  lemma ChunkPlace(d: Document, k: nat)
    requires ChunksOf(d).Ok? && k < |ChunksOf(d).value|
    ensures SectionsIn(d).Ok? && |SectionsIn(d).value| == |ChunksOf(d).value|
    ensures var c, section := ChunksOf(d).value[k], SectionsIn(d).value[k];
            && c.path == d.sourcePath && c.policy == d.metadata && c.text == section.content
            && c.section == JoinWith(" > ", if section.path == [] then [d.metadata.title] else section.path)
  {
    hide SectionsIn;
    ExtractedSpanned(d);
  }

  // Every citation of a document parsed from a file leads to the lines of that file that it stands for.
  lemma CitationLocates(citations: seq<Citation>, start: nat, d: Document, file: string, k: nat)
    requires CitesFrom(citations, start, d) && ParsedFrom(d, file) && k < |ChunksOf(d).value|
    ensures Locates(citations[start + k], d, file, ChunksOf(d).value[k].text)
  {
    hide ChunksOf, FormatSpan, Strip, ParsedFrom, SplitLines;
    var c := ChunksOf(d).value[k];
    ChunkPlace(d, k);
    EveryCitationQuotes(d, file, k);
    var first: nat, last: nat :| QuotesFile(c, file, first, last);
    assert CitationFor(citations[start + k], c);
  }
}
