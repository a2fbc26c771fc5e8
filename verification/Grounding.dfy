/** What compilation over a pinned catalogue can produce: nothing, or whole units with their complete
    citations and their one owning policy; and the way back from such a packet to the catalogue. */
module Grounding {
  import opened Results
  import opened Text
  import opened Seqs
  import opened Json
  import opened Chunking
  import opened Catalog
  import opened OutputBudget
  import opened Recognisers
  import opened PinnedSources
  import opened SourceBinding
  import opened Ordering
  import opened Compilation

  // A pinned catalogue and an arrangement of its context.
  ghost predicate Supplied(documents: seq<Document>, context: seq<ScoredChunk>, catalog: SourceCatalog,
                           arranged: seq<ScoredChunk>)
  {
    && Pinned(documents, context, catalog)
    && multiset(Chunks(arranged)) == multiset(Chunks(context))
  }

  // None of its policies' identifiers begins with a blank.
  ghost predicate Held(documents: seq<Document>, context: seq<ScoredChunk>, catalog: SourceCatalog,
                       arranged: seq<ScoredChunk>)
  {
    && Supplied(documents, context, catalog, arranged)
    && forall u :: u in catalog.units ==> !StartsBlank(u.policyId)
  }

  lemma {:induction false} ChunkAllTrimmed(documents: seq<Document>, c: Chunk)
    requires ChunkAll(documents).Some? && c in ChunkAll(documents).value
    ensures Trimmed(c.chunkId) <==> !StartsBlank(c.policy.policyId)
  {
    if documents != [] {
      hide ChunkAll, ChunksOf, Trimmed, StartsBlank;
      ChunkAllLast(documents);
      var front, last := documents[..|documents| - 1], documents[|documents| - 1];
      if c in ChunkAll(front).value {
        ChunkAllTrimmed(front, c);
      } else {
        var i :| 0 <= i < |ChunksOf(last).value| && ChunksOf(last).value[i] == c;
        ChunkIdsTrimmed(last, i);
      }
    }
  }

  // Stripping leaves the citations of a unit alone exactly when its policy's identifier begins with no blank.
  lemma CitationTrimmed(documents: seq<Document>, context: seq<ScoredChunk>, catalog: SourceCatalog,
                        unit: SourceUnit, id: string)
    requires Pinned(documents, context, catalog) && unit in catalog.units && id in unit.citationIds
    ensures Trimmed(id) <==> !StartsBlank(unit.policyId)
  {
    hide Pinned, ChunkAll, Trimmed, StartsBlank, OwnersOf, MatchesExpected, SortById, Valid, PolicyIds;
    PinnedParts(documents, context, catalog);
    var owners := OwnersOf(documents, context);
    SameChunks(Chunks(context), ChunkAll(owners).value);
    var i :| 0 <= i < |catalog.units| && catalog.units[i] == unit;
    var c := CitedChunk(documents, context, catalog, i, id);
    ChunkAllTrimmed(owners, c);
  }

  lemma OwnerGiven(documents: seq<Document>, context: seq<ScoredChunk>, d: Document)
    requires d in OwnersOf(documents, context)
    ensures d in documents
  {
    hide PolicyIds;
    OwnersInMember(documents, PolicyIds(Chunks(context)), d);
  }

  // It is enough that no document's policy identifier begins with a blank.
  lemma UnblankPoliciesHeld(documents: seq<Document>, context: seq<ScoredChunk>, catalog: SourceCatalog,
                            arranged: seq<ScoredChunk>)
    requires Supplied(documents, context, catalog, arranged)
    requires forall d :: d in documents ==> !StartsBlank(d.metadata.policyId)
    ensures Held(documents, context, catalog, arranged)
  {
    hide Pinned, ChunkAll, StartsBlank, OwnersOf, MatchesExpected, SortById, Valid, PolicyIds;
    PinnedParts(documents, context, catalog);
    var owners := OwnersOf(documents, context);
    forall u | u in catalog.units ensures !StartsBlank(u.policyId) {
      var i :| 0 <= i < |catalog.units| && catalog.units[i] == u;
      OwnerGiven(documents, context, owners[i]);
    }
  }

  lemma {:induction false} ContextByIdFacts(context: seq<ScoredChunk>, c: Chunk)
    requires DistinctChunkIds(Chunks(context)) && c in Chunks(context)
    ensures c.chunkId in ContextById(context) && ContextById(context)[c.chunkId] == c
  {
    var front, last := context[..|context| - 1], context[|context| - 1].chunk;
    var i :| 0 <= i < |context| && Chunks(context)[i] == c;
    assert Chunks(context)[|context| - 1] == last;
    if i < |context| - 1 {
      assert Chunks(front)[i] == c;
      assert forall k :: 0 <= k < |front| ==> Chunks(front)[k] == Chunks(context)[k];
      ContextByIdFacts(front, c);
    }
  }

  lemma SuppliedFacts(documents: seq<Document>, context: seq<ScoredChunk>, catalog: SourceCatalog,
                      arranged: seq<ScoredChunk>)
    requires Supplied(documents, context, catalog, arranged)
    ensures Valid(catalog) && Binds(catalog, arranged)
    ensures DistinctChunkIds(Chunks(arranged))
    ensures forall c :: c in Chunks(context) ==>
              c in Chunks(arranged) && c.chunkId in ContextById(arranged) && ContextById(arranged)[c.chunkId] == c
  {
    hide Pinned, Valid, ContextById, IdSet, UnitByCitation;
    PinnedParts(documents, context, catalog);
    BindsExactly(documents, context, catalog, arranged);
    SameIdSet(Chunks(context), Chunks(arranged));
    forall c | c in Chunks(context)
      ensures c in Chunks(arranged) && c.chunkId in ContextById(arranged) && ContextById(arranged)[c.chunkId] == c
    {
      ContextByIdFacts(arranged, c);
    }
  }

  // A cited identifier is a key of the context, owned by the unit's policy.
  lemma CitationGrounded(documents: seq<Document>, context: seq<ScoredChunk>, catalog: SourceCatalog,
                         arranged: seq<ScoredChunk>, unit: SourceUnit, id: string)
    requires Supplied(documents, context, catalog, arranged) && unit in catalog.units && id in unit.citationIds
    ensures id in ContextById(arranged) && ContextById(arranged)[id].policy.policyId == unit.policyId
  {
    hide Pinned, Valid, ContextById, Binds;
    var i :| 0 <= i < |catalog.units| && catalog.units[i] == unit;
    var c := CitedChunk(documents, context, catalog, i, id);
    SuppliedFacts(documents, context, catalog, arranged);
  }

  function Grounded(unit: SourceUnit): CompiledConstraint {
    CompiledConstraint(unit.body, unit.citationIds, [unit.policyId])
  }

  function GroundedAll(units: seq<SourceUnit>): (steps: seq<CompiledConstraint>)
    ensures |steps| == |units| && forall i :: 0 <= i < |units| ==> steps[i] == Grounded(units[i])
  {
    if units == [] then [] else GroundedAll(units[..|units| - 1]) + [Grounded(units[|units| - 1])]
  }

  lemma {:induction false} UniqueOfConstant<T>(s: seq<T>, x: T)
    requires s != [] && forall i :: 0 <= i < |s| ==> s[i] == x
    ensures Unique(s) == [x]
  {
    if |s| > 1 {
      UniqueOfConstant(s[..|s| - 1], x);
    } else {
      assert s[..|s| - 1] == [];
    }
  }

  lemma UnitWellFormed(catalog: SourceCatalog, unit: SourceUnit)
    requires Valid(catalog) && unit in catalog.units
    ensures unit.body != "" && unit.citationIds != [] && NoDup(unit.citationIds)
  {
    hide WithinBudget;
    var i :| 0 <= i < |catalog.units| && catalog.units[i] == unit;
    assert WellFormedUnit(unit);
    assert Strip("") == "";
  }

  lemma TrimmedQuoteCompiles(documents: seq<Document>, context: seq<ScoredChunk>, catalog: SourceCatalog,
                             arranged: seq<ScoredChunk>, unit: SourceUnit)
    requires Supplied(documents, context, catalog, arranged) && unit in catalog.units && !StartsBlank(unit.policyId)
    ensures CompileStep(Quote(unit), ContextById(arranged)) == Some(Grounded(unit))
  {
    hide ContextById, Strip, Valid, Unique, Pinned, NoDup, StartsBlank, Trimmed;
    SuppliedFacts(documents, context, catalog, arranged);
    UnitWellFormed(catalog, unit);
    var ids, byId := unit.citationIds, ContextById(arranged);
    forall id | id in ids ensures id in byId && byId[id].policy.policyId == unit.policyId && Strip(id) == id {
      CitationGrounded(documents, context, catalog, arranged, unit, id);
      CitationTrimmed(documents, context, catalog, unit, id);
      StripOfTrimmed(id);
    }
    assert Stripped(ids) == ids;
    UniqueOfNoDup(ids);
    UniqueOfConstant(PoliciesCited(ids, byId), unit.policyId);
  }

  lemma CompiledTrimmed(step: Constraint, byId: map<string, Chunk>, id: string)
    requires CompileStep(step, byId).Some? && id in CompileStep(step, byId).value.citationIds
    ensures Trimmed(id)
  {
    hide Strip, Trimmed, Unique;
    var stripped := Stripped(step.citationIds);
    UniqueFacts(stripped);
    var i :| 0 <= i < |stripped| && stripped[i] == id;
    StripFacts(step.citationIds[i]);
  }

  // Quoting a unit compiles to its whole body, all its citations, and its single owning policy, exactly when
  // that policy's identifier does not begin with a blank.
  lemma QuoteCompiles(documents: seq<Document>, context: seq<ScoredChunk>, catalog: SourceCatalog,
                      arranged: seq<ScoredChunk>, unit: SourceUnit)
    requires Supplied(documents, context, catalog, arranged) && unit in catalog.units
    ensures CompileStep(Quote(unit), ContextById(arranged)) == Some(Grounded(unit)) <==> !StartsBlank(unit.policyId)
  {
    hide ContextById, Valid, Pinned, NoDup, StartsBlank, Trimmed, CompileStep;
    SuppliedFacts(documents, context, catalog, arranged);
    UnitWellFormed(catalog, unit);
    if !StartsBlank(unit.policyId) {
      TrimmedQuoteCompiles(documents, context, catalog, arranged, unit);
    } else if CompileStep(Quote(unit), ContextById(arranged)) == Some(Grounded(unit)) {
      var id := unit.citationIds[0];
      CompiledTrimmed(Quote(unit), ContextById(arranged), id);
      CitationTrimmed(documents, context, catalog, unit, id);
      assert false;
    }
  }

  lemma HeldQuoteCompiles(documents: seq<Document>, context: seq<ScoredChunk>, catalog: SourceCatalog,
                          arranged: seq<ScoredChunk>, unit: SourceUnit)
    requires Held(documents, context, catalog, arranged) && unit in catalog.units
    ensures CompileStep(Quote(unit), ContextById(arranged)) == Some(Grounded(unit))
  {
    hide Supplied, ContextById, StartsBlank, CompileStep;
    QuoteCompiles(documents, context, catalog, arranged, unit);
  }

  lemma {:induction false} QuotesCompile(documents: seq<Document>, context: seq<ScoredChunk>, catalog: SourceCatalog,
                                         arranged: seq<ScoredChunk>, units: seq<SourceUnit>)
    requires Held(documents, context, catalog, arranged) && forall u :: u in units ==> u in catalog.units
    ensures CompileList(Quotes(units), ContextById(arranged)) == Some(GroundedAll(units))
    ensures CitedIn(GroundedAll(units)) == Citations(units)
  {
    hide Held, ContextById, CompileStep;
    if units != [] {
      var front, last := units[..|units| - 1], units[|units| - 1];
      QuotesCompile(documents, context, catalog, arranged, front);
      HeldQuoteCompiles(documents, context, catalog, arranged, last);
      assert Quotes(units)[..|units| - 1] == Quotes(front);
      assert GroundedAll(units)[..|units| - 1] == GroundedAll(front);
    }
  }

  lemma {:induction false} CitationsMember(units: seq<SourceUnit>, id: string)
    ensures id in Citations(units) <==> exists u :: u in units && id in u.citationIds
  {
    if units != [] {
      var front, last := units[..|units| - 1], units[|units| - 1];
      CitationsMember(front, id);
      assert units == front + [last];
      assert last in units;
    }
  }

  lemma CitedByOneUnit(documents: seq<Document>, context: seq<ScoredChunk>, catalog: SourceCatalog,
                       a: SourceUnit, b: SourceUnit, id: string)
    requires Pinned(documents, context, catalog) && a in catalog.units && b in catalog.units
    requires id in a.citationIds && id in b.citationIds
    ensures a == b
  {
    hide Pinned;
    var i :| 0 <= i < |catalog.units| && catalog.units[i] == a;
    var j :| 0 <= j < |catalog.units| && catalog.units[j] == b;
    if i < j {
      CitationsDisjoint(documents, context, catalog, i, j, id);
    } else if j < i {
      CitationsDisjoint(documents, context, catalog, j, i, id);
    }
  }

  lemma CitationsApart(documents: seq<Document>, context: seq<ScoredChunk>, catalog: SourceCatalog,
                       front: seq<SourceUnit>, last: SourceUnit)
    requires Pinned(documents, context, catalog) && last in catalog.units && last !in front
    requires forall u :: u in front ==> u in catalog.units
    ensures forall id :: id in last.citationIds ==> id !in Citations(front)
    ensures NoDup(last.citationIds)
  {
    hide Pinned, Citations, NoDup, Valid;
    PinnedParts(documents, context, catalog);
    UnitWellFormed(catalog, last);
    forall id | id in last.citationIds ensures id !in Citations(front) {
      CitationsMember(front, id);
      if id in Citations(front) {
        var u :| u in front && id in u.citationIds;
        CitedByOneUnit(documents, context, catalog, u, last, id);
      }
    }
  }

  // Distinct units of a pinned catalogue share no citation, so listing theirs repeats none.
  lemma {:induction false} CitationsNoDup(documents: seq<Document>, context: seq<ScoredChunk>, catalog: SourceCatalog,
                                          units: seq<SourceUnit>)
    requires Pinned(documents, context, catalog) && From(units, catalog)
    ensures NoDup(Citations(units))
  {
    if units != [] {
      hide Pinned;
      var front, last := units[..|units| - 1], units[|units| - 1];
      MultisetFront(units);
      CitationsNoDup(documents, context, catalog, front);
      CitationsApart(documents, context, catalog, front, last);
      NoDupConcat(Citations(front), last.citationIds);
    }
  }

  lemma CitationsInContext(documents: seq<Document>, context: seq<ScoredChunk>, catalog: SourceCatalog,
                           arranged: seq<ScoredChunk>, units: seq<SourceUnit>)
    requires Held(documents, context, catalog, arranged) && From(units, catalog)
    ensures forall id :: id in Citations(units) ==> id in ContextById(arranged)
    ensures units != [] ==> Citations(units) != []
  {
    hide Supplied, StartsBlank, ContextById, Citations, Valid, Binds;
    SuppliedFacts(documents, context, catalog, arranged);
    forall id | id in Citations(units) ensures id in ContextById(arranged) {
      CitationsMember(units, id);
      var u :| u in units && id in u.citationIds;
      CitationGrounded(documents, context, catalog, arranged, u, id);
    }
    if units != [] {
      assert units[0] in units;
      UnitWellFormed(catalog, units[0]);
      CitationsMember(units, units[0].citationIds[0]);
    }
  }

  // The packet that whole units are compiled into.
  function GroundedPacket(selection: SelectionPacket, units: seq<SourceUnit>, byId: map<string, Chunk>): Packet
    requires forall id :: id in Citations(units) ==> id in byId
  {
    Packet(selection, GroundedAll(units), [], [], [], [], CitationsFor(Citations(units), byId), false)
  }

  lemma NothingCompiles(byId: map<string, Chunk>)
    ensures CompileList([], byId) == Some([])
  {
  }

  lemma HeldPinned(documents: seq<Document>, context: seq<ScoredChunk>, catalog: SourceCatalog,
                   arranged: seq<ScoredChunk>)
    requires Held(documents, context, catalog, arranged)
    ensures Supplied(documents, context, catalog, arranged) && Pinned(documents, context, catalog) && Valid(catalog)
  {
    hide Pinned, Valid;
    PinnedParts(documents, context, catalog);
  }

  // Materialising distinct units gives exactly their grounded packet.
  lemma MaterializeUnits(documents: seq<Document>, context: seq<ScoredChunk>, catalog: SourceCatalog,
                         arranged: seq<ScoredChunk>, selection: SelectionPacket, units: seq<SourceUnit>)
    requires Held(documents, context, catalog, arranged) && From(units, catalog) && units != []
    ensures forall id :: id in Citations(units) ==> id in ContextById(arranged)
    ensures Materialize(selection, arranged, CompiledFrom(units)) ==
              GroundedPacket(selection, units, ContextById(arranged))
  {
    hide Held, Pinned, ContextById, Citations, CitedIn, Unique, NoDup, CompileList, Quotes, GroundedAll;
    var byId, ids := ContextById(arranged), Citations(units);
    HeldPinned(documents, context, catalog, arranged);
    QuotesCompile(documents, context, catalog, arranged, units);
    CitationsInContext(documents, context, catalog, arranged, units);
    CitationsNoDup(documents, context, catalog, units);
    UniqueOfNoDup(ids);
    assert ids[0] in byId;
    NothingCompiles(byId);
    assert GroundedAll(units) + [] + [] + [] + [] == GroundedAll(units);
  }

  // ---- The whole compilation ----

  function ConstraintFields(c: CompiledConstraint): Json {
    Object([Field("statement", Text(c.statement)), Field("citation_ids", List(TextItems(c.citationIds))),
            Field("source_policy_ids", List(TextItems(c.sourcePolicyIds)))])
  }

  function CompiledItems(steps: seq<CompiledConstraint>): seq<Json> {
    if steps == [] then [] else CompiledItems(steps[..|steps| - 1]) + [ConstraintFields(steps[|steps| - 1])]
  }

  function CitationJson(c: Citation): Json {
    Object([Field("policy_id", Text(c.policyId)), Field("title", Text(c.title)), Field("path", Text(c.path)),
            Field("section", Text(c.section)), Field("lines", Text(c.lines)), Field("chunk_id", Text(c.chunkId)),
            Field("resource_uri", Null)])
  }

  function CitationItems(citations: seq<Citation>): seq<Json> {
    if citations == [] then []
    else CitationItems(citations[..|citations| - 1]) + [CitationJson(citations[|citations| - 1])]
  }

  // The fields of a packet that the compilation itself fills in.
  function OwnFields(packet: Packet): seq<Field> {
    [Field("required_steps", List(CompiledItems(packet.requiredSteps))),
     Field("forbidden_patterns", List(CompiledItems(packet.forbiddenPatterns))),
     Field("architectural_expectations", List(CompiledItems(packet.architecturalExpectations))),
     Field("test_expectations", List(CompiledItems(packet.testExpectations))),
     Field("style_constraints", List(CompiledItems(packet.styleConstraints))),
     Field("citations", List(CitationItems(packet.citations))),
     Field("insufficient_context", Bool(packet.insufficientContext))]
  }

  function PacketJson(packet: Packet): Json {
    Object(packet.selection.echo + OwnFields(packet))
  }

  const NO_DRAFT := CompiledDraft([], [], [], [], [], true)

  ghost function Compiled(selection: SelectionPacket, context: seq<ScoredChunk>, catalog: SourceCatalog,
                          draft: CompiledDraft, later: SourceCatalog): Result<Packet, ContextError>
  {
    if selection.insufficientContext || context == [] || catalog.units == [] then Ok(InsufficientPacket(selection))
    else if !Binds(catalog, context) then Err(IdentityMismatch)
    else
      var packet := Materialize(selection, context,
                                if later == catalog && QuotesUnits(catalog, draft) then draft else NO_DRAFT);
      if FitsOutput(PacketJson(packet)) then Ok(packet) else Err(OutputBudget)
  }

  // Routed evidence, the catalogue resolved for it, an untrusted draft, and the catalogue resolved again.
  method Compile(selection: SelectionPacket, context: seq<ScoredChunk>, catalog: SourceCatalog, draft: CompiledDraft,
                 later: SourceCatalog)
    returns (r: Result<Packet, ContextError>)
    requires Valid(catalog)
    ensures r == Compiled(selection, context, catalog, draft, later)
  {
    hide Valid, Binds, QuotesUnits, FitsOutput, PacketJson, Materialize;
    if selection.insufficientContext || context == [] {
      return Ok(InsufficientPacket(selection));
    }
    if catalog.units == [] {
      return Ok(InsufficientPacket(selection));
    }
    if !Binds(catalog, context) {
      return Err(IdentityMismatch);
    }
    var accepted := AcceptsCompiler(catalog, draft);
    var used := if later != catalog || !accepted then NO_DRAFT else draft;
    var packet := Materialize(selection, context, used);
    if !FitsOutput(PacketJson(packet)) {
      return Err(OutputBudget);
    }
    return Ok(packet);
  }

  lemma NoDraftInsufficient(selection: SelectionPacket, context: seq<ScoredChunk>)
    ensures Materialize(selection, context, NO_DRAFT) == InsufficientPacket(selection)
  {
  }

  lemma PinnedNonempty(documents: seq<Document>, context: seq<ScoredChunk>, catalog: SourceCatalog,
                       arranged: seq<ScoredChunk>)
    requires Held(documents, context, catalog, arranged)
    ensures catalog.units != [] && arranged != []
  {
    hide PolicyIds, OwnersIn, ChunkAll, MatchesExpected, UnitsFor, Construct;
    assert |multiset(Chunks(arranged))| == |arranged| && |multiset(Chunks(context))| == |context|;
  }

  // The result is the packet, or it is too large.
  ghost predicate UnlessTooLarge(r: Result<Packet, ContextError>, packet: Packet) {
    r == Ok(packet) || (r == Err(OutputBudget) && !FitsOutput(PacketJson(packet)))
  }

  // Whatever a compiler answers over a pinned catalogue, the packet is insufficient, or the answer quoted
  // distinct whole units and the packet is exactly theirs; only its size can still be refused.
  lemma CompilationFailsClosed(documents: seq<Document>, context: seq<ScoredChunk>, catalog: SourceCatalog,
                               arranged: seq<ScoredChunk>, selection: SelectionPacket, draft: CompiledDraft,
                               later: SourceCatalog)
    requires Held(documents, context, catalog, arranged)
    ensures var r := Compiled(selection, arranged, catalog, draft, later);
            if !selection.insufficientContext && later == catalog && QuotesUnits(catalog, draft) then
              var units := Quoted(catalog, draft.requiredSteps);
              && From(units, catalog) && units != []
              && (forall id :: id in Citations(units) ==> id in ContextById(arranged))
              && NoDup(Citations(units))
              && UnlessTooLarge(r, GroundedPacket(selection, units, ContextById(arranged)))
            else UnlessTooLarge(r, InsufficientPacket(selection))
  {
    hide Held, Supplied, Pinned, Valid, Binds, FitsOutput, PacketJson, ContextById, NoDup, GroundedPacket, FirstQuoted,
         From, Citations, IdSet, UnitByCitation, Materialize;
    HeldPinned(documents, context, catalog, arranged);
    SuppliedFacts(documents, context, catalog, arranged);
    NoDraftInsufficient(selection, arranged);
    PinnedNonempty(documents, context, catalog, arranged);
    if QuotesUnits(catalog, draft) {
      var units := Quoted(catalog, draft.requiredSteps);
      QuotesUnitsMeaning(catalog, draft);
      MaterializeUnits(documents, context, catalog, arranged, selection, units);
      CitationsNoDup(documents, context, catalog, units);
    }
  }

  // ---- Back from a packet ----

  function Unsourced(steps: seq<CompiledConstraint>): (plain: seq<Constraint>)
    ensures |plain| == |steps|
    ensures forall i :: 0 <= i < |steps| ==> plain[i] == Constraint(steps[i].statement, steps[i].citationIds)
  {
    seq(|steps|, i requires 0 <= i < |steps| => Constraint(steps[i].statement, steps[i].citationIds))
  }

  function DraftOf(packet: Packet): CompiledDraft {
    CompiledDraft(Unsourced(packet.requiredSteps), Unsourced(packet.forbiddenPatterns),
                  Unsourced(packet.architecturalExpectations), Unsourced(packet.testExpectations),
                  Unsourced(packet.styleConstraints), packet.insufficientContext)
  }

  function OwnedUnits(units: seq<SourceUnit>, owners: set<string>): set<SourceUnit> {
    set u | u in units && u.policyId in owners
  }

  function OwnedChunks(chunks: seq<Chunk>, owners: set<string>): set<Chunk> {
    set c | c in chunks && c.policy.policyId in owners
  }

  // The part of a catalogue that some policies own.
  function Restricted(catalog: SourceCatalog, owners: set<string>): SourceCatalog {
    SourceCatalog(Keep(catalog.units, OwnedUnits(catalog.units, owners)),
                  Keep(catalog.fingerprints, OwnedChunks(catalog.fingerprints, owners)))
  }

  lemma {:induction false} KeepDistinctOwners(units: seq<SourceUnit>, which: set<SourceUnit>)
    requires DistinctOwners(units)
    ensures DistinctOwners(Keep(units, which))
  {
    if units != [] {
      var front, last := units[..|units| - 1], units[|units| - 1];
      KeepDistinctOwners(front, which);
      var kept := Keep(front, which);
      forall i | 0 <= i < |kept| ensures kept[i].sourceId != last.sourceId && kept[i].policyId != last.policyId {
        KeepMember(front, which, kept[i]);
        var k :| 0 <= k < |front| && front[k] == kept[i];
        assert units[k] == front[k];
      }
    }
  }

  lemma RestrictedWithinBudget(catalog: SourceCatalog, owners: set<string>)
    requires WithinBudget(catalog)
    ensures WithinBudget(Restricted(catalog, owners))
  {
    hide Keep, UnitItems, ItemsSize, OwnedUnits, OwnedChunks, UnitJson;
    var part := Restricted(catalog, owners);
    var which := OwnedUnits(catalog.units, owners);
    KeepTotal(catalog.units, which, CitationCount);
    KeepTotal(catalog.units, which, UnitCost);
    KeepTotal(catalog.fingerprints, OwnedChunks(catalog.fingerprints, owners), FingerprintSize);
    UnitItemsCost(catalog.units);
    UnitItemsCost(part.units);
    ListSize(UnitItems(catalog.units));
    ListSize(UnitItems(part.units));
  }

  // Restricting a valid catalogue never fails its own construction checks.
  lemma RestrictedValid(catalog: SourceCatalog, owners: set<string>)
    requires Valid(catalog)
    ensures Valid(Restricted(catalog, owners))
  {
    hide WithinBudget, WellFormedUnit, DistinctOwners, Keep, OwnedUnits;
    RestrictedWithinBudget(catalog, owners);
    var which := OwnedUnits(catalog.units, owners);
    KeepDistinctOwners(catalog.units, which);
    var units := Keep(catalog.units, which);
    forall i | 0 <= i < |units| ensures WellFormedUnit(units[i]) {
      KeepMember(catalog.units, which, units[i]);
      var k :| 0 <= k < |catalog.units| && catalog.units[k] == units[i];
    }
  }
}
