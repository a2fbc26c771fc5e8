/** The last size check of a compilation: over a pinned catalogue, only what the packet repeats of the
    routed selection can make it too large. */
module PacketBudget {
  import opened Results
  import opened Seqs
  import opened Json
  import opened Chunking
  import opened Catalog
  import opened OutputBudget
  import opened Recognisers
  import opened PinnedSources
  import opened PinnedExactly
  import opened SourceBinding
  import opened Compilation
  import opened Grounding

  // The room that a packet's own steps and citations always leave for the fields it repeats.
  const ECHO_ALLOWANCE: nat := 375 * 1024

  // ---- Fields ----

  lemma NoFields(e: Encoding)
    ensures FieldsSize(e, []) == 0
  {
  }

  lemma {:induction false} JoinFields(e: Encoding, a: seq<Field>, b: seq<Field>)
    ensures FieldsSize(e, a + b) <= FieldsSize(e, a) + FieldsSize(e, b) + SeparatorSize(e)
    ensures b != [] ==>
              FieldsSize(e, a + b) == FieldsSize(e, a) + FieldsSize(e, b) + if a == [] then 0 else SeparatorSize(e)
  {
    hide FieldsSize, FieldSize;
    NoFields(e);
    if b == [] {
      assert a + b == a;
    } else {
      var front, last := b[..|b| - 1], b[|b| - 1];
      JoinFields(e, a, front);
      AddField(e, a + front, last);
      AddField(e, front, last);
      assert a + b == (a + front) + [last] && b == front + [last];
      assert front == [] ==> a + front == a;
    }
  }

  lemma SevenFieldsBound(fields: seq<Field>, longest: nat)
    requires |fields| == 7
    requires forall i :: 0 <= i < 7 ==> |fields[i].name| <= longest
    ensures FieldsSize(EscapedAscii, fields) <=
              Size(EscapedAscii, fields[0].value) + Size(EscapedAscii, fields[1].value)
              + Size(EscapedAscii, fields[2].value) + Size(EscapedAscii, fields[3].value)
              + Size(EscapedAscii, fields[4].value) + Size(EscapedAscii, fields[5].value)
              + Size(EscapedAscii, fields[6].value) + 40 + 84 * longest
  {
    hide FieldsSize, FieldSize, Size;
    SixFields(EscapedAscii, fields[0], fields[1], fields[2], fields[3], fields[4], fields[5]);
    AddField(EscapedAscii, fields[..6], fields[6]);
    assert fields[..6] == [fields[0], fields[1], fields[2], fields[3], fields[4], fields[5]];
    assert fields[..6] + [fields[6]] == fields;
    forall i | 0 <= i < 7
      ensures FieldSize(EscapedAscii, fields[i]) <= Size(EscapedAscii, fields[i].value) + 4 + 12 * longest
    {
      FieldBound(fields[i]);
    }
  }

  // ---- Steps ----

  lemma OneTextCost(text: string)
    ensures Total([text], TextCost) == TextSize(EscapedAscii, text) + 2
  {
    assert [text][..0] == [];
  }

  lemma StepBound(unit: SourceUnit)
    ensures Size(EscapedAscii, ConstraintFields(Grounded(unit))) <=
              600 + TextSize(EscapedAscii, unit.body) + CitationsCost(unit) + TextSize(EscapedAscii, unit.policyId)
  {
    hide CharsSize, ItemsSize, FieldsSize, TextItems, Total;
    var fields := ConstraintFields(Grounded(unit)).fields;
    TwoFields(EscapedAscii, fields[0], fields[1]);
    AddField(EscapedAscii, fields[..2], fields[2]);
    assert fields[..2] == [fields[0], fields[1]] && fields[..2] + [fields[2]] == fields;
    FieldBound(fields[0]);
    FieldBound(fields[1]);
    FieldBound(fields[2]);
    TextListBound(unit.citationIds);
    OneTextCost(unit.policyId);
    TextListBound([unit.policyId]);
  }

  lemma StepsOfLast(units: seq<SourceUnit>)
    requires units != []
    ensures var front, unit := units[..|units| - 1], units[|units| - 1];
            CompiledItems(GroundedAll(units)) == CompiledItems(GroundedAll(front)) + [ConstraintFields(Grounded(unit))]
  {
    var front := units[..|units| - 1];
    assert GroundedAll(units)[..|units| - 1] == GroundedAll(front);
  }

  lemma {:induction false} StepsBound(units: seq<SourceUnit>)
    ensures ItemsSize(EscapedAscii, CompiledItems(GroundedAll(units))) <= Total(units, UnitCost) + 602 * |units|
  {
    if units != [] {
      var front, unit := units[..|units| - 1], units[|units| - 1];
      StepsBound(front);
      StepsOfLast(units);
      hide Size, ItemsSize, TextSize, UnitJson, ConstraintFields, GroundedAll, CompiledItems;
      AddItem(CompiledItems(GroundedAll(front)), ConstraintFields(Grounded(unit)));
      StepBound(unit);
      UnitParts(unit);
    }
  }

  // ---- Citations ----

  // What a chunk's citation repeats of it.
  function CitationCost(chunk: Chunk): nat {
    TextSize(EscapedAscii, chunk.policy.policyId) + TextSize(EscapedAscii, chunk.policy.title)
    + TextSize(EscapedAscii, chunk.path) + TextSize(EscapedAscii, chunk.section)
    + TextSize(EscapedAscii, chunk.lines) + TextSize(EscapedAscii, chunk.chunkId)
  }

  lemma CitationBound(chunk: Chunk)
    ensures Size(EscapedAscii, CitationJson(CitationOf(chunk))) <= 1100 + CitationCost(chunk)
  {
    hide CharsSize, FieldsSize;
    SevenFieldsBound(CitationJson(CitationOf(chunk)).fields, 12);
  }

  function CitationsOf(chunks: seq<Chunk>): (citations: seq<Citation>)
    ensures |citations| == |chunks| && forall i :: 0 <= i < |chunks| ==> citations[i] == CitationOf(chunks[i])
  {
    seq(|chunks|, i requires 0 <= i < |chunks| => CitationOf(chunks[i]))
  }

  lemma CitationsOfLast(chunks: seq<Chunk>)
    requires chunks != []
    ensures var front, last := chunks[..|chunks| - 1], chunks[|chunks| - 1];
            CitationItems(CitationsOf(chunks)) == CitationItems(CitationsOf(front)) + [CitationJson(CitationOf(last))]
  {
    var front := chunks[..|chunks| - 1];
    assert CitationsOf(chunks)[..|chunks| - 1] == CitationsOf(front);
  }

  lemma {:induction false} CitationsBound(chunks: seq<Chunk>)
    ensures ItemsSize(EscapedAscii, CitationItems(CitationsOf(chunks))) <= Total(chunks, CitationCost) + 1102 * |chunks|
  {
    if chunks != [] {
      var front, last := chunks[..|chunks| - 1], chunks[|chunks| - 1];
      CitationsBound(front);
      CitationsOfLast(chunks);
      hide Size, ItemsSize, TextSize, CitationJson, CitationsOf, CitationItems, CitationCost;
      AddItem(CitationItems(CitationsOf(front)), CitationJson(CitationOf(last)));
      CitationBound(last);
    }
  }

  // ---- The context holds what citations repeat ----

  lemma {:induction false} EscapesAgree(s: string)
    ensures TextSize(EscapedCompact, s) == TextSize(EscapedAscii, s)
  {
    if s != "" {
      EscapesAgree(s[..|s| - 1]);
    }
  }

  lemma MetadataParts(m: Metadata)
    ensures TextSize(EscapedAscii, m.policyId) + TextSize(EscapedAscii, m.title)
         <= Size(EscapedCompact, MetadataJson(m))
  {
    hide CharsSize, FieldsSize;
    var fields := MetadataJson(m).fields;
    JoinFields(EscapedCompact, fields[..2], fields[2..]);
    assert fields[..2] + fields[2..] == fields && fields[..2] == [fields[0], fields[1]];
    TwoFields(EscapedCompact, fields[0], fields[1]);
    EscapesAgree(m.policyId);
    EscapesAgree(m.title);
  }

  lemma ContextItemParts(scored: ScoredChunk)
    ensures CitationCost(scored.chunk) <=
              Size(EscapedCompact, Object(ChunkFields(scored.chunk) + [Field("score", scored.score)]))
  {
    hide CharsSize, FieldsSize;
    var chunk := scored.chunk;
    var fields := ChunkFields(chunk);
    SixFields(EscapedCompact, fields[0], fields[1], fields[2], fields[3], fields[4], fields[5]);
    assert fields == [fields[0], fields[1], fields[2], fields[3], fields[4], fields[5]];
    AddField(EscapedCompact, fields, Field("score", scored.score));
    MetadataParts(chunk.policy);
    EscapesAgree(chunk.chunkId);
    EscapesAgree(chunk.path);
    EscapesAgree(chunk.section);
    EscapesAgree(chunk.lines);
  }

  lemma ContextOfLast(context: seq<ScoredChunk>)
    requires context != []
    ensures var front, last := context[..|context| - 1], context[|context| - 1];
            && Chunks(context) == Chunks(front) + [last.chunk]
            && ContextItems(context) ==
                 ContextItems(front) + [Object(ChunkFields(last.chunk) + [Field("score", last.score)])]
  {
  }

  lemma {:induction false} ContextParts(context: seq<ScoredChunk>)
    ensures Total(Chunks(context), CitationCost) <= ItemsSize(EscapedCompact, ContextItems(context))
    ensures |ContextItems(context)| == |context|
  {
    if context != [] {
      var front, last := context[..|context| - 1], context[|context| - 1];
      ContextParts(front);
      ContextOfLast(context);
      ContextItemParts(last);
      hide Size, CitationCost, ChunkFields, Chunks, ContextItems;
      assert Chunks(context)[..|context| - 1] == Chunks(front);
    }
  }

  // ---- Whole packets ----

  lemma CitedChunkOf(documents: seq<Document>, context: seq<ScoredChunk>, catalog: SourceCatalog,
                     arranged: seq<ScoredChunk>, units: seq<SourceUnit>, id: string)
    requires Held(documents, context, catalog, arranged) && From(units, catalog) && id in Citations(units)
    ensures id in ContextById(arranged)
    ensures ContextById(arranged)[id].chunkId == id && ContextById(arranged)[id] in Chunks(context)
  {
    hide Pinned, Valid, ContextById, Binds, NoDup, Citations;
    CitationsMember(units, id);
    var unit :| unit in units && id in unit.citationIds;
    var i :| 0 <= i < |catalog.units| && catalog.units[i] == unit;
    var c := CitedChunk(documents, context, catalog, i, id);
    SuppliedFacts(documents, context, catalog, arranged);
  }

  // The chunks a packet cites are chunks of the context, each once.
  lemma CitedChunks(documents: seq<Document>, context: seq<ScoredChunk>, catalog: SourceCatalog,
                    arranged: seq<ScoredChunk>, units: seq<SourceUnit>) returns (chunks: seq<Chunk>)
    requires Held(documents, context, catalog, arranged) && From(units, catalog)
    requires forall id :: id in Citations(units) ==> id in ContextById(arranged)
    ensures CitationsFor(Citations(units), ContextById(arranged)) == CitationsOf(chunks)
    ensures NoDup(chunks) && forall c :: c in chunks ==> c in Chunks(context)
  {
    assert Pinned(documents, context, catalog);
    hide Held, Pinned, ContextById, Citations, From;
    var ids, byId := Citations(units), ContextById(arranged);
    CitationsNoDup(documents, context, catalog, units);
    chunks := seq(|ids|, i requires 0 <= i < |ids| => byId[ids[i]]);
    forall i | 0 <= i < |ids| ensures chunks[i].chunkId == ids[i] && chunks[i] in Chunks(context) {
      CitedChunkOf(documents, context, catalog, arranged, units, ids[i]);
    }
    assert CitationsFor(ids, byId) == CitationsOf(chunks);
  }

  lemma ContextBound(documents: seq<Document>, context: seq<ScoredChunk>, catalog: SourceCatalog, chunks: seq<Chunk>)
    requires Pinned(documents, context, catalog)
    requires NoDup(chunks) && forall c :: c in chunks ==> c in Chunks(context)
    ensures ItemsSize(EscapedAscii, CitationItems(CitationsOf(chunks))) <= MAX_SOURCE_BYTES + 1102 * MAX_SOURCE_CHUNKS
  {
    hide Pinned, Total, CitationItems, CitationsOf, ItemsSize, ContextItems, UnitAttributes, PromptPayload;
    PinnedSizes(documents, context, catalog);
    ContextParts(context);
    SubsetTotal(chunks, Chunks(context), CitationCost);
    CitationsBound(chunks);
  }

  lemma OwnFieldsBound(packet: Packet)
    requires packet.forbiddenPatterns == packet.architecturalExpectations == packet.testExpectations
          == packet.styleConstraints == []
    ensures FieldsSize(EscapedAscii, OwnFields(packet)) <=
              2300 + ItemsSize(EscapedAscii, CompiledItems(packet.requiredSteps))
              + ItemsSize(EscapedAscii, CitationItems(packet.citations))
  {
    assert CompiledItems([]) == [] && ItemsSize(EscapedAscii, []) == 0;
    hide FieldsSize, ItemsSize, CompiledItems, CitationItems;
    SevenFieldsBound(OwnFields(packet), 26);
    ListSize(CompiledItems(packet.requiredSteps));
    ListSize([]);
    ListSize(CitationItems(packet.citations));
  }

  // A packet fits when its own fields leave the allowance.
  lemma EchoFits(packet: Packet)
    requires FieldsSize(EscapedAscii, OwnFields(packet)) + ECHO_ALLOWANCE + 3 <= MAX_OUTPUT_BYTES
    requires FieldsSize(CompactUtf8, packet.selection.echo) <= ECHO_ALLOWANCE
    ensures FitsOutput(PacketJson(packet))
  {
    hide FieldsSize, CompiledItems, CitationItems;
    JoinFields(CompactUtf8, packet.selection.echo, OwnFields(packet));
    FieldsWithin(CompactUtf8, OwnFields(packet));
  }

  lemma InsufficientFits(selection: SelectionPacket)
    requires FieldsSize(CompactUtf8, selection.echo) <= ECHO_ALLOWANCE
    ensures FitsOutput(PacketJson(InsufficientPacket(selection)))
  {
    assert CompiledItems([]) == [] && CitationItems([]) == [] && ItemsSize(EscapedAscii, []) == 0;
    hide FieldsSize, FitsOutput, PacketJson, CompiledItems, CitationItems, ItemsSize;
    OwnFieldsBound(InsufficientPacket(selection));
    EchoFits(InsufficientPacket(selection));
  }

  lemma PacketFits(packet: Packet, units: seq<SourceUnit>, chunks: seq<Chunk>)
    requires packet.requiredSteps == GroundedAll(units) && packet.citations == CitationsOf(chunks)
    requires packet.forbiddenPatterns == packet.architecturalExpectations == packet.testExpectations
          == packet.styleConstraints == []
    requires ItemsSize(EscapedAscii, CompiledItems(GroundedAll(units))) <= MAX_SOURCE_BYTES + 602 * MAX_SOURCE_CHUNKS
    requires ItemsSize(EscapedAscii, CitationItems(CitationsOf(chunks))) <= MAX_SOURCE_BYTES + 1102 * MAX_SOURCE_CHUNKS
    requires FieldsSize(CompactUtf8, packet.selection.echo) <= ECHO_ALLOWANCE
    ensures FitsOutput(PacketJson(packet))
  {
    hide FieldsSize, ItemsSize, FitsOutput, PacketJson, CompiledItems, CitationItems, GroundedAll, CitationsOf,
         OwnFields;
    OwnFieldsBound(packet);
    EchoFits(packet);
  }

  lemma GroundedFits(documents: seq<Document>, context: seq<ScoredChunk>, catalog: SourceCatalog,
                     arranged: seq<ScoredChunk>, selection: SelectionPacket, units: seq<SourceUnit>)
    requires Held(documents, context, catalog, arranged) && From(units, catalog)
    requires forall id :: id in Citations(units) ==> id in ContextById(arranged)
    requires FieldsSize(CompactUtf8, selection.echo) <= ECHO_ALLOWANCE
    ensures FitsOutput(PacketJson(GroundedPacket(selection, units, ContextById(arranged))))
  {
    HeldPinned(documents, context, catalog, arranged);
    hide *;
    var packet := GroundedPacket(selection, units, ContextById(arranged));
    var chunks := CitedChunks(documents, context, catalog, arranged, units);
    ContextBound(documents, context, catalog, chunks);
    PayloadBound(units, catalog);
    StepsBound(units);
    PacketFits(packet, units, chunks);
  }

  // Within the allowance no size is refused: a compilation gives the packet of the distinct whole units that
  // its draft quotes, or, when it quotes none or its inputs do not hold, an insufficient packet.
  lemma OnlyEchoRefused(documents: seq<Document>, context: seq<ScoredChunk>, catalog: SourceCatalog,
                        arranged: seq<ScoredChunk>, selection: SelectionPacket, draft: CompiledDraft,
                        later: SourceCatalog)
    requires Held(documents, context, catalog, arranged)
    requires FieldsSize(CompactUtf8, selection.echo) <= ECHO_ALLOWANCE
    ensures var r := Compiled(selection, arranged, catalog, draft, later);
            if !selection.insufficientContext && later == catalog && QuotesUnits(catalog, draft) then
              var units := Quoted(catalog, draft.requiredSteps);
              && From(units, catalog) && units != []
              && (forall id :: id in Citations(units) ==> id in ContextById(arranged))
              && r == Ok(GroundedPacket(selection, units, ContextById(arranged)))
            else r == Ok(InsufficientPacket(selection))
  {
    hide Held, QuotesUnits, Quoted, From, ContextById, Citations, FieldsSize, GroundedPacket, Compiled, FitsOutput,
         PacketJson, NoDup;
    CompilationFailsClosed(documents, context, catalog, arranged, selection, draft, later);
    InsufficientFits(selection);
    if QuotesUnits(catalog, draft) && !selection.insufficientContext && later == catalog {
      GroundedFits(documents, context, catalog, arranged, selection, Quoted(catalog, draft.requiredSteps));
    }
  }
}
