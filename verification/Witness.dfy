/** The smallest documents that can be pinned: the hypotheses about pinned documents can be met, and the one
    about policy identifiers cannot be dropped. */
module Witness {
  import opened Results
  import opened Text
  import opened Decimal
  import opened Seqs
  import opened Json
  import opened Headings
  import opened Sections
  import opened ChunkIds
  import opened Chunking
  import opened Ordering
  import opened Catalog
  import opened OutputBudget
  import opened PinnedSources
  import opened PinnedExactly
  import opened Compilation
  import opened Grounding

  // One line of text, titled "T".
  function Note(policyId: string): Document {
    Document("n.md", Metadata(policyId, "T", "", "", [], [], None), "x", 1)
  }

  function NoteChunk(policyId: string): Chunk {
    Chunk(policyId + ":" + "t", "n.md", "T", "1-1", "x", Note(policyId).metadata)
  }

  function NoteContext(policyId: string): seq<ScoredChunk> {
    [ScoredChunk(NoteChunk(policyId), Null)]
  }

  // ---- Its chunk ----

  lemma PlainLine()
    ensures SplitLines("x") == ["x"] && HeadingsOf(["x"], 1) == [] && Strip("x") == "x"
  {
    SplitSingle("x");
    assert "x"[0..] == "x";
    assert FenceOpener("x").None? && AtxHeading("x").None?;
    assert FenceBefore(["x"], 0).None?;
    assert HeadingOn(["x"], 1, 0) == None;
    ScanLine(["x"], 1, 0);
    assert Present(HeadingMarks(["x"], 1, 0)) == [];
  }

  lemma TitleKey()
    ensures SectionKey(["T"]) == "t"
  {
    assert "T"[1..] == "" && "t"[1..] == "";
    assert Lower("T") == "t" && Dashed("t") == "t";
    assert StripDashes("t") == "t";
    assert Slugify("T") == "t";
    assert Slugs(["T"]) == ["t"];
  }

  lemma OnlyChunk(policyId: string)
    ensures ChunksOf(Note(policyId)) == Ok([NoteChunk(policyId)])
  {
    hide HeadingsOf, SplitLines, SectionKey, Strip;
    PlainLine();
    TitleKey();
    var note := Note(policyId);
    var sections := [Section(["T"], "x", 1, 1)];
    assert SectionsIn(note) == Ok(sections);
    var bases := BaseIds(note, sections);
    assert bases[..1] == bases && bases[..0] == [];
    assert IdAt(bases, 0) == policyId + ":" + "t";
    assert Numeral(1) == "1" && FormatSpan(1, 1) == "1-1" && JoinWith(" > ", ["T"]) == "T";
    assert ChunkOf(note, sections[0], IdAt(bases, 0)) == NoteChunk(policyId);
    assert ChunkSections(note, sections) == [NoteChunk(policyId)];
  }

  // ---- Its context is complete ----

  lemma OnlyPolicy(policyId: string)
    ensures PolicyIds([NoteChunk(policyId)]) == {policyId}
  {
    var chunk := NoteChunk(policyId);
    assert Policies([chunk]) == {chunk.policy};
  }

  lemma OnlyOwner(policyId: string)
    ensures OwnersOf([Note(policyId)], NoteContext(policyId)) == [Note(policyId)]
    ensures Chunks(NoteContext(policyId)) == [NoteChunk(policyId)]
  {
    var notes := [Note(policyId)];
    assert Chunks(NoteContext(policyId)) == [NoteChunk(policyId)];
    OnlyPolicy(policyId);
    assert notes[0] in Owning(notes, {policyId});
    assert notes[..0] == [] && Keep(notes[..0], Owning(notes, {policyId})) == [];
  }

  lemma OnlyChunks(policyId: string)
    ensures ChunkAll([Note(policyId)]) == Some([NoteChunk(policyId)])
  {
    hide ChunksOf;
    OnlyChunk(policyId);
    var notes := [Note(policyId)];
    assert notes[..|notes| - 1] == [] && ChunkAll([]) == Some([]);
    assert [] + [NoteChunk(policyId)] == [NoteChunk(policyId)];
  }

  lemma NoteComplete(policyId: string)
    ensures CompleteContext([Note(policyId)], NoteContext(policyId))
  {
    hide OwnersOf, ChunkAll, SortById;
    OnlyOwner(policyId);
    OnlyChunks(policyId);
  }

  // ---- Its sizes ----

  lemma FieldAtMost(fields: seq<Field>, field: Field, most: nat)
    requires |field.name| <= 20 && Size(EscapedAscii, field.value) <= most
    ensures FieldsSize(EscapedAscii, fields + [field]) <= FieldsSize(EscapedAscii, fields) + most + 246
  {
    hide FieldsSize, FieldSize, Size;
    AddField(EscapedAscii, fields, field);
    FieldBound(field);
  }

  lemma OneMore(n: nat, each: nat)
    ensures (n + 1) * each == n * each + each
  {
  }

  ghost predicate Small(field: Field, most: nat) {
    |field.name| <= 20 && Size(EscapedAscii, field.value) <= most
  }

  lemma {:induction false} FieldsAtMost(fields: seq<Field>, most: nat)
    requires forall i :: 0 <= i < |fields| ==> Small(fields[i], most)
    ensures FieldsSize(EscapedAscii, fields) <= |fields| * (most + 246)
  {
    hide FieldSize, Size;
    if fields != [] {
      hide FieldsSize;
      var front, last := fields[..|fields| - 1], fields[|fields| - 1];
      FieldsAtMost(front, most);
      FieldAtMost(front, last, most);
      OneMore(|front|, most + 246);
      assert fields == front + [last];
    }
  }

  lemma TextAtMost(s: string, longest: nat)
    requires |s| <= longest
    ensures Size(EscapedAscii, Text(s)) <= 2 + 12 * longest
  {
    CharsWithin(EscapedAscii, s);
  }

  lemma NoItems()
    ensures Size(EscapedAscii, List(TextItems([]))) == 2
  {
  }

  lemma ListSize(e: Encoding, items: seq<Json>)
    ensures Size(e, List(items)) == 2 + ItemsSize(e, items)
  {
  }

  lemma OneItem(e: Encoding, item: Json)
    ensures Size(e, List([item])) == 2 + Size(e, item)
  {
    hide Size;
    assert [item][..0] == [] && ItemsSize(e, []) == 0;
    assert ItemsSize(e, [item]) == Size(e, item);
    ListSize(e, [item]);
  }

  // The longest policy identifier that the bounds below allow for.
  const LONGEST: nat := 100

  lemma MetadataSmall(policyId: string)
    requires |policyId| <= LONGEST
    ensures Size(EscapedAscii, MetadataJson(Note(policyId).metadata)) <= 11_000
  {
    hide FieldsSize, CharsSize, TextItems, ItemsSize;
    var m := Note(policyId).metadata;
    TextAtMost(m.policyId, LONGEST);
    TextAtMost(m.title, LONGEST);
    TextAtMost("", LONGEST);
    NoItems();
    FieldsAtMost(MetadataJson(m).fields, 1202);
  }

  lemma ChunkSmall(policyId: string)
    requires |policyId| <= LONGEST
    ensures FieldsSize(EscapedAscii, ChunkFields(NoteChunk(policyId)) + [Field("score", Null)]) <= 90_000
    ensures FieldsSize(EscapedAscii, ChunkFields(NoteChunk(policyId))) <= 90_000
  {
    hide FieldsSize, CharsSize, TextSize, MetadataJson;
    var chunk := NoteChunk(policyId);
    MetadataSmall(policyId);
    TextAtMost(chunk.chunkId, LONGEST + 2);
    TextAtMost(chunk.path, LONGEST);
    TextAtMost(chunk.section, LONGEST);
    TextAtMost(chunk.lines, LONGEST);
    TextAtMost(chunk.text, LONGEST);
    FieldsAtMost(ChunkFields(chunk), 11_000);
    FieldsAtMost(ChunkFields(chunk) + [Field("score", Null)], 11_000);
  }

  lemma OneContext(policyId: string)
    ensures ContextItems(NoteContext(policyId)) ==
              [Object(ChunkFields(NoteChunk(policyId)) + [Field("score", Null)])]
  {
    hide ChunkFields;
    assert NoteContext(policyId)[..0] == [];
  }

  lemma ContextSmall(policyId: string)
    requires |policyId| <= LONGEST
    ensures ContextSize(NoteContext(policyId)) <= MAX_SOURCE_BYTES
    ensures Total([NoteChunk(policyId)], FingerprintSize) <= MAX_SOURCE_BYTES
  {
    hide FieldsSize, ItemsSize, ChunkFields, NoteChunk;
    var fields := ChunkFields(NoteChunk(policyId));
    ChunkSmall(policyId);
    OneContext(policyId);
    OneItem(EscapedCompact, Object(fields + [Field("score", Null)]));
    FieldsWithin(EscapedCompact, fields + [Field("score", Null)]);
    FieldsWithin(CompactUtf8, fields);
    assert [NoteChunk(policyId)][..0] == [];
  }

  function NoteUnit(policyId: string): SourceUnit {
    SourceUnit("s1", policyId, "T", "x", [policyId + ":" + "t"], None)
  }

  lemma KeepOnly<T>(x: T, which: set<T>)
    requires x in which
    ensures Keep([x], which) == [x]
  {
    assert [x][..0] == [] && Keep([x][..0], which) == [];
  }

  lemma SortOnly(chunk: Chunk)
    ensures SortById([chunk]) == [chunk]
  {
    assert [chunk][..0] == [] && SortBy([chunk][..0], ById) == [];
    assert InsertBy([], chunk, ById) == [chunk];
  }

  lemma OnlyUnit(policyId: string)
    ensures UnitsFor([Note(policyId)], [NoteChunk(policyId)]) == [NoteUnit(policyId)]
  {
    var chunks := [NoteChunk(policyId)];
    assert chunks[0] in set c | c in chunks && c.policy.policyId == policyId;
    assert chunks[..0] == [];
    KeepOnly(chunks[0], set c | c in chunks && c.policy.policyId == policyId);
    assert Owned(chunks, policyId) == chunks;
    assert IdsOf(chunks) == [policyId + ":" + "t"];
    assert Numeral(1) == "1" && "s" + "1" == "s1";
  }

  lemma AttributesOf(unit: SourceUnit) returns (attributes: Json)
    requires unit.provenance.None?
    ensures UnitAttributes([unit]) == [attributes]
    ensures attributes == Object([
      Field("source_id", Text(unit.sourceId)), Field("policy_id", Text(unit.policyId)),
      Field("title", Text(unit.title)), Field("body", Text(unit.body)),
      Field("citation_ids", List(TextItems(unit.citationIds))), Field("provenance_json", Null)])
  {
    assert [unit][..0] == [] && UnitAttributes([unit][..0]) == [];
    attributes := UnitAttributes([unit])[0];
  }

  lemma UnitSmall(policyId: string)
    requires |policyId| <= LONGEST
    ensures Size(EscapedAscii, UnitJson(NoteUnit(policyId))) <= 10_000
    ensures Size(EscapedAscii, List(UnitAttributes([NoteUnit(policyId)]))) <= MAX_SOURCE_BYTES
  {
    hide FieldsSize, CharsSize, TextSize, ItemsSize;
    var unit := NoteUnit(policyId);
    var id := unit.citationIds[0];
    TextAtMost(unit.sourceId, LONGEST);
    TextAtMost(policyId, LONGEST);
    TextAtMost(unit.title, LONGEST);
    TextAtMost(unit.body, LONGEST);
    TextAtMost(id, LONGEST + 2);
    assert [id][..0] == [] && TextItems([id]) == [Text(id)];
    OneItem(EscapedAscii, Text(id));
    FieldsAtMost(UnitJson(unit).fields, 1300);
    var attributes := AttributesOf(unit);
    FieldsAtMost(attributes.fields, 1300);
    OneItem(EscapedAscii, attributes);
  }

  lemma NoteSizes(policyId: string)
    requires |policyId| <= LONGEST
    ensures SizesFit(NoteContext(policyId), [NoteUnit(policyId)], SortById([NoteChunk(policyId)]))
  {
    hide Size, ContextSize, UnitAttributes, UnitJson, NoteUnit, NoteChunk, FingerprintSize;
    ContextSmall(policyId);
    UnitSmall(policyId);
    var unit, chunk := NoteUnit(policyId), NoteChunk(policyId);
    assert [unit][..0] == [] && UnitItems([unit]) == [UnitJson(unit)];
    OneItem(EscapedAscii, UnitJson(unit));
    SortOnly(chunk);
  }

  // ---- What it shows ----

  // Under any policy identifier of up to a hundred characters, a note with its one chunk is a catalogue.
  lemma NotePinned(policyId: string)
    requires 0 < |policyId| <= LONGEST
    ensures Pinned([Note(policyId)], NoteContext(policyId),
                   SourceCatalog([NoteUnit(policyId)], SortById([NoteChunk(policyId)])))
  {
    hide Pinned, CompleteContext, SizesFit, OwnersOf, ChunkAll, UnitsFor, SortById, NoteUnit, NoteChunk;
    NoteComplete(policyId);
    OnlyOwner(policyId);
    OnlyChunks(policyId);
    OnlyUnit(policyId);
    NoteSizes(policyId);
    PinnedExactlyWhen([Note(policyId)], NoteContext(policyId));
    var catalog :| Pinned([Note(policyId)], NoteContext(policyId), catalog);
    PinnedParts([Note(policyId)], NoteContext(policyId), catalog);
  }

  // A note of the policy "P" meets what the results about compilation ask for.
  lemma NoteHeld()
    ensures exists catalog :: Held([Note("P")], NoteContext("P"), catalog, NoteContext("P"))
  {
    hide Pinned;
    NotePinned("P");
    var catalog := SourceCatalog([NoteUnit("P")], SortById([NoteChunk("P")]));
    assert Held([Note("P")], NoteContext("P"), catalog, NoteContext("P"));
  }

  lemma BlankCitationUnknown()
    ensures CompileStep(Quote(NoteUnit(" P")), ContextById(NoteContext(" P"))).None?
  {
    hide Unique;
    var id := " P" + ":" + "t";
    assert id[1..] == "P:t" && StripLeft("P:t") == "P:t" && StripRight("P:t") == "P:t";
    assert Strip(id) == "P:t";
    assert NoteContext(" P")[..0] == [];
    assert Stripped([id]) == ["P:t"];
    UniqueFacts(["P:t"]);
    assert "P:t" in Unique(["P:t"]) && "P:t" !in ContextById(NoteContext(" P"));
  }

  // A note of the policy " P" is pinned all the same, and its quote does not compile to its one chunk.
  lemma BlankPolicyLosesCitation()
    ensures exists catalog ::
              && Supplied([Note(" P")], NoteContext(" P"), catalog, NoteContext(" P"))
              && NoteUnit(" P") in catalog.units
              && CompileStep(Quote(NoteUnit(" P")), ContextById(NoteContext(" P"))).None?
  {
    hide Pinned;
    NotePinned(" P");
    var catalog := SourceCatalog([NoteUnit(" P")], SortById([NoteChunk(" P")]));
    assert NoteUnit(" P") in catalog.units;
    assert Supplied([Note(" P")], NoteContext(" P"), catalog, NoteContext(" P"));
    BlankCitationUnknown();
  }
}
