/** Building a catalogue from pinned documents and a retrieved context, and binding it to that context
    again: `from_documents` and `validate_binding` of src/policynim/source_units.py. */
module PinnedSources {
  import opened Results
  import opened Text
  import opened Decimal
  import opened Seqs
  import opened Json
  import opened Chunking
  import opened Ordering
  import opened Catalog

  datatype ScoredChunk = ScoredChunk(chunk: Chunk, score: Json)

  function Chunks(context: seq<ScoredChunk>): (chunks: seq<Chunk>)
    ensures |chunks| == |context| && forall i :: 0 <= i < |context| ==> chunks[i] == context[i].chunk
  {
    seq(|context|, i requires 0 <= i < |context| => context[i].chunk)
  }

  function Policies(chunks: seq<Chunk>): set<Metadata> {
    set c | c in chunks :: c.policy
  }

  function PolicyIds(chunks: seq<Chunk>): set<string> {
    set m | m in Policies(chunks) :: m.policyId
  }

  function IdSet(chunks: seq<Chunk>): set<string> {
    set c | c in chunks :: c.chunkId
  }

  function Owned(chunks: seq<Chunk>, policyId: string): seq<Chunk> {
    Keep(chunks, set c | c in chunks && c.policy.policyId == policyId)
  }

  function Owning(documents: seq<Document>, policyIds: set<string>): set<Document> {
    set d | d in documents && d.metadata.policyId in policyIds
  }

  function OwnersIn(documents: seq<Document>, policyIds: set<string>): seq<Document> {
    Keep(documents, Owning(documents, policyIds))
  }

  // chunk_policy_documents: the chunks of all documents in order, or the first failure.
  function ChunkAll(documents: seq<Document>): Option<seq<Chunk>> {
    if documents == [] then Some([])
    else
      var front, last := ChunkAll(documents[..|documents| - 1]), ChunksOf(documents[|documents| - 1]);
      if front.None? || last.Err? then None else Some(front.value + last.value)
  }

  function IdsOf(chunks: seq<Chunk>): (ids: seq<string>)
    ensures |ids| == |chunks| && forall i :: 0 <= i < |chunks| ==> ids[i] == chunks[i].chunkId
  {
    seq(|chunks|, i requires 0 <= i < |chunks| => chunks[i].chunkId)
  }

  function UnitFor(document: Document, index: nat, expected: seq<Chunk>): SourceUnit {
    SourceUnit("s" + Numeral(index + 1), document.metadata.policyId, document.metadata.title, document.body,
               IdsOf(Owned(expected, document.metadata.policyId)), document.metadata.provenance)
  }

  function UnitsFor(documents: seq<Document>, expected: seq<Chunk>): (units: seq<SourceUnit>)
    ensures |units| == |documents|
    ensures forall i :: 0 <= i < |documents| ==> units[i] == UnitFor(documents[i], i, expected)
  {
    seq(|documents|, i requires 0 <= i < |documents| => UnitFor(documents[i], i, expected))
  }

  function ContextItems(context: seq<ScoredChunk>): seq<Json> {
    if context == [] then []
    else
      var last := context[|context| - 1];
      ContextItems(context[..|context| - 1]) + [Object(ChunkFields(last.chunk) + [Field("score", last.score)])]
  }

  // The size of the units' attributes, dumped as they are.
  function UnitAttributes(units: seq<SourceUnit>): seq<Json> {
    if units == [] then []
    else
      var u := units[|units| - 1];
      UnitAttributes(units[..|units| - 1]) +
      [Object([Field("source_id", Text(u.sourceId)), Field("policy_id", Text(u.policyId)),
               Field("title", Text(u.title)), Field("body", Text(u.body)),
               Field("citation_ids", List(TextItems(u.citationIds))),
               Field("provenance_json", if u.provenance.None? then Null else Text(u.provenance.value.json))])]
  }

  // The context is exactly the chunks expected of the documents, in any arrangement.
  predicate MatchesExpected(context: seq<Chunk>, expected: seq<Chunk>) {
    DistinctChunkIds(context) && SortById(context) == SortById(expected)
  }

  function ContextSize(context: seq<ScoredChunk>): nat {
    Size(EscapedCompact, List(ContextItems(context)))
  }

  function FromDocuments(documents: seq<Document>, context: seq<ScoredChunk>): Result<SourceCatalog, ContextError> {
    if context == [] then Ok(EMPTY_CATALOG)
    else
      var chunks := Chunks(context);
      var selected := PolicyIds(chunks);
      var owners := OwnersIn(documents, selected);
      if |owners| != |selected| then Ok(EMPTY_CATALOG)
      else match ChunkAll(owners)
        case None => Err(InvalidDocument)
        case Some(expected) =>
          if !MatchesExpected(chunks, expected) then Ok(EMPTY_CATALOG)
          else if |context| > MAX_SOURCE_CHUNKS || ContextSize(context) > MAX_SOURCE_BYTES then Err(OverBudget)
          else
            var units := UnitsFor(owners, expected);
            if (exists u :: u in units && Strip(u.body) == "")
               || Size(EscapedAscii, List(UnitAttributes(units))) > MAX_SOURCE_BYTES then Err(OverBudget)
            else Construct(units, SortById(expected))
  }

  // ---- What construction has proven when it returns a catalogue ----

  ghost predicate Pinned(documents: seq<Document>, context: seq<ScoredChunk>, catalog: SourceCatalog) {
    FromDocuments(documents, context) == Ok(catalog) && catalog.units != []
  }

  function OwnersOf(documents: seq<Document>, context: seq<ScoredChunk>): seq<Document> {
    OwnersIn(documents, PolicyIds(Chunks(context)))
  }

  lemma PinnedParts(documents: seq<Document>, context: seq<ScoredChunk>, catalog: SourceCatalog)
    requires Pinned(documents, context, catalog)
    ensures Valid(catalog)
    ensures |OwnersOf(documents, context)| == |PolicyIds(Chunks(context))|
    ensures ChunkAll(OwnersOf(documents, context)).Some?
    ensures var expected := ChunkAll(OwnersOf(documents, context)).value;
            && catalog == SourceCatalog(UnitsFor(OwnersOf(documents, context), expected), SortById(expected))
            && MatchesExpected(Chunks(context), expected)
  {
  }

  function Headers(documents: seq<Document>): set<Metadata> {
    set d | d in documents :: d.metadata
  }

  lemma PoliciesConcat(a: seq<Chunk>, b: seq<Chunk>)
    ensures Policies(a + b) == Policies(a) + Policies(b)
  {
    forall m ensures m in Policies(a + b) <==> m in Policies(a) || m in Policies(b) {
      if m in Policies(a) {
        var c :| c in a && c.policy == m;
        assert c in a + b;
      }
      if m in Policies(b) {
        var c :| c in b && c.policy == m;
        assert c in a + b;
      }
    }
  }

  lemma HeadersAppend(documents: seq<Document>, last: Document)
    ensures Headers(documents + [last]) == Headers(documents) + {last.metadata}
  {
    var all := documents + [last];
    forall m ensures m in Headers(all) <==> m in Headers(documents) || m == last.metadata {
      if m in Headers(documents) {
        var d :| d in documents && d.metadata == m;
        assert d in all;
      }
      if m == last.metadata { assert last in all; }
    }
  }

  lemma PoliciesOfOne(chunks: seq<Chunk>, m: Metadata)
    requires chunks != [] && forall i :: 0 <= i < |chunks| ==> chunks[i].policy == m
    ensures Policies(chunks) == {m}
  {
    assert chunks[0] in chunks;
  }

  lemma ChunkAllLast(documents: seq<Document>)
    requires ChunkAll(documents).Some? && documents != []
    ensures var front, last := documents[..|documents| - 1], documents[|documents| - 1];
            && ChunkAll(front).Some? && ChunksOf(last).Ok?
            && ChunkAll(documents).value == ChunkAll(front).value + ChunksOf(last).value
            && documents == front + [last]
  {
    hide ChunksOf;
  }

  // Every chunk carries the metadata of one of the documents, and every document has a chunk.
  lemma {:induction false} ChunkAllPolicies(documents: seq<Document>)
    requires ChunkAll(documents).Some?
    ensures Policies(ChunkAll(documents).value) == Headers(documents)
  {
    if documents == [] {
      assert ChunkAll(documents).value == [];
    } else {
      hide Policies, Headers, ChunksOf, ChunkAll;
      ChunkAllLast(documents);
      var front, last := documents[..|documents| - 1], documents[|documents| - 1];
      ChunkAllPolicies(front);
      PoliciesConcat(ChunkAll(front).value, ChunksOf(last).value);
      PoliciesOfOne(ChunksOf(last).value, last.metadata);
      HeadersAppend(front, last);
    }
  }

  function PolicyOf(documents: seq<Document>): (ids: seq<string>)
    ensures |ids| == |documents| && forall i :: 0 <= i < |documents| ==> ids[i] == documents[i].metadata.policyId
  {
    seq(|documents|, i requires 0 <= i < |documents| => documents[i].metadata.policyId)
  }

  // Distinct identifiers stay distinct under any arrangement.
  lemma DistinctPermuted(a: seq<Chunk>, b: seq<Chunk>)
    requires multiset(a) == multiset(b) && DistinctChunkIds(a)
    ensures DistinctChunkIds(b)
  {
    forall i, j | 0 <= i < j < |b| ensures b[i].chunkId != b[j].chunkId {
      assert b[i] in multiset(a) && b[j] in multiset(a);
      var k :| 0 <= k < |a| && a[k] == b[i];
      var m :| 0 <= m < |a| && a[m] == b[j];
      OccursOnce(a, k);
      if k == m { OccursTwice(b, i, j); }
    }
  }

  lemma SameChunks(context: seq<Chunk>, expected: seq<Chunk>)
    requires MatchesExpected(context, expected)
    ensures multiset(context) == multiset(expected)
    ensures forall c :: c in context <==> c in expected
    ensures DistinctChunkIds(expected)
  {
    hide SortById;
    SortEqualExactly(context, expected);
    assert forall c :: c in context <==> c in multiset(context);
    assert forall c :: c in expected <==> c in multiset(expected);
    DistinctPermuted(context, expected);
  }

  // ---- One document per selected policy ----

  lemma OwnersInMember(documents: seq<Document>, policyIds: set<string>, d: Document)
    ensures d in OwnersIn(documents, policyIds) <==> d in documents && d.metadata.policyId in policyIds
  {
    KeepMember(documents, Owning(documents, policyIds), d);
  }

  lemma PolicyOfHeaders(documents: seq<Document>, p: string)
    ensures p in PolicyOf(documents) <==> exists m :: m in Headers(documents) && m.policyId == p
  {
    if p in PolicyOf(documents) {
      var i :| 0 <= i < |documents| && PolicyOf(documents)[i] == p;
      assert documents[i] in documents;
    }
    if exists m :: m in Headers(documents) && m.policyId == p {
      var d :| d in documents && d.metadata.policyId == p;
      var i :| 0 <= i < |documents| && documents[i] == d;
      assert PolicyOf(documents)[i] == p;
    }
  }

  lemma SamePolicies(a: seq<Chunk>, b: seq<Chunk>)
    requires forall c :: c in a <==> c in b
    ensures Policies(a) == Policies(b)
  {
  }

  // The owners' policies are exactly the selected ones, without repetition.
  lemma OwnersDistinct(documents: seq<Document>, context: seq<ScoredChunk>, catalog: SourceCatalog)
    requires Pinned(documents, context, catalog)
    ensures Headers(OwnersOf(documents, context)) == Policies(Chunks(context))
    ensures NoDup(PolicyOf(OwnersOf(documents, context)))
    ensures forall p :: p in PolicyOf(OwnersOf(documents, context)) <==> p in PolicyIds(Chunks(context))
  {
    PinnedParts(documents, context, catalog);
    hide FromDocuments, Valid, ChunkAll, SortById, OwnersIn, Headers, Policies, Pinned;
    var owners, chunks := OwnersOf(documents, context), Chunks(context);
    var expected := ChunkAll(owners).value;
    ChunkAllPolicies(owners);
    SameChunks(chunks, expected);
    SamePolicies(chunks, expected);
    forall p ensures p in PolicyOf(owners) <==> p in PolicyIds(chunks) {
      PolicyOfHeaders(owners, p);
    }
    NoDupCardinality(PolicyOf(owners), PolicyIds(chunks));
  }

  lemma OwnerIndex(documents: seq<Document>, d: Document) returns (i: nat)
    requires d in documents
    ensures i < |documents| && documents[i] == d && PolicyOf(documents)[i] == d.metadata.policyId
  {
    i :| 0 <= i < |documents| && documents[i] == d;
  }

  lemma OneOwner(documents: seq<Document>, selected: set<string>, policyId: string)
    requires policyId in selected
    requires NoDup(PolicyOf(OwnersIn(documents, selected))) && policyId in PolicyOf(OwnersIn(documents, selected))
    ensures |OwnersIn(documents, {policyId})| == 1
  {
    hide Keep;
    var owners, own := OwnersIn(documents, selected), Owning(documents, {policyId});
    var i :| 0 <= i < |PolicyOf(owners)| && PolicyOf(owners)[i] == policyId;
    OwnersInMember(documents, selected, owners[i]);
    KeepNested(documents, Owning(documents, selected), own);
    forall d | d in owners ensures d in own <==> d == owners[i] {
      OwnersInMember(documents, selected, d);
      var k := OwnerIndex(owners, d);
    }
    assert NoDup(owners);
    KeepOne(owners, own, owners[i]);
  }

  // Exactly one of all the documents owns each selected policy.
  lemma OneDocumentPerPolicy(documents: seq<Document>, context: seq<ScoredChunk>, catalog: SourceCatalog,
                             policyId: string)
    requires Pinned(documents, context, catalog) && policyId in PolicyIds(Chunks(context))
    ensures |OwnersIn(documents, {policyId})| == 1
  {
    hide Pinned, OwnersIn, PolicyIds, NoDup, PolicyOf;
    OwnersDistinct(documents, context, catalog);
    OneOwner(documents, PolicyIds(Chunks(context)), policyId);
  }
}
