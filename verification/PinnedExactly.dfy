/** Exactly when pinned documents and a context make a catalogue: what `from_documents` of
    src/policynim/source_units.py really asks, and which of its later refusals can then not happen. */
module PinnedExactly {
  import opened Results
  import opened Text
  import opened Decimal
  import opened Seqs
  import opened Json
  import opened ChunkIds
  import opened Chunking
  import opened Ordering
  import opened Catalog
  import opened PinnedSources
  import opened SourceBinding

  // One document for each selected policy, and the context an arrangement of all their chunks.
  ghost predicate CompleteContext(documents: seq<Document>, context: seq<ScoredChunk>) {
    var owners := OwnersOf(documents, context);
    && context != []
    && NoDup(PolicyOf(owners))
    && ChunkAll(owners).Some?
    && MatchesExpected(Chunks(context), ChunkAll(owners).value)
  }

  // Policies carry an identifier and a title.
  predicate HaveNames(documents: seq<Document>) {
    forall d :: d in documents ==> d.metadata.policyId != "" && d.metadata.title != ""
  }

  // The size limits; those on the number of units and of citations follow from the first.
  predicate SizesFit(context: seq<ScoredChunk>, units: seq<SourceUnit>, fingerprints: seq<Chunk>) {
    && |context| <= MAX_SOURCE_CHUNKS
    && ContextSize(context) <= MAX_SOURCE_BYTES
    && Size(EscapedAscii, List(UnitAttributes(units))) <= MAX_SOURCE_BYTES
    && Size(EscapedAscii, PromptPayload(units)) <= MAX_SOURCE_BYTES
    && Total(fingerprints, FingerprintSize) <= MAX_SOURCE_BYTES
  }

  ghost predicate Pinnable(documents: seq<Document>, context: seq<ScoredChunk>) {
    && CompleteContext(documents, context)
    && var owners := OwnersOf(documents, context);
       var expected := ChunkAll(owners).value;
       HaveNames(owners) && SizesFit(context, UnitsFor(owners, expected), SortById(expected))
  }

  // ---- A complete context has as many owners as policies ----

  lemma PolicyOfContext(context: seq<ScoredChunk>)
    requires context != []
    ensures |PolicyIds(Chunks(context))| > 0
  {
    assert Chunks(context)[0] in Chunks(context);
    assert Chunks(context)[0].policy in Policies(Chunks(context));
    assert Chunks(context)[0].policy.policyId in PolicyIds(Chunks(context));
  }

  lemma OwnersMatchPolicies(documents: seq<Document>, context: seq<ScoredChunk>)
    requires CompleteContext(documents, context)
    ensures |OwnersOf(documents, context)| == |PolicyIds(Chunks(context))| > 0
  {
    hide ChunkAll, SortById, OwnersIn, Headers, Policies, MatchesExpected;
    var owners, chunks := OwnersOf(documents, context), Chunks(context);
    var expected := ChunkAll(owners).value;
    ChunkAllPolicies(owners);
    SameChunks(chunks, expected);
    SamePolicies(chunks, expected);
    forall p ensures p in PolicyOf(owners) <==> p in PolicyIds(chunks) {
      PolicyOfHeaders(owners, p);
    }
    NoDupCardinality(PolicyOf(owners), PolicyIds(chunks));
    PolicyOfContext(context);
  }

  // ---- Its units are well formed ----

  lemma {:induction false} SourceIdShape(n: nat)
    requires 1 <= n <= MAX_SOURCE_CHUNKS
    ensures IsSourceId("s" + Numeral(n))
  {
    var s := "s" + Numeral(n);
    if n < 10 {
      assert Numeral(n) == [Digit(n)];
    } else {
      assert Numeral(n / 10) == [Digit(n / 10)];
      assert Numeral(n) == [Digit(n / 10), Digit(n % 10)];
    }
  }

  lemma {:induction false} KeepDistinctIds(chunks: seq<Chunk>, which: set<Chunk>)
    requires DistinctChunkIds(chunks)
    ensures DistinctChunkIds(Keep(chunks, which))
  {
    if chunks != [] {
      var front, last := chunks[..|chunks| - 1], chunks[|chunks| - 1];
      KeepDistinctIds(front, which);
      var kept := Keep(front, which);
      forall i | 0 <= i < |kept| ensures kept[i].chunkId != last.chunkId {
        KeepMember(front, which, kept[i]);
        var k :| 0 <= k < |front| && front[k] == kept[i];
        assert chunks[k] == front[k];
      }
    }
  }

  lemma IdsNoDup(expected: seq<Chunk>, policyId: string)
    requires DistinctChunkIds(expected)
    ensures NoDup(IdsOf(Owned(expected, policyId)))
  {
    var which := set c | c in expected && c.policy.policyId == policyId;
    KeepDistinctIds(expected, which);
  }

  lemma LastBody(document: Document)
    requires ChunksOf(document).Ok?
    ensures !Blank(document.body)
  {
  }

  lemma {:induction false} ChunkAllBodies(owners: seq<Document>, i: nat)
    requires ChunkAll(owners).Some? && i < |owners|
    ensures !Blank(owners[i].body)
  {
    ChunkAllLast(owners);
    hide Blank, ChunkAll, ChunksOf;
    if i < |owners| - 1 {
      ChunkAllBodies(owners[..|owners| - 1], i);
    } else {
      LastBody(owners[i]);
    }
  }

  // Each owner has a chunk of its own among those expected.
  lemma OwnerCited(owners: seq<Document>, i: nat)
    requires ChunkAll(owners).Some? && i < |owners|
    ensures IdsOf(Owned(ChunkAll(owners).value, owners[i].metadata.policyId)) != []
    ensures !Blank(owners[i].body)
  {
    hide ChunksOf, Owned;
    var expected, policyId := ChunkAll(owners).value, owners[i].metadata.policyId;
    ChunkAllPolicies(owners);
    assert owners[i].metadata in Headers(owners);
    var c :| c in expected && c.policy == owners[i].metadata;
    CitedByOwner(expected, policyId, c.chunkId);
    ChunkAllBodies(owners, i);
  }

  // ---- No citation is counted twice ----

  function OwnedCount(policies: seq<string>, chunks: seq<Chunk>): nat {
    if policies == [] then 0
    else OwnedCount(policies[..|policies| - 1], chunks) + |Owned(chunks, policies[|policies| - 1])|
  }

  lemma OwnedLast(chunks: seq<Chunk>, policyId: string)
    requires chunks != []
    ensures var front, last := chunks[..|chunks| - 1], chunks[|chunks| - 1];
            |Owned(chunks, policyId)| == |Owned(front, policyId)| + if last.policy.policyId == policyId then 1 else 0
  {
    var front, last := chunks[..|chunks| - 1], chunks[|chunks| - 1];
    assert chunks == front + [last];
    KeepSame(front, set c | c in chunks && c.policy.policyId == policyId,
             set c | c in front && c.policy.policyId == policyId);
  }

  lemma {:induction false} OwnedCountLast(policies: seq<string>, chunks: seq<Chunk>)
    requires NoDup(policies) && chunks != []
    ensures OwnedCount(policies, chunks) == OwnedCount(policies, chunks[..|chunks| - 1])
                                            + if chunks[|chunks| - 1].policy.policyId in policies then 1 else 0
  {
    hide Owned;
    if policies != [] {
      var front, last := policies[..|policies| - 1], policies[|policies| - 1];
      OwnedCountLast(front, chunks);
      OwnedLast(chunks, last);
      assert policies == front + [last];
    }
  }

  lemma {:induction false} OwnedCountNone(policies: seq<string>)
    ensures OwnedCount(policies, []) == 0
  {
    if policies != [] {
      OwnedCountNone(policies[..|policies| - 1]);
    }
  }

  lemma {:induction false} OwnedCountBound(policies: seq<string>, chunks: seq<Chunk>)
    requires NoDup(policies)
    ensures OwnedCount(policies, chunks) <= |chunks|
  {
    if chunks == [] {
      OwnedCountNone(policies);
    } else {
      OwnedCountLast(policies, chunks);
      OwnedCountBound(policies, chunks[..|chunks| - 1]);
    }
  }

  lemma {:induction false} UnitsCount(owners: seq<Document>, expected: seq<Chunk>)
    ensures Total(UnitsFor(owners, expected), CitationCount) == OwnedCount(PolicyOf(owners), expected)
  {
    hide Owned;
    if owners != [] {
      var front := owners[..|owners| - 1];
      UnitsCount(front, expected);
      assert UnitsFor(owners, expected)[..|owners| - 1] == UnitsFor(front, expected);
      assert PolicyOf(owners)[..|owners| - 1] == PolicyOf(front);
    }
  }

  lemma {:induction false} CountAtLeast(units: seq<SourceUnit>)
    requires forall i :: 0 <= i < |units| ==> units[i].citationIds != []
    ensures |units| <= Total(units, CitationCount)
  {
    if units != [] {
      CountAtLeast(units[..|units| - 1]);
    }
  }

  // ---- So nothing but a size can still be refused ----

  lemma SameLength(context: seq<ScoredChunk>, expected: seq<Chunk>)
    requires MatchesExpected(Chunks(context), expected)
    ensures |expected| == |context|
  {
    hide SortById;
    SameChunks(Chunks(context), expected);
    assert |multiset(expected)| == |expected| && |multiset(Chunks(context))| == |context|;
  }

  lemma UnitsWithinCounts(documents: seq<Document>, context: seq<ScoredChunk>)
    requires CompleteContext(documents, context)
    ensures var units := UnitsFor(OwnersOf(documents, context), ChunkAll(OwnersOf(documents, context)).value);
            |units| <= Total(units, CitationCount) <= |context|
  {
    hide ChunkAll, OwnersOf, Owned, MatchesExpected, Total, OwnedCount;
    var owners := OwnersOf(documents, context);
    var expected := ChunkAll(owners).value;
    var units := UnitsFor(owners, expected);
    SameLength(context, expected);
    UnitsCount(owners, expected);
    OwnedCountBound(PolicyOf(owners), expected);
    forall i | 0 <= i < |units| ensures units[i].citationIds != [] {
      OwnerCited(owners, i);
    }
    CountAtLeast(units);
  }

  lemma UnitShape(owners: seq<Document>, context: seq<ScoredChunk>, i: nat)
    requires ChunkAll(owners).Some? && MatchesExpected(Chunks(context), ChunkAll(owners).value)
    requires HaveNames(owners) && i < |owners| && i < MAX_SOURCE_CHUNKS
    ensures WellFormedUnit(UnitFor(owners[i], i, ChunkAll(owners).value))
  {
    hide ChunkAll, Owned, IsSourceId, NoDup, Numeral;
    var expected := ChunkAll(owners).value;
    OwnerCited(owners, i);
    SameChunks(Chunks(context), expected);
    IdsNoDup(expected, owners[i].metadata.policyId);
    SourceIdShape(i + 1);
    StripFacts(owners[i].body);
    assert owners[i] in owners;
  }

  lemma UnitsDistinct(owners: seq<Document>, expected: seq<Chunk>)
    requires NoDup(PolicyOf(owners))
    ensures DistinctOwners(UnitsFor(owners, expected))
  {
    hide Owned;
    var units := UnitsFor(owners, expected);
    forall i, j | 0 <= i < j < |units|
      ensures units[i].sourceId != units[j].sourceId && units[i].policyId != units[j].policyId
    {
      assert PolicyOf(owners)[i] != PolicyOf(owners)[j];
      if units[i].sourceId == units[j].sourceId {
        assert units[i].sourceId[1..] == Numeral(i + 1) && units[j].sourceId[1..] == Numeral(j + 1);
        NumeralInjective(i + 1, j + 1);
      }
    }
  }

  // A complete context of named policies makes a valid catalogue whenever the sizes fit.
  lemma CompleteIsValid(documents: seq<Document>, context: seq<ScoredChunk>)
    requires Pinnable(documents, context)
    ensures var owners := OwnersOf(documents, context);
            var expected := ChunkAll(owners).value;
            Valid(SourceCatalog(UnitsFor(owners, expected), SortById(expected)))
  {
    hide ChunkAll, OwnersOf, SortById, MatchesExpected, WellFormedUnit, UnitFor, DistinctOwners, Total, Size,
         ContextSize, NoDup;
    var owners := OwnersOf(documents, context);
    var expected := ChunkAll(owners).value;
    var units := UnitsFor(owners, expected);
    UnitsWithinCounts(documents, context);
    UnitsDistinct(owners, expected);
    forall i | 0 <= i < |units| ensures WellFormedUnit(units[i]) {
      UnitShape(owners, context, i);
    }
  }

  lemma PinnedSizes(documents: seq<Document>, context: seq<ScoredChunk>, catalog: SourceCatalog)
    requires Pinned(documents, context, catalog)
    ensures SizesFit(context, catalog.units, catalog.fingerprints) && context != []
  {
    hide ChunkAll, OwnersIn, SortById, MatchesExpected, Total, Size, ContextSize, PolicyIds, UnitsFor, WellFormedUnit;
  }

  lemma ValidUnitNamed(catalog: SourceCatalog, i: nat)
    requires Valid(catalog) && i < |catalog.units|
    ensures catalog.units[i].policyId != "" && catalog.units[i].title != ""
  {
    hide WithinBudget, DistinctOwners, NoDup;
    assert WellFormedUnit(catalog.units[i]);
  }

  lemma PinnedNamed(documents: seq<Document>, context: seq<ScoredChunk>, catalog: SourceCatalog)
    requires Pinned(documents, context, catalog)
    ensures HaveNames(OwnersOf(documents, context))
  {
    hide Pinned, ChunkAll, OwnersOf, SortById, MatchesExpected, Owned, WithinBudget, DistinctOwners, WellFormedUnit,
         Valid;
    PinnedParts(documents, context, catalog);
    var owners := OwnersOf(documents, context);
    forall d | d in owners ensures d.metadata.policyId != "" && d.metadata.title != "" {
      var i := OwnerIndex(owners, d);
      ValidUnitNamed(catalog, i);
    }
  }

  lemma PinnedIsPinnable(documents: seq<Document>, context: seq<ScoredChunk>, catalog: SourceCatalog)
    requires Pinned(documents, context, catalog)
    ensures Pinnable(documents, context)
  {
    hide Pinned, ChunkAll, OwnersOf, SortById, MatchesExpected, SizesFit, NoDup, PolicyIds, PolicyOf, UnitsFor,
         HaveNames;
    OwnersDistinct(documents, context, catalog);
    PinnedParts(documents, context, catalog);
    PinnedNamed(documents, context, catalog);
    PinnedSizes(documents, context, catalog);
  }

  lemma NothingRefused(documents: seq<Document>, context: seq<ScoredChunk>)
    requires context != []
    requires |OwnersOf(documents, context)| == |PolicyIds(Chunks(context))| > 0
    requires ChunkAll(OwnersOf(documents, context)).Some?
    requires var expected := ChunkAll(OwnersOf(documents, context)).value;
             var units := UnitsFor(OwnersOf(documents, context), expected);
             && MatchesExpected(Chunks(context), expected)
             && SizesFit(context, units, SortById(expected))
             && Valid(SourceCatalog(units, SortById(expected)))
             && forall u :: u in units ==> Strip(u.body) != ""
    ensures exists catalog :: Pinned(documents, context, catalog)
  {
    hide ChunkAll, OwnersIn, SortById, MatchesExpected, Total, Size, PolicyIds, Valid, UnitAttributes, ContextSize,
         Construct, Strip;
    var owners := OwnersOf(documents, context);
    var expected := ChunkAll(owners).value;
    var catalog := SourceCatalog(UnitsFor(owners, expected), SortById(expected));
    assert Pinned(documents, context, catalog);
  }

  lemma BodiesUsable(owners: seq<Document>, expected: seq<Chunk>)
    requires ChunkAll(owners).Some?
    ensures forall u :: u in UnitsFor(owners, expected) ==> Strip(u.body) != ""
  {
    hide ChunkAll, Strip, Blank, Owned;
    var units := UnitsFor(owners, expected);
    forall i | 0 <= i < |units| ensures Strip(units[i].body) != "" {
      ChunkAllBodies(owners, i);
      StripFacts(owners[i].body);
    }
  }

  lemma PinnableIsPinned(documents: seq<Document>, context: seq<ScoredChunk>)
    requires Pinnable(documents, context)
    ensures exists catalog :: Pinned(documents, context, catalog)
  {
    CompleteIsValid(documents, context);
    OwnersMatchPolicies(documents, context);
    var owners := OwnersOf(documents, context);
    BodiesUsable(owners, ChunkAll(owners).value);
    hide *;
    NothingRefused(documents, context);
  }

  // Only complete contexts of named policies whose sizes fit make a catalogue, and they all do.
  lemma PinnedExactlyWhen(documents: seq<Document>, context: seq<ScoredChunk>)
    ensures (exists catalog :: Pinned(documents, context, catalog)) <==> Pinnable(documents, context)
  {
    hide Pinned, Pinnable;
    if exists catalog :: Pinned(documents, context, catalog) {
      var catalog :| Pinned(documents, context, catalog);
      PinnedIsPinnable(documents, context, catalog);
    }
    if Pinnable(documents, context) {
      PinnableIsPinned(documents, context);
    }
  }

  lemma NoChunks()
    ensures ChunkAll([]) == Some([])
  {
  }

  lemma LastChunked(documents: seq<Document>)
    requires documents != []
    ensures ChunkAll(documents).None? <==>
              ChunkAll(documents[..|documents| - 1]).None? || Blank(documents[|documents| - 1].body)
  {
  }

  lemma {:induction false} ChunkingFails(documents: seq<Document>)
    ensures ChunkAll(documents).None? <==> exists d :: d in documents && Blank(d.body)
  {
    hide Blank, ChunkAll;
    NoChunks();
    if documents != [] {
      var front, last := documents[..|documents| - 1], documents[|documents| - 1];
      ChunkingFails(front);
      LastChunked(documents);
      assert documents == front + [last];
    }
  }

  // What makes an incomplete context one.
  lemma Incomplete(documents: seq<Document>, context: seq<ScoredChunk>)
    requires !CompleteContext(documents, context) && context != []
    requires |OwnersOf(documents, context)| == |PolicyIds(Chunks(context))|
    requires ChunkAll(OwnersOf(documents, context)).Some?
    ensures !MatchesExpected(Chunks(context), ChunkAll(OwnersOf(documents, context)).value)
  {
    hide ChunkAll, SortById, OwnersIn, Headers, Policies, MatchesExpected;
    var owners, chunks := OwnersOf(documents, context), Chunks(context);
    var expected := ChunkAll(owners).value;
    if MatchesExpected(chunks, expected) {
      ChunkAllPolicies(owners);
      SameChunks(chunks, expected);
      SamePolicies(chunks, expected);
      forall p ensures p in PolicyOf(owners) <==> p in PolicyIds(chunks) {
        PolicyOfHeaders(owners, p);
      }
      NoDupCardinality(PolicyOf(owners), PolicyIds(chunks));
    }
  }

  lemma CompleteParts(documents: seq<Document>, context: seq<ScoredChunk>)
    requires CompleteContext(documents, context)
    ensures context != [] && ChunkAll(OwnersOf(documents, context)).Some?
    ensures MatchesExpected(Chunks(context), ChunkAll(OwnersOf(documents, context)).value)
  {
  }

  lemma CompleteOutcome(documents: seq<Document>, context: seq<ScoredChunk>)
    requires CompleteContext(documents, context)
    ensures var r := FromDocuments(documents, context);
            r.Err? || (r.value.units != [] && Pinned(documents, context, r.value))
  {
    hide ChunkAll, OwnersIn, SortById, MatchesExpected, Total, Size, PolicyIds, Valid, UnitAttributes, ContextSize,
         Strip, NoDup, PolicyOf, Construct, CompleteContext, UnitFor;
    OwnersMatchPolicies(documents, context);
    CompleteParts(documents, context);
  }

  // Every outcome: a catalogue, a refusal of a complete context that is unnamed or too large, the failure to
  // chunk one of the selected documents, and for every other context an empty catalogue.
  lemma OutcomeExactly(documents: seq<Document>, context: seq<ScoredChunk>)
    ensures var r, owners := FromDocuments(documents, context), OwnersOf(documents, context);
            if Pinnable(documents, context) then r.Ok? && r.value.units != []
            else if CompleteContext(documents, context) then r.Err? && r.error != InvalidDocument
            else if context != [] && |owners| == |PolicyIds(Chunks(context))|
                    && exists d :: d in owners && Blank(d.body) then r == Err(InvalidDocument)
            else r == Ok(EMPTY_CATALOG)
  {
    hide Pinnable, ChunkAll, OwnersIn, SortById, MatchesExpected, PolicyIds, UnitAttributes, ContextSize, Size,
         CompleteContext, Blank, Strip, UnitsFor, Valid;
    var owners := OwnersOf(documents, context);
    PinnedExactlyWhen(documents, context);
    ChunkingFails(owners);
    if CompleteContext(documents, context) {
      CompleteOutcome(documents, context);
      CompleteParts(documents, context);
    } else if context != [] && |owners| == |PolicyIds(Chunks(context))| && ChunkAll(owners).Some? {
      Incomplete(documents, context);
    }
  }

  // ---- Where identifiers can clash ----

  lemma {:induction false} ChunkOwner(documents: seq<Document>, c: Chunk) returns (d: nat, i: nat)
    requires ChunkAll(documents).Some? && c in ChunkAll(documents).value
    ensures d < |documents| && ChunksOf(documents[d]).Ok? && i < |ChunksOf(documents[d]).value|
    ensures ChunksOf(documents[d]).value[i] == c
  {
    hide ChunkAll, ChunksOf;
    NoChunks();
    if documents != [] {
      ChunkAllLast(documents);
      var front, last := documents[..|documents| - 1], documents[|documents| - 1];
      if c in ChunkAll(front).value {
        d, i := ChunkOwner(front, c);
      } else {
        assert c in ChunksOf(last).value;
        d := |documents| - 1;
        i :| 0 <= i < |ChunksOf(last).value| && ChunksOf(last).value[i] == c;
      }
    }
  }

  lemma DistinctConcat(a: seq<Chunk>, b: seq<Chunk>)
    ensures DistinctChunkIds(a + b) ==> DistinctChunkIds(a) && DistinctChunkIds(b)
    ensures DistinctChunkIds(a) && DistinctChunkIds(b) && (forall x, y :: x in a && y in b ==> x.chunkId != y.chunkId)
        ==> DistinctChunkIds(a + b)
  {
    var s := a + b;
    if DistinctChunkIds(s) {
      forall i, j | 0 <= i < j < |a| ensures a[i].chunkId != a[j].chunkId {
        assert s[i] == a[i] && s[j] == a[j];
      }
      forall i, j | 0 <= i < j < |b| ensures b[i].chunkId != b[j].chunkId {
        assert s[|a| + i] == b[i] && s[|a| + j] == b[j];
      }
    }
  }

  lemma NoneDistinct()
    ensures DistinctChunkIds([])
  {
  }

  lemma PoliciesOfFront(documents: seq<Document>)
    requires documents != [] && NoDup(PolicyOf(documents))
    ensures NoDup(PolicyOf(documents[..|documents| - 1]))
  {
    assert PolicyOf(documents)[..|documents| - 1] == PolicyOf(documents[..|documents| - 1]);
  }

  ghost predicate DistinctChunks(document: Document) {
    ChunksOf(document).Ok? && DistinctChunkIds(ChunksOf(document).value)
  }

  lemma LastDistinct(document: Document)
    requires ChunksOf(document).Ok?
    ensures DistinctChunks(document) <==> DistinctChunkIds(ChunksOf(document).value)
  {
    hide ChunksOf;
  }

  lemma LastApart(documents: seq<Document>, x: Chunk, y: Chunk)
    requires documents != [] && NoDup(PolicyOf(documents))
    requires ChunkAll(documents[..|documents| - 1]).Some? && x in ChunkAll(documents[..|documents| - 1]).value
    requires ChunksOf(documents[|documents| - 1]).Ok? && y in ChunksOf(documents[|documents| - 1]).value
    ensures x.chunkId != y.chunkId
  {
    hide ChunkAll, ChunksOf;
    var front, last := documents[..|documents| - 1], documents[|documents| - 1];
    var d, i := ChunkOwner(front, x);
    var j :| 0 <= j < |ChunksOf(last).value| && ChunksOf(last).value[j] == y;
    assert PolicyOf(documents)[d] != PolicyOf(documents)[|documents| - 1];
    if x.chunkId == y.chunkId {
      PoliciesApart(front[d], i, last, j);
    }
  }

  // Among documents of different policies, identifiers are distinct exactly when they are in each document.
  lemma {:induction false} DistinctInEach(documents: seq<Document>)
    requires ChunkAll(documents).Some? && NoDup(PolicyOf(documents))
    ensures DistinctChunkIds(ChunkAll(documents).value) <==>
              forall i :: 0 <= i < |documents| ==> DistinctChunks(documents[i])
  {
    hide ChunkAll, ChunksOf, DistinctChunkIds, DistinctChunks, NoDup, PolicyOf;
    if documents == [] {
      NoChunks();
      NoneDistinct();
    } else {
      PoliciesOfFront(documents);
      ChunkAllLast(documents);
      var front, last := documents[..|documents| - 1], documents[|documents| - 1];
      DistinctInEach(front);
      forall x, y | x in ChunkAll(front).value && y in ChunksOf(last).value ensures x.chunkId != y.chunkId {
        LastApart(documents, x, y);
      }
      DistinctConcat(ChunkAll(front).value, ChunksOf(last).value);
      LastDistinct(last);
    }
  }

  // No key of the document's sections is a generated repetition of another one.
  ghost predicate KeysApart(document: Document) {
    && SectionsIn(document).Ok?
    && !exists b, n :: Clash(BaseIds(document, SectionsIn(document).value), b, n)
  }

  lemma DistinctWhenKeysApart(document: Document)
    requires ChunksOf(document).Ok?
    ensures DistinctChunks(document) <==> KeysApart(document)
  {
    ExtractedSpanned(document);
    ChunkIdsDistinctExactly(document);
    hide ChunksOf, Clash, BaseIds, DistinctChunkIds, SectionsIn;
  }

  // The demands on a complete context, without looking at any identifier but within one document.
  ghost predicate Arranged(documents: seq<Document>, context: seq<ScoredChunk>) {
    var owners := OwnersOf(documents, context);
    && context != []
    && NoDup(PolicyOf(owners))
    && ChunkAll(owners).Some?
    && multiset(Chunks(context)) == multiset(ChunkAll(owners).value)
    && forall i :: 0 <= i < |owners| ==> KeysApart(owners[i])
  }

  lemma {:induction false} OwnerChunked(owners: seq<Document>, i: nat)
    requires ChunkAll(owners).Some? && i < |owners|
    ensures ChunksOf(owners[i]).Ok?
  {
    ChunkAllLast(owners);
    hide ChunkAll, ChunksOf;
    if i < |owners| - 1 {
      OwnerChunked(owners[..|owners| - 1], i);
    }
  }

  // A context is complete exactly when it arranges all chunks of its owners and no owner's keys clash.
  lemma CompleteWhenKeysApart(documents: seq<Document>, context: seq<ScoredChunk>)
    ensures CompleteContext(documents, context) <==> Arranged(documents, context)
  {
    hide OwnersOf, ChunkAll, SortById, DistinctChunkIds, DistinctChunks, KeysApart, NoDup, PolicyOf;
    var owners, chunks := OwnersOf(documents, context), Chunks(context);
    if ChunkAll(owners).Some? && NoDup(PolicyOf(owners)) {
      var expected := ChunkAll(owners).value;
      DistinctInEach(owners);
      forall i | 0 <= i < |owners| ensures DistinctChunks(owners[i]) <==> KeysApart(owners[i]) {
        OwnerChunked(owners, i);
        DistinctWhenKeysApart(owners[i]);
      }
      if MatchesExpected(chunks, expected) {
        SameChunks(chunks, expected);
      }
      if multiset(chunks) == multiset(expected) && DistinctChunkIds(expected) {
        DistinctPermuted(expected, chunks);
        SortEqualExactly(chunks, expected);
      }
    }
  }
}
