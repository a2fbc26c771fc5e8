/** Where the units of a pinned catalogue come from: whole documents, in their order, with their own chunks,
    after src/policynim/source_units.py. */
module UnitSources {
  import opened Results
  import opened Decimal
  import opened Seqs
  import opened Chunking
  import opened Ordering
  import opened Catalog
  import opened PinnedSources

  // ---- The chunks of one owner ----

  lemma OwnedConcat(a: seq<Chunk>, b: seq<Chunk>, policyId: string)
    ensures Owned(a + b, policyId) == Owned(a, policyId) + Owned(b, policyId)
  {
    var which := set c | c in a + b && c.policy.policyId == policyId;
    KeepConcat(a, b, which);
    forall i | 0 <= i < |a| ensures a[i] in which <==> a[i].policy.policyId == policyId {
      assert (a + b)[i] == a[i];
    }
    forall i | 0 <= i < |b| ensures b[i] in which <==> b[i].policy.policyId == policyId {
      assert (a + b)[|a| + i] == b[i];
    }
    KeepSame(a, which, set c | c in a && c.policy.policyId == policyId);
    KeepSame(b, which, set c | c in b && c.policy.policyId == policyId);
  }

  lemma OwnedOfOne(chunks: seq<Chunk>, m: Metadata, policyId: string)
    requires forall i :: 0 <= i < |chunks| ==> chunks[i].policy == m
    ensures Owned(chunks, policyId) == if m.policyId == policyId then chunks else []
  {
    var which := set c | c in chunks && c.policy.policyId == policyId;
    if m.policyId == policyId {
      KeepAll(chunks, which);
    } else {
      KeepNone(chunks, which);
    }
  }

  lemma OwnedLastDocument(documents: seq<Document>, policyId: string)
    requires documents != [] && ChunkAll(documents).Some?
    ensures var front, last := documents[..|documents| - 1], documents[|documents| - 1];
            && ChunkAll(front).Some? && ChunksOf(last).Ok?
            && Owned(ChunkAll(documents).value, policyId) ==
                 Owned(ChunkAll(front).value, policyId)
                 + (if last.metadata.policyId == policyId then ChunksOf(last).value else [])
  {
    hide ChunksOf, Owned, ChunkAll;
    ChunkAllLast(documents);
    var front, last := documents[..|documents| - 1], documents[|documents| - 1];
    OwnedConcat(ChunkAll(front).value, ChunksOf(last).value, policyId);
    OwnedOfOne(ChunksOf(last).value, last.metadata, policyId);
  }

  lemma NothingChunked(policyId: string)
    ensures ChunkAll([]) == Some([]) && Owned([], policyId) == []
  {
  }

  lemma {:induction false} OwnedByNone(documents: seq<Document>, policyId: string)
    requires ChunkAll(documents).Some? && policyId !in PolicyOf(documents)
    ensures Owned(ChunkAll(documents).value, policyId) == []
  {
    hide ChunksOf, Owned, ChunkAll;
    NothingChunked(policyId);
    if documents != [] {
      var front := documents[..|documents| - 1];
      OwnedLastDocument(documents, policyId);
      assert PolicyOf(documents)[|documents| - 1] != policyId;
      assert PolicyOf(front) == PolicyOf(documents)[..|front|];
      OwnedByNone(front, policyId);
    }
  }

  // Of all documents' chunks, a policy owns exactly those of its one document, in their order.
  lemma {:induction false} OwnedByDocument(documents: seq<Document>, i: nat)
    requires ChunkAll(documents).Some? && NoDup(PolicyOf(documents)) && i < |documents|
    ensures ChunksOf(documents[i]).Ok?
    ensures Owned(ChunkAll(documents).value, documents[i].metadata.policyId) == ChunksOf(documents[i]).value
  {
    hide ChunksOf, Owned, ChunkAll;
    var n, policyId := |documents| - 1, documents[i].metadata.policyId;
    var front := documents[..n];
    OwnedLastDocument(documents, policyId);
    assert PolicyOf(front) == PolicyOf(documents)[..n];
    assert PolicyOf(documents)[i] == policyId;
    if i < n {
      assert PolicyOf(documents)[n] == documents[n].metadata.policyId;
      OwnedByDocument(front, i);
    } else {
      OwnedByNone(front, policyId);
    }
  }

  // ---- The documents of the units ----

  // The unit is the document, whole, under the unit's own number and with the identifiers of exactly that
  // document's chunks.
  ghost predicate Holds(unit: SourceUnit, i: nat, d: Document) {
    && unit.sourceId == "s" + Numeral(i + 1)
    && unit.policyId == d.metadata.policyId
    && unit.title == d.metadata.title
    && unit.body == d.body
    && unit.provenance == d.metadata.provenance
    && ChunksOf(d).Ok? && |unit.citationIds| == |ChunksOf(d).value|
    && forall k :: 0 <= k < |unit.citationIds| ==> unit.citationIds[k] == ChunksOf(d).value[k].chunkId
  }

  // All chunks of the document are the context's.
  ghost predicate InContext(d: Document, context: seq<ScoredChunk>) {
    ChunksOf(d).Ok? && forall c :: c in ChunksOf(d).value ==> c in Chunks(context)
  }

  // Only the document at this position is of the policy.
  ghost predicate OnlyAt(documents: seq<Document>, policyId: string, at: nat) {
    forall k :: 0 <= k < |documents| && documents[k].metadata.policyId == policyId ==> k == at
  }

  lemma OnlyOwner(documents: seq<Document>, owners: seq<Document>, at: seq<nat>, i: nat, other: nat)
    requires |at| == |owners| && NoDup(PolicyOf(owners)) && i < |owners| && other in at
    requires forall j :: 0 <= j < |at| ==> at[j] < |documents| && documents[at[j]] == owners[j]
    requires documents[other].metadata.policyId == owners[i].metadata.policyId
    ensures other == at[i]
  {
    var j :| 0 <= j < |at| && at[j] == other;
    assert PolicyOf(owners)[j] == PolicyOf(owners)[i];
  }

  lemma SelectedBy(context: seq<ScoredChunk>, policyId: string)
    ensures policyId in PolicyIds(Chunks(context)) <==>
              exists scored :: scored in context && scored.chunk.policy.policyId == policyId
  {
    var chunks := Chunks(context);
    if policyId in PolicyIds(chunks) {
      var c :| c in chunks && c.policy.policyId == policyId;
      var i :| 0 <= i < |chunks| && chunks[i] == c;
      assert context[i] in context;
    }
    if exists scored :: scored in context && scored.chunk.policy.policyId == policyId {
      var scored :| scored in context && scored.chunk.policy.policyId == policyId;
      var i :| 0 <= i < |context| && context[i] == scored;
      assert chunks[i] in chunks;
      assert chunks[i].policy in Policies(chunks);
    }
  }

  lemma {:induction false} OwnersChunks(owners: seq<Document>, i: nat, c: Chunk)
    requires ChunkAll(owners).Some? && i < |owners|
    ensures ChunksOf(owners[i]).Ok?
    ensures c in ChunksOf(owners[i]).value ==> c in ChunkAll(owners).value
  {
    hide ChunkAll, ChunksOf;
    ChunkAllLast(owners);
    if i < |owners| - 1 {
      OwnersChunks(owners[..|owners| - 1], i, c);
    }
  }

  lemma HoldsWhen(unit: SourceUnit, i: nat, d: Document, chunks: seq<Chunk>)
    requires ChunksOf(d) == Ok(chunks)
    requires unit == SourceUnit("s" + Numeral(i + 1), d.metadata.policyId, d.metadata.title, d.body, IdsOf(chunks),
                                d.metadata.provenance)
    ensures Holds(unit, i, d)
  {
    hide ChunksOf, Numeral;
  }

  lemma UnitHolds(owners: seq<Document>, i: nat)
    requires NoDup(PolicyOf(owners)) && ChunkAll(owners).Some? && i < |owners|
    ensures Holds(UnitFor(owners[i], i, ChunkAll(owners).value), i, owners[i])
  {
    hide ChunkAll, ChunksOf, Owned, NoDup, PolicyOf, Holds, Numeral, IdsOf;
    OwnedByDocument(owners, i);
    HoldsWhen(UnitFor(owners[i], i, ChunkAll(owners).value), i, owners[i], ChunksOf(owners[i]).value);
  }

  lemma OwnerInContext(documents: seq<Document>, context: seq<ScoredChunk>, catalog: SourceCatalog, i: nat)
    requires Pinned(documents, context, catalog) && i < |OwnersOf(documents, context)|
    ensures InContext(OwnersOf(documents, context)[i], context)
  {
    hide Pinned, ChunkAll, OwnersOf, SortById, Valid, MatchesExpected, ChunksOf, Chunks;
    PinnedParts(documents, context, catalog);
    var owners := OwnersOf(documents, context);
    SameChunks(Chunks(context), ChunkAll(owners).value);
    forall c ensures ChunksOf(owners[i]).Ok? && (c in ChunksOf(owners[i]).value ==> c in Chunks(context)) {
      OwnersChunks(owners, i, c);
    }
  }

  lemma SoleDocument(documents: seq<Document>, owners: seq<Document>, at: seq<nat>, i: nat)
    requires |at| == |owners| && NoDup(PolicyOf(owners)) && i < |owners|
    requires forall j :: 0 <= j < |at| ==> at[j] < |documents| && documents[at[j]] == owners[j]
    requires forall k :: 0 <= k < |documents| && documents[k].metadata.policyId == owners[i].metadata.policyId ==>
                           k in at
    ensures OnlyAt(documents, owners[i].metadata.policyId, at[i])
  {
    hide NoDup, PolicyOf;
    forall k | 0 <= k < |documents| && documents[k].metadata.policyId == owners[i].metadata.policyId
      ensures k == at[i]
    {
      OnlyOwner(documents, owners, at, i, k);
    }
  }

  // The selected documents, with their positions.
  lemma OwnersAt(documents: seq<Document>, context: seq<ScoredChunk>) returns (at: seq<nat>)
    ensures |at| == |OwnersOf(documents, context)|
    ensures Increasing(at)
    ensures forall i :: 0 <= i < |at| ==> at[i] < |documents| && documents[at[i]] == OwnersOf(documents, context)[i]
    ensures forall k :: 0 <= k < |documents| ==>
              (k in at <==> documents[k].metadata.policyId in PolicyIds(Chunks(context)))
  {
    hide Keep, PolicyIds;
    var selected := PolicyIds(Chunks(context));
    at := KeepPositions(documents, Owning(documents, selected));
    forall k | 0 <= k < |documents| ensures k in at <==> documents[k].metadata.policyId in selected {
      assert documents[k] in documents;
    }
  }

  // The units of a catalogue are the documents of the selected policies, whole and in their order.
  lemma UnitsComeFrom(documents: seq<Document>, context: seq<ScoredChunk>, catalog: SourceCatalog)
    returns (at: seq<nat>)
    requires Pinned(documents, context, catalog)
    ensures |at| == |catalog.units|
    ensures Increasing(at)
    ensures forall i :: 0 <= i < |at| ==>
              && at[i] < |documents|
              && Holds(catalog.units[i], i, documents[at[i]])
              && OnlyAt(documents, catalog.units[i].policyId, at[i])
              && InContext(documents[at[i]], context)
    ensures forall k :: 0 <= k < |documents| ==>
              (k in at <==> exists scored :: scored in context &&
                                             scored.chunk.policy.policyId == documents[k].metadata.policyId)
  {
    hide Pinned, ChunkAll, OwnersOf, SortById, NoDup, PolicyOf, Valid, MatchesExpected, PolicyIds, Holds, OnlyAt,
         InContext, Increasing;
    OwnersDistinct(documents, context, catalog);
    PinnedParts(documents, context, catalog);
    at := OwnersAt(documents, context);
    var owners := OwnersOf(documents, context);
    forall i | 0 <= i < |at|
      ensures Holds(catalog.units[i], i, documents[at[i]])
      ensures OnlyAt(documents, catalog.units[i].policyId, at[i]) && InContext(documents[at[i]], context)
    {
      assert at[i] in at;
      OwnerInContext(documents, context, catalog, i);
      UnitHolds(owners, i);
      SoleDocument(documents, owners, at, i);
    }
    forall k | 0 <= k < |documents|
      ensures k in at <==> exists scored :: scored in context &&
                                            scored.chunk.policy.policyId == documents[k].metadata.policyId
    {
      SelectedBy(context, documents[k].metadata.policyId);
    }
  }

  // The fingerprints are the context's chunks, without their scores, in the order of their identifiers.
  lemma FingerprintsOfContext(documents: seq<Document>, context: seq<ScoredChunk>, catalog: SourceCatalog)
    requires Pinned(documents, context, catalog)
    ensures multiset(catalog.fingerprints) == multiset(Chunks(context))
    ensures Sorted(catalog.fingerprints)
  {
    PinnedParts(documents, context, catalog);
    hide Pinned, ChunkAll, SortById, OwnersOf, Valid, MatchesExpected;
    var expected := ChunkAll(OwnersOf(documents, context)).value;
    SameChunks(Chunks(context), expected);
    SortFacts(expected);
  }
}
