/** A pinned catalogue partitions the identifiers of its context, and binds to exactly the arrangements
    of that context. */
module SourceBinding {
  import opened Seqs
  import opened Chunking
  import opened Ordering
  import opened Catalog
  import opened PinnedSources

  // The citation lists are nonempty, free of repetition, pairwise disjoint, and together the given set.
  ghost predicate Partitions(units: seq<SourceUnit>, ids: set<string>) {
    && (forall i :: 0 <= i < |units| ==> units[i].citationIds != [] && NoDup(units[i].citationIds))
    && (forall i, j, id :: 0 <= i < j < |units| && id in units[i].citationIds ==> id !in units[j].citationIds)
    && (forall id :: id in ids <==> exists i :: 0 <= i < |units| && id in units[i].citationIds)
  }

  lemma CitedByOwner(expected: seq<Chunk>, policyId: string, id: string)
    ensures id in IdsOf(Owned(expected, policyId)) <==>
              exists c :: c in expected && c.policy.policyId == policyId && c.chunkId == id
  {
    var owned := Owned(expected, policyId);
    forall c ensures c in owned <==> c in expected && c.policy.policyId == policyId {
      KeepMember(expected, (set x | x in expected && x.policy.policyId == policyId), c);
    }
    if id in IdsOf(owned) {
      var i :| 0 <= i < |owned| && IdsOf(owned)[i] == id;
      assert owned[i] in owned;
    }
    if exists c :: c in expected && c.policy.policyId == policyId && c.chunkId == id {
      var c :| c in expected && c.policy.policyId == policyId && c.chunkId == id;
      var i :| 0 <= i < |owned| && owned[i] == c;
      assert IdsOf(owned)[i] == id;
    }
  }

  lemma SameIdSameChunk(chunks: seq<Chunk>, a: Chunk, b: Chunk)
    requires DistinctChunkIds(chunks) && a in chunks && b in chunks && a.chunkId == b.chunkId
    ensures a == b
  {
    var i :| 0 <= i < |chunks| && chunks[i] == a;
    var j :| 0 <= j < |chunks| && chunks[j] == b;
  }

  // The unit that owns a chunk of the context.
  lemma OwningUnit(documents: seq<Document>, context: seq<ScoredChunk>, catalog: SourceCatalog, c: Chunk)
    returns (i: nat)
    requires Pinned(documents, context, catalog) && c in Chunks(context)
    ensures i < |catalog.units| && c.chunkId in catalog.units[i].citationIds
    ensures catalog.units[i].policyId == c.policy.policyId && catalog.units[i].title == c.policy.title
  {
    OwnersDistinct(documents, context, catalog);
    PinnedParts(documents, context, catalog);
    hide Pinned, FromDocuments, Valid, ChunkAll, SortById, OwnersOf, Owned, MatchesExpected, NoDup, PolicyOf, PolicyIds;
    var owners := OwnersOf(documents, context);
    var expected := ChunkAll(owners).value;
    SameChunks(Chunks(context), expected);
    assert c.policy in Headers(owners);
    var d: Document :| d in owners && d.metadata == c.policy;
    i := OwnerIndex(owners, d);
    CitedByOwner(expected, c.policy.policyId, c.chunkId);
  }

  // A unit cites only chunks of the context that its own policy owns.
  lemma CitedChunk(documents: seq<Document>, context: seq<ScoredChunk>, catalog: SourceCatalog, i: nat, id: string)
    returns (c: Chunk)
    requires Pinned(documents, context, catalog) && i < |catalog.units| && id in catalog.units[i].citationIds
    ensures c in Chunks(context) && c.chunkId == id && c.policy.policyId == catalog.units[i].policyId
  {
    PinnedParts(documents, context, catalog);
    hide Pinned, FromDocuments, Valid, ChunkAll, SortById, OwnersOf, Owned, MatchesExpected;
    var owners := OwnersOf(documents, context);
    var expected := ChunkAll(owners).value;
    SameChunks(Chunks(context), expected);
    CitedByOwner(expected, catalog.units[i].policyId, id);
    c :| c in expected && c.policy.policyId == catalog.units[i].policyId && c.chunkId == id;
  }

  lemma CitationsDisjoint(documents: seq<Document>, context: seq<ScoredChunk>, catalog: SourceCatalog,
                          i: nat, j: nat, id: string)
    requires Pinned(documents, context, catalog) && i < j < |catalog.units| && id in catalog.units[i].citationIds
    ensures id !in catalog.units[j].citationIds
  {
    PinnedParts(documents, context, catalog);
    hide Pinned, FromDocuments, WithinBudget, WellFormedUnit, SortById;
    if id in catalog.units[j].citationIds {
      var a := CitedChunk(documents, context, catalog, i, id);
      var b := CitedChunk(documents, context, catalog, j, id);
      SameIdSameChunk(Chunks(context), a, b);
      assert false;
    }
  }

  lemma UnitListsProper(documents: seq<Document>, context: seq<ScoredChunk>, catalog: SourceCatalog)
    requires Pinned(documents, context, catalog)
    ensures |catalog.units| == |PolicyIds(Chunks(context))|
    ensures forall i :: 0 <= i < |catalog.units| ==>
              catalog.units[i].citationIds != [] && NoDup(catalog.units[i].citationIds)
  {
    PinnedParts(documents, context, catalog);
    hide Pinned, FromDocuments, WithinBudget, SortById, ChunkAll, MatchesExpected;
    forall i | 0 <= i < |catalog.units|
      ensures catalog.units[i].citationIds != [] && NoDup(catalog.units[i].citationIds)
    {
      assert WellFormedUnit(catalog.units[i]);
    }
  }

  lemma IdsCovered(documents: seq<Document>, context: seq<ScoredChunk>, catalog: SourceCatalog, id: string)
    requires Pinned(documents, context, catalog)
    ensures id in IdSet(Chunks(context)) <==>
              exists i :: 0 <= i < |catalog.units| && id in catalog.units[i].citationIds
  {
    hide Pinned;
    if id in IdSet(Chunks(context)) {
      var c :| c in Chunks(context) && c.chunkId == id;
      var i := OwningUnit(documents, context, catalog, c);
    }
    if exists i :: 0 <= i < |catalog.units| && id in catalog.units[i].citationIds {
      var i :| 0 <= i < |catalog.units| && id in catalog.units[i].citationIds;
      var c := CitedChunk(documents, context, catalog, i, id);
    }
  }

  lemma UnitPolicies(documents: seq<Document>, context: seq<ScoredChunk>, catalog: SourceCatalog)
    requires Pinned(documents, context, catalog)
    ensures |catalog.units| == |OwnersOf(documents, context)|
    ensures forall i :: 0 <= i < |catalog.units| ==>
              catalog.units[i].policyId == PolicyOf(OwnersOf(documents, context))[i]
  {
    PinnedParts(documents, context, catalog);
    hide Pinned, FromDocuments, Valid, SortById, OwnersOf, ChunkAll, MatchesExpected, Owned;
  }

  lemma PoliciesCovered(documents: seq<Document>, context: seq<ScoredChunk>, catalog: SourceCatalog, p: string)
    requires Pinned(documents, context, catalog)
    ensures p in PolicyIds(Chunks(context)) <==> exists u :: u in catalog.units && u.policyId == p
  {
    hide *;
    OwnersDistinct(documents, context, catalog);
    UnitPolicies(documents, context, catalog);
    var policies, units := PolicyOf(OwnersOf(documents, context)), catalog.units;
    if p in policies {
      var i :| 0 <= i < |policies| && policies[i] == p;
      assert units[i] in units;
    }
    if exists u :: u in units && u.policyId == p {
      var u :| u in units && u.policyId == p;
      var i :| 0 <= i < |units| && units[i] == u;
      assert policies[i] == p;
    }
  }

  // The units own one selected policy each, and their citations partition the context's identifiers.
  lemma CatalogPartition(documents: seq<Document>, context: seq<ScoredChunk>, catalog: SourceCatalog)
    requires Pinned(documents, context, catalog)
    ensures Partitions(catalog.units, IdSet(Chunks(context)))
    ensures forall p :: p in PolicyIds(Chunks(context)) <==> exists u :: u in catalog.units && u.policyId == p
    ensures |catalog.units| == |PolicyIds(Chunks(context))|
  {
    hide Pinned, IdSet, PolicyIds, NoDup;
    UnitListsProper(documents, context, catalog);
    var units, chunks := catalog.units, Chunks(context);
    forall i, j, id | 0 <= i < j < |units| && id in units[i].citationIds ensures id !in units[j].citationIds {
      CitationsDisjoint(documents, context, catalog, i, j, id);
    }
    forall id ensures id in IdSet(chunks) <==> exists i :: 0 <= i < |units| && id in units[i].citationIds {
      IdsCovered(documents, context, catalog, id);
    }
    forall p ensures p in PolicyIds(chunks) <==> exists u :: u in units && u.policyId == p {
      PoliciesCovered(documents, context, catalog, p);
    }
  }

  // ---- Binding ----

  function UnitByCitation(units: seq<SourceUnit>): map<string, SourceUnit> {
    if units == [] then map[]
    else
      var last := units[|units| - 1];
      UnitByCitation(units[..|units| - 1]) + map id | id in last.citationIds :: last
  }

  // validate_binding raises nothing.
  predicate Binds(catalog: SourceCatalog, context: seq<ScoredChunk>) {
    var byCitation, chunks := UnitByCitation(catalog.units), Chunks(context);
    && DistinctChunkIds(chunks)
    && byCitation.Keys == IdSet(chunks)
    && (forall c :: c in chunks ==>
          c.chunkId in byCitation
          && byCitation[c.chunkId].policyId == c.policy.policyId && byCitation[c.chunkId].title == c.policy.title)
    && (catalog.fingerprints == [] || SortById(chunks) == catalog.fingerprints)
  }

  lemma {:induction false} UnitByCitationFacts(units: seq<SourceUnit>, id: string)
    ensures id in UnitByCitation(units) <==> exists i :: 0 <= i < |units| && id in units[i].citationIds
    ensures id in UnitByCitation(units) ==>
              exists i :: 0 <= i < |units| && id in units[i].citationIds && UnitByCitation(units)[id] == units[i]
  {
    if units != [] {
      var front := units[..|units| - 1];
      UnitByCitationFacts(front, id);
      if id in units[|units| - 1].citationIds {
      } else if id in UnitByCitation(front) {
        var i :| 0 <= i < |front| && id in front[i].citationIds && UnitByCitation(front)[id] == front[i];
        assert units[i] == front[i];
      } else {
        assert forall i :: 0 <= i < |front| ==> units[i] == front[i];
      }
    }
  }

  lemma BoundTo(documents: seq<Document>, context: seq<ScoredChunk>, catalog: SourceCatalog, c: Chunk)
    requires Pinned(documents, context, catalog) && c in Chunks(context)
    ensures c.chunkId in UnitByCitation(catalog.units)
    ensures UnitByCitation(catalog.units)[c.chunkId].policyId == c.policy.policyId
    ensures UnitByCitation(catalog.units)[c.chunkId].title == c.policy.title
  {
    hide Pinned, UnitByCitation;
    var i := OwningUnit(documents, context, catalog, c);
    UnitByCitationFacts(catalog.units, c.chunkId);
    var k :| 0 <= k < |catalog.units| && c.chunkId in catalog.units[k].citationIds
             && UnitByCitation(catalog.units)[c.chunkId] == catalog.units[k];
    if i < k {
      CitationsDisjoint(documents, context, catalog, i, k, c.chunkId);
    } else if k < i {
      CitationsDisjoint(documents, context, catalog, k, i, c.chunkId);
    }
  }

  lemma BoundKeys(documents: seq<Document>, context: seq<ScoredChunk>, catalog: SourceCatalog)
    requires Pinned(documents, context, catalog)
    ensures UnitByCitation(catalog.units).Keys == IdSet(Chunks(context))
  {
    hide Pinned, UnitByCitation, IdSet;
    forall id ensures id in UnitByCitation(catalog.units) <==> id in IdSet(Chunks(context)) {
      UnitByCitationFacts(catalog.units, id);
      IdsCovered(documents, context, catalog, id);
    }
  }

  lemma SameIdSet(a: seq<Chunk>, b: seq<Chunk>)
    requires multiset(a) == multiset(b)
    ensures IdSet(a) == IdSet(b) && forall c :: c in a <==> c in b
  {
    assert forall c :: c in a <==> c in multiset(a);
    assert forall c :: c in b <==> c in multiset(b);
  }

  lemma NonemptyFingerprints(documents: seq<Document>, context: seq<ScoredChunk>, catalog: SourceCatalog)
    requires Pinned(documents, context, catalog)
    ensures catalog.fingerprints != []
  {
    PinnedParts(documents, context, catalog);
    SortFacts(Chunks(context));
    assert |Chunks(context)| > 0;
    assert Chunks(context)[0] in multiset(Chunks(context));
  }

  // A pinned catalogue binds to a context exactly when that is an arrangement of the chunks it was
  // built from, whatever their scores.
  lemma BindsExactly(documents: seq<Document>, context: seq<ScoredChunk>, catalog: SourceCatalog,
                     other: seq<ScoredChunk>)
    requires Pinned(documents, context, catalog)
    ensures Binds(catalog, other) <==> multiset(Chunks(other)) == multiset(Chunks(context))
  {
    hide Pinned, Valid, SortById, IdSet, OwnersOf, ChunkAll, UnitByCitation, PolicyIds, DistinctChunkIds, UnitsFor;
    PinnedParts(documents, context, catalog);
    var chunks, others := Chunks(context), Chunks(other);
    var expected := ChunkAll(OwnersOf(documents, context)).value;
    SameChunks(chunks, expected);
    SortFacts(expected);
    SortFacts(others);
    SortFacts(chunks);
    NonemptyFingerprints(documents, context, catalog);
    if multiset(others) == multiset(chunks) {
      DistinctPermuted(chunks, others);
      SortEqualExactly(others, expected);
      SameIdSet(others, chunks);
      BoundKeys(documents, context, catalog);
      forall c | c in others
        ensures c.chunkId in UnitByCitation(catalog.units)
        ensures UnitByCitation(catalog.units)[c.chunkId].policyId == c.policy.policyId
        ensures UnitByCitation(catalog.units)[c.chunkId].title == c.policy.title
      {
        BoundTo(documents, context, catalog, c);
      }
    }
  }
}
