/** The limits of src/policynim/source_units.py in bytes of the texts that they are about. */
module SizeLimits {
  import opened Seqs
  import opened Json
  import opened JsonText
  import opened Chunking
  import opened Catalog
  import opened PinnedSources
  import opened PinnedExactly

  // Drafts and packets of up to one mebibyte of compact UTF-8 fit.
  lemma OutputLimit(j: Json)
    requires PlainNumbers(j)
    ensures FitsOutput(j) <==> Bytes(Dump(CompactUtf8, j)) <= 1024 * 1024
  {
    DumpSize(CompactUtf8, j);
  }

  function FingerprintBytes(chunk: Chunk): nat {
    Bytes(Dump(CompactUtf8, Object(ChunkFields(chunk))))
  }

  lemma {:induction false} FingerprintTotal(chunks: seq<Chunk>)
    requires forall c :: c in chunks ==> PlainNumbers(Object(ChunkFields(c)))
    ensures Total(chunks, FingerprintBytes) == Total(chunks, FingerprintSize)
  {
    hide ChunkFields, Size, Dump, Bytes, PlainNumbers;
    if chunks != [] {
      var front, last := chunks[..|chunks| - 1], chunks[|chunks| - 1];
      assert last in chunks;
      FingerprintTotal(front);
      DumpSize(CompactUtf8, Object(ChunkFields(last)));
    }
  }

  // Eighty chunks, and a quarter of a mebibyte each of context, of units as they are and as the model is shown
  // them, and of fingerprints.
  lemma SourceLimits(context: seq<ScoredChunk>, units: seq<SourceUnit>, fingerprints: seq<Chunk>)
    requires PlainNumbers(List(ContextItems(context)))
    requires PlainNumbers(List(UnitAttributes(units))) && PlainNumbers(PromptPayload(units))
    requires forall c :: c in fingerprints ==> PlainNumbers(Object(ChunkFields(c)))
    ensures SizesFit(context, units, fingerprints) <==>
              && |context| <= 80
              && Bytes(Dump(EscapedCompact, List(ContextItems(context)))) <= 256 * 1024
              && Bytes(Dump(EscapedAscii, List(UnitAttributes(units)))) <= 256 * 1024
              && Bytes(Dump(EscapedAscii, PromptPayload(units))) <= 256 * 1024
              && Total(fingerprints, FingerprintBytes) <= 256 * 1024
  {
    hide ContextItems, UnitAttributes, PromptPayload, Size, Dump, Bytes, PlainNumbers;
    DumpSize(EscapedCompact, List(ContextItems(context)));
    DumpSize(EscapedAscii, List(UnitAttributes(units)));
    DumpSize(EscapedAscii, PromptPayload(units));
    FingerprintTotal(fingerprints);
  }
}
