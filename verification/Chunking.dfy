/** From a parsed document to its retrievable chunks, after src/policynim/ingest/chunking.py. */
module Chunking {
  import opened Results
  import opened Decimal
  import opened Text
  import opened Sections
  import opened SectionSpans
  import opened ChunkIds
  import opened Json

  datatype Metadata = Metadata(policyId: string, title: string, docType: string, domain: string,
                               tags: seq<string>, groundedIn: seq<string>, provenance: Option<Encoded>)

  datatype Document = Document(sourcePath: string, metadata: Metadata, body: string, bodyStartLine: nat)

  datatype Chunk = Chunk(chunkId: string, path: string, section: string, lines: string, text: string, policy: Metadata)

  function FormatSpan(first: nat, last: nat): string {
    Numeral(first) + "-" + Numeral(last)
  }

  // A citation span names its two lines unambiguously.
  lemma SpanInjective(a: nat, b: nat, c: nat, d: nat)
    ensures FormatSpan(a, b) == FormatSpan(c, d) <==> a == c && b == d
  {
    if FormatSpan(a, b) == FormatSpan(c, d) {
      assert FormatSpan(a, b) == WithSuffix(Numeral(a), b) && FormatSpan(c, d) == WithSuffix(Numeral(c), d);
      SuffixInjective(Numeral(a), b, Numeral(c), d);
      NumeralInjective(a, c);
    }
  }

  function BaseId(document: Document, section: Section): string {
    document.metadata.policyId + ":"
    + SectionKey(if section.path == [] then [document.metadata.title] else section.path)
  }

  function BaseIds(document: Document, sections: seq<Section>): (bases: seq<string>)
    ensures |bases| == |sections|
    ensures forall i :: 0 <= i < |sections| ==> bases[i] == BaseId(document, sections[i])
  {
    seq(|sections|, i requires 0 <= i < |sections| => BaseId(document, sections[i]))
  }

  function ChunkOf(document: Document, section: Section, chunkId: string): Chunk
    requires 0 <= section.startLine <= section.endLine
  {
    Chunk(chunkId, document.sourcePath,
          JoinWith(" > ", if section.path == [] then [document.metadata.title] else section.path),
          FormatSpan(section.startLine, section.endLine), section.content, document.metadata)
  }

  predicate Spanned(sections: seq<Section>) {
    forall i :: 0 <= i < |sections| ==> 0 <= sections[i].startLine <= sections[i].endLine
  }

  function ChunkSections(document: Document, sections: seq<Section>): (chunks: seq<Chunk>)
    requires Spanned(sections)
    ensures |chunks| == |sections|
    ensures forall i :: 0 <= i < |sections| ==>
              chunks[i] == ChunkOf(document, sections[i], IdAt(BaseIds(document, sections), i))
  {
    var bases := BaseIds(document, sections);
    seq(|sections|, i requires 0 <= i < |sections| => ChunkOf(document, sections[i], IdAt(bases, i)))
  }

  function SectionsIn(document: Document): Result<seq<Section>, SectionError> {
    Extracted(document.metadata.title, document.body, document.bodyStartLine)
  }

  lemma ExtractedSpanned(document: Document)
    ensures SectionsIn(document).Ok? <==> !Blank(document.body)
    ensures SectionsIn(document).Ok? ==>
              SectionsIn(document).value != [] && Spanned(SectionsIn(document).value)
  {
    StripFacts(document.body);
    if !Blank(document.body) {
      ExtractedFaithful(document.metadata.title, document.body, document.bodyStartLine);
    }
  }

  // The chunks of a document; none can be cut only when the document has no usable content.
  function ChunksOf(document: Document): (r: Result<seq<Chunk>, SectionError>)
    ensures r.Ok? <==> !Blank(document.body)
    ensures r.Ok? ==> r.value != []
    ensures r.Ok? ==> forall i :: 0 <= i < |r.value| ==> r.value[i].policy == document.metadata
  {
    ExtractedSpanned(document);
    match SectionsIn(document)
    case Err(e) => Err(e)
    case Ok(sections) => Ok(ChunkSections(document, sections))
  }

  lemma CountNext(bases: seq<string>, i: nat, b: string)
    requires i < |bases|
    ensures Count(bases[..i + 1], b) == Count(bases[..i], b) + if b == bases[i] then 1 else 0
  {
    assert bases[..i + 1][..i] == bases[..i];
  }

  // `counts` holds how often each base identifier has been seen so far.
  ghost predicate Counted(counts: map<string, nat>, bases: seq<string>, i: nat)
    requires i <= |bases|
  {
    forall b: string :: Count(bases[..i], b) == if b in counts then counts[b] else 0
  }

  lemma CountedNext(counts: map<string, nat>, bases: seq<string>, i: nat)
    requires i < |bases| && Counted(counts, bases, i)
    ensures Occurrence(bases, i) == (if bases[i] in counts then counts[bases[i]] else 0) + 1
    ensures Counted(counts[bases[i] := Occurrence(bases, i)], bases, i + 1)
  {
    hide Count;
    forall b: string ensures Count(bases[..i + 1], b) == Count(bases[..i], b) + if b == bases[i] then 1 else 0 {
      CountNext(bases, i, b);
    }
  }

  method NumberChunk(document: Document, sections: seq<Section>, i: nat, counts: map<string, nat>)
    returns (chunk: Chunk, counted: map<string, nat>)
    requires Spanned(sections) && i < |sections|
    requires Counted(counts, BaseIds(document, sections), i)
    ensures chunk == ChunkSections(document, sections)[i]
    ensures Counted(counted, BaseIds(document, sections), i + 1)
  {
    hide BaseId, ChunkOf, Counted, Occurrence;
    CountedNext(counts, BaseIds(document, sections), i);
    var base := BaseId(document, sections[i]);
    var occurrence := (if base in counts then counts[base] else 0) + 1;
    counted := counts[base := occurrence];
    chunk := ChunkOf(document, sections[i], if occurrence == 1 then base else WithSuffix(base, occurrence));
  }

  method NumberChunks(document: Document, sections: seq<Section>) returns (chunks: seq<Chunk>)
    requires Spanned(sections)
    ensures chunks == ChunkSections(document, sections)
  {
    assert Counted(map[], BaseIds(document, sections), 0);
    hide *;
    chunks := [];
    var counts: map<string, nat> := map[];
    var i := 0;
    while i < |sections|
      invariant 0 <= i <= |sections|
      invariant chunks == ChunkSections(document, sections)[..i]
      invariant Counted(counts, BaseIds(document, sections), i)
    {
      var chunk;
      chunk, counts := NumberChunk(document, sections, i, counts);
      TakeNext(ChunkSections(document, sections), i);
      chunks := chunks + [chunk];
      i := i + 1;
    }
  }

  method ChunkPolicyDocument(document: Document) returns (r: Result<seq<Chunk>, SectionError>)
    ensures r == ChunksOf(document)
  {
    var extracted := ExtractSections(document.metadata.title, document.body, document.bodyStartLine);
    ExtractedSpanned(document);
    match extracted {
      case Err(e) => return Err(e);
      case Ok(sections) =>
        if sections == [] {
          return Err(NoSections);
        }
        var chunks := NumberChunks(document, sections);
        return Ok(chunks);
    }
  }

  predicate DistinctChunkIds(chunks: seq<Chunk>) {
    forall i, j :: 0 <= i < j < |chunks| ==> chunks[i].chunkId != chunks[j].chunkId
  }

  // All chunk identifiers of a document differ exactly when no section key is a generated repetition
  // of another section's key.
  lemma ChunkIdsDistinctExactly(document: Document)
    requires ChunksOf(document).Ok?
    ensures DistinctChunkIds(ChunksOf(document).value) <==>
              !exists b, n :: Clash(BaseIds(document, SectionsIn(document).value), b, n)
  {
    hide SectionsIn, IdAt, Clash, BaseId;
    ExtractedSpanned(document);
    var bases := BaseIds(document, SectionsIn(document).value);
    var chunks := ChunksOf(document).value;
    IdsDistinctExactly(bases);
    assert forall i :: 0 <= i < |chunks| ==> chunks[i].chunkId == IdAt(bases, i);
  }

  lemma IdTrimmed(policyId: string, path: seq<string>, n: nat)
    requires path != []
    ensures Trimmed(policyId + ":" + SectionKey(path)) <==> !StartsBlank(policyId)
    ensures Trimmed(WithSuffix(policyId + ":" + SectionKey(path), n)) <==> !StartsBlank(policyId)
  {
    hide SectionKey, Numeral;
    SectionKeyEnd(path);
    SuffixEnd(policyId + ":" + SectionKey(path), n);
    var base := policyId + ":" + SectionKey(path);
    assert base[0] == WithSuffix(base, n)[0] == if policyId == "" then ':' else policyId[0];
  }

  // A chunk identifier carries outer blanks exactly when its policy's identifier begins with one.
  lemma ChunkIdsTrimmed(document: Document, i: nat)
    requires ChunksOf(document).Ok? && i < |ChunksOf(document).value|
    ensures Trimmed(ChunksOf(document).value[i].chunkId) <==> !StartsBlank(document.metadata.policyId)
  {
    hide SectionsIn, SectionKey, Occurrence, Trimmed, StartsBlank;
    ExtractedSpanned(document);
    var sections := SectionsIn(document).value;
    var path := if sections[i].path == [] then [document.metadata.title] else sections[i].path;
    IdTrimmed(document.metadata.policyId, path, Occurrence(BaseIds(document, sections), i));
  }

  lemma SuffixBehind(p: string, key: string, n: nat)
    ensures WithSuffix(p + key, n) == p + WithSuffix(key, n)
  {
    assert p + key + "-" + Numeral(n) == p + (key + "-" + Numeral(n));
  }

  // A chunk identifier is its policy's, a colon, and text without one.
  lemma ChunkIdShape(document: Document, i: nat) returns (key: string)
    requires ChunksOf(document).Ok? && i < |ChunksOf(document).value|
    ensures ChunksOf(document).value[i].chunkId == document.metadata.policyId + ":" + key && ':' !in key
  {
    hide SectionsIn, SectionKey, Occurrence, WithSuffix;
    ExtractedSpanned(document);
    var sections := SectionsIn(document).value;
    var path := if sections[i].path == [] then [document.metadata.title] else sections[i].path;
    var n := Occurrence(BaseIds(document, sections), i);
    KeyColonFree(path, n);
    key := if n == 1 then SectionKey(path) else WithSuffix(SectionKey(path), n);
    SuffixBehind(document.metadata.policyId + ":", SectionKey(path), n);
  }

  // Documents of different policies never share a chunk identifier.
  lemma PoliciesApart(d: Document, i: nat, e: Document, j: nat)
    requires ChunksOf(d).Ok? && i < |ChunksOf(d).value|
    requires ChunksOf(e).Ok? && j < |ChunksOf(e).value|
    requires ChunksOf(d).value[i].chunkId == ChunksOf(e).value[j].chunkId
    ensures d.metadata.policyId == e.metadata.policyId
  {
    hide ChunksOf;
    var a := ChunkIdShape(d, i);
    var b := ChunkIdShape(e, j);
    LastColon(d.metadata.policyId, a, e.metadata.policyId, b);
  }
}
