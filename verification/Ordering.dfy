/** Sorting chunks by identifier, and what makes two sorted lists equal. */
module Ordering {
  import opened Seqs
  import opened Chunking

  // Python's order on strings: code point by code point.
  predicate AtMost(a: string, b: string) {
    a == "" || (b != "" && (a[0] < b[0] || (a[0] == b[0] && AtMost(a[1..], b[1..]))))
  }

  lemma {:induction false} AtMostTotal(a: string, b: string)
    ensures AtMost(a, b) || AtMost(b, a)
    ensures AtMost(a, b) && AtMost(b, a) ==> a == b
  {
    if a != "" && b != "" && a[0] == b[0] {
      AtMostTotal(a[1..], b[1..]);
      assert a == [a[0]] + a[1..] && b == [b[0]] + b[1..];
    }
  }

  lemma {:induction false} AtMostTransitive(a: string, b: string, c: string)
    requires AtMost(a, b) && AtMost(b, c)
    ensures AtMost(a, c)
  {
    if a != "" && a[0] == b[0] == c[0] {
      AtMostTransitive(a[1..], b[1..], c[1..]);
    }
  }

  ghost predicate LessAt(a: string, b: string, k: nat) {
    k < |a| && k < |b| && a[k] < b[k] && forall m :: 0 <= m < k ==> a[m] == b[m]
  }

  // One is the beginning of the other, or is less where they first differ.
  lemma {:induction false} AtMostExactly(a: string, b: string)
    ensures AtMost(a, b) <==> a <= b || exists k :: LessAt(a, b, k)
  {
    if a != "" && b != "" && a[0] == b[0] {
      AtMostExactly(a[1..], b[1..]);
      assert a == [a[0]] + a[1..] && b == [b[0]] + b[1..];
      if k: nat :| LessAt(a[1..], b[1..], k) {
        assert forall m :: 0 < m <= k + 1 ==> a[m] == a[1..][m - 1] && b[m] == b[1..][m - 1];
        assert LessAt(a, b, k + 1);
      }
      if k: nat :| LessAt(a, b, k) {
        assert LessAt(a[1..], b[1..], k - 1);
      }
    } else if a != "" && b != "" && a[0] < b[0] {
      assert LessAt(a, b, 0);
    }
  }

  predicate ById(a: Chunk, b: Chunk) {
    AtMost(a.chunkId, b.chunkId)
  }

  // sorted(chunks, key=chunk_id)
  function SortById(chunks: seq<Chunk>): seq<Chunk> {
    SortBy(chunks, ById)
  }

  ghost predicate Sorted(chunks: seq<Chunk>) {
    forall i, j :: 0 <= i < j < |chunks| ==> AtMost(chunks[i].chunkId, chunks[j].chunkId)
  }

  lemma ByIdRanks()
    ensures Ranks(ById)
  {
    hide AtMost;
    forall a: Chunk, b: Chunk ensures ById(a, b) || ById(b, a) {
      AtMostTotal(a.chunkId, b.chunkId);
    }
    forall a: Chunk, b: Chunk, c: Chunk | ById(a, b) && ById(b, c) ensures ById(a, c) {
      AtMostTransitive(a.chunkId, b.chunkId, c.chunkId);
    }
  }

  lemma SortFacts(chunks: seq<Chunk>)
    ensures multiset(SortById(chunks)) == multiset(chunks)
    ensures Sorted(SortById(chunks))
  {
    hide AtMost, SortBy, Ranks;
    ByIdRanks();
    SortByFacts(chunks, ById);
    var sorted := SortById(chunks);
    forall i, j | 0 <= i < j < |sorted| ensures AtMost(sorted[i].chunkId, sorted[j].chunkId) {
      assert ById(sorted[i], sorted[j]);
    }
  }

  ghost predicate DistinctById(chunks: seq<Chunk>) {
    forall x, y :: x in chunks && y in chunks && x.chunkId == y.chunkId ==> x == y
  }

  lemma SameLast(a: seq<Chunk>, b: seq<Chunk>)
    requires Sorted(a) && Sorted(b) && a != [] && b != [] && multiset(a) == multiset(b) && DistinctById(a)
    ensures a[|a| - 1] == b[|b| - 1]
  {
    var x, y := a[|a| - 1], b[|b| - 1];
    assert x in multiset(b) && y in multiset(a);
    var i :| 0 <= i < |b| && b[i] == x;
    var j :| 0 <= j < |a| && a[j] == y;
    AtMostTotal(x.chunkId, y.chunkId);
  }

  // Two sorted arrangements of the same chunks with distinct identifiers are the same.
  lemma {:induction false} SortedUnique(a: seq<Chunk>, b: seq<Chunk>)
    requires Sorted(a) && Sorted(b) && multiset(a) == multiset(b) && DistinctById(a)
    ensures a == b
  {
    assert |multiset(a)| == |a| && |multiset(b)| == |b|;
    if a != [] {
      hide AtMost;
      SameLast(a, b);
      MultisetFront(a);
      MultisetFront(b);
      SortedUnique(a[..|a| - 1], b[..|b| - 1]);
    }
  }

  // With distinct identifiers, sorting forgets exactly the arrangement.
  lemma SortEqualExactly(a: seq<Chunk>, b: seq<Chunk>)
    requires DistinctChunkIds(a)
    ensures SortById(a) == SortById(b) <==> multiset(a) == multiset(b)
  {
    SortFacts(a);
    SortFacts(b);
    if multiset(a) == multiset(b) {
      forall x, y | x in SortById(a) && y in SortById(a) && x.chunkId == y.chunkId ensures x == y {
        assert x in multiset(SortById(a)) && y in multiset(SortById(a));
      }
      SortedUnique(SortById(a), SortById(b));
    }
  }
}
