/** Code blocks as stretches of lines, and headings as the lines outside them that look like headings: what
    the scanner of src/policynim/ingest/chunking.py finds, described without it. */
module CodeBlocks {
  import opened Headings
  import opened LineShapes

  // From an opening line to its first closing line, or past the last line when there is none.
  datatype Block = Block(first: nat, last: nat)

  ghost predicate Encloses(lines: seq<string>, n: nat, b: Block, c: char, length: nat)
    requires n <= |lines|
  {
    && b.first < b.last <= n
    && Opens(lines[b.first], c, length)
    && (forall k :: b.first < k < b.last ==> !Closes(lines[k], c, length))
    && (b.last < n ==> Closes(lines[b.last], c, length))
  }

  ghost predicate IsBlock(lines: seq<string>, n: nat, b: Block)
    requires n <= |lines|
  {
    exists c, length :: Encloses(lines, n, b, c, length)
  }

  predicate Inside(blocks: seq<Block>, i: int) {
    exists j :: 0 <= j < |blocks| && blocks[j].first <= i <= blocks[j].last
  }

  // Lines outside the blocks open none.
  ghost predicate Complete(lines: seq<string>, n: nat, blocks: seq<Block>)
    requires n <= |lines|
  {
    forall i, c, length :: 0 <= i < n && !Inside(blocks, i) ==> !Opens(lines[i], c, length)
  }

  // The code blocks of the first n lines, in order.
  ghost predicate AreBlocks(lines: seq<string>, n: nat, blocks: seq<Block>)
    requires n <= |lines|
  {
    && (forall j :: 0 <= j < |blocks| ==> IsBlock(lines, n, blocks[j]))
    && (forall i, j :: 0 <= i < j < |blocks| ==> blocks[i].last < blocks[j].first)
    && Complete(lines, n, blocks)
  }

  lemma FenceOfBlock(lines: seq<string>, n: nat, b: Block)
    requires n <= |lines| && IsBlock(lines, n, b)
    ensures b.first < b.last <= n
    ensures FenceOpener(lines[b.first]).Some?
    ensures forall k :: b.first < k < b.last ==> !ClosesFence(lines[k], FenceOpener(lines[b.first]).value)
    ensures b.last < n ==> ClosesFence(lines[b.last], FenceOpener(lines[b.first]).value)
  {
    var c, length :| Encloses(lines, n, b, c, length);
    hide Closes, FenceOpener, ClosesFence;
    OpensExactly(lines[b.first], c, length);
    forall k | 0 <= k < n ensures ClosesFence(lines[k], Fence(c, length)) <==> Closes(lines[k], c, length) {
      ClosesExactly(lines[k], c, length);
    }
  }

  lemma BlockOfFence(lines: seq<string>, n: nat, b: Block)
    requires b.first < b.last <= n <= |lines| && FenceOpener(lines[b.first]).Some?
    requires forall k :: b.first < k < b.last ==> !ClosesFence(lines[k], FenceOpener(lines[b.first]).value)
    requires b.last < n ==> ClosesFence(lines[b.last], FenceOpener(lines[b.first]).value)
    ensures IsBlock(lines, n, b)
  {
    hide Closes, FenceOpener, ClosesFence;
    var fence := FenceOpener(lines[b.first]).value;
    var c, length := fence.marker, fence.length;
    OpensExactly(lines[b.first], c, length);
    forall k | 0 <= k < n ensures ClosesFence(lines[k], Fence(c, length)) <==> Closes(lines[k], c, length) {
      ClosesExactly(lines[k], c, length);
    }
    assert Encloses(lines, n, b, c, length);
  }

  lemma NotOpened(lines: seq<string>, n: nat, blocks: seq<Block>, i: nat)
    requires i < n <= |lines| && AreBlocks(lines, n, blocks) && !Inside(blocks, i)
    ensures FenceOpener(lines[i]).None?
  {
    hide FenceOpener, Opens, Inside, Encloses;
    if FenceOpener(lines[i]).Some? {
      var fence := FenceOpener(lines[i]).value;
      OpensExactly(lines[i], fence.marker, fence.length);
    }
  }

  // Line i is behind the opening line of block j and not behind its closing line.
  predicate Within(blocks: seq<Block>, j: nat, i: nat) {
    j < |blocks| && blocks[j].first < i <= blocks[j].last
  }

  // The scanner has a fence open exactly behind the opening line of a block, up to its last line.
  ghost predicate Tracked(lines: seq<string>, blocks: seq<Block>, i: nat)
    requires i <= |lines| && forall j :: 0 <= j < |blocks| ==> blocks[j].first < |lines|
  {
    && (FenceBefore(lines, i).Some? <==> exists j: nat :: Within(blocks, j, i))
    && forall j: nat :: Within(blocks, j, i) ==> FenceBefore(lines, i) == FenceOpener(lines[blocks[j].first])
  }

  lemma BlocksInRange(lines: seq<string>, n: nat, blocks: seq<Block>)
    requires n <= |lines| && AreBlocks(lines, n, blocks)
    ensures forall j :: 0 <= j < |blocks| ==> blocks[j].first < blocks[j].last <= n
  {
    hide Opens, Closes;
  }

  lemma OnlyWithin(blocks: seq<Block>, j: nat, i: nat, next: nat)
    requires forall k, l :: 0 <= k < l < |blocks| ==> blocks[k].last < blocks[l].first
    requires Within(blocks, j, i)
    ensures forall k: nat :: Within(blocks, k, i) ==> k == j
    ensures next == i + 1 && i == blocks[j].last ==> forall k: nat :: !Within(blocks, k, next)
    ensures next == i + 1 && i < blocks[j].last ==>
              Within(blocks, j, next) && forall k: nat :: Within(blocks, k, next) ==> k == j
  {
  }

  lemma NoneBegins(blocks: seq<Block>, i: nat, next: nat)
    requires !Inside(blocks, i) && next == i + 1
    ensures forall j: nat :: !Within(blocks, j, next)
  {
  }

  lemma FenceNext(lines: seq<string>, n: nat, blocks: seq<Block>, i: nat)
    requires i < n <= |lines| && AreBlocks(lines, n, blocks)
    requires forall j :: 0 <= j < |blocks| ==> blocks[j].first < blocks[j].last <= n
    requires Tracked(lines, blocks, i)
    ensures Tracked(lines, blocks, i + 1)
  {
    hide FenceOpener, ClosesFence, Encloses, Opens;
    if j: nat :| Within(blocks, j, i) {
      FenceOfBlock(lines, n, blocks[j]);
      OnlyWithin(blocks, j, i, i + 1);
    } else if Inside(blocks, i) {
      var j :| 0 <= j < |blocks| && blocks[j].first <= i <= blocks[j].last;
      assert !Within(blocks, j, i);
      FenceOfBlock(lines, n, blocks[j]);
      assert Within(blocks, j, i + 1);
      OnlyWithin(blocks, j, i + 1, i + 1);
    } else {
      NotOpened(lines, n, blocks, i);
      NoneBegins(blocks, i, i + 1);
    }
  }

  lemma {:induction false} FenceInBlocks(lines: seq<string>, n: nat, blocks: seq<Block>, i: nat)
    requires i <= n <= |lines| && AreBlocks(lines, n, blocks)
    ensures forall j :: 0 <= j < |blocks| ==> blocks[j].first < blocks[j].last <= n
    ensures Tracked(lines, blocks, i)
  {
    hide FenceOpener, ClosesFence, AreBlocks;
    BlocksInRange(lines, n, blocks);
    if i > 0 {
      FenceInBlocks(lines, n, blocks, i - 1);
      FenceNext(lines, n, blocks, i - 1);
    }
  }

  // ---- Every document has them ----

  lemma StillEncloses(lines: seq<string>, n: nat, b: Block, c: char, length: nat)
    requires n < |lines| && Encloses(lines, n, b, c, length)
    ensures b.last < n || Closes(lines[n], c, length) ==> Encloses(lines, n + 1, b, c, length)
    ensures b.last == n && !Closes(lines[n], c, length) ==> Encloses(lines, n + 1, Block(b.first, n + 1), c, length)
  {
    hide Opens, Closes;
  }

  lemma StillBlock(lines: seq<string>, n: nat, b: Block)
    requires n < |lines| && b.last < n && IsBlock(lines, n, b)
    ensures IsBlock(lines, n + 1, b)
  {
    var c, length :| Encloses(lines, n, b, c, length);
    hide Encloses;
    StillEncloses(lines, n, b, c, length);
  }

  lemma StillComplete(lines: seq<string>, n: nat, blocks: seq<Block>, more: seq<Block>)
    requires n < |lines| && Complete(lines, n, blocks)
    requires forall i :: 0 <= i < n && Inside(blocks, i) ==> Inside(more, i)
    requires Inside(more, n) || FenceOpener(lines[n]).None?
    ensures Complete(lines, n + 1, more)
  {
    hide Opens, Inside, FenceOpener;
    forall i, c, length: nat | 0 <= i < n + 1 && !Inside(more, i) ensures !Opens(lines[i], c, length) {
      OpensExactly(lines[i], c, length);
    }
  }

  // Line n lies in no block and opens none.
  lemma PlainLine(lines: seq<string>, n: nat, blocks: seq<Block>)
    requires n < |lines| && AreBlocks(lines, n, blocks) && FenceOpener(lines[n]).None?
    requires forall j :: 0 <= j < |blocks| ==> blocks[j].last < n
    ensures AreBlocks(lines, n + 1, blocks)
  {
    hide Inside, IsBlock, Complete, FenceOpener;
    forall j | 0 <= j < |blocks| ensures IsBlock(lines, n + 1, blocks[j]) {
      StillBlock(lines, n, blocks[j]);
    }
    StillComplete(lines, n, blocks, blocks);
  }

  lemma OpeningLine(lines: seq<string>, n: nat, blocks: seq<Block>)
    requires n < |lines| && AreBlocks(lines, n, blocks) && FenceOpener(lines[n]).Some?
    requires forall j :: 0 <= j < |blocks| ==> blocks[j].last < n
    ensures AreBlocks(lines, n + 1, blocks + [Block(n, n + 1)])
  {
    hide IsBlock, Complete, FenceOpener, ClosesFence;
    var more := blocks + [Block(n, n + 1)];
    forall j | 0 <= j < |blocks| ensures IsBlock(lines, n + 1, blocks[j]) {
      StillBlock(lines, n, blocks[j]);
    }
    BlockOfFence(lines, n + 1, more[|blocks|]);
    forall i | 0 <= i < n && Inside(blocks, i) ensures Inside(more, i) {
      var j :| 0 <= j < |blocks| && blocks[j].first <= i <= blocks[j].last;
      assert more[j] == blocks[j];
    }
    assert more[|blocks|].first == n;
    assert Inside(more, n);
    StillComplete(lines, n, blocks, more);
  }

  // Line n is the next one of the last block: its closing line, or one line more.
  lemma NextOfBlock(lines: seq<string>, n: nat, b: Block) returns (next: Block)
    requires n < |lines| && IsBlock(lines, n, b) && b.last == n
    ensures IsBlock(lines, n + 1, next) && next.first == b.first < n <= next.last
  {
    var c, length :| Encloses(lines, n, b, c, length);
    StillEncloses(lines, n, b, c, length);
    hide Closes, Opens;
    next := if Closes(lines[n], c, length) then b else Block(b.first, n + 1);
    assert Encloses(lines, n + 1, next, c, length);
  }

  lemma BlockLine(lines: seq<string>, n: nat, blocks: seq<Block>) returns (more: seq<Block>)
    requires n < |lines| && AreBlocks(lines, n, blocks) && blocks != [] && blocks[|blocks| - 1].last == n
    ensures AreBlocks(lines, n + 1, more)
  {
    hide IsBlock, Complete;
    BlocksInRange(lines, n, blocks);
    var k := |blocks| - 1;
    var next := NextOfBlock(lines, n, blocks[k]);
    more := blocks[..k] + [next];
    forall j | 0 <= j < k ensures IsBlock(lines, n + 1, more[j]) {
      assert more[j] == blocks[j];
      StillBlock(lines, n, blocks[j]);
    }
    forall i | 0 <= i < n && Inside(blocks, i) ensures Inside(more, i) {
      var j :| 0 <= j < |blocks| && blocks[j].first <= i <= blocks[j].last;
      assert more[j].first <= i <= more[j].last;
    }
    assert more[k].first <= n <= more[k].last;
    assert Inside(more, n);
    StillComplete(lines, n, blocks, more);
  }

  lemma NoBlocks(lines: seq<string>)
    ensures AreBlocks(lines, 0, [])
  {
  }

  lemma AllEnded(lines: seq<string>, n: nat, blocks: seq<Block>)
    requires n <= |lines| && AreBlocks(lines, n, blocks)
    requires blocks != [] ==> blocks[|blocks| - 1].last < n
    ensures forall j :: 0 <= j < |blocks| ==> blocks[j].last < n
  {
    hide IsBlock, Complete;
    BlocksInRange(lines, n, blocks);
  }

  lemma {:induction false} BlocksExist(lines: seq<string>, n: nat) returns (blocks: seq<Block>)
    requires n <= |lines|
    ensures AreBlocks(lines, n, blocks)
  {
    hide AreBlocks, FenceOpener;
    if n == 0 {
      NoBlocks(lines);
      blocks := [];
    } else {
      var before := BlocksExist(lines, n - 1);
      BlocksInRange(lines, n - 1, before);
      if before != [] && before[|before| - 1].last == n - 1 {
        blocks := BlockLine(lines, n - 1, before);
      } else {
        AllEnded(lines, n - 1, before);
        if FenceOpener(lines[n - 1]).Some? {
          OpeningLine(lines, n - 1, before);
          blocks := before + [Block(n - 1, n)];
        } else {
          PlainLine(lines, n - 1, before);
          blocks := before;
        }
      }
    }
  }

  // ---- Headings ----

  lemma InsideIsFenced(lines: seq<string>, blocks: seq<Block>, i: nat)
    requires AreBlocks(lines, |lines|, blocks) && i < |lines|
    ensures Inside(blocks, i) <==> FenceBefore(lines, i).Some? || FenceOpener(lines[i]).Some?
  {
    FenceInBlocks(lines, |lines|, blocks, i);
    hide FenceOpener, Encloses, Opens;
    if j :| 0 <= j < |blocks| && blocks[j].first <= i <= blocks[j].last {
      FenceOfBlock(lines, |lines|, blocks[j]);
      assert blocks[j].first < i ==> Within(blocks, j, i);
    } else {
      NotOpened(lines, |lines|, blocks, i);
    }
  }

  // Whatever the blocks of a document, a heading is found exactly when some line outside them all has its
  // marks and its title.
  lemma HeadingsOutsideBlocks(lines: seq<string>, bodyStart: int, blocks: seq<Block>, h: Heading)
    requires AreBlocks(lines, |lines|, blocks)
    ensures var i := h.line - bodyStart;
            h in HeadingsOf(lines, bodyStart) <==>
              0 <= i < |lines| && !Inside(blocks, i) && Heads(lines[i], h.level, h.title)
  {
    hide AreBlocks, Heads, HeadingsOf, FenceBefore, FenceOpener, AtxHeading;
    HeadingsExact(lines, bodyStart, h);
    var i := h.line - bodyStart;
    if 0 <= i < |lines| {
      InsideIsFenced(lines, blocks, i);
      HeadsExactly(lines[i], h.level, h.title);
    }
  }
}
