/** DataBuffer: a byte sequence held in a doubly linked chain of fixed-size blocks. */
module DataBuffers {
  import opened Bytes
  import opened BufferBlocks
  import opened BufferChains
  import opened Compaction
  import opened Segments

  /** What Insert makes of a sequence cut into `segs`. */
  ghost function InsertAsWritten(segs: seq<seq<byte>>, index: nat, data: seq<byte>): seq<byte>
    requires forall i :: 0 <= i < |segs| ==> |segs[i]| <= BLOCK_DATA_SIZE
  {
    var whole := Flatten(segs);
    if index >= |whole| then whole + data
    else if index == 0 then data + whole
    else
      LocateStart(segs, index);
      StartOfBounds(segs, Locate(segs, index));
      var seg := segs[Locate(segs, index)];
      var end := StartOf(segs, Locate(segs, index)) + |seg|;
      Spilled(whole, index, end, data, Min(|data|, BLOCK_DATA_SIZE - |seg|))
  }

  /** What InsertFill makes of it. */
  ghost function InsertFillAsWritten(segs: seq<seq<byte>>, index: nat, size: nat, fill: byte): seq<byte>
    requires forall i :: 0 <= i < |segs| ==> |segs[i]| <= BLOCK_DATA_SIZE
  {
    if index == 0 || index >= |Flatten(segs)| then InsertAsWritten(segs, index, Repeat(fill, size))
    else
      var fit := Min(size, BLOCK_DATA_SIZE - |segs[Locate(segs, index)]|);
      InsertAsWritten(segs, index, Repeat(fill, fit) + Repeat(0, size - fit))
  }

  class DataBuffer {
    var first: BufferBlock
    var last: BufferBlock
    var blockCount: nat
    var totalUsed: int

    // The blocks from first to last, and the used bytes of each.
    ghost var chain: seq<BufferBlock>
    ghost var segs: seq<seq<byte>>

    /** first, last, next, prev and blockCount describe `chain`; `segs` is what its blocks hold.
        The prev link of the first block is not constrained here. */
    ghost predicate Linked()
      reads `first, `last, `blockCount, `chain, `segs
      reads chain`next, chain`prev, chain`used, chain`bytes, ArraysOf(chain)
    {
      && |chain| == |segs| == blockCount && 1 <= |chain| && first == chain[0] && last == chain[|chain| - 1]
      && Sound(chain, segs)
    }

    ghost predicate Valid()
      reads this, chain, ArraysOf(chain)
    {
      Linked() && Dense(segs) && totalUsed == |Flatten(segs)| && first.prev == null
    }

    ghost function Contents(): seq<byte>
      reads `segs
    {
      Flatten(segs)
    }

    constructor ()
      ensures Valid() && Contents() == [] && segs == [[]]
      ensures forall i :: 0 <= i < |chain| ==> fresh(chain[i]) && fresh(chain[i].data)
    {
      var block := new BufferBlock();
      first, last, blockCount, totalUsed := block, block, 1, 0;
      chain, segs := [block], [[]];
      new;
      FlattenOne<byte>([]);
    }

    // ---- steps on one block

    method SpliceBlock(block: BufferBlock, ghost i: nat, at: nat, p: seq<byte>)
      requires Linked() && i < |chain| && block == chain[i]
      requires at <= |segs[i]| && |segs[i]| + |p| <= BLOCK_DATA_SIZE
      modifies `segs, block`used, block`bytes, block.data
      ensures Linked() && segs == old(segs)[i := Edit(old(segs[i]), at, at, p)]
    {
      hide Wired;
      block.Splice(at, p);
      segs := segs[i := block.bytes];
      HoldsUpdate(chain, old(segs), i);
    }

    method ShortenBlock(block: BufferBlock, ghost i: nat, n: nat)
      requires Linked() && i < |chain| && block == chain[i] && n <= |segs[i]|
      modifies `segs, block`used, block`bytes
      ensures Linked() && segs == old(segs)[i := old(segs[i])[..|old(segs[i])| - n]]
    {
      hide Wired;
      block.Shorten(n);
      segs := segs[i := block.bytes];
      HoldsUpdate(chain, old(segs), i);
    }

    method ShiftBlock(block: BufferBlock, ghost i: nat, at: nat, n: nat)
      requires Linked() && i < |chain| && block == chain[i] && at + n <= |segs[i]|
      modifies `segs, block`bytes, block.data
      ensures Linked()
      ensures var seg := old(segs[i]); segs == old(segs)[i := Edit(seg, at, at + n, []) + seg[|seg| - n..]]
    {
      hide Wired, Edit;
      EditCut(segs[i], at, n);
      block.ShiftDown(at, n);
      segs := segs[i := block.bytes];
      HoldsUpdate(chain, old(segs), i);
    }

    method OverwriteBlock(block: BufferBlock, ghost i: nat, at: nat, p: seq<byte>)
      requires Linked() && i < |chain| && block == chain[i] && at + |p| <= |segs[i]|
      modifies `segs, block`bytes, block.data
      ensures Linked() && segs == old(segs)[i := Edit(old(segs[i]), at, at + |p|, p)]
    {
      hide Wired;
      block.Overwrite(at, p);
      segs := segs[i := block.bytes];
      HoldsUpdate(chain, old(segs), i);
    }

    /** Count in a block that has been linked in before position `i`. */
    method Adopt(block: BufferBlock, ghost i: nat)
      requires |chain| == |segs| == blockCount && i <= |chain|
      requires Distinct(chain) && Holds(chain, segs) && Backed(chain) && Wired(Inserted(chain, i, block))
      requires block.Valid() && block.bytes == [] && block.data !in ArraysOf(chain)
      requires var c := Inserted(chain, i, block); first == c[0] && last == c[|chain|]
      modifies `blockCount, `chain, `segs
      ensures Linked()
      ensures chain == Inserted(old(chain), i, block) && segs == Inserted(old(segs), i, [])
    {
      hide Distinct, Wired, Holds, Backed;
      blockCount := blockCount + 1;
      chain, segs := Inserted(chain, i, block), Inserted(segs, i, []);
      RestInserted(old(chain), old(segs), i, block);
    }

    method AfterBlock(at: BufferBlock, ghost i: nat) returns (block: BufferBlock)
      requires Linked() && i < |chain| && at == chain[i]
      modifies `last, `blockCount, `chain, `segs, chain`next, chain`prev
      ensures Linked() && fresh(block) && fresh(block.data)
      ensures chain == Inserted(old(chain), i + 1, block) && segs == Inserted(old(segs), i + 1, [])
      ensures first.prev == old(first.prev)
    {
      hide Distinct, Wired, Holds, Backed;
      AtPosition(chain, segs, i);
      assert allocated(ArraysOf(chain));
      block := new BufferBlock();
      if at == last {
        last := block;
      }
      Link(chain, i + 1, at, block, at.next);
      Adopt(block, i + 1);
    }

    method BeforeBlock() returns (block: BufferBlock)
      requires Linked() && first.prev == null
      modifies `first, `blockCount, `chain, `segs, chain`next, chain`prev
      ensures Linked() && fresh(block) && fresh(block.data)
      ensures chain == Inserted(old(chain), 0, block) && segs == Inserted(old(segs), 0, [])
      ensures first == block && first.prev == null
    {
      hide Distinct, Wired, Holds, Backed;
      AtPosition(chain, segs, 0);
      assert allocated(ArraysOf(chain));
      block := new BufferBlock();
      Link(chain, 0, first.prev, block, first);
      first := block;
      Adopt(block, 0);
    }

    method RemoveBlock(at: BufferBlock, ghost i: nat) returns (next: BufferBlock?)
      requires Linked() && i < |chain| && at == chain[i]
      modifies `last, `blockCount, `chain, `segs, chain`next, chain`prev, at`used, at`bytes
      ensures Linked() && next == NextOf(old(chain), i)
      ensures i == 0 ==> chain == old(chain) && segs == old(segs)[0 := []]
      ensures i > 0 ==> chain == Removed(old(chain), i) && segs == Removed(old(segs), i)
      ensures first.prev == old(first.prev)
    {
      hide Distinct, Wired, Holds, Backed;
      AtPosition(chain, segs, i);
      next := at.next;
      if at == first {
        ShortenBlock(at, 0, at.used);
        return;
      }
      DropBlock(at, i);
    }

    /** RemoveBlock of any block but the first. */
    method DropBlock(at: BufferBlock, ghost i: nat)
      requires Linked() && 0 < i < |chain| && at == chain[i]
      modifies `last, `blockCount, `chain, `segs, chain`next, chain`prev
      ensures Linked() && chain == Removed(old(chain), i) && segs == Removed(old(segs), i)
      ensures first.prev == old(first.prev)
    {
      hide Distinct, Wired, Holds, Backed;
      AtPosition(chain, segs, i);
      blockCount := blockCount - 1;
      if at == last {
        last := last.prev;
      }
      Unlink(chain, i, at.prev, at.next);
      chain, segs := Removed(chain, i), Removed(segs, i);
      RestRemoved(old(chain), old(segs), i);
    }

    /** AfterBlock, and the first `p` bytes of the new block. */
    method NewBlock(at: BufferBlock, ghost i: nat, p: seq<byte>) returns (block: BufferBlock)
      requires Linked() && i < |chain| && at == chain[i] && |p| <= BLOCK_DATA_SIZE
      modifies `last, `blockCount, `chain, `segs, chain`next, chain`prev
      ensures Linked() && fresh(block) && fresh(block.data)
      ensures chain == Inserted(old(chain), i + 1, block) && segs == Inserted(old(segs), i + 1, p)
      ensures first.prev == old(first.prev)
    {
      hide Sound;
      block := AfterBlock(at, i);
      SpliceBlock(block, i + 1, 0, p);
      assert segs[i + 1] == p;
    }

    method CountBytes(n: int)
      requires Linked()
      modifies `totalUsed
      ensures Linked() && totalUsed == old(totalUsed) + n
    {
      totalUsed := totalUsed + n;
    }

    /** BeforeBlock, and the first `p` bytes of the new block. */
    method NewFirstBlock(p: seq<byte>) returns (block: BufferBlock)
      requires Linked() && first.prev == null && |p| <= BLOCK_DATA_SIZE
      modifies `first, `blockCount, `chain, `segs, chain`next, chain`prev
      ensures Linked() && fresh(block) && fresh(block.data)
      ensures chain == [block] + old(chain) && segs == [p] + old(segs)
      ensures first == block && first.prev == null
    {
      hide Sound;
      block := BeforeBlock();
      SpliceBlock(block, 0, 0, p);
      assert segs[0] == p;
    }

    /** Every block that has joined the chain is a new object. */
    twostate predicate OnlyNew()
      reads this
    {
      forall i :: 0 <= i < |chain| ==> chain[i] in old(chain) || (fresh(chain[i]) && fresh(chain[i].data))
    }

    /** As many new blocks behind position `i` as `p` needs; `mid` is what they hold. */
    method NewBlocks(at: BufferBlock, ghost i: nat, data: seq<byte>) returns (ghost mid: seq<seq<byte>>)
      requires Linked() && i < |chain| && at == chain[i]
      modifies `last, `blockCount, `chain, `segs, chain`next, chain`prev
      ensures Linked() && OnlyNew() && first == old(first) && first.prev == old(first.prev)
      ensures segs == old(segs)[..i + 1] + mid + old(segs)[i + 1..]
      ensures Flatten(mid) == data && [] !in mid && mid == Chunks(data, BLOCK_DATA_SIZE)
    {
      hide Sound, Chunks, Flatten;
      var block, p := at, data;
      mid := [];
      FlattenNone<byte>([]);
      NoChunks<byte>([], BLOCK_DATA_SIZE);
      while p != []
        invariant Linked() && OnlyNew() && first == old(first) && first.prev == old(first.prev)
        invariant i + |mid| < |chain| && block == chain[i + |mid|]
        invariant segs == old(segs)[..i + 1] + mid + old(segs)[i + 1..]
        invariant Flatten(mid) + p == data && [] !in mid
        invariant mid + Chunks(p, BLOCK_DATA_SIZE) == Chunks(data, BLOCK_DATA_SIZE)
      {
        var len := Min(|p|, BLOCK_DATA_SIZE);
        ghost var k := i + |mid|;
        block := NewBlock(block, k, p[..len]);
        FlattenAppended(mid, p[..len]);
        NextChunk(mid, p, BLOCK_DATA_SIZE);
        assert p == p[..len] + p[len..];
        mid := mid + [p[..len]];
        p := p[len..];
      }
    }

    /** The same, filled by memset. */
    method FillNewBlocks(at: BufferBlock, ghost i: nat, fill: byte, size: nat) returns (ghost mid: seq<seq<byte>>)
      requires Linked() && i < |chain| && at == chain[i]
      modifies `last, `blockCount, `chain, `segs, chain`next, chain`prev
      ensures Linked() && OnlyNew() && first == old(first) && first.prev == old(first.prev)
      ensures segs == old(segs)[..i + 1] + mid + old(segs)[i + 1..]
      ensures Flatten(mid) == Repeat(fill, size) && [] !in mid
    {
      hide Sound, Repeat, Flatten;
      var block, left := at, size;
      mid := [];
      FlattenNone<byte>([]);
      assert Repeat(fill, 0) == [];
      while left > 0
        invariant Linked() && OnlyNew() && first == old(first) && first.prev == old(first.prev)
        invariant i + |mid| < |chain| && block == chain[i + |mid|]
        invariant segs == old(segs)[..i + 1] + mid + old(segs)[i + 1..]
        invariant 0 <= left <= size && Flatten(mid) == Repeat(fill, size - left) && [] !in mid
      {
        var len := Min(left, BLOCK_DATA_SIZE);
        ghost var k := i + |mid|;
        block := NewBlock(block, k, Repeat(fill, len));
        FlattenAppended(mid, Repeat(fill, len));
        RepeatSplit(fill, size - left, len);
        mid := mid + [Repeat(fill, len)];
        left := left - len;
      }
    }

    // ---- growing at the ends

    method Append(data: seq<byte>)
      requires Valid()
      modifies this, chain, ArraysOf(chain)
      ensures Valid() && OnlyNew()
      ensures Contents() == old(Contents()) + data
      ensures |old(segs)[|old(segs)| - 1]| <= BLOCK_DATA_SIZE
      ensures segs == Appended(old(segs), data, BLOCK_DATA_SIZE)
    {
      hide Sound, Dense, Flatten, Edit, Chunks, Appended;
      ghost var n := |chain| - 1;
      AtPosition(chain, segs, n);
      AppendedIs(segs, data, BLOCK_DATA_SIZE);
      AppendedFacts(segs, data, BLOCK_DATA_SIZE);
      var block := last;
      var freeSize := BLOCK_DATA_SIZE - block.used;
      if |data| > freeSize {
        SpliceBlock(block, n, block.used, data[..freeSize]);
        ghost var filled := segs;
        ghost var mid := NewBlocks(block, n, data[freeSize..]);
        assert segs == filled + mid;
      } else {
        SpliceBlock(block, n, block.used, data);
      }
      CountBytes(|data|);
    }

    /** The branches of Append, with memset in place of the copies. */
    method AppendFill(fill: byte, size: nat)
      requires Valid()
      modifies this, chain, ArraysOf(chain)
      ensures Valid() && OnlyNew()
      ensures Contents() == old(Contents()) + Repeat(fill, size)
    {
      hide Sound, Dense, Flatten, Edit, Repeat;
      ghost var n, data := |chain| - 1, Repeat(fill, size);
      AtPosition(chain, segs, n);
      var block := last;
      var freeSize := BLOCK_DATA_SIZE - block.used;
      if size > freeSize {
        RepeatSlice(fill, size, freeSize);
        SpliceBlock(block, n, block.used, Repeat(fill, freeSize));
        ghost var filled := segs;
        ghost var mid := FillNewBlocks(block, n, fill, size - freeSize);
        assert segs == filled + mid;
        AppendedInto(old(segs), data, freeSize, mid);
      } else {
        SpliceBlock(block, n, block.used, Repeat(fill, size));
        AppendedToLast(old(segs), data);
      }
      CountBytes(size);
    }

    method Prepend(data: seq<byte>)
      requires Valid()
      modifies this, chain, ArraysOf(chain)
      ensures Valid() && OnlyNew()
      ensures Contents() == data + old(Contents())
    {
      hide Sound, Dense, Flatten, Edit;
      AtPosition(chain, segs, 0);
      var block := first;
      var freeSize := BLOCK_DATA_SIZE - block.used;
      if |data| > freeSize {
        var size := |data| - freeSize;
        SpliceBlock(block, 0, 0, data[size..]);
        var len := Min(size, BLOCK_DATA_SIZE);
        block := NewFirstBlock(data[..len]);
        ghost var mid := NewBlocks(block, 0, data[len..size]);
        PrependedInto(old(segs), data, size, data[..len], mid);
      } else {
        SpliceBlock(block, 0, 0, data);
        PrependedToFirst(old(segs), data);
      }
      CountBytes(|data|);
    }

    /** The branches of Prepend, with memset in place of the copies. */
    method PrependFill(fill: byte, size: nat)
      requires Valid()
      modifies this, chain, ArraysOf(chain)
      ensures Valid() && OnlyNew()
      ensures Contents() == Repeat(fill, size) + old(Contents())
    {
      hide Sound, Dense, Flatten, Edit, Repeat;
      AtPosition(chain, segs, 0);
      var block := first;
      var freeSize := BLOCK_DATA_SIZE - block.used;
      ghost var data := Repeat(fill, size);
      if size > freeSize {
        var left := size - freeSize;
        RepeatSlice(fill, size, left);
        SpliceBlock(block, 0, 0, Repeat(fill, freeSize));
        var len := Min(left, BLOCK_DATA_SIZE);
        block := NewFirstBlock(Repeat(fill, len));
        ghost var mid := FillNewBlocks(block, 0, fill, left - len);
        RepeatSplit(fill, len, left - len);
        PrependedInto(old(segs), data, left, Repeat(fill, len), mid);
      } else {
        SpliceBlock(block, 0, 0, Repeat(fill, size));
        PrependedToFirst(old(segs), data);
      }
      CountBytes(size);
    }

    // ---- access by offset

    method FindBlockByOffset(offset: nat) returns (block: BufferBlock?, at: nat, ghost i: nat)
      requires Linked()
      ensures Linked() && (block == null <==> |Contents()| <= offset)
      ensures block != null ==>
        i == Locate(segs, offset) && block == chain[i] && at == offset - StartOf(segs, i) && at < |segs[i]|
    {
      hide Sound, Flatten, Locate;
      block, at, i := first, offset, 0;
      StartOfEnds(segs);
      while block != null
        invariant Linked() && i <= |chain| && block == (if i < |chain| then chain[i] else null)
        invariant StartOf(segs, i) + at == offset
        decreases |chain| - i
      {
        AtPosition(chain, segs, i);
        StartOfBounds(segs, i);
        if at < block.used {
          LocateFound(segs, offset, i);
          return;
        }
        StartOfNext(segs, i);
        at := at - block.used;
        block := block.next;
        i := i + 1;
      }
    }

    method GetAt(index: nat) returns (value: byte)
      requires Valid()
      ensures value == if index < |Contents()| then Contents()[index] else 0
    {
      hide Sound, Flatten, Locate;
      ghost var i;
      var block, at;
      block, at, i := FindBlockByOffset(index);
      if block == null {
        return 0;
      }
      AtPosition(chain, segs, i);
      StartOfBounds(segs, i);
      value := block.data[at];
    }

    method SetAt(index: nat, value: byte)
      requires Valid()
      modifies this, chain, ArraysOf(chain)
      ensures Valid() && chain == old(chain)
      ensures Contents() == Overwritten(old(Contents()), index, [value])
    {
      hide Sound, Flatten, Locate;
      ghost var i;
      var block, at;
      block, at, i := FindBlockByOffset(index);
      if block == null {
        return;
      }
      AtPosition(chain, segs, i);
      FlattenEdit(segs, i, at, at + 1, [value]);
      OverwriteBlock(block, i, at, [value]);
    }

    /** memset one stretch of block `i`; `done` bytes from `index` on have been filled before. */
    method FillPart(block: BufferBlock, ghost i: nat, at: nat, len: nat, fill: byte,
                    ghost cuts: seq<seq<byte>>, ghost whole: seq<byte>, ghost index: nat, ghost done: nat)
      requires Linked() && i < |chain| && block == chain[i] && at + len <= |segs[i]|
      requires SameCuts(segs, cuts) && StartOf(cuts, i) + at == index + done <= |whole|
      requires Contents() == Edit(whole, index, index + done, Repeat(fill, done))
      modifies `segs, block`bytes, block.data
      ensures Linked() && SameCuts(segs, cuts) && index + done + len <= |whole|
      ensures Contents() == Edit(whole, index, index + done + len, Repeat(fill, done + len))
      ensures at + len == |old(segs[i])| ==> StartOf(cuts, i + 1) == index + done + len
    {
      hide Sound, Flatten, StartOf, Edit, Repeat;
      FillStep(segs, cuts, whole, i, at, len, fill, index, done);
      OverwriteBlock(block, i, at, Repeat(fill, len));
    }

    /** Fill's loop over the blocks behind block `i`, with `left` bytes to go. */
    method FillRest(at: BufferBlock, ghost start: nat, left: nat, fill: byte,
                    ghost cuts: seq<seq<byte>>, ghost whole: seq<byte>, ghost index: nat, ghost total: nat)
      requires Linked() && start < |chain| == |cuts| && at == chain[start] && SameCuts(segs, cuts)
      requires left <= total && index + total <= |whole| == |Flatten(cuts)|
      requires left > 0 ==> StartOf(cuts, start + 1) == index + (total - left)
      requires Contents() == Edit(whole, index, index + (total - left), Repeat(fill, total - left))
      modifies `segs, chain`bytes, ArraysOf(chain)
      ensures Linked() && SameCuts(segs, cuts)
      ensures Contents() == Edit(whole, index, index + total, Repeat(fill, total))
    {
      hide Sound, Flatten, StartOf, Edit, SameCuts, Repeat;
      var block, n := at, left;
      ghost var i := start;
      while n > 0
        invariant Linked() && i < |chain| && block == chain[i] && SameCuts(segs, cuts)
        invariant 0 <= n <= total && (n > 0 ==> StartOf(cuts, i + 1) == index + (total - n))
        invariant Contents() == Edit(whole, index, index + (total - n), Repeat(fill, total - n))
        decreases |chain| - i
      {
        AtPosition(chain, segs, i);
        StartOfEnds(cuts);
        block := block.next;
        i := i + 1;
        if block == null {
          break;
        }
        AtPosition(chain, segs, i);
        var len := Min(n, block.used);
        FillPart(block, i, 0, len, fill, cuts, whole, index, total - n);
        n := n - len;
      }
    }

    method Fill(fill: byte, index: nat, size: nat)
      requires Valid()
      modifies this, chain, ArraysOf(chain)
      ensures Valid() && chain == old(chain)
      ensures Contents() == Overwritten(old(Contents()), index, Repeat(fill, size))
    {
      hide Sound, Dense, Flatten, Locate, StartOf, Edit, SameCuts, Repeat;
      ghost var cuts, whole := segs, Contents();
      if size == 1 {
        SetAt(index, fill);
        RepeatOne(fill);
        return;
      }
      if index >= totalUsed {
        return;
      }
      var n := Min(size, totalUsed - index);
      ghost var i: nat;
      var block, at;
      block, at, i := FindBlockByOffset(index);
      AtPosition(chain, segs, i);
      FillStart(segs, fill, index);
      var len := Min(n, block.used - at);
      FillPart(block, i, at, len, fill, cuts, whole, index, 0);
      FillRest(block, i, n - len, fill, cuts, whole, index, n);
      FilledAll(segs, cuts, whole, fill, index, size);
    }

    // ---- inserting in the middle

    /** One round of the spilling loop: `p` goes to the front of the next block if it has room
        (a full-sized `p` never has), else into a new block. */
    method SpillChunk(at: BufferBlock, ghost k: nat, p: seq<byte>) returns (block: BufferBlock)
      requires Linked() && Dense(segs) && first.prev == null
      requires k < |chain| && at == chain[k] && 0 < |p| <= BLOCK_DATA_SIZE
      modifies `last, `blockCount, `chain, `segs, chain, ArraysOf(chain)
      ensures Linked() && Dense(segs) && first.prev == null && OnlyNew()
      ensures Contents() == Flatten(old(segs)[..k + 1]) + p + Flatten(old(segs)[k + 1..])
      ensures |p| == BLOCK_DATA_SIZE ==> k + 1 < |chain| && block == chain[k + 1]
      ensures |p| == BLOCK_DATA_SIZE ==> Flatten(segs[..k + 2]) == Flatten(old(segs)[..k + 1]) + p
      ensures |p| == BLOCK_DATA_SIZE ==> segs[k + 2..] == old(segs)[k + 1..]
    {
      hide Sound, Flatten, Edit;
      AtPosition(chain, segs, k);
      if at.next != null {
        AtPosition(chain, segs, k + 1);
      }
      if at.next == null || BLOCK_DATA_SIZE - at.next.used < |p| {
        InsertPiece(segs, k + 1, p);
        block := NewBlock(at, k, p);
        FlattenInserted(old(segs), k + 1, p);
      } else {
        block := at.next;
        InsertBefore(segs, k + 1, p);
        SpliceBlock(block, k + 1, 0, p);
      }
    }

    lemma SameLength()
      requires Linked()
      ensures |chain| == |segs|
    {
    }

    /** The spilling loop behind block `k`. */
    method SpillRest(at: BufferBlock, ghost k: nat, p: seq<byte>)
      requires Linked() && Dense(segs) && first.prev == null
      requires k < |chain| && at == chain[k]
      modifies `last, `blockCount, `chain, `segs, chain, ArraysOf(chain)
      ensures Linked() && Dense(segs) && first.prev == null && OnlyNew()
      ensures Contents() == Flatten(old(segs)[..k + 1]) + p + Flatten(old(segs)[k + 1..])
    {
      hide Linked, Sound, Dense, Flatten;
      var block, rest := at, p;
      SameLength();
      ghost var j: nat := k;
      ghost var head, tail := Flatten(segs[..k + 1]), Flatten(segs[k + 1..]);
      SplitFlat(segs, k + 1);
      while rest != []
        invariant Linked() && Dense(segs) && first.prev == null && OnlyNew() && |chain| == |segs|
        invariant rest != [] ==> j < |chain| && block == chain[j]
        invariant rest != [] ==> Flatten(segs[..j + 1]) + rest == head + p && Flatten(segs[j + 1..]) == tail
        invariant rest == [] ==> Contents() == head + p + tail
        decreases |rest|
      {
        var len := Min(|rest|, BLOCK_DATA_SIZE);
        block := SpillChunk(block, j, rest[..len]);
        SameLength();
        rest := rest[len..];
        j := j + 1;
      }
    }

    /** Put `p` at offset `offset` of block `i`; what does not fit goes behind that block. */
    method InsertInto(block: BufferBlock, ghost i: nat, offset: nat, p: seq<byte>)
      requires Linked() && Dense(segs) && first.prev == null
      requires i < |chain| && block == chain[i] && offset < |segs[i]|
      modifies `last, `blockCount, `chain, `segs, chain, ArraysOf(chain)
      ensures Linked() && Dense(segs) && first.prev == null && OnlyNew()
      ensures StartOf(old(segs), i) + |old(segs[i])| <= |old(Contents())|
      ensures var s := StartOf(old(segs), i); var fit := Min(|p|, BLOCK_DATA_SIZE - |old(segs[i])|);
        Contents() == Spilled(old(Contents()), s + offset, s + |old(segs[i])|, p, fit)
    {
      hide Sound, Dense, Flatten, StartOf, Edit;
      AtPosition(chain, segs, i);
      var freeSize := BLOCK_DATA_SIZE - block.used;
      var fit := Min(|p|, freeSize);
      InsertHead(segs, i, offset, p[..fit]);
      SpliceBlock(block, i, offset, p[..fit]);
      if |p| > freeSize {
        SpillRest(block, i, p[freeSize..]);
      } else {
        SpilledFits(old(Contents()), StartOf(old(segs), i) + offset, StartOf(old(segs), i) + |old(segs[i])|, p);
        assert p[..fit] == p;
      }
    }

    method Insert(data: seq<byte>, index: nat)
      requires Valid()
      modifies this, chain, ArraysOf(chain)
      ensures Valid() && OnlyNew()
      ensures Contents() == InsertAsWritten(old(segs), index, data)
      ensures index == 0 ==> Contents() == data + old(Contents())
      ensures index >= |old(Contents())| ==> Contents() == old(Contents()) + data
    {
      hide Sound, Dense, Flatten, StartOf, Locate, Spilled;
      if index >= totalUsed {
        Append(data);
        return;
      }
      if index == 0 {
        Prepend(data);
        return;
      }
      ghost var i;
      var block, at;
      block, at, i := FindBlockByOffset(index);
      InsertInto(block, i, at, data);
      CountBytes(|data|);
    }

    /** As Insert, but what spills is zeros, whatever `fill` is. */
    method InsertFill(index: nat, size: nat, fill: byte)
      requires Valid()
      modifies this, chain, ArraysOf(chain)
      ensures Valid() && OnlyNew()
      ensures Contents() == InsertFillAsWritten(old(segs), index, size, fill)
      ensures index == 0 ==> Contents() == Repeat(fill, size) + old(Contents())
      ensures index >= |old(Contents())| ==> Contents() == old(Contents()) + Repeat(fill, size)
    {
      hide Sound, Dense, Flatten, StartOf, Locate, Spilled, Repeat;
      if index >= totalUsed {
        AppendFill(fill, size);
        return;
      }
      if index == 0 {
        PrependFill(fill, size);
        return;
      }
      ghost var i;
      var block, at;
      block, at, i := FindBlockByOffset(index);
      AtPosition(chain, segs, i);
      var fit := Min(size, BLOCK_DATA_SIZE - block.used);
      InsertInto(block, i, at, Repeat(fill, fit) + Repeat(0, size - fit));
      CountBytes(size);
    }

    // ---- removing

    method DeleteInBlock(block: BufferBlock, ghost i: nat, at: nat, n: nat)
      requires Linked() && i < |chain| && block == chain[i] && at + n <= |segs[i]|
      modifies `segs, block`used, block`bytes, block.data
      ensures Linked() && segs == old(segs)[i := Edit(old(segs[i]), at, at + n, [])]
    {
      hide Sound;
      ShiftBlock(block, i, at, n);
      ShortenBlock(block, i, n);
      assert segs[i] == Edit(old(segs[i]), at, at + n, []);
    }

    /** The branch of Remove for a range inside one block. */
    method RemoveWithin(block: BufferBlock, ghost i: nat, at: nat, n: nat)
      requires Linked() && Dense(segs) && first.prev == null
      requires i < |chain| && block == chain[i] && at < |segs[i]| && at + n <= |segs[i]|
      modifies `last, `blockCount, `chain, `segs, chain, block.data
      ensures Linked() && Dense(segs) && first.prev == null && OnlyNew()
      ensures StartOf(old(segs), i) + at + n <= |old(Contents())|
      ensures var s := StartOf(old(segs), i) + at; Contents() == Edit(old(Contents()), s, s + n, [])
      ensures n < |old(segs[i])| ==> segs == old(segs)[i := Edit(old(segs[i]), at, at + n, [])]
    {
      hide Sound, Flatten, StartOf;
      FlattenEdit(segs, i, at, at + n, []);
      DeleteInBlock(block, i, at, n);
      AtPosition(chain, segs, i);
      if block.used == 0 {
        EmptyRemoved(segs, i);
        assert segs[i := []] == segs;
        var _ := RemoveBlock(block, i);
      }
    }

    /** The start of the branch of Remove for a longer range: cut block `i` at `at`, and drop it if nothing is left. */
    method CutTail(block: BufferBlock, ghost i: nat, at: nat) returns (next: BufferBlock?, ghost k: nat)
      requires Linked() && Dense(segs) && first.prev == null
      requires i < |chain| && block == chain[i] && at < |segs[i]|
      modifies `last, `blockCount, `chain, `segs, chain
      ensures Linked() && Dense(segs) && first.prev == null && OnlyNew()
      ensures 1 <= k <= |chain| && next == if k < |chain| then chain[k] else null
      ensures StartOf(old(segs), i) + |old(segs[i])| <= |old(Contents())|
      ensures Flatten(segs[..k]) == old(Contents())[..StartOf(old(segs), i) + at]
      ensures Flatten(segs[k..]) == old(Contents())[StartOf(old(segs), i) + |old(segs[i])|..]
    {
      hide Sound, Flatten, StartOf;
      TailCut(segs, i, at);
      AtPosition(chain, segs, i);
      ShortenBlock(block, i, block.used - at);
      AtPosition(chain, segs, i);
      if block.used == 0 {
        ghost var cut := segs;
        assert cut[i := []] == cut && Removed(cut, i)[..i] == cut[..i] && Removed(cut, i)[i..] == cut[i + 1..];
        next := RemoveBlock(block, i);
        k := if i == 0 then 1 else i;
      } else {
        next := block.next;
        k := i + 1;
      }
    }

    /** The last step of a long Remove: drop the first `n` bytes of block `k`. As written, `used` stays. */
    method CutFront(block: BufferBlock, ghost k: nat, n: nat, repaired: bool)
      requires Linked() && k < |chain| && block == chain[k] && n <= |segs[k]|
      modifies `segs, block`used, block`bytes, block.data
      ensures Linked() && (repaired ==> segs == old(segs)[k := old(segs[k])[n..]])
      ensures !repaired ==> SameCuts(segs, old(segs))
    {
      hide Sound;
      ShiftBlock(block, k, 0, n);
      if repaired {
        ShortenBlock(block, k, n);
        assert segs[k] == old(segs[k])[n..];
      }
    }

    /** One round of Remove's loop at block `k`: drop it, or cut its front and be done. */
    method CutBlock(block: BufferBlock, ghost k: nat, size: nat, left: nat, repaired: bool,
                    ghost whole: seq<byte>, ghost index: nat)
      returns (next: BufferBlock?, rest: nat, ghost clean: bool)
      requires Linked() && Dense(segs) && first.prev == null
      requires 1 <= k < |chain| && block == chain[k] && 0 < left < size
      requires CutSoFar(segs, k, whole, index, size - left)
      modifies `last, `blockCount, `chain, `segs, chain, block.data
      ensures Linked() && first.prev == null && OnlyNew() && rest < left
      ensures rest == 0 || left == old(block.used) + rest
      ensures clean == (repaired || old(block.used) <= left)
      ensures clean ==> k <= |chain| && Dense(segs) && CutSoFar(segs, k, whole, index, size - rest)
      ensures rest > 0 ==> next == if k < |chain| then chain[k] else null
      ensures !clean ==> rest == 0 && |Contents()| > |Cut(whole, index, size)|
    {
      hide Sound, Dense, Flatten, CutSoFar, Cut, SameCuts;
      AtPosition(chain, segs, k);
      clean := repaired || block.used <= left;
      if left >= block.used {
        CutPiece(segs, k, whole, index, size - left);
        rest := left - block.used;
        next := RemoveBlock(block, k);
      } else {
        CutPart(segs, k, left, whole, index, size - left);
        CutPartLength(segs, k, left, whole, index, size);
        CutFront(block, k, left, repaired);
        rest := 0;
        next := block.next;
      }
    }

    /** The branch of Remove for a range that reaches past block `i`. `left` is what the chain was too
        short for, `delsize` the last amount the source keeps; `clean` says that exactly the range went. */
    method RemoveAcross(block: BufferBlock, ghost i: nat, at: nat, size: nat, repaired: bool)
      returns (left: nat, delsize: nat, ghost clean: bool)
      requires Linked() && Dense(segs) && first.prev == null
      requires i < |chain| && block == chain[i] && at < |segs[i]| < at + size
      modifies `last, `blockCount, `chain, `segs, chain, ArraysOf(chain)
      ensures Linked() && first.prev == null && OnlyNew()
      ensures left < size && 0 < delsize < size && (repaired ==> clean)
      ensures var cut := Cut(old(Contents()), StartOf(old(segs), i) + at, size);
        if clean then Dense(segs) && Contents() == cut && |cut| == |old(Contents())| - (size - left)
        else |Contents()| > |cut|
    {
      hide Sound, Dense, Flatten, StartOf, CutSoFar, Cut;
      AtPosition(chain, segs, i);
      ghost var whole, index := Contents(), StartOf(segs, i) + at;
      StartOfBounds(segs, i);
      delsize := block.used - at;
      left := size - delsize;
      clean := true;
      var next;
      ghost var k: nat;
      next, k := CutTail(block, i, at);
      StartCut(segs, k, whole, index, delsize);
      while left > 0 && next != null
        invariant Linked() && first.prev == null && OnlyNew()
        invariant left < size && 0 < delsize < size && (repaired ==> clean)
        invariant clean ==> k <= |chain| && Dense(segs) && CutSoFar(segs, k, whole, index, size - left)
        invariant left > 0 ==> clean && 1 <= k && next == if k < |chain| then chain[k] else null
        invariant !clean ==> left == 0 && |Contents()| > |Cut(whole, index, size)|
        decreases left
      {
        delsize := if left >= next.used then delsize else left;
        next, left, clean := CutBlock(next, k, size, left, repaired, whole, index);
      }
      if clean {
        CutDone(segs, k, whole, index, size, size - left);
      }
    }

    /** Remove, as written or with its two accounting repairs: shortening the last block it cuts,
        and counting every byte removed. */
    method RemoveRange(index: nat, size: nat, repaired: bool)
      requires Valid()
      modifies this, chain, ArraysOf(chain)
      ensures OnlyNew()
      ensures repaired ==> Valid() && Contents() == Cut(old(Contents()), index, size)
      ensures !repaired ==>
        ((Valid() && Contents() == Cut(old(Contents()), index, size))
         <==> (|old(Contents())| <= index || InOnePiece(old(segs), index, size)))
      ensures InsidePiece(old(segs), index, size) ==> segs == CutInside(old(segs), index, size)
    {
      hide Sound, Dense, Flatten, StartOf, Locate;
      ghost var i;
      var block, at;
      block, at, i := FindBlockByOffset(index);
      if block == null {
        return;
      }
      AtPosition(chain, segs, i);
      if at + size > block.used {
        var left, delsize;
        ghost var clean;
        left, delsize, clean := RemoveAcross(block, i, at, size, repaired);
        CountBytes(if repaired then left - size else left - delsize);
      } else {
        RemoveWithin(block, i, at, size);
        CountBytes(0 - size);
      }
    }

    method Remove(index: nat, size: nat)
      requires Valid()
      modifies this, chain, ArraysOf(chain)
      ensures Valid() && OnlyNew()
      ensures Contents() == Cut(old(Contents()), index, size)
      ensures InsidePiece(old(segs), index, size) ==> segs == CutInside(old(segs), index, size)
    {
      RemoveRange(index, size, true);
    }

    method RemoveAsWritten(index: nat, size: nat)
      requires Valid()
      modifies this, chain, ArraysOf(chain)
      ensures OnlyNew()
      ensures (Valid() && Contents() == Cut(old(Contents()), index, size))
        <==> (|old(Contents())| <= index || InOnePiece(old(segs), index, size))
    {
      RemoveRange(index, size, false);
    }

    method Resize(size: nat)
      requires Valid()
      modifies this, chain, ArraysOf(chain)
      ensures Valid() && OnlyNew()
      ensures var n := |old(Contents())|;
        Contents() == if size > n then old(Contents()) + Repeat(0, size - n) else old(Contents())[..size]
    {
      if size > totalUsed {
        AppendFill(0, size - totalUsed);
      } else if size < totalUsed {
        var delsize := totalUsed - size;
        Remove(totalUsed - delsize, delsize);
      }
    }

    /** Clear as written: the surviving block keeps its old prev link, now to a deleted block. */
    method ClearAsWritten()
      requires Valid()
      modifies this, last`used, last`bytes
      ensures Linked() && Dense(segs) && Contents() == [] && totalUsed == 0
      ensures chain == [old(last)] && first.prev == old(last.prev)
      ensures Valid() <==> old(blockCount) == 1
    {
      AtPosition(chain, segs, |chain| - 1);
      first := last;
      last.Shorten(last.used);
      totalUsed := 0;
      blockCount := 1;
      chain, segs := [last], [[]];
      FlattenOne<byte>([]);
    }

    method Clear()
      requires Valid()
      modifies this, chain, ArraysOf(chain)
      ensures Valid() && OnlyNew()
      ensures Contents() == []
    {
      ClearAsWritten();
      first.prev := null;  // the repair
    }

    // ---- compaction

    method MoveFront(block: BufferBlock, ghost k: nat, next: BufferBlock, n: nat)
      requires Linked() && k + 1 < |chain| && block == chain[k] && next == chain[k + 1]
      requires n <= |segs[k + 1]| && |segs[k]| + n <= BLOCK_DATA_SIZE
      modifies `segs, block`used, block`bytes, next`used, next`bytes, block.data, next.data
      ensures Linked() && segs == Moved(old(segs), k, n)
    {
      hide Sound;
      AtPosition(chain, segs, k);
      AtPosition(chain, segs, k + 1);
      var p := next.Read(0, n);
      SpliceBlock(block, k, block.used, p);
      DeleteInBlock(next, k + 1, 0, n);
      assert segs[k] == old(segs[k]) + old(segs[k + 1])[..n];
      assert segs[k + 1] == old(segs[k + 1])[n..];
    }

    method Absorb(block: BufferBlock, ghost k: nat, next: BufferBlock) returns (after: BufferBlock?)
      requires Linked() && Dense(segs) && k + 1 < |chain| && block == chain[k] && next == chain[k + 1]
      requires |segs[k]| + |segs[k + 1]| <= BLOCK_DATA_SIZE
      modifies `last, `blockCount, `chain, `segs, chain, block.data
      ensures Linked() && first.prev == old(first.prev)
      ensures chain == Removed(old(chain), k + 1) && after == NextOf(chain, k)
      ensures segs == Absorbed(old(segs), k)
    {
      hide Sound;
      AtPosition(chain, segs, k);
      AtPosition(chain, segs, k + 1);
      var p := next.Read(0, next.used);
      SpliceBlock(block, k, block.used, p);
      assert segs[k] == old(segs[k]) + old(segs[k + 1]);
      after := RemoveBlock(next, k + 1);
    }

    /** One round of the inner loop of Compress: fill block `k` from the next one, or absorb that one. */
    method DrawNext(block: BufferBlock, ghost k: nat, next: BufferBlock, freeSize: nat, ghost was: seq<seq<byte>>)
      returns (after: BufferBlock?, filled: bool)
      requires Linked() && first.prev == null && k + 1 < |chain| && block == chain[k] && next == chain[k + 1]
      requires 0 < freeSize == BLOCK_DATA_SIZE - |segs[k]| && Refilling(segs, k, was)
      modifies `last, `blockCount, `chain, `segs, chain, ArraysOf(chain)
      ensures Linked() && first.prev == null && OnlyNew() && k < |chain| && block == chain[k]
      ensures filled ==> Refilled(segs, k, was)
      ensures !filled ==> Refilling(segs, k, was) && |segs| == |old(segs)| - 1 && after == NextOf(chain, k)
      ensures !filled ==> old(next.used) <= freeSize && |segs[k]| == |old(segs[k])| + old(next.used)
    {
      hide Sound, Dense, Flatten, Refilling, Refilled, Absorbed, Moved;
      RefillFacts(segs, k, was);
      AtPosition(chain, segs, k + 1);
      if freeSize < next.used {
        MoveStep(segs, k, freeSize, was);
        MoveFront(block, k, next, freeSize);
        return next, true;
      }
      AbsorbStep(segs, k, was);
      after := Absorb(block, k, next);
      filled := false;
    }

    /** The inner loop of Compress: draw bytes into block `k` until it is full or nothing is left behind it. */
    method Refill(block: BufferBlock, ghost k: nat) returns (ranOut: bool)
      requires Linked() && Dense(segs) && first.prev == null
      requires k + 1 < |chain| && block == chain[k] && |segs[k]| < BLOCK_DATA_SIZE
      modifies `last, `blockCount, `chain, `segs, chain, ArraysOf(chain)
      ensures Linked() && first.prev == null && OnlyNew() && k < |chain| && block == chain[k]
      ensures if ranOut then RefilledPart(segs, k, old(segs)) else Refilled(segs, k, old(segs))
    {
      hide Sound, Dense, Flatten, Refilling, Refilled, RefilledPart;
      ghost var was := segs;
      AtPosition(chain, segs, k);
      StartRefill(was, k);
      var freeSize := BLOCK_DATA_SIZE - block.used;
      var next := block.next;
      while freeSize > 0
        invariant Linked() && first.prev == null && OnlyNew()
        invariant k < |chain| && block == chain[k] && Refilling(segs, k, was)
        invariant 0 <= freeSize == BLOCK_DATA_SIZE - |segs[k]| && next == NextOf(chain, k)
        invariant freeSize == 0 ==> |segs| < |was|
        decreases |segs|
      {
        RefillFacts(segs, k, was);
        if next == null {
          RefilledOut(segs, k, was);
          return true;
        }
        AtPosition(chain, segs, k + 1);
        var used := next.used;
        var filled;
        next, filled := DrawNext(block, k, next, freeSize, was);
        if filled {
          return false;
        }
        freeSize := freeSize - used;
      }
      RefilledExactly(segs, k, was);
      ranOut := false;
    }

    /** One round of Compress's loop at block `k`; `done` is its return from inside. */
    method CompressBlock(block: BufferBlock, ghost k: nat, ghost was: seq<seq<byte>>)
      returns (next: BufferBlock?, done: bool)
      requires Linked() && first.prev == null && k + 1 < |chain| && block == chain[k] && Packing(segs, k, was)
      modifies `last, `blockCount, `chain, `segs, chain, ArraysOf(chain)
      ensures Linked() && first.prev == null && OnlyNew()
      ensures done ==> Packed(segs, was) && !RunsOff(was)
      ensures !done ==> Packing(segs, k + 1, was)
      ensures !done ==> k + 1 <= |chain| && next == if k + 1 < |chain| then chain[k + 1] else null
    {
      hide Sound, Dense, Flatten, Packing, Packed, Refilled, RefilledPart, RunsOff;
      PackingFacts(segs, k, was);
      AtPosition(chain, segs, k);
      if block.used < BLOCK_DATA_SIZE {
        var ranOut := Refill(block, k);
        if ranOut {
          PackingRanOut(old(segs), k, was, segs);
          return null, true;
        }
        PackingRefilled(old(segs), k, was, segs);
      } else {
        PackingFull(segs, k, was);
      }
      AtPosition(chain, segs, k);
      next, done := block.next, false;
    }

    /** Compress as written, except that where it would follow a null pointer it returns false. */
    method Compress() returns (safe: bool)
      requires Valid()
      modifies this, chain, ArraysOf(chain)
      ensures Valid() && OnlyNew()
      ensures Contents() == old(Contents())
      ensures safe <==> !RunsOff(old(segs))
      ensures FullBefore(segs, |segs| - 1) && blockCount == BlocksFor(|Contents()|)
      ensures Gaps(segs[..|segs| - 1]) == 0
    {
      hide Sound, Dense, Flatten, Packing, Packed, FullBefore, RunsOff, BlocksFor, Gaps;
      ghost var was := segs;
      ghost var k: nat := 0;
      var block: BufferBlock? := first;
      HoldsFits(chain, segs);
      PackingStart(segs);
      safe := true;
      var done := false;
      while !done && block != last
        invariant Linked() && first.prev == null && OnlyNew() && totalUsed == |Flatten(was)|
        invariant if done then Packed(segs, was) && (safe <==> !RunsOff(was)) else Packing(segs, k, was) && safe
        invariant !done ==> k <= |chain| && block == if k < |chain| then chain[k] else null
        decreases !done, |was| - k
      {
        PackingFacts(segs, k, was);
        if block == null {
          safe, done := false, true;  // the source reads block->used here
        } else {
          AtPosition(chain, segs, k);
          block, done := CompressBlock(block, k, was);
          k := k + 1;
        }
      }
      if !done {
        PackingFacts(segs, k, was);
        AtPosition(chain, segs, k);
        PackingEnds(segs, k, was);
      }
      HoldsFits(chain, segs);
      PackedSize(segs, was);
    }

    // ---- reading

    method Size() returns (size: nat)
      requires Valid()
      ensures size == |Contents()|
    {
      size := totalUsed;
    }

    /** The unused bytes in all blocks but the last. */
    method GapSize() returns (gap: int)
      requires Valid()
      ensures gap == Gaps(segs[..|segs| - 1])
    {
      var total := blockCount * BLOCK_DATA_SIZE;
      gap := total - totalUsed - (BLOCK_DATA_SIZE - last.used);
      ghost var n := |segs| - 1;
      GapsSum(segs[..n]);
      StartOfNext(segs, n);
      StartOfEnds(segs);
    }

    /** What CopyData stores, and whether it returns: called without an out-pointer for the next block,
        it tests that null pointer at the end. */
    method CopyData(index: nat, size: nat) returns (data: seq<byte>, comesBack: bool)
      requires Valid()
      ensures data == Slice(Contents(), index, size)
      ensures |data| == (if index >= |Contents()| then 0 else Min(size, |Contents()| - index))
      ensures forall k :: 0 <= k < |data| ==> data[k] == Contents()[index + k]
      ensures comesBack <==> |Contents()| <= index
    {
      hide Sound, Dense, Flatten, StartOf, Locate;
      ghost var i: nat;
      var block, at;
      block, at, i := FindBlockByOffset(index);
      if block == null {
        return [], true;
      }
      data := CopyBlocks(block, i, at, size, index);
      comesBack := false;
    }

    method CopyBlocks(at: BufferBlock, ghost k: nat, offset: nat, size: nat, ghost index: nat)
      returns (data: seq<byte>)
      requires Linked() && k < |chain| && at == chain[k] && offset <= |segs[k]|
      requires StartOf(segs, k) + offset == index < |Contents()|
      ensures data == Slice(Contents(), index, size)
    {
      hide Sound, Flatten, StartOf, Slice;
      ghost var i, whole := k, Contents();
      AtPosition(chain, segs, i);
      var len := Min(size, at.used - offset);
      CopyStep(segs, i, offset, len, [], index);
      data := at.Read(offset, len);
      var block := at.next;
      i := i + 1;
      while |data| < size && block != null
        invariant Linked() && i <= |chain| && block == if i < |chain| then chain[i] else null
        invariant |data| <= size && index + |data| <= |whole| && data == whole[index..index + |data|]
        invariant |data| < size ==> StartOf(segs, i) == index + |data|
        decreases |chain| - i
      {
        AtPosition(chain, segs, i);
        len := Min(size - |data|, block.used);
        CopyStep(segs, i, 0, len, data, index);
        var more := block.Read(0, len);
        data := data + more;
        block := block.next;
        i := i + 1;
      }
      StartOfEnds(segs);
      CopyDone(whole, index, size, data);
    }
  }

  /** Walks the blocks of a buffer that does not change meanwhile. */
  class DataBufferIterator {
    var current: BufferBlock?
    ghost const buffer: DataBuffer
    ghost var position: nat

    ghost predicate Valid()
      reads this, buffer, buffer.chain, ArraysOf(buffer.chain)
    {
      && buffer.Valid()
      && position <= |buffer.chain|
      && current == if position < |buffer.chain| then buffer.chain[position] else null
    }

    constructor (buffer: DataBuffer)
      requires buffer.Valid()
      ensures Valid() && this.buffer == buffer && position == 0
    {
      current := buffer.first;
      this.buffer := buffer;
      position := 0;
    }

    method Next() returns (more: bool)
      requires Valid()
      modifies this
      ensures Valid() && more == (position < |buffer.chain|)
      ensures position == if old(position) < |buffer.chain| then old(position) + 1 else old(position)
    {
      if current == null {
        return false;
      }
      AtPosition(buffer.chain, buffer.segs, position);
      current := current.next;
      position := position + 1;
      more := current != null;
    }

    /** Stepping back from the first block ends the walk. */
    method Prev() returns (more: bool)
      requires Valid()
      modifies this
      ensures Valid() && more == (0 < old(position) < |buffer.chain|)
      ensures position == if more then old(position) - 1 else |buffer.chain|
    {
      if current == null {
        return false;
      }
      AtPosition(buffer.chain, buffer.segs, position);
      current := current.prev;
      position := if position > 0 then position - 1 else |buffer.chain|;
      more := current != null;
    }

    method Data() returns (data: seq<byte>)
      requires Valid()
      ensures data == if position < |buffer.chain| then buffer.segs[position] else []
    {
      if current == null {
        return [];
      }
      AtPosition(buffer.chain, buffer.segs, position);
      data := current.Read(0, current.used);
    }
  }

  method StoreAt(dst: array<byte>, offset: nat, data: seq<byte>)
    requires offset + |data| <= dst.Length
    modifies dst
    ensures dst[..offset + |data|] == old(dst[..offset]) + data
  {
    forall j | offset <= j < offset + |data| {
      dst[j] := data[j - offset];
    }
    assert dst[..offset] == old(dst[..offset]);
    assert dst[offset..offset + |data|] == data;
  }

  /** One round of the copy loop. */
  method CopyBlockOut(it: DataBufferIterator, dst: array<byte>, offset: nat) returns (next: nat, more: bool)
    requires it.Valid() && it.position < |it.buffer.segs|
    requires offset == StartOf(it.buffer.segs, it.position) && dst !in ArraysOf(it.buffer.chain)
    requires dst.Length == |it.buffer.Contents()| && offset <= dst.Length
    requires dst[..offset] == it.buffer.Contents()[..offset]
    modifies it, dst
    ensures it.Valid() && it.position == old(it.position) + 1 && more == (it.position < |it.buffer.segs|)
    ensures next == StartOf(it.buffer.segs, it.position) <= dst.Length
    ensures dst[..next] == it.buffer.Contents()[..next]
  {
    hide Sound, Dense, Flatten, StartOf;
    ghost var segs, whole, i := it.buffer.segs, it.buffer.Contents(), it.position;
    PieceSlice(segs, i, 0, |segs[i]|);
    assert segs[i][0..|segs[i]|] == segs[i];
    StartOfNext(segs, i);
    var data := it.Data();
    StoreAt(dst, offset, data);
    assert whole[..offset + |data|] == whole[..offset] + whole[offset..offset + |data|];
    next := offset + |data|;
    more := it.Next();
  }

  /** The receive view: copy block after block into one array of the buffer's size. */
  method Snapshot(buffer: DataBuffer) returns (str: seq<byte>)
    requires buffer.Valid()
    ensures str == buffer.Contents()
  {
    hide Sound, Dense, Flatten, StartOf;
    assert allocated(ArraysOf(buffer.chain));
    var it := new DataBufferIterator(buffer);
    var dataLength := buffer.Size();
    if dataLength == 0 {
      return [];
    }
    var dst := new byte[dataLength];
    var offset := 0;
    var more := true;
    StartOfEnds(buffer.segs);
    while more
      invariant it.Valid() && it.buffer == buffer && fresh(it)
      invariant more == (it.position < |buffer.segs|)
      invariant offset == StartOf(buffer.segs, it.position) <= dst.Length == |buffer.Contents()|
      invariant dst[..offset] == buffer.Contents()[..offset]
      decreases |buffer.segs| - it.position
    {
      offset, more := CopyBlockOut(it, dst, offset);
    }
    str := dst[..];
  }
}
