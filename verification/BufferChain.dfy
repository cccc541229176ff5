/** The shape of a chain of blocks, apart from the object that owns it. */
module BufferChains {
  import opened Bytes
  import opened BufferBlocks

  ghost function ArraysOf(chain: seq<BufferBlock>): set<array<byte>> {
    set b | b in chain :: b.data
  }

  /** No block occurs twice, and each has an array of its own. */
  ghost predicate Distinct(chain: seq<BufferBlock>) {
    forall i, j :: 0 <= i < j < |chain| ==> chain[i] != chain[j] && chain[i].data != chain[j].data
  }

  function NextOf(chain: seq<BufferBlock>, i: nat): BufferBlock? {
    if i + 1 < |chain| then chain[i + 1] else null
  }

  /** Every next link, and every prev link but the first block's, follows the order of `chain`. */
  ghost predicate Wired(chain: seq<BufferBlock>)
    reads chain`next, chain`prev
  {
    && (forall i {:trigger chain[i].next} :: 0 <= i < |chain| ==> chain[i].next == NextOf(chain, i))
    && (forall i {:trigger chain[i].prev} :: 1 <= i < |chain| ==> chain[i].prev == chain[i - 1])
  }

  /** The used bytes of block `i` are `segs[i]`. */
  ghost predicate Holds(chain: seq<BufferBlock>, segs: seq<seq<byte>>)
    reads chain`used, chain`bytes
  {
    && |chain| == |segs|
    && forall i :: 0 <= i < |chain| ==> chain[i].bytes == segs[i] && chain[i].used == |segs[i]| <= BLOCK_DATA_SIZE
  }

  ghost predicate Backed(chain: seq<BufferBlock>)
    reads chain`used, chain`bytes, ArraysOf(chain)
  {
    forall i :: 0 <= i < |chain| ==> chain[i].Valid()
  }

  /** All of the above. */
  ghost predicate Sound(chain: seq<BufferBlock>, segs: seq<seq<byte>>)
    reads chain`next, chain`prev, chain`used, chain`bytes, ArraysOf(chain)
  {
    Distinct(chain) && Wired(chain) && Holds(chain, segs) && Backed(chain)
  }

  /** What Sound says about one position. */
  lemma AtPosition(chain: seq<BufferBlock>, segs: seq<seq<byte>>, i: nat)
    requires Sound(chain, segs) && i < |chain|
    ensures chain[i] in chain && chain[i].data in ArraysOf(chain)
    ensures |chain| == |segs| && chain[i].Valid()
    ensures chain[i].bytes == segs[i] && chain[i].used == |segs[i]| <= BLOCK_DATA_SIZE
    ensures chain[i].next == NextOf(chain, i)
    ensures i > 0 ==> chain[i].prev == chain[i - 1]
    ensures chain[i] == chain[|chain| - 1] <==> i == |chain| - 1
    ensures chain[i] == chain[0] <==> i == 0
  {
  }

  // ---- inserting a block

  /** A new empty block fits into any position, links aside. */
  lemma RestInserted(chain: seq<BufferBlock>, segs: seq<seq<byte>>, i: nat, block: BufferBlock)
    requires Distinct(chain) && Holds(chain, segs) && Backed(chain) && i <= |chain|
    requires block.Valid() && block.bytes == [] && block.data !in ArraysOf(chain)
    requires Wired(Inserted(chain, i, block))
    ensures Sound(Inserted(chain, i, block), Inserted(segs, i, []))
    ensures |Inserted(chain, i, block)| == |chain| + 1 == |Inserted(segs, i, [])|
  {
    hide Distinct, Wired;
    DistinctInserted(chain, i, block);
    SameLengths(chain, segs);
  }

  lemma SameLengths(chain: seq<BufferBlock>, segs: seq<seq<byte>>)
    requires Holds(chain, segs)
    ensures |chain| == |segs|
  {
  }

  lemma DistinctInserted(chain: seq<BufferBlock>, i: nat, block: BufferBlock)
    requires Distinct(chain) && i <= |chain| && block.data !in ArraysOf(chain)
    ensures Distinct(Inserted(chain, i, block))
  {
    assert forall k :: 0 <= k < |chain| ==> chain[k].data in ArraysOf(chain);
  }

  lemma WiredInsert(chain: seq<BufferBlock>, i: nat, block: BufferBlock)
    requires i <= |chain|
    requires forall k {:trigger chain[k].next} :: 0 <= k < |chain| ==>
      chain[k].next == if k + 1 == i then block else NextOf(chain, k)
    requires forall k {:trigger chain[k].prev} :: 0 <= k < |chain| && (1 <= k || k == i) ==>
      chain[k].prev == if k == i then block else chain[k - 1]
    requires block.next == (if i < |chain| then chain[i] else null)
    requires i > 0 ==> block.prev == chain[i - 1]
    ensures Wired(Inserted(chain, i, block))
  {
  }

  /** Links `block` in between two neighbours (or at an end) of `chain`, before position `i`. */
  method Link(ghost chain: seq<BufferBlock>, ghost i: nat,
              before: BufferBlock?, block: BufferBlock, after: BufferBlock?)
    requires Distinct(chain) && Wired(chain) && i <= |chain| && block !in chain
    requires after == if i < |chain| then chain[i] else null
    requires before == if i > 0 then chain[i - 1] else null
    modifies block`next, block`prev, chain`next, chain`prev
    ensures Wired(Inserted(chain, i, block)) && block.prev == before
    ensures i > 0 ==> chain[0].prev == old(chain[0].prev)
  {
    block.prev := before;
    block.next := after;
    if before != null {
      before.next := block;
    }
    if after != null {
      after.prev := block;
    }
    WiredInsert(chain, i, block);
  }

  // ---- removing a block

  lemma RestRemoved(chain: seq<BufferBlock>, segs: seq<seq<byte>>, i: nat)
    requires Distinct(chain) && Holds(chain, segs) && Backed(chain) && i < |chain|
    ensures Distinct(Removed(chain, i)) && Holds(Removed(chain, i), Removed(segs, i)) && Backed(Removed(chain, i))
  {
  }

  lemma WiredRemoved(chain: seq<BufferBlock>, i: nat)
    requires 1 <= i < |chain|
    requires forall k {:trigger chain[k].next} :: 0 <= k < |chain| && k != i ==>
      chain[k].next == if k + 1 == i then NextOf(chain, i) else NextOf(chain, k)
    requires forall k {:trigger chain[k].prev} :: 1 <= k < |chain| && k != i ==>
      chain[k].prev == if k == i + 1 then chain[i - 1] else chain[k - 1]
    ensures Wired(Removed(chain, i))
  {
  }

  /** Joins the neighbours of position `i` past it. */
  method Unlink(ghost chain: seq<BufferBlock>, ghost i: nat, before: BufferBlock, after: BufferBlock?)
    requires Distinct(chain) && Wired(chain) && 1 <= i < |chain|
    requires before == chain[i - 1] && after == NextOf(chain, i)
    modifies chain`next, chain`prev
    ensures Wired(Removed(chain, i))
    ensures chain[0].prev == old(chain[0].prev)
  {
    before.next := after;
    if after != null {
      after.prev := before;
    }
    WiredRemoved(chain, i);
  }

  // ---- changing the bytes of one block

  /** Only the block at `i` changed, and it is still consistent. */
  lemma HoldsUpdate(chain: seq<BufferBlock>, segs: seq<seq<byte>>, i: nat)
    requires |chain| == |segs| && i < |chain| && chain[i].Valid()
    requires forall k :: 0 <= k < |chain| && k != i ==>
      chain[k].Valid() && chain[k].bytes == segs[k] && chain[k].used == |segs[k]|
    ensures Holds(chain, segs[i := chain[i].bytes]) && Backed(chain)
  {
  }
}
