/** What compaction does to the pieces of a chain, and when its source runs off the end. */
module Compaction {
  import opened Bytes
  import opened BufferBlocks
  import opened BufferChains
  import opened Segments

  /** Every piece before `k` is full. */
  ghost predicate FullBefore(segs: seq<seq<byte>>, k: nat) {
    forall i :: 0 <= i < |segs| && i < k ==> |segs[i]| == BLOCK_DATA_SIZE
  }

  ghost predicate Fits(segs: seq<seq<byte>>) {
    forall i :: 0 <= i < |segs| ==> |segs[i]| <= BLOCK_DATA_SIZE
  }

  lemma HoldsFits(chain: seq<BufferBlock>, segs: seq<seq<byte>>)
    requires Sound(chain, segs)
    ensures Fits(segs)
  {
  }

  /** The bytes by which these blocks fall short of being full. */
  ghost function Gaps(segs: seq<seq<byte>>): int {
    if segs == [] then 0 else BLOCK_DATA_SIZE - |segs[0]| + Gaps(segs[1..])
  }

  lemma {:induction false} GapsSum(segs: seq<seq<byte>>)
    ensures Gaps(segs) == |segs| * BLOCK_DATA_SIZE - |Flatten(segs)|
  {
    if segs != [] {
      GapsSum(segs[1..]);
    }
  }

  /** There are none exactly if the blocks are full. */
  lemma {:induction false} NoGapsIff(segs: seq<seq<byte>>)
    requires Fits(segs)
    ensures Gaps(segs) >= 0
    ensures Gaps(segs) == 0 <==> FullBefore(segs, |segs|)
  {
    if segs != [] {
      NoGapsIff(segs[1..]);
      assert FullBefore(segs, |segs|) <==> |segs[0]| == BLOCK_DATA_SIZE && FullBefore(segs[1..], |segs| - 1) by {
        FullFromFirst(segs);
      }
    }
  }

  lemma FullFromFirst(segs: seq<seq<byte>>)
    requires segs != []
    ensures FullBefore(segs, |segs|) <==> |segs[0]| == BLOCK_DATA_SIZE && FullBefore(segs[1..], |segs| - 1)
  {
    if |segs[0]| == BLOCK_DATA_SIZE && FullBefore(segs[1..], |segs| - 1) {
      forall i | 0 <= i < |segs|
        ensures |segs[i]| == BLOCK_DATA_SIZE
      {
        assert i > 0 ==> segs[i] == segs[1..][i - 1];
      }
    }
  }

  lemma {:induction false} FullLength(segs: seq<seq<byte>>, k: nat)
    requires k <= |segs| && FullBefore(segs, k)
    ensures |Flatten(segs[..k])| == k * BLOCK_DATA_SIZE
  {
    if k > 0 {
      FullLength(segs, k - 1);
      StartOfNext(segs, k - 1);
    }
  }

  /** `segs` from `k` on is `was` from the piece `|was| - |segs|` further on; piece `k` may have lost its front. */
  ghost predicate RestOf(segs: seq<seq<byte>>, k: nat, was: seq<seq<byte>>) {
    && k < |segs| <= |was|
    && segs[k + 1..] == was[k + 1 + |was| - |segs|..]
    && |segs[k]| <= |was[k + |was| - |segs|]|
  }

  /** The compaction loop as written absorbs the last block exactly and then steps past it. */
  ghost predicate RunsOff(segs: seq<seq<byte>>) {
    && 2 <= |segs|
    && 0 < |Flatten(segs)| && |Flatten(segs)| % BLOCK_DATA_SIZE == 0
    && (|segs[|segs| - 1]| < BLOCK_DATA_SIZE || (|segs| == 2 && segs[0] == []))
  }

  /** The first part of piece `k + 1` moves to the end of piece `k`. */
  function Moved(segs: seq<seq<byte>>, k: nat, n: nat): seq<seq<byte>>
    requires k + 1 < |segs| && n <= |segs[k + 1]|
  {
    segs[k := segs[k] + segs[k + 1][..n]][k + 1 := segs[k + 1][n..]]
  }

  lemma MovedSame(segs: seq<seq<byte>>, k: nat, n: nat)
    requires k + 1 < |segs| && n <= |segs[k + 1]|
    ensures Flatten(Moved(segs, k, n)) == Flatten(segs)
  {
    var out := Moved(segs, k, n);
    SplitFlat(segs, k);
    SplitFlat(out, k);
    FirstOfRest(segs, k);
    FirstOfRest(segs, k + 1);
    FirstOfRest(out, k);
    FirstOfRest(out, k + 1);
    assert out[..k] == segs[..k] && out[k + 2..] == segs[k + 2..];
    assert segs[k + 1] == segs[k + 1][..n] + segs[k + 1][n..];
  }

  /** Piece `k` takes all of piece `k + 1`. */
  function Absorbed(segs: seq<seq<byte>>, k: nat): seq<seq<byte>>
    requires k + 1 < |segs|
  {
    Removed(segs[k := segs[k] + segs[k + 1]], k + 1)
  }

  /** `segs` came from `was` by refilling piece `k`: the bytes are the same, and so is all before `k`;
      behind `k` only whole pieces are gone. */
  ghost predicate Refilling(segs: seq<seq<byte>>, k: nat, was: seq<seq<byte>>) {
    && Dense(segs) && Flatten(segs) == Flatten(was)
    && k < |segs| <= |was| && segs[..k] == was[..k]
    && segs[k + 1..] == was[k + 1 + |was| - |segs|..]
    && (|segs| < |was| ==> segs[k] != [])
  }

  /** Piece `k` is full. If it is the last one now, it took all of `was` behind it, to the byte. */
  ghost predicate Refilled(segs: seq<seq<byte>>, k: nat, was: seq<seq<byte>>) {
    && Dense(segs) && Flatten(segs) == Flatten(was)
    && k < |segs| <= |was| && segs[..k] == was[..k] && |segs[k]| == BLOCK_DATA_SIZE
    && (k + 1 < |segs| ==> RestOf(segs, k + 1, was))
    && (k + 1 == |segs| ==> |was[|was| - 1]| < BLOCK_DATA_SIZE || (was[k] == [] && |was| == k + 2))
  }

  /** Piece `k` took all there was behind it and is not full. */
  ghost predicate RefilledPart(segs: seq<seq<byte>>, k: nat, was: seq<seq<byte>>) {
    && Dense(segs) && Flatten(segs) == Flatten(was)
    && |segs| == k + 1 && k < |was| && segs[..k] == was[..k] && 0 < |segs[k]| < BLOCK_DATA_SIZE
  }

  lemma StartRefill(segs: seq<seq<byte>>, k: nat)
    requires Dense(segs) && k < |segs|
    ensures Refilling(segs, k, segs)
  {
  }

  lemma RefillFacts(segs: seq<seq<byte>>, k: nat, was: seq<seq<byte>>)
    requires Refilling(segs, k, was)
    ensures Dense(segs) && Flatten(segs) == Flatten(was)
    ensures k < |segs| <= |was| && segs[..k] == was[..k] && (|segs| < |was| ==> segs[k] != [])
  {
  }

  lemma RefilledOut(segs: seq<seq<byte>>, k: nat, was: seq<seq<byte>>)
    requires Refilling(segs, k, was) && k + 1 == |segs| < |was| && |segs[k]| < BLOCK_DATA_SIZE
    ensures RefilledPart(segs, k, was)
  {
  }

  lemma AbsorbStep(segs: seq<seq<byte>>, k: nat, was: seq<seq<byte>>)
    requires Refilling(segs, k, was) && k + 1 < |segs|
    ensures var out := Absorbed(segs, k);
      Refilling(out, k, was) && |out| == |segs| - 1 && out[k] == segs[k] + segs[k + 1] && segs[k + 1] != []
  {
    hide Flatten;
    var n := |segs[k + 1]|;
    MovedSame(segs, k, n);
    var m := Moved(segs, k, n);
    assert segs[k + 1][..n] == segs[k + 1];
    EmptyRemoved(m, k + 1);
    var out := Absorbed(segs, k);
    assert Removed(m, k + 1) == out;
    assert out[..k] == segs[..k] && out[k + 1..] == segs[k + 2..];
  }

  lemma MoveStep(segs: seq<seq<byte>>, k: nat, n: nat, was: seq<seq<byte>>)
    requires Refilling(segs, k, was) && k + 1 < |segs| && 0 < n < |segs[k + 1]| && |segs[k]| + n == BLOCK_DATA_SIZE
    ensures Refilled(Moved(segs, k, n), k, was)
  {
    hide Flatten;
    MovedSame(segs, k, n);
    var out := Moved(segs, k, n);
    assert out[..k] == segs[..k] && out[k + 2..] == segs[k + 2..] == was[k + 2 + |was| - |segs|..];
    assert segs[k + 1] == segs[k + 1..][0];
  }

  /** Piece `k` has been filled exactly by whole pieces. */
  lemma RefilledExactly(segs: seq<seq<byte>>, k: nat, was: seq<seq<byte>>)
    requires Refilling(segs, k, was) && |segs[k]| == BLOCK_DATA_SIZE && |segs| < |was| && Dense(was)
    ensures Refilled(segs, k, was)
  {
    if k + 1 == |segs| {
      SplitFlat(segs, k);
      SplitFlat(was, k);
      FirstOfRest(segs, k);
      AbsorbedAll(was, k);
    } else {
      assert segs[k + 1] == segs[k + 1..][0];
      assert segs[k + 2..] == segs[k + 1..][1..];
    }
  }

  /** A full block made of pieces `k..` of a dense sequence whose last piece is full is that last piece. */
  lemma AbsorbedAll(segs: seq<seq<byte>>, k: nat)
    requires k + 1 < |segs| && Dense(segs) && |Flatten(segs[k..])| == BLOCK_DATA_SIZE
    ensures |segs[|segs| - 1]| < BLOCK_DATA_SIZE || (segs[k] == [] && |segs| == k + 2)
  {
    var n := |segs| - 1;
    var rest := segs[k..];
    FlattenAt(rest, n - k);
    FirstOfRest(segs, k);
    if |segs[n]| >= BLOCK_DATA_SIZE && n > k + 1 {
      FlattenAt(rest[..n - k], 1);
    }
    if |segs[n]| >= BLOCK_DATA_SIZE {
      FlattenAt(rest[..n - k], 0);
    }
  }

  /** The state of the compaction loop at piece `k`, `was` being what it started from. */
  ghost predicate Packing(segs: seq<seq<byte>>, k: nat, was: seq<seq<byte>>) {
    && Dense(segs) && Flatten(segs) == Flatten(was) && Fits(was)
    && k <= |segs| <= |was| && FullBefore(segs, k)
    && (k < |segs| ==> RestOf(segs, k, was))
    && (k == 0 ==> segs == was)
    && (k == |segs| ==> RunsOff(was))
  }

  lemma PackingStart(segs: seq<seq<byte>>)
    requires segs != [] && Dense(segs) && Fits(segs)
    ensures Packing(segs, 0, segs)
  {
  }

  lemma PackingFull(segs: seq<seq<byte>>, k: nat, was: seq<seq<byte>>)
    requires Packing(segs, k, was) && k + 1 < |segs| && |segs[k]| == BLOCK_DATA_SIZE
    ensures Packing(segs, k + 1, was)
  {
    assert segs[k + 1] == segs[k + 1..][0];
    assert segs[k + 2..] == segs[k + 1..][1..];
  }

  lemma PackingRefilled(segs: seq<seq<byte>>, k: nat, was: seq<seq<byte>>, out: seq<seq<byte>>)
    requires Packing(segs, k, was) && k + 1 < |segs| && Refilled(out, k, segs)
    ensures Packing(out, k + 1, was)
  {
    hide Flatten;
    forall i | 0 <= i < k
      ensures out[i] == segs[i]
    {
      assert out[i] == out[..k][i];
    }
    assert segs[|segs| - 1] == segs[k + 1..][|segs| - k - 2];
    if k + 1 == |out| {
      FullLength(out, k + 1);
      assert out[..k + 1] == out;
    } else {
      var m := |segs| - |out|;
      assert segs[k + 1 + m] == segs[k + 1..][m];
      assert segs[k + 2 + m..] == segs[k + 1..][m + 1..];
    }
  }

  /** Compaction of `was` is over: only the last piece may be less than full. */
  ghost predicate Packed(segs: seq<seq<byte>>, was: seq<seq<byte>>) {
    Dense(segs) && segs != [] && Flatten(segs) == Flatten(was) && FullBefore(segs, |segs| - 1)
  }

  lemma PackedSize(segs: seq<seq<byte>>, was: seq<seq<byte>>)
    requires Packed(segs, was) && Fits(segs)
    ensures Dense(segs) && FullBefore(segs, |segs| - 1) && Flatten(segs) == Flatten(was)
    ensures |segs| == BlocksFor(|Flatten(segs)|) && Gaps(segs[..|segs| - 1]) == 0
  {
    NoGapsIff(segs[..|segs| - 1]);
    FullLength(segs, |segs| - 1);
    FlattenAt(segs, |segs| - 1);
    FlattenNone(segs[|segs|..]);
  }

  /** The least number of blocks that holds `size` bytes; an empty chain still has one. */
  function BlocksFor(size: nat): nat {
    if size == 0 then 1 else (size - 1) / BLOCK_DATA_SIZE + 1
  }

  lemma PackingEnds(segs: seq<seq<byte>>, k: nat, was: seq<seq<byte>>)
    requires Packing(segs, k, was) && k + 1 == |segs|
    ensures Packed(segs, was) && !RunsOff(was)
  {
    FullLength(segs, k);
    FlattenAt(segs, k);
    FlattenNone(segs[k + 1..]);
    if k > 0 {
      if |segs[k]| < BLOCK_DATA_SIZE {
        PartialBlock(k, |segs[k]|);
      } else if |was| == 2 {
        FlattenAt(was, 1);
        FlattenNone(was[2..]);
        FlattenOne(was[0]);
        assert was[..1] == [was[0]];
      }
    }
  }

  lemma PackingRanOut(segs: seq<seq<byte>>, k: nat, was: seq<seq<byte>>, out: seq<seq<byte>>)
    requires Packing(segs, k, was) && k < |segs| && RefilledPart(out, k, segs)
    ensures Packed(out, was) && !RunsOff(was)
  {
    hide Flatten, RestOf, Dense;
    forall i | 0 <= i < k
      ensures out[i] == segs[i]
    {
      assert out[i] == out[..k][i];
    }
    FullLength(out, k);
    FlattenAt(out, k);
    FlattenNone(out[k + 1..]);
    PartialBlock(k, |out[k]|);
  }

  lemma PartialBlock(k: nat, r: nat)
    requires r < BLOCK_DATA_SIZE
    ensures (k * BLOCK_DATA_SIZE + r) % BLOCK_DATA_SIZE == r
  {
  }

  lemma PackingFacts(segs: seq<seq<byte>>, k: nat, was: seq<seq<byte>>)
    requires Packing(segs, k, was)
    ensures Dense(segs) && Flatten(segs) == Flatten(was) && k <= |segs| <= |was| && FullBefore(segs, k)
    ensures k == |segs| ==> RunsOff(was) && Packed(segs, was)
  {
  }
}
