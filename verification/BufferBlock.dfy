/** One block of the chain behind DataBuffer: a fixed array of which the first `used` bytes count. */
module BufferBlocks {
  import opened Bytes

  const BLOCK_DATA_SIZE: nat := 8192

  class BufferBlock {
    var prev: BufferBlock?
    var next: BufferBlock?
    var used: nat
    const data: array<byte>
    ghost var bytes: seq<byte>  // the used part of data

    ghost predicate Valid()
      reads this`used, this`bytes, data
    {
      data.Length == BLOCK_DATA_SIZE && used <= BLOCK_DATA_SIZE && bytes == data[..used]
    }

    constructor ()
      ensures Valid() && bytes == [] && prev == null && next == null
      ensures fresh(data)
    {
      prev, next, used := null, null, 0;
      data := new byte[BLOCK_DATA_SIZE](_ => 0);
      bytes := [];
    }

    /** memmove: `n` bytes from `from` to `to`, the two ranges overlapping as they may. */
    method Move(from: nat, to: nat, n: nat)
      requires from + n <= data.Length && to + n <= data.Length
      modifies data
      ensures data[..to] == old(data[..to]) && data[to + n..] == old(data[to + n..])
      ensures data[to..to + n] == old(data[from..from + n])
    {
      forall i | 0 <= i < n {
        data[to + i] := data[from + i];
      }
    }

    /** Store `p` at `at`. */
    method Put(at: nat, p: seq<byte>)
      requires at + |p| <= data.Length
      modifies data
      ensures data[..at] == old(data[..at]) && data[at + |p|..] == old(data[at + |p|..])
      ensures data[at..at + |p|] == p
    {
      forall i | 0 <= i < |p| {
        data[at + i] := p[i];
      }
    }

    /** memmove the tail up, then copy `p` into the gap. */
    method Splice(at: nat, p: seq<byte>)
      requires Valid() && at <= used && used + |p| <= BLOCK_DATA_SIZE
      modifies this`used, this`bytes, data
      ensures Valid() && bytes == old(bytes[..at]) + p + old(bytes[at..])
    {
      ghost var was := data[..];
      var n := |p|;
      Move(at, at + n, used - at);
      ghost var moved := data[..];
      Put(at, p);
      used := used + n;
      Spliced(was, moved, data[..], at, used, p);
      bytes := data[..used];
    }

    /** memmove the tail down over `n` bytes; `used` is left alone. */
    method ShiftDown(at: nat, n: nat)
      requires Valid() && at + n <= used
      modifies this`bytes, data
      ensures Valid()
      ensures bytes == old(bytes[..at]) + old(bytes[at + n..]) + old(bytes[used - n..])
    {
      ghost var was := data[..];
      Move(at + n, at, used - n - at);
      ShiftedDown(was, data[..], at, n, used);
      bytes := data[..used];
    }

    /** Drop the last `n` used bytes. */
    method Shorten(n: nat)
      requires Valid() && n <= used
      modifies this`used, this`bytes
      ensures Valid() && bytes == old(bytes[..used - n])
    {
      used := used - n;
      bytes := data[..used];
    }

    /** memset or a single store inside the used part. */
    method Overwrite(at: nat, p: seq<byte>)
      requires Valid() && at + |p| <= used
      modifies this`bytes, data
      ensures Valid() && bytes == old(bytes[..at]) + p + old(bytes[at + |p|..])
    {
      Put(at, p);
      assert data[at + |p|..used] == data[at + |p|..][..used - (at + |p|)] == old(data[at + |p|..used]);
      assert data[..used] == data[..at] + data[at..at + |p|] + data[at + |p|..used];
      bytes := data[..used];
    }

    /** The bytes a copy out of this block reads. */
    method Read(at: nat, len: nat) returns (p: seq<byte>)
      requires Valid() && at + len <= used
      ensures p == bytes[at..at + len]
    {
      p := data[at..at + len];
      assert p == data[..used][at..at + len];
    }
  }

  /** What the move of ShiftDown amounts to. */
  lemma ShiftedDown(was: seq<byte>, now: seq<byte>, at: nat, n: nat, end: nat)
    requires |was| == |now| && at + n <= end <= |now|
    requires now[..at] == was[..at] && now[at..end - n] == was[at + n..end] && now[end - n..] == was[end - n..]
    ensures now[..end] == was[..end][..at] + was[..end][at + n..] + was[..end][end - n..]
  {
    assert now[end - n..end] == now[end - n..][..n] == was[end - n..end];
    assert now[..end] == now[..at] + now[at..end - n] + now[end - n..end];
  }

  /** What the two copies of Splice amount to. */
  lemma Spliced(was: seq<byte>, moved: seq<byte>, now: seq<byte>, at: nat, end: nat, p: seq<byte>)
    requires |was| == |moved| == |now| && at + |p| <= end <= |now|
    requires moved[..at + |p|] == was[..at + |p|] && moved[at + |p|..end] == was[at..end - |p|]
    requires now[..at] == moved[..at] && now[at..at + |p|] == p && now[at + |p|..] == moved[at + |p|..]
    ensures now[..end] == was[..at] + p + was[at..end - |p|]
  {
    assert now[..at] == moved[..at + |p|][..at] == was[..at];
    assert now[at + |p|..end] == now[at + |p|..][..end - at - |p|] == moved[at + |p|..end];
    assert now[..end] == now[..at] + now[at..at + |p|] + now[at + |p|..end];
  }
}
