/** Whole runs of DataBuffer against the same run on a plain sequence, and what Insert guarantees. */
module BufferRuns {
  import opened Bytes
  import opened BufferBlocks
  import opened BufferChains
  import opened Compaction
  import opened DataBuffers
  import opened Segments

  datatype Op =
    | Append(data: seq<byte>)
    | AppendFill(fill: byte, size: nat)
    | Prepend(data: seq<byte>)
    | PrependFill(fill: byte, size: nat)
    | SetAt(index: nat, value: byte)
    | Fill(fill: byte, index: nat, size: nat)
    | Remove(index: nat, size: nat)
    | Resize(size: nat)
    | Compress
    | Clear

  /** The operation on a plain sequence. */
  function Apply(s: seq<byte>, op: Op): seq<byte> {
    match op
    case Append(data) => s + data
    case AppendFill(fill, size) => s + Repeat(fill, size)
    case Prepend(data) => data + s
    case PrependFill(fill, size) => Repeat(fill, size) + s
    case SetAt(index, value) => if index < |s| then s[index := value] else s
    case Fill(fill, index, size) =>
      seq(|s|, i requires 0 <= i < |s| => if index <= i < index + size then fill else s[i])
    case Remove(index, size) => if index >= |s| then s else s[..index] + s[Min(index + size, |s|)..]
    case Resize(size) => if size <= |s| then s[..size] else s + Repeat(0, size - |s|)
    case Compress => s
    case Clear => []
  }

  function ApplyAll(s: seq<byte>, ops: seq<Op>): seq<byte>
    decreases ops
  {
    if ops == [] then s else ApplyAll(Apply(s, ops[0]), ops[1..])
  }

  method Step(buffer: DataBuffer, op: Op)
    requires buffer.Valid()
    modifies buffer, buffer.chain, ArraysOf(buffer.chain)
    ensures buffer.Valid() && buffer.OnlyNew()
    ensures buffer.Contents() == Apply(old(buffer.Contents()), op)
  {
    hide Sound, Dense, Flatten, Appended, InsidePiece, CutInside, Gaps, FullBefore, RunsOff;
    ghost var s := buffer.Contents();
    match op {
      case Append(data) => buffer.Append(data);
      case AppendFill(fill, size) => buffer.AppendFill(fill, size);
      case Prepend(data) => buffer.Prepend(data);
      case PrependFill(fill, size) => buffer.PrependFill(fill, size);
      case SetAt(index, value) =>
        StoredOne(s, index, value);
        buffer.SetAt(index, value);
      case Fill(fill, index, size) =>
        StoredFill(s, fill, index, size);
        buffer.Fill(fill, index, size);
      case Remove(index, size) => buffer.Remove(index, size);
      case Resize(size) => buffer.Resize(size);
      case Compress => var _ := buffer.Compress();
      case Clear => buffer.Clear();
    }
  }

  lemma StoredOne(s: seq<byte>, index: nat, value: byte)
    ensures Overwritten(s, index, [value]) == Apply(s, SetAt(index, value))
  {
  }

  lemma StoredFill(s: seq<byte>, fill: byte, index: nat, size: nat)
    ensures Overwritten(s, index, Repeat(fill, size)) == Apply(s, Fill(fill, index, size))
  {
  }

  /** Any run from a new buffer, read back through the iterator. */
  method Run(ops: seq<Op>) returns (bytes: seq<byte>)
    ensures bytes == ApplyAll([], ops)
  {
    hide Sound, Dense, Flatten, Apply;
    var buffer := new DataBuffer();
    var i := 0;
    while i < |ops|
      invariant i <= |ops| && buffer.Valid() && fresh(buffer)
      invariant forall k :: 0 <= k < |buffer.chain| ==> fresh(buffer.chain[k]) && fresh(buffer.chain[k].data)
      invariant ApplyAll(buffer.Contents(), ops[i..]) == ApplyAll([], ops)
    {
      Step(buffer, ops[i]);
      assert ops[i..][1..] == ops[i + 1..];
      i := i + 1;
    }
    bytes := Snapshot(buffer);
  }

  // ---- Insert

  /** The bytes behind the insertion point in its block, and the part of `data` that block has no room for. */
  ghost function Displaced(segs: seq<seq<byte>>, index: nat, data: seq<byte>): (seq<byte>, seq<byte>)
    requires Fits(segs) && index < |Flatten(segs)|
  {
    LocateStart(segs, index);
    var i := Locate(segs, index);
    (segs[i][index - StartOf(segs, i)..], data[Min(|data|, BLOCK_DATA_SIZE - |segs[i]|)..])
  }

  /** Where everything goes: what fits, then the displaced bytes, then the overflow. */
  lemma InsertPlaces(segs: seq<seq<byte>>, index: nat, data: seq<byte>)
    requires Fits(segs) && 0 < index < |Flatten(segs)|
    ensures var whole, (tail, over) := Flatten(segs), Displaced(segs, index, data);
      && |over| <= |data| && index + |tail| <= |whole| && whole[index..index + |tail|] == tail
      && InsertAsWritten(segs, index, data)
         == whole[..index] + data[..|data| - |over|] + tail + over + whole[index + |tail|..]
  {
    hide Flatten, Locate, StartOf;
    LocateStart(segs, index);
    var i := Locate(segs, index);
    var start, seg := StartOf(segs, i), segs[i];
    PieceSlice(segs, i, index - start, |seg|);
    StartOfBounds(segs, i);
    var tail, fit := seg[index - start..], Min(|data|, BLOCK_DATA_SIZE - |seg|);
    assert Flatten(segs)[index..start + |seg|] == tail && index + |tail| == start + |seg|;
    assert data[..|data| - |data[fit..]|] == data[..fit];
  }

  lemma InsertCommutes(segs: seq<seq<byte>>, index: nat, data: seq<byte>)
    requires Fits(segs) && 0 < index < |Flatten(segs)|
    ensures var (tail, over) := Displaced(segs, index, data);
      InsertAsWritten(segs, index, data) == Edit(Flatten(segs), index, index, data) <==> tail + over == over + tail
  {
    hide Flatten, Locate, StartOf, Spilled, Edit;
    LocateStart(segs, index);
    var i := Locate(segs, index);
    var start, seg := StartOf(segs, i), segs[i];
    PieceSlice(segs, i, index - start, |seg|);
    assert Flatten(segs)[index..start + |seg|] == seg[index - start..];
    var fit := Min(|data|, BLOCK_DATA_SIZE - |seg|);
    SpilledExact(Flatten(segs), index, start + |seg|, data, fit);
  }

  /** Insert inserts exactly when nothing overflows, or the displaced bytes and the overflow are repetitions of
      one word. */
  lemma InsertExact(segs: seq<seq<byte>>, index: nat, data: seq<byte>)
    requires Fits(segs) && 0 < index < |Flatten(segs)|
    ensures var (tail, over) := Displaced(segs, index, data);
      InsertAsWritten(segs, index, data) == Edit(Flatten(segs), index, index, data)
      <==> over == [] || OneWord(tail, over)
  {
    hide InsertAsWritten, Displaced, Flatten, OneWord, Edit;
    InsertCommutes(segs, index, data);
    var (tail, over) := Displaced(segs, index, data);
    CommuteIff(tail, over);
    if over == [] {
      assert tail + over == tail == over + tail;
    }
  }

  lemma InsertKeepsInside(segs: seq<seq<byte>>, index: nat, data: seq<byte>)
    requires Fits(segs) && 0 < index < |Flatten(segs)|
    ensures var whole, out := Flatten(segs), InsertAsWritten(segs, index, data);
      out[..index] == whole[..index] && multiset(out) == multiset(whole) + multiset(data)
  {
    hide Flatten, Locate, StartOf, Spilled;
    LocateStart(segs, index);
    var i := Locate(segs, index);
    StartOfBounds(segs, i);
    SpilledKeeps(Flatten(segs), index, StartOf(segs, i) + |segs[i]|, data, Min(|data|, BLOCK_DATA_SIZE - |segs[i]|));
  }

  /** Whatever overflows, Insert keeps the front and loses or invents no byte. */
  lemma InsertKeeps(segs: seq<seq<byte>>, index: nat, data: seq<byte>)
    requires Fits(segs)
    ensures var whole, out := Flatten(segs), InsertAsWritten(segs, index, data);
      && (index <= |whole| ==> out[..index] == whole[..index])
      && multiset(out) == multiset(whole) + multiset(data)
  {
    hide Flatten, Locate, StartOf, Spilled;
    if 0 < index < |Flatten(segs)| {
      InsertKeepsInside(segs, index, data);
    }
  }

  /** InsertFill inserts `fill` exactly when nothing overflows, or all the bytes concerned are zero anyway. */
  lemma InsertFillExact(segs: seq<seq<byte>>, index: nat, size: nat, fill: byte)
    requires Fits(segs) && 0 < index < |Flatten(segs)|
    ensures var (tail, over) := Displaced(segs, index, Repeat(fill, size));
      InsertFillAsWritten(segs, index, size, fill) == Edit(Flatten(segs), index, index, Repeat(fill, size))
      <==> over == [] || (fill == 0 && AllAre(tail, 0))
  {
    hide Flatten, Locate, StartOf, Repeat, AllAre, Spilled, Edit;
    LocateStart(segs, index);
    var i := Locate(segs, index);
    var start, seg := StartOf(segs, i), segs[i];
    PieceSlice(segs, i, index - start, |seg|);
    assert Flatten(segs)[index..start + |seg|] == seg[index - start..];
    var fit := Min(size, BLOCK_DATA_SIZE - |seg|);
    SpilledZeros(Flatten(segs), index, start + |seg|, fill, fit, size - fit);
  }

  // ---- runs from a new buffer on which the source goes wrong

  /** One byte inserted before the last byte of a full block ends up behind it. */
  lemma InsertGoesWrong(data: seq<byte>, b: byte)
    requires |data| == BLOCK_DATA_SIZE
    ensures InsertAsWritten([data], BLOCK_DATA_SIZE - 1, [b]) == data + [b]
  {
    FlattenOne(data);
    LocateFound([data], BLOCK_DATA_SIZE - 1, 0);
    assert [b][..0] == [] && [b][0..] == [b];
  }

  /** A new buffer holds the first block's worth, and what is left in further blocks. */
  lemma NewlyAppended(data: seq<byte>)
    requires BLOCK_DATA_SIZE <= |data| <= 2 * BLOCK_DATA_SIZE
    ensures Appended([[]], data, BLOCK_DATA_SIZE) ==
      [data[..BLOCK_DATA_SIZE]] + if |data| == BLOCK_DATA_SIZE then [] else [data[BLOCK_DATA_SIZE..]]
  {
    var rest := data[BLOCK_DATA_SIZE..];
    assert [] + data[..BLOCK_DATA_SIZE] == data[..BLOCK_DATA_SIZE];
    assert rest[..|rest|] == rest;
    NoChunks(rest[|rest|..], BLOCK_DATA_SIZE);
  }

  method InsertBeforeLast(data: seq<byte>, b: byte) returns (bytes: seq<byte>)
    requires |data| == BLOCK_DATA_SIZE
    ensures bytes == data + [b]
    ensures bytes == Edit(data, BLOCK_DATA_SIZE - 1, BLOCK_DATA_SIZE - 1, [b]) <==> b == data[BLOCK_DATA_SIZE - 1]
  {
    hide Sound, Dense, Flatten, Appended;
    var buffer := new DataBuffer();
    buffer.Append(data);
    NewlyAppended(data);
    assert data[..BLOCK_DATA_SIZE] == data && [data] + [] == [data];
    buffer.Insert([b], BLOCK_DATA_SIZE - 1);
    InsertGoesWrong(data, b);
    bytes := Snapshot(buffer);
    BeforeOrBehind(data, b);
  }

  lemma BeforeOrBehind(data: seq<byte>, b: byte)
    requires data != []
    ensures data + [b] == Edit(data, |data| - 1, |data| - 1, [b]) <==> b == data[|data| - 1]
  {
    var n := |data| - 1;
    var e := Edit(data, n, n, [b]);
    assert e[n] == b && e[n + 1] == data[n] && (data + [b])[n] == data[n];
    assert e[..n] == data[..n];
    assert e == e[..n] + [e[n]] + [e[n + 1]];
    assert data + [b] == data[..n] + [data[n]] + [b];
  }

  /** Two blocks half full make Compress run off the end. */
  lemma HalvesRunOff(segs: seq<seq<byte>>)
    requires |segs| == 2 && |segs[0]| == |segs[1]| == BLOCK_DATA_SIZE / 2
    ensures RunsOff(segs)
  {
    assert segs == [segs[0]] + [segs[1]];
    FlattenAppended([segs[0]], segs[1]);
    FlattenOne(segs[0]);
  }

  /** The first half of a full block is removed. */
  lemma HalfRemoved(segs: seq<seq<byte>>, i: nat, index: nat)
    requires i < |segs| && |segs[i]| == BLOCK_DATA_SIZE && index == StartOf(segs, i)
    ensures var half := BLOCK_DATA_SIZE / 2;
      InsidePiece(segs, index, half) && CutInside(segs, index, half) == segs[i := segs[i][half..]]
  {
    hide StartOf, Locate;
    LocateFound(segs, index, i);
    assert segs[i][..0] == [] && [] + [] + segs[i][BLOCK_DATA_SIZE / 2..] == segs[i][BLOCK_DATA_SIZE / 2..];
  }

  /** Two blocks appended and the first half of each removed: Compress follows a null pointer. */
  method CompressHalves(data: seq<byte>) returns (safe: bool)
    requires |data| == 2 * BLOCK_DATA_SIZE
    ensures !safe
  {
    hide Sound, Dense, Flatten, Appended, RunsOff, InsidePiece, CutInside, Cut, StartOf;
    var half := BLOCK_DATA_SIZE / 2;
    var buffer := new DataBuffer();
    buffer.Append(data);
    NewlyAppended(data);
    StartOfFirst(buffer.segs);
    HalfRemoved(buffer.segs, 0, 0);
    buffer.Remove(0, half);
    StartOfFirst(buffer.segs);
    HalfRemoved(buffer.segs, 1, half);
    buffer.Remove(half, half);
    HalvesRunOff(buffer.segs);
    safe := buffer.Compress();
  }

  lemma StartOfFirst(segs: seq<seq<byte>>)
    requires segs != []
    ensures StartOf(segs, 0) == 0 && StartOf(segs, 1) == |segs[0]|
  {
    FlattenNone(segs[..0]);
    StartOfNext(segs, 0);
  }

  /** A removal across a full block and one of a single byte. */
  method RemoveAcrossBlocks(data: seq<byte>) returns (buffer: DataBuffer)
    requires |data| == BLOCK_DATA_SIZE + 1
    ensures !(buffer.Valid() && buffer.Contents() == Cut(data, BLOCK_DATA_SIZE - 1, 2))
  {
    hide Sound, Dense, Flatten, Appended, Cut, StartOf, Locate;
    buffer := new DataBuffer();
    buffer.Append(data);
    NewlyAppended(data);
    StartOfFirst(buffer.segs);
    LocateFound(buffer.segs, BLOCK_DATA_SIZE - 1, 0);
    assert buffer.Contents() == [] + data == data;
    buffer.RemoveAsWritten(BLOCK_DATA_SIZE - 1, 2);
  }
}
