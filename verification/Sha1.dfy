/** The SHA1 class: incremental hashing with a 64-byte buffer. */
module Sha1Code {
  import opened Bytes
  import opened Sha1Spec

  const BLOCK_SIZE: nat := 64

  // ---- the functions as the class writes them

  function F1(b: Word, c: Word, d: Word): Word {
    d ^ (b & (c ^ d))
  }

  function F2(b: Word, c: Word, d: Word): Word {
    b ^ c ^ d
  }

  function F3(b: Word, c: Word, d: Word): Word {
    (b & c) | (b & d) | (c & d)
  }

  function Swap(x: Word): Word {
    (x >> 24) | ((x >> 8) & 0x0000FF00) | ((x << 8) & 0x00FF0000) | (x << 24)
  }

  /** How a little-endian machine reads four bytes. */
  function LittleEndian32(b0: byte, b1: byte, b2: byte, b3: byte): Word {
    (b0 as Word) | ((b1 as Word) << 8) | ((b2 as Word) << 16) | ((b3 as Word) << 24)
  }

  /** The right-hand side and the addition of one `+=` line of a round. */
  function Plus(x: Word, a: Word, f: Word, w: Word, k: Word): Word {
    x + (Rotl(a, 5) + f + w + k)
  }

  lemma SwapIsBigEndian(b0: byte, b1: byte, b2: byte, b3: byte)
    ensures Swap(LittleEndian32(b0, b1, b2, b3)) == BigEndian32(b0, b1, b2, b3)
  {
  }

  lemma F1Bits(b: Word, c: Word, d: Word)
    ensures d ^ (b & (c ^ d)) == (b & c) ^ (!b & d)
  {
  }

  lemma F1IsCh(b: Word, c: Word, d: Word)
    ensures F1(b, c, d) == Ch(b, c, d)
  {
    F1Bits(b, c, d);
  }

  lemma F3Bits(b: Word, c: Word, d: Word)
    ensures (b & c) | (b & d) | (c & d) == (b & c) ^ (b & d) ^ (c & d)
  {
  }

  lemma F3IsMaj(b: Word, c: Word, d: Word)
    ensures F3(b, c, d) == Maj(b, c, d)
  {
    F3Bits(b, c, d);
  }

  function CodeF(t: nat, b: Word, c: Word, d: Word): Word {
    if t < 20 then F1(b, c, d) else if t < 40 then F2(b, c, d) else if t < 60 then F3(b, c, d) else F2(b, c, d)
  }

  lemma CodeFIsF(t: nat, b: Word, c: Word, d: Word)
    ensures CodeF(t, b, c, d) == F(t, b, c, d)
  {
    hide F1, F3, Ch, Maj;
    F1IsCh(b, c, d);
    F3IsMaj(b, c, d);
  }

  lemma SumBits(r: Word, f: Word, e: Word, k: Word, w: Word)
    ensures e + (r + f + w + k) == r + f + e + k + w
  {
  }

  lemma PlusOrder(x: Word, a: Word, f: Word, w: Word, k: Word)
    ensures Plus(x, a, f, w, k) == Temp(a, f, x, k, w)
  {
    hide Rotl;
    SumBits(Rotl(a, 5), f, x, k, w);
  }

  /** One line of the unrolled code is one round, in its own order of addition. */
  lemma LineIsRound(v: Vars, t: nat, w: Word)
    ensures Round(v, t, w) == Vars(Plus(v.e, v.a, CodeF(t, v.b, v.c, v.d), w, K(t)), v.a, Rotl(v.b, 30), v.c, v.d)
  {
    hide F, CodeF, Rotl, Plus, Temp, K;
    CodeFIsF(t, v.b, v.c, v.d);
    PlusOrder(v.e, v.a, F(t, v.b, v.c, v.d), w, K(t));
  }

  /** The state after five lines from round `t` on. */
  function FiveLines(v: Vars, t: nat, block: seq<byte>): Vars
    requires |block| == 64
  {
    var e1, b1 := Plus(v.e, v.a, CodeF(t, v.b, v.c, v.d), W(block, t), K(t)), Rotl(v.b, 30);
    var d1, a1 := Plus(v.d, e1, CodeF(t, v.a, b1, v.c), W(block, t + 1), K(t)), Rotl(v.a, 30);
    var c1, e2 := Plus(v.c, d1, CodeF(t, e1, a1, b1), W(block, t + 2), K(t)), Rotl(e1, 30);
    var b2, d2 := Plus(b1, c1, CodeF(t, d1, e2, a1), W(block, t + 3), K(t)), Rotl(d1, 30);
    var a2, c2 := Plus(a1, b2, CodeF(t, c1, d2, e2), W(block, t + 4), K(t)), Rotl(c1, 30);
    Vars(a2, b2, c2, d2, e2)
  }

  lemma Lines(v: Vars, t: nat, h: Vars, block: seq<byte>)
    requires |block| == 64 && v == Rounds(h, block, t) && t % 5 == 0
    ensures FiveLines(v, t, block) == Rounds(h, block, t + 5)
  {
    hide F1, F2, F3, Ch, Maj, Rotl, Plus, W, F, Round;
    var v1 := Rounds(h, block, t + 1);
    LineIsRound(v, t, W(block, t));
    var v2 := Rounds(h, block, t + 2);
    LineIsRound(v1, t + 1, W(block, t + 1));
    var v3 := Rounds(h, block, t + 3);
    LineIsRound(v2, t + 2, W(block, t + 2));
    var v4 := Rounds(h, block, t + 4);
    LineIsRound(v3, t + 3, W(block, t + 3));
    LineIsRound(v4, t + 4, W(block, t + 4));
    assert Rounds(h, block, t + 5) == Round(v4, t + 4, W(block, t + 4));
  }

  method FirstRounds(words: array<Word>, v: Vars, ghost block: seq<byte>, ghost h: Vars) returns (r: Vars)
    requires words.Length == 80 && |block| == 64 && forall t :: 0 <= t < 80 ==> words[t] == W(block, t)
    requires v == Rounds(h, block, 0)
    ensures r == Rounds(h, block, 20)
  {
    hide F1, Rotl, Plus, W, Round, Rounds;
    var a, b, c, d, e := v.a, v.b, v.c, v.d, v.e;
    for i := 0 to 4
      invariant Vars(a, b, c, d, e) == Rounds(h, block, 5 * i)
    {
      var offset := 5 * i;
      Lines(Vars(a, b, c, d, e), offset, h, block);
      e := Plus(e, a, F1(b, c, d), words[offset], 0x5a827999); b := Rotl(b, 30);
      d := Plus(d, e, F1(a, b, c), words[offset + 1], 0x5a827999); a := Rotl(a, 30);
      c := Plus(c, d, F1(e, a, b), words[offset + 2], 0x5a827999); e := Rotl(e, 30);
      b := Plus(b, c, F1(d, e, a), words[offset + 3], 0x5a827999); d := Rotl(d, 30);
      a := Plus(a, b, F1(c, d, e), words[offset + 4], 0x5a827999); c := Rotl(c, 30);
    }
    r := Vars(a, b, c, d, e);
  }

  method SecondRounds(words: array<Word>, v: Vars, ghost block: seq<byte>, ghost h: Vars) returns (r: Vars)
    requires words.Length == 80 && |block| == 64 && forall t :: 0 <= t < 80 ==> words[t] == W(block, t)
    requires v == Rounds(h, block, 20)
    ensures r == Rounds(h, block, 40)
  {
    hide F2, Rotl, Plus, W, Round, Rounds;
    var a, b, c, d, e := v.a, v.b, v.c, v.d, v.e;
    for i := 4 to 8
      invariant Vars(a, b, c, d, e) == Rounds(h, block, 5 * i)
    {
      var offset := 5 * i;
      Lines(Vars(a, b, c, d, e), offset, h, block);
      e := Plus(e, a, F2(b, c, d), words[offset], 0x6ed9eba1); b := Rotl(b, 30);
      d := Plus(d, e, F2(a, b, c), words[offset + 1], 0x6ed9eba1); a := Rotl(a, 30);
      c := Plus(c, d, F2(e, a, b), words[offset + 2], 0x6ed9eba1); e := Rotl(e, 30);
      b := Plus(b, c, F2(d, e, a), words[offset + 3], 0x6ed9eba1); d := Rotl(d, 30);
      a := Plus(a, b, F2(c, d, e), words[offset + 4], 0x6ed9eba1); c := Rotl(c, 30);
    }
    r := Vars(a, b, c, d, e);
  }

  method ThirdRounds(words: array<Word>, v: Vars, ghost block: seq<byte>, ghost h: Vars) returns (r: Vars)
    requires words.Length == 80 && |block| == 64 && forall t :: 0 <= t < 80 ==> words[t] == W(block, t)
    requires v == Rounds(h, block, 40)
    ensures r == Rounds(h, block, 60)
  {
    hide F3, Rotl, Plus, W, Round, Rounds;
    var a, b, c, d, e := v.a, v.b, v.c, v.d, v.e;
    for i := 8 to 12
      invariant Vars(a, b, c, d, e) == Rounds(h, block, 5 * i)
    {
      var offset := 5 * i;
      Lines(Vars(a, b, c, d, e), offset, h, block);
      e := Plus(e, a, F3(b, c, d), words[offset], 0x8f1bbcdc); b := Rotl(b, 30);
      d := Plus(d, e, F3(a, b, c), words[offset + 1], 0x8f1bbcdc); a := Rotl(a, 30);
      c := Plus(c, d, F3(e, a, b), words[offset + 2], 0x8f1bbcdc); e := Rotl(e, 30);
      b := Plus(b, c, F3(d, e, a), words[offset + 3], 0x8f1bbcdc); d := Rotl(d, 30);
      a := Plus(a, b, F3(c, d, e), words[offset + 4], 0x8f1bbcdc); c := Rotl(c, 30);
    }
    r := Vars(a, b, c, d, e);
  }

  method FourthRounds(words: array<Word>, v: Vars, ghost block: seq<byte>, ghost h: Vars) returns (r: Vars)
    requires words.Length == 80 && |block| == 64 && forall t :: 0 <= t < 80 ==> words[t] == W(block, t)
    requires v == Rounds(h, block, 60)
    ensures r == Rounds(h, block, 80)
  {
    hide F2, Rotl, Plus, W, Round, Rounds;
    var a, b, c, d, e := v.a, v.b, v.c, v.d, v.e;
    for i := 12 to 16
      invariant Vars(a, b, c, d, e) == Rounds(h, block, 5 * i)
    {
      var offset := 5 * i;
      Lines(Vars(a, b, c, d, e), offset, h, block);
      e := Plus(e, a, F2(b, c, d), words[offset], 0xca62c1d6); b := Rotl(b, 30);
      d := Plus(d, e, F2(a, b, c), words[offset + 1], 0xca62c1d6); a := Rotl(a, 30);
      c := Plus(c, d, F2(e, a, b), words[offset + 2], 0xca62c1d6); e := Rotl(e, 30);
      b := Plus(b, c, F2(d, e, a), words[offset + 3], 0xca62c1d6); d := Rotl(d, 30);
      a := Plus(a, b, F2(c, d, e), words[offset + 4], 0xca62c1d6); c := Rotl(c, 30);
    }
    r := Vars(a, b, c, d, e);
  }

  /** A 64-byte block read as sixteen words and extended to eighty. */
  method ScheduleWords(data: seq<byte>) returns (words: array<Word>)
    requires |data| == 64
    ensures fresh(words) && words.Length == 80 && forall t :: 0 <= t < 80 ==> words[t] == W(data, t)
  {
    hide Rotl, Swap, LittleEndian32, BigEndian32;
    words := new Word[80];
    for i := 0 to 16
      invariant forall t :: 0 <= t < i ==> words[t] == W(data, t)
    {
      SwapIsBigEndian(data[4 * i], data[4 * i + 1], data[4 * i + 2], data[4 * i + 3]);
      words[i] := Swap(LittleEndian32(data[4 * i], data[4 * i + 1], data[4 * i + 2], data[4 * i + 3]));
    }
    ExtendWords(words, data);
  }

  function Expanded(a: Word, b: Word, c: Word, d: Word): Word {
    Rotl(a ^ b ^ c ^ d, 1)
  }

  method ExtendWords(words: array<Word>, ghost data: seq<byte>)
    requires |data| == 64 && words.Length == 80 && forall t :: 0 <= t < 16 ==> words[t] == W(data, t)
    modifies words
    ensures forall t :: 0 <= t < 80 ==> words[t] == W(data, t)
  {
    hide Expanded, BigEndian32, W;
    for i := 16 to 80
      invariant forall t :: 0 <= t < i ==> words[t] == W(data, t)
    {
      NextWord(data, i);
      words[i] := Expanded(words[i - 3], words[i - 8], words[i - 14], words[i - 16]);
    }
  }

  lemma NextWord(data: seq<byte>, i: nat)
    requires |data| == 64 && i >= 16
    ensures W(data, i) == Expanded(W(data, i - 3), W(data, i - 8), W(data, i - 14), W(data, i - 16))
  {
    hide Rotl;
  }

  // ---- the object

  /** What the object has after absorbing `done`: whole blocks hashed, the rest in the buffer. */
  ghost predicate Absorbed(done: seq<byte>, h: Vars, kept: seq<byte>, numBytes: nat) {
    && |kept| <= |done| && (|done| - |kept|) % 64 == 0
    && kept == done[|done| - |kept|..]
    && h == HashBlocks(done[..|done| - |kept|])
    && numBytes == Wrap64(|done| - |kept|)
  }

  /** Arithmetic of uint64_t. */
  function Wrap64(n: nat): nat {
    n % 0x1_0000_0000_0000_0000
  }

  lemma WrapAdd(x: nat, y: nat)
    ensures Wrap64(Wrap64(x) + y) == Wrap64(x + y)
  {
    var m := 0x1_0000_0000_0000_0000;
    var z := x % m + y;
    SameRest(x + y, x / m + z / m, z % m);
  }

  lemma SameRest(x: int, q: int, r: nat)
    requires x == 0x1_0000_0000_0000_0000 * q + r && r < 0x1_0000_0000_0000_0000
    ensures x % 0x1_0000_0000_0000_0000 == r
  {
  }

  lemma AbsorbNothing()
    ensures Absorbed([], INITIAL, [], 0)
  {
  }

  lemma AbsorbByte(done: seq<byte>, h: Vars, kept: seq<byte>, numBytes: nat, b: byte)
    requires Absorbed(done, h, kept, numBytes)
    ensures Absorbed(done + [b], h, kept + [b], numBytes)
  {
    hide HashBlocks;
    assert (done + [b])[..|done| - |kept|] == done[..|done| - |kept|];
  }

  lemma AbsorbBlock(done: seq<byte>, h: Vars, kept: seq<byte>, numBytes: nat)
    requires Absorbed(done, h, kept, numBytes) && |kept| == 64
    ensures Absorbed(done, Compress(h, kept), [], Wrap64(numBytes + 64))
  {
    hide Compress, Wrap64;
    WrapAdd(|done| - 64, 64);
    assert done[..|done| - 0] == done;
    assert HashBlocks(done) == Compress(HashBlocks(done[..|done| - 64]), done[|done| - 64..]);
  }

  lemma AbsorbWhole(done: seq<byte>, h: Vars, numBytes: nat, block: seq<byte>)
    requires Absorbed(done, h, [], numBytes) && |block| == 64
    ensures Absorbed(done + block, Compress(h, block), [], Wrap64(numBytes + 64))
  {
    hide Compress, Wrap64;
    var all := done + block;
    WrapAdd(|done|, 64);
    assert all[..|all| - 64] == done[..|done| - 0] && all[|all| - 64..] == block && all[..|all| - 0] == all;
    assert HashBlocks(all) == Compress(HashBlocks(all[..|all| - 64]), all[|all| - 64..]);
  }

  /** The length up to the length field, counted in bits and then in bytes. */
  method PaddedLength(bufferSize: nat) returns (paddedLength: nat)
    requires bufferSize < BLOCK_SIZE
    ensures paddedLength == if bufferSize <= 55 then 56 else 120
  {
    paddedLength := bufferSize * 8;
    paddedLength := paddedLength + 1;
    var lower11Bits := paddedLength % 512;
    if lower11Bits <= 448 {
      paddedLength := paddedLength + (448 - lower11Bits);
    } else {
      paddedLength := paddedLength + (512 + 448 - lower11Bits);
    }
    paddedLength := paddedLength / 8;
  }

  class SHA1 {
    var numBytes: nat
    var bufferSize: nat
    const buffer: array<byte>
    const hash: array<Word>
    ghost var message: seq<byte>  // all that has been passed to Update

    ghost predicate Valid()
      reads this, buffer, hash
    {
      && buffer.Length == BLOCK_SIZE && hash.Length == 5
      && bufferSize < BLOCK_SIZE
      && Absorbed(message, VarsOf(hash[..]), buffer[..bufferSize], numBytes)
    }

    constructor ()
      ensures Valid() && message == [] && fresh(buffer) && fresh(hash)
    {
      buffer := new byte[BLOCK_SIZE](_ => 0);
      hash := new Word[5](_ => 0);
      numBytes, bufferSize, message := 0, 0, [];
      new;
      Reset();
    }

    method Reset()
      requires buffer.Length == BLOCK_SIZE && hash.Length == 5
      modifies this, hash
      ensures Valid() && message == []
    {
      numBytes, bufferSize, message := 0, 0, [];
      hash[0], hash[1], hash[2], hash[3], hash[4] := 0x67452301, 0xefcdab89, 0x98badcfe, 0x10325476, 0xc3d2e1f0;
      AbsorbNothing();
    }

    method ProcessBlock(data: seq<byte>)
      requires hash.Length == 5 && |data| == 64
      modifies hash
      ensures VarsOf(hash[..]) == Compress(VarsOf(old(hash[..])), data)
    {
      hide W, Rounds, Add;
      var words := ScheduleWords(data);
      ghost var h := VarsOf(hash[..]);
      var v := Vars(hash[0], hash[1], hash[2], hash[3], hash[4]);
      NoRounds(h, data);
      v := FirstRounds(words, v, data, h);
      v := SecondRounds(words, v, data, h);
      v := ThirdRounds(words, v, data, h);
      v := FourthRounds(words, v, data, h);
      hash[0] := Add(hash[0], v.a);
      hash[1] := Add(hash[1], v.b);
      hash[2] := Add(hash[2], v.c);
      hash[3] := Add(hash[3], v.d);
      hash[4] := Add(hash[4], v.e);
    }

    /** One byte into the buffer. */
    method Keep(b: byte, ghost done: seq<byte>)
      requires buffer.Length == BLOCK_SIZE && hash.Length == 5 && bufferSize < BLOCK_SIZE
      requires Absorbed(done, VarsOf(hash[..]), buffer[..bufferSize], numBytes)
      modifies `bufferSize, buffer
      ensures bufferSize == old(bufferSize) + 1
      ensures Absorbed(done + [b], VarsOf(hash[..]), buffer[..bufferSize], numBytes)
    {
      hide Absorbed;
      AbsorbByte(done, VarsOf(hash[..]), buffer[..bufferSize], numBytes, b);
      buffer[bufferSize] := b;
      bufferSize := bufferSize + 1;
      assert buffer[..bufferSize] == old(buffer[..bufferSize]) + [b];
    }

    method Update(data: seq<byte>)
      requires Valid()
      modifies this, buffer, hash
      ensures Valid() && message == old(message) + data
    {
      hide Absorbed, Compress, VarsOf, Wrap64;
      var current := 0;
      if bufferSize > 0 {
        assert message + data[..0] == message;
        while current < |data| && bufferSize < BLOCK_SIZE
          invariant current <= |data| && 0 < bufferSize <= BLOCK_SIZE && message == old(message)
          invariant Absorbed(message + data[..current], VarsOf(hash[..]), buffer[..bufferSize], numBytes)
        {
          Keep(data[current], message + data[..current]);
          assert message + data[..current] + [data[current]] == message + data[..current + 1];
          current := current + 1;
        }
      }
      assert message + data[..0] == message;
      if bufferSize == BLOCK_SIZE {
        AbsorbBlock(message + data[..current], VarsOf(hash[..]), buffer[..bufferSize], numBytes);
        ProcessBlock(buffer[..]);
        assert buffer[..] == buffer[..BLOCK_SIZE];
        numBytes := Wrap64(numBytes + BLOCK_SIZE);
        bufferSize := 0;
      }
      if current == |data| {
        assert data[..current] == data;
        message := message + data;
        return;
      }
      while |data| - current >= BLOCK_SIZE
        invariant current <= |data| && bufferSize == 0 && message == old(message)
        invariant Absorbed(message + data[..current], VarsOf(hash[..]), [], numBytes)
      {
        AbsorbWhole(message + data[..current], VarsOf(hash[..]), numBytes, data[current..current + BLOCK_SIZE]);
        assert message + data[..current] + data[current..current + BLOCK_SIZE]
            == message + data[..current + BLOCK_SIZE];
        ProcessBlock(data[current..current + BLOCK_SIZE]);
        current := current + BLOCK_SIZE;
        numBytes := Wrap64(numBytes + BLOCK_SIZE);
      }
      while current < |data|
        invariant current <= |data| && bufferSize + (|data| - current) < BLOCK_SIZE && message == old(message)
        invariant Absorbed(message + data[..current], VarsOf(hash[..]), buffer[..bufferSize], numBytes)
      {
        Keep(data[current], message + data[..current]);
        assert message + data[..current] + [data[current]] == message + data[..current + 1];
        current := current + 1;
      }
      assert data[..current] == data;
      message := message + data;
    }

    /** Lays the padding out in the buffer and, if it does not fit there, in an extra block. */
    method LayPadding() returns (extra: array<byte>, paddedLength: nat)
      requires buffer.Length == BLOCK_SIZE && bufferSize < BLOCK_SIZE
      modifies buffer
      ensures fresh(extra) && extra.Length == BLOCK_SIZE && paddedLength == if bufferSize <= 55 then 56 else 120
      ensures buffer[..] + (if paddedLength < BLOCK_SIZE then [] else extra[..])
           == old(buffer[..bufferSize]) + [128] + Repeat(0, paddedLength - bufferSize - 1)
              + MessageBits(numBytes, bufferSize)
    {
      hide BigEndian64, Repeat, MessageBits;
      ghost var kept := buffer[..bufferSize];
      paddedLength := PaddedLength(bufferSize);
      extra := new byte[BLOCK_SIZE](_ => 0);
      buffer[bufferSize] := 128;  // the buffer is never full here
      ZeroRange(buffer, bufferSize + 1, BLOCK_SIZE);
      assert buffer[..] == kept + [128] + Repeat(0, BLOCK_SIZE - bufferSize - 1);
      if paddedLength > BLOCK_SIZE {
        ZeroRange(extra, 0, paddedLength - BLOCK_SIZE);
      }
      var length := MessageBits(numBytes, bufferSize);
      if paddedLength < BLOCK_SIZE {
        assert buffer[..56] == kept + [128] + Repeat(0, 55 - bufferSize);
        StoreLength(buffer, length);
      } else {
        StoreLength(extra, length);
        assert Repeat(0, BLOCK_SIZE - bufferSize - 1) + Repeat(0, 56) == Repeat(0, 119 - bufferSize);
      }
    }

    /** Pads what is left and processes the last one or two blocks. */
    method ProcessBuffer()
      requires Valid()
      modifies buffer, hash
      ensures 8 * |message| < 0x1_0000_0000_0000_0000 ==>
        |Pad(message)| % 64 == 0 && VarsOf(hash[..]) == HashBlocks(Pad(message))
    {
      hide Compress, HashBlocks, Pad, Absorbed;
      ghost var h, kept := VarsOf(hash[..]), buffer[..bufferSize];
      var extra, paddedLength := LayPadding();
      ghost var tail := buffer[..] + if paddedLength < BLOCK_SIZE then [] else extra[..];
      if 8 * |message| < 0x1_0000_0000_0000_0000 {
        PaddedTail(message, h, kept, numBytes);
        assert tail == Laid(kept, numBytes);
      }
      ProcessBlock(buffer[..]);
      if paddedLength > BLOCK_SIZE {
        assert tail[..64] == buffer[..] && tail[64..] == extra[..];
        ProcessBlock(extra[..]);
      } else {
        assert tail == buffer[..];
      }
    }

    method Final() returns (digest: seq<byte>)
      requires Valid()
      modifies this, buffer, hash
      ensures 8 * |old(message)| < 0x1_0000_0000_0000_0000 ==> digest == Sha1(old(message))
      ensures 8 * |old(message)| < 0x1_0000_0000_0000_0000 ==>
        |Pad(old(message))| % 64 == 0 && ReadsAs(digest, HashBlocks(Pad(old(message))))
      ensures Valid() && message == []
    {
      hide Compress, HashBlocks, Pad, Absorbed, WordBytes, Digest, ReadsAs;
      ProcessBuffer();
      digest := [];
      ghost var h := VarsOf(hash[..]);
      ghost var words := hash[..];
      for i := 0 to 5
        invariant hash[..] == words
        invariant digest == FirstBytes(words, i)
      {
        digest := digest + WordBytes(hash[i]);
      }
      FiveWords(words);
      DigestOrder(h);
      Reset();
    }

    method ZeroRange(a: array<byte>, lo: nat, hi: nat)
      requires lo <= hi <= a.Length
      modifies a
      ensures a[..] == old(a[..lo]) + Repeat(0, hi - lo) + old(a[hi..])
    {
      var i := lo;
      while i < hi
        invariant lo <= i <= hi
        invariant a[..lo] == old(a[..lo]) && a[hi..] == old(a[hi..])
        invariant forall j :: lo <= j < i ==> a[j] == 0
      {
        a[i] := 0;
        i := i + 1;
      }
      assert a[..] == a[..lo] + a[lo..hi] + a[hi..];
      assert a[lo..hi] == Repeat(0, hi - lo);
    }

    method StoreLength(a: array<byte>, length: seq<byte>)
      requires a.Length == BLOCK_SIZE && |length| == 8
      modifies a
      ensures a[..] == old(a[..56]) + length
    {
      forall j | 0 <= j < 8 {
        a[56 + j] := length[j];
      }
    }
  }

  /** Whatever way a message is cut into Update calls, Final gives its SHA-1; and the object can be used again. */
  method HashChunks(chunks: seq<seq<byte>>) returns (digest: seq<byte>)
    ensures 8 * |Flatten(chunks)| < 0x1_0000_0000_0000_0000 ==> digest == Sha1(Flatten(chunks))
  {
    hide Absorbed, Sha1;
    var sha := new SHA1();
    var i := 0;
    while i < |chunks|
      invariant i <= |chunks| && sha.Valid() && fresh(sha) && fresh(sha.buffer) && fresh(sha.hash)
      invariant sha.message == Flatten(chunks[..i])
    {
      sha.Update(chunks[i]);
      assert chunks[..i + 1] == chunks[..i] + [chunks[i]];
      FlattenAppended(chunks[..i], chunks[i]);
      i := i + 1;
    }
    assert chunks[..i] == chunks;
    digest := sha.Final();
  }

  /** The message length in bits, as the class computes it, in eight bytes. */
  function MessageBits(numBytes: nat, bufferSize: nat): (r: seq<byte>)
    ensures |r| == 8
  {
    BigEndian64(Wrap64(8 * (numBytes + bufferSize)))
  }

  ghost function FirstBytes(words: seq<Word>, n: nat): seq<byte>
    requires n <= |words|
  {
    if n == 0 then [] else FirstBytes(words, n - 1) + WordBytes(words[n - 1])
  }

  lemma FiveWords(words: seq<Word>)
    requires |words| == 5
    ensures FirstBytes(words, 5) == Digest(VarsOf(words))
  {
    hide WordBytes;
    assert FirstBytes(words, 1) == FirstBytes(words, 0) + WordBytes(words[0]) == WordBytes(words[0]);
    assert FirstBytes(words, 2) == WordBytes(words[0]) + WordBytes(words[1]);
    assert FirstBytes(words, 3) == FirstBytes(words, 2) + WordBytes(words[2]);
    assert FirstBytes(words, 4) == FirstBytes(words, 2) + WordBytes(words[2]) + WordBytes(words[3]);
  }

  /** What the hand-laid blocks hold: the bytes kept, a 1 bit, zeros and the length. */
  function Laid(kept: seq<byte>, numBytes: nat): (r: seq<byte>)
    requires |kept| < BLOCK_SIZE
    ensures |r| == if |kept| <= 55 then 64 else 128
  {
    kept + [128] + Repeat(0, (if |kept| <= 55 then 55 else 119) - |kept|) + MessageBits(numBytes, |kept|)
  }

  /** They are all that HashBlocks of the padded message still has to do. */
  lemma PaddedTail(message: seq<byte>, h: Vars, kept: seq<byte>, numBytes: nat)
    requires 8 * |message| < 0x1_0000_0000_0000_0000 && |kept| < BLOCK_SIZE && Absorbed(message, h, kept, numBytes)
    ensures |Pad(message)| % 64 == 0
    ensures var tail := Laid(kept, numBytes);
      && (|tail| == 64 ==> HashBlocks(Pad(message)) == Compress(h, tail))
      && (|tail| == 128 ==> HashBlocks(Pad(message)) == Compress(Compress(h, tail[..64]), tail[64..]))
  {
    hide Compress, HashBlocks, BigEndian64, ZeroBits, Repeat, Wrap64;
    var front, tail := message[..|message| - |kept|], Laid(kept, numBytes);
    LengthField(|message|, |kept|, numBytes);
    ZeroCount(|message|, |kept|);
    assert Pad(message) == front + tail;
    TailBlocks(front, tail);
  }

  lemma LengthField(length: nat, kept: nat, numBytes: nat)
    requires kept <= length && numBytes == Wrap64(length - kept) && 8 * length < 0x1_0000_0000_0000_0000
    ensures Wrap64(8 * (numBytes + kept)) == 8 * length
  {
  }

  lemma ZeroCount(length: nat, kept: nat)
    requires kept <= length && kept < 64 && (length - kept) % 64 == 0
    ensures ZeroBits(8 * length) / 8 == (if kept <= 55 then 55 else 119) - kept
  {
    var m := (length - kept) / 64;
    if kept <= 55 {
      Remainder(447 - 8 * length, -m, 447 - 8 * kept);
    } else {
      Remainder(447 - 8 * length, -m - 1, 959 - 8 * kept);
    }
  }

  lemma Remainder(x: int, q: int, r: nat)
    requires x == 512 * q + r && r < 512
    ensures x % 512 == r
  {
  }

  lemma TailBlocks(front: seq<byte>, tail: seq<byte>)
    requires |front| % 64 == 0 && (|tail| == 64 || |tail| == 128)
    ensures |tail| == 64 ==> HashBlocks(front + tail) == Compress(HashBlocks(front), tail)
    ensures |tail| == 128 ==>
      HashBlocks(front + tail) == Compress(Compress(HashBlocks(front), tail[..64]), tail[64..])
  {
    hide Compress;
    var all := front + tail;
    if |tail| == 64 {
      assert all[..|all| - 64] == front && all[|all| - 64..] == tail;
    } else {
      assert all[..|all| - 64] == front + tail[..64] && all[|all| - 64..] == tail[64..];
      TailBlocks(front, tail[..64]);
    }
  }

  ghost function VarsOf(hash: seq<Word>): Vars
    requires |hash| == 5
  {
    Vars(hash[0], hash[1], hash[2], hash[3], hash[4])
  }

  lemma NoRounds(h: Vars, block: seq<byte>)
    requires |block| == 64
    ensures Rounds(h, block, 0) == h
  {
  }
}
