/** SHA-1 as FIPS 180-4 defines it, on byte strings. */
module Sha1Spec {
  import opened Bytes

  type Word = bv32

  // ---- section 4.1.1 and 4.2.1

  function Rotl(x: Word, n: Word): Word
    requires 0 < n < 32
  {
    (x << n) | (x >> (32 - n))
  }

  function Ch(x: Word, y: Word, z: Word): Word {
    (x & y) ^ (!x & z)
  }

  function Parity(x: Word, y: Word, z: Word): Word {
    x ^ y ^ z
  }

  function Maj(x: Word, y: Word, z: Word): Word {
    (x & y) ^ (x & z) ^ (y & z)
  }

  function F(t: nat, x: Word, y: Word, z: Word): Word {
    if t < 20 then Ch(x, y, z)
    else if t < 40 then Parity(x, y, z)
    else if t < 60 then Maj(x, y, z)
    else Parity(x, y, z)
  }

  function K(t: nat): Word {
    if t < 20 then 0x5a827999
    else if t < 40 then 0x6ed9eba1
    else if t < 60 then 0x8f1bbcdc
    else 0xca62c1d6
  }

  // ---- section 5.1.1: a 1 bit, then the least number of 0 bits that leaves room for 64 more

  predicate FillsUp(bits: nat, k: nat) {
    (bits + 1 + k) % 512 == 448
  }

  function ZeroBits(bits: nat): nat {
    (447 - bits) % 512
  }

  /** `n` as eight bytes, most significant first. */
  function BigEndian64(n: nat): (r: seq<byte>)
    requires n < 0x1_0000_0000_0000_0000
    ensures |r| == 8
  {
    [ AsByte(n / 0x100_0000_0000_0000 % 256), AsByte(n / 0x1_0000_0000_0000 % 256),
      AsByte(n / 0x100_0000_0000 % 256), AsByte(n / 0x1_0000_0000 % 256),
      AsByte(n / 0x100_0000 % 256), AsByte(n / 0x1_0000 % 256), AsByte(n / 0x100 % 256), AsByte(n % 256) ]
  }

  /** Read back with their weights, they are `n`. */
  lemma BigEndian64Value(n: nat)
    requires n < 0x1_0000_0000_0000_0000
    ensures var r := BigEndian64(n);
      n == r[0] as nat * 0x100_0000_0000_0000 + r[1] as nat * 0x1_0000_0000_0000 + r[2] as nat * 0x100_0000_0000
           + r[3] as nat * 0x1_0000_0000 + r[4] as nat * 0x100_0000 + r[5] as nat * 0x1_0000 + r[6] as nat * 0x100
           + r[7] as nat
  {
    hide AsByte;
    ByteValue(n / 0x100_0000_0000_0000 % 256);
    ByteValue(n / 0x1_0000_0000_0000 % 256);
    ByteValue(n / 0x100_0000_0000 % 256);
    ByteValue(n / 0x1_0000_0000 % 256);
    ByteValue(n / 0x100_0000 % 256);
    ByteValue(n / 0x1_0000 % 256);
    ByteValue(n / 0x100 % 256);
    ByteValue(n % 256);
    EightDigits(n);
  }

  lemma EightDigits(n: nat)
    requires n < 0x1_0000_0000_0000_0000
    ensures n == n / 0x100_0000_0000_0000 % 256 * 0x100_0000_0000_0000
                 + n / 0x1_0000_0000_0000 % 256 * 0x1_0000_0000_0000
                 + n / 0x100_0000_0000 % 256 * 0x100_0000_0000 + n / 0x1_0000_0000 % 256 * 0x1_0000_0000
                 + n / 0x100_0000 % 256 * 0x100_0000 + n / 0x1_0000 % 256 * 0x1_0000 + n / 0x100 % 256 * 0x100 + n % 256
  {
    var n1, n2, n3, n4 := n / 0x100, n / 0x1_0000, n / 0x100_0000, n / 0x1_0000_0000;
    var n5, n6, n7 := n / 0x100_0000_0000, n / 0x1_0000_0000_0000, n / 0x100_0000_0000_0000;
    assert n2 == n1 / 256 && n3 == n2 / 256 && n4 == n3 / 256 && n5 == n4 / 256 && n6 == n5 / 256 && n7 == n6 / 256;
    assert n7 < 256;
  }

  /** The 1 bit and seven of the 0 bits are the byte 0x80. */
  function Pad(message: seq<byte>): seq<byte>
    requires 8 * |message| < 0x1_0000_0000_0000_0000
  {
    message + [0x80] + Repeat(0, ZeroBits(8 * |message|) / 8) + BigEndian64(8 * |message|)
  }

  /** The count of 0 bits is a solution of the congruence, the least one, and fills whole bytes. */
  lemma ZeroBitsLeast(bits: nat)
    requires bits % 8 == 0
    ensures FillsUp(bits, ZeroBits(bits)) && ZeroBits(bits) % 8 == 7
    ensures forall k: nat :: k < ZeroBits(bits) ==> !FillsUp(bits, k)
  {
    var z := ZeroBits(bits);
    var m := (bits + 1 + z) / 512;
    assert bits + 1 + z == 512 * m + 448;
  }

  lemma PadWhole(message: seq<byte>)
    requires 8 * |message| < 0x1_0000_0000_0000_0000
    ensures |Pad(message)| % 64 == 0
  {
    hide ZeroBits, Repeat, BigEndian64;
    ZeroBitsLeast(8 * |message|);
    var q := ZeroBits(8 * |message|) / 8;
    EighthOf(|message| + 1 + q);
    assert |Pad(message)| == |message| + 1 + q + 8;
  }

  lemma EighthOf(x: nat)
    requires 8 * x % 512 == 448
    ensures (x + 8) % 64 == 0
  {
    var m := 8 * x / 512;
    assert x == 64 * m + 56;
  }

  // ---- section 5.2.1 and 6.1.2

  datatype Vars = Vars(a: Word, b: Word, c: Word, d: Word, e: Word)

  const INITIAL: Vars := Vars(0x67452301, 0xefcdab89, 0x98badcfe, 0x10325476, 0xc3d2e1f0)

  function BigEndian32(b0: byte, b1: byte, b2: byte, b3: byte): Word {
    ((b0 as Word) << 24) | ((b1 as Word) << 16) | ((b2 as Word) << 8) | (b3 as Word)
  }

  /** Word `t` of the message schedule of a 64-byte block. */
  function W(block: seq<byte>, t: nat): Word
    requires |block| == 64
  {
    if t < 16 then BigEndian32(block[4 * t], block[4 * t + 1], block[4 * t + 2], block[4 * t + 3])
    else Rotl(W(block, t - 3) ^ W(block, t - 8) ^ W(block, t - 14) ^ W(block, t - 16), 1)
  }

  function Temp(a: Word, f: Word, e: Word, k: Word, w: Word): Word {
    Rotl(a, 5) + f + e + k + w
  }

  function Round(v: Vars, t: nat, w: Word): Vars {
    Vars(Temp(v.a, F(t, v.b, v.c, v.d), v.e, K(t), w), v.a, Rotl(v.b, 30), v.c, v.d)
  }

  /** The working variables after the first `t` rounds. */
  function Rounds(h: Vars, block: seq<byte>, t: nat): Vars
    requires |block| == 64
  {
    if t == 0 then h else Round(Rounds(h, block, t - 1), t - 1, W(block, t - 1))
  }

  function Add(x: Word, y: Word): Word {
    x + y
  }

  function Compress(h: Vars, block: seq<byte>): Vars
    requires |block| == 64
  {
    var v := Rounds(h, block, 80);
    Vars(Add(h.a, v.a), Add(h.b, v.b), Add(h.c, v.c), Add(h.d, v.d), Add(h.e, v.e))
  }

  /** The intermediate hash value after all blocks of `data`. */
  function HashBlocks(data: seq<byte>): Vars
    requires |data| % 64 == 0
  {
    if data == [] then INITIAL
    else Compress(HashBlocks(data[..|data| - 64]), data[|data| - 64..])
  }

  function WordBytes(w: Word): (r: seq<byte>)
    ensures |r| == 4
  {
    [((w >> 24) & 0xFF) as byte, ((w >> 16) & 0xFF) as byte, ((w >> 8) & 0xFF) as byte, (w & 0xFF) as byte]
  }

  /** The highest byte comes first: read as a big-endian word, they are the word. */
  lemma WordBytesOrder(w: Word)
    ensures var b := WordBytes(w); BigEndian32(b[0], b[1], b[2], b[3]) == w
  {
  }

  /** And what comes first is the top of the word. */
  lemma BigEndian32Order(b0: byte, b1: byte, b2: byte, b3: byte)
    ensures var w := BigEndian32(b0, b1, b2, b3);
      w >> 24 == b0 as Word && (w >> 16) & 0xFF == b1 as Word && (w >> 8) & 0xFF == b2 as Word && w & 0xFF == b3 as Word
  {
  }

  function Digest(h: Vars): seq<byte> {
    WordBytes(h.a) + WordBytes(h.b) + WordBytes(h.c) + WordBytes(h.d) + WordBytes(h.e)
  }

  function Sha1(message: seq<byte>): seq<byte>
    requires 8 * |message| < 0x1_0000_0000_0000_0000
  {
    PadWhole(message);
    Digest(HashBlocks(Pad(message)))
  }

  /** These bytes are the five words, the highest byte of each first. */
  predicate ReadsAs(d: seq<byte>, h: Vars) {
    && |d| == 20
    && BigEndian32(d[0], d[1], d[2], d[3]) == h.a && BigEndian32(d[4], d[5], d[6], d[7]) == h.b
    && BigEndian32(d[8], d[9], d[10], d[11]) == h.c && BigEndian32(d[12], d[13], d[14], d[15]) == h.d
    && BigEndian32(d[16], d[17], d[18], d[19]) == h.e
  }

  lemma DigestOrder(h: Vars)
    ensures ReadsAs(Digest(h), h)
  {
    hide WordBytes, BigEndian32;
    WordBytesOrder(h.a);
    WordBytesOrder(h.b);
    WordBytesOrder(h.c);
    WordBytesOrder(h.d);
    WordBytesOrder(h.e);
  }
}
