/** The one-block example of FIPS 180-4: the SHA-1 of "abc", word by word and round by round. */
module Sha1Example {
  import opened Bytes
  import opened Sha1Spec

  const ABC: seq<byte> := [0x61, 0x62, 0x63]

  /** "abc", a 1 bit, 0 bits, and the length of 24 bits. */
  function Block(): (r: seq<byte>)
    ensures |r| == 64
  {
    ABC + [0x80] + Repeat(0, 59) + [0x18]
  }

  // The message schedule, five words a line.
  const WORDS_0 := Vars(0x61626380, 0x00000000, 0x00000000, 0x00000000, 0x00000000)
  const WORDS_1 := Vars(0x00000000, 0x00000000, 0x00000000, 0x00000000, 0x00000000)
  const WORDS_2 := Vars(0x00000000, 0x00000000, 0x00000000, 0x00000000, 0x00000000)
  const WORDS_3 := Vars(0x00000018, 0xc2c4c700, 0x00000000, 0x00000030, 0x85898e01)
  const WORDS_4 := Vars(0x00000000, 0x00000060, 0x0b131c03, 0x00000030, 0x85898ec1)
  const WORDS_5 := Vars(0x16263806, 0x00000000, 0x00000180, 0x2c4c700c, 0x000000f0)
  const WORDS_6 := Vars(0x93afb507, 0x5898e048, 0x8e9a9202, 0x00000600, 0xb131c0f0)
  const WORDS_7 := Vars(0x16263bc6, 0x4ebed41e, 0x626380a1, 0x16263806, 0x000018c0)
  const WORDS_8 := Vars(0xd2e138c4, 0x00000f00, 0x3afb5079, 0x898e04e5, 0xe2ba3c2b)
  const WORDS_9 := Vars(0x000060c0, 0x053a37cd, 0x74458547, 0xda9415ed, 0x26380a16)
  const WORDS_10 := Vars(0x626383a1, 0x4ebf54de, 0x3835b44b, 0x0000f600, 0x1e84c7a3)
  const WORDS_11 := Vars(0x98e04d98, 0x651d16a0, 0x62658ca1, 0x458544d6, 0x44584cb7)
  const WORDS_12 := Vars(0x7ba06619, 0x6380aea2, 0x0ae55269, 0x627b49a1, 0x7cd45c9d)
  const WORDS_13 := Vars(0x000f0000, 0xfb50753a, 0xec6765e8, 0xba3c2be2, 0x0060c000)
  const WORDS_14 := Vars(0x3a37cd05, 0x458546f4, 0xb8599dd6, 0x380a1a26, 0x01e02203)
  const WORDS_15 := Vars(0xe7cc3456, 0xe6e60b69, 0x00f60a00, 0x5795ef4f, 0x822e0879)

  // The values of the variable a, five a line: A_0 before the first round, A_16 after the last.
  const A_0 := Vars(0x0f4b87c3, 0x40c951d8, 0x62eb73fa, 0xefcdab89, 0x67452301)
  const A_1 := Vars(0x0116fc33, 0x8990536d, 0xa1390f08, 0xcdd8e11b, 0xcfd499de)
  const A_2 := Vars(0x3fc7ca40, 0x993e30c1, 0x9e8c07d4, 0x4b6ae328, 0x8351f929)
  const A_3 := Vars(0xfbda9e89, 0x63188fe4, 0x4607b664, 0x9128f695, 0x196bee77)
  const A_4 := Vars(0x20bdd62f, 0x4e925823, 0x82aa6728, 0xdc64901d, 0xfd9e1d7d)
  const A_5 := Vars(0x1a37b0ca, 0x33a23bfc, 0x21283486, 0xd541f12d, 0xc7567dc6)
  const A_6 := Vars(0x48413ba4, 0xbe35fbd5, 0x4aa84d97, 0x8370b52e, 0xc5fbaf5d)
  const A_7 := Vars(0x1267b407, 0x3b845d33, 0x046faa0a, 0x2c0ebc11, 0x21796ad4)
  const A_8 := Vars(0xdcbbb0cb, 0x0f511fd8, 0xdc63973f, 0x4c986405, 0x32de1cba)
  const A_9 := Vars(0xfc87dedf, 0x970a0d5c, 0x7f193dc5, 0xee1b1aaf, 0x40f28e09)
  const A_10 := Vars(0x1c51e1f2, 0xa01b846c, 0xbead02ca, 0xbaf39337, 0x120731c5)
  const A_11 := Vars(0x641db2ce, 0x3847ad66, 0xe490436d, 0x27e9f1d8, 0x7b71f76d)
  const A_12 := Vars(0x5e6456af, 0xc846093f, 0xd262ff50, 0x09d785fd, 0x3f52de5a)
  const A_13 := Vars(0xd756c147, 0x548c9cb2, 0xb66c020b, 0x6b61c9e1, 0x19dfa7ac)
  const A_14 := Vars(0x101655f9, 0x0c3df2b4, 0x78dd4d2b, 0x497093c0, 0x3f2588c2)
  const A_15 := Vars(0xc199f8c7, 0x39859de7, 0xedb42de4, 0x11793f6f, 0x5ee76897)
  const A_16 := Vars(0x63f7dab7, 0xa079b7d9, 0x860d21cc, 0x5738d5e1, 0x42541b35)

  /** Words `t` to `t` + 4 of the schedule. */
  ghost predicate IsRow(t: nat, w: Vars) {
    && W(Block(), t) == w.a && W(Block(), t + 1) == w.b && W(Block(), t + 2) == w.c
    && W(Block(), t + 3) == w.d && W(Block(), t + 4) == w.e
  }

  function Mix(a: Word, b: Word, c: Word, d: Word): Word {
    Rotl(a ^ b ^ c ^ d, 1)
  }

  lemma Expand(i: nat)
    requires i >= 16
    ensures W(Block(), i) == Mix(W(Block(), i - 3), W(Block(), i - 8), W(Block(), i - 14), W(Block(), i - 16))
  {
    hide Rotl, BigEndian32, Block;
  }

  lemma NextRow(t: nat, m: Vars, n: Vars, o: Vars, p: Vars, q: Vars)
    requires IsRow(t, m) && IsRow(t + 5, n) && IsRow(t + 10, o) && IsRow(t + 15, p)
    requires q.a == Mix(p.c, o.c, n.b, m.e) && q.b == Mix(p.d, o.d, n.c, n.a)
    requires q.c == Mix(p.e, o.e, n.d, n.b) && q.d == Mix(q.a, p.a, n.e, n.c) && q.e == Mix(q.b, p.b, o.a, n.d)
    ensures IsRow(t + 20, q)
  {
    hide W, Mix, Block;
    Expand(t + 20);
    Expand(t + 21);
    Expand(t + 22);
    Expand(t + 23);
    Expand(t + 24);
  }

  /** The working variables, from the last five values of a. */
  function State(p: Vars): Vars {
    Vars(p.e, p.d, Rotl(p.c, 30), Rotl(p.b, 30), Rotl(p.a, 30))
  }

  ghost predicate Reached(t: nat, p: Vars) {
    Rounds(INITIAL, Block(), t) == State(p)
  }

  lemma FiveRounds(t: nat, p: Vars, q: Vars, w: Vars)
    requires Reached(t, p) && IsRow(t, w)
    requires Round(State(p), t, w.a) == State(Vars(p.b, p.c, p.d, p.e, q.a))
    requires Round(State(Vars(p.b, p.c, p.d, p.e, q.a)), t + 1, w.b) == State(Vars(p.c, p.d, p.e, q.a, q.b))
    requires Round(State(Vars(p.c, p.d, p.e, q.a, q.b)), t + 2, w.c) == State(Vars(p.d, p.e, q.a, q.b, q.c))
    requires Round(State(Vars(p.d, p.e, q.a, q.b, q.c)), t + 3, w.d) == State(Vars(p.e, q.a, q.b, q.c, q.d))
    requires Round(State(Vars(p.e, q.a, q.b, q.c, q.d)), t + 4, w.e) == State(q)
    ensures Reached(t + 5, q)
  {
    hide Round, State, W;
    var v1 := Rounds(INITIAL, Block(), t + 1);
    var v2 := Rounds(INITIAL, Block(), t + 2);
    var v3 := Rounds(INITIAL, Block(), t + 3);
    var v4 := Rounds(INITIAL, Block(), t + 4);
    assert v2 == Round(v1, t + 1, w.b) && v3 == Round(v2, t + 2, w.c) && v4 == Round(v3, t + 3, w.d);
  }

  lemma FirstRounds(t: nat)
    requires Reached(t, A_0)
    requires IsRow(t, WORDS_0) && IsRow(t + 5, WORDS_1) && IsRow(t + 10, WORDS_2) && IsRow(t + 15, WORDS_3)
    requires t == 0
    ensures Reached(t + 20, A_4)
  {
    hide IsRow, Reached;
    FiveRounds(t, A_0, A_1, WORDS_0);
    FiveRounds(t + 5, A_1, A_2, WORDS_1);
    FiveRounds(t + 10, A_2, A_3, WORDS_2);
    FiveRounds(t + 15, A_3, A_4, WORDS_3);
  }

  lemma SecondRounds(t: nat)
    requires Reached(t, A_4)
    requires IsRow(t, WORDS_4) && IsRow(t + 5, WORDS_5) && IsRow(t + 10, WORDS_6) && IsRow(t + 15, WORDS_7)
    requires t == 20
    ensures Reached(t + 20, A_8)
  {
    hide IsRow, Reached;
    FiveRounds(t, A_4, A_5, WORDS_4);
    FiveRounds(t + 5, A_5, A_6, WORDS_5);
    FiveRounds(t + 10, A_6, A_7, WORDS_6);
    FiveRounds(t + 15, A_7, A_8, WORDS_7);
  }

  lemma ThirdRounds(t: nat)
    requires Reached(t, A_8)
    requires IsRow(t, WORDS_8) && IsRow(t + 5, WORDS_9) && IsRow(t + 10, WORDS_10) && IsRow(t + 15, WORDS_11)
    requires t == 40
    ensures Reached(t + 20, A_12)
  {
    hide IsRow, Reached;
    FiveRounds(t, A_8, A_9, WORDS_8);
    FiveRounds(t + 5, A_9, A_10, WORDS_9);
    FiveRounds(t + 10, A_10, A_11, WORDS_10);
    FiveRounds(t + 15, A_11, A_12, WORDS_11);
  }

  lemma FourthRounds(t: nat)
    requires Reached(t, A_12)
    requires IsRow(t, WORDS_12) && IsRow(t + 5, WORDS_13) && IsRow(t + 10, WORDS_14) && IsRow(t + 15, WORDS_15)
    requires t == 60
    ensures Reached(t + 20, A_16)
  {
    hide IsRow, Reached;
    FiveRounds(t, A_12, A_13, WORDS_12);
    FiveRounds(t + 5, A_13, A_14, WORDS_13);
    FiveRounds(t + 10, A_14, A_15, WORDS_14);
    FiveRounds(t + 15, A_15, A_16, WORDS_15);
  }

  lemma SecondWords(t: nat)
    requires IsRow(t, WORDS_0) && IsRow(t + 5, WORDS_1) && IsRow(t + 10, WORDS_2) && IsRow(t + 15, WORDS_3)
    ensures IsRow(t + 20, WORDS_4) && IsRow(t + 25, WORDS_5) && IsRow(t + 30, WORDS_6) && IsRow(t + 35, WORDS_7)
  {
    hide IsRow;
    NextRow(t, WORDS_0, WORDS_1, WORDS_2, WORDS_3, WORDS_4);
    NextRow(t + 5, WORDS_1, WORDS_2, WORDS_3, WORDS_4, WORDS_5);
    NextRow(t + 10, WORDS_2, WORDS_3, WORDS_4, WORDS_5, WORDS_6);
    NextRow(t + 15, WORDS_3, WORDS_4, WORDS_5, WORDS_6, WORDS_7);
  }

  lemma ThirdWords(t: nat)
    requires IsRow(t, WORDS_4) && IsRow(t + 5, WORDS_5) && IsRow(t + 10, WORDS_6) && IsRow(t + 15, WORDS_7)
    ensures IsRow(t + 20, WORDS_8) && IsRow(t + 25, WORDS_9) && IsRow(t + 30, WORDS_10) && IsRow(t + 35, WORDS_11)
  {
    hide IsRow;
    NextRow(t, WORDS_4, WORDS_5, WORDS_6, WORDS_7, WORDS_8);
    NextRow(t + 5, WORDS_5, WORDS_6, WORDS_7, WORDS_8, WORDS_9);
    NextRow(t + 10, WORDS_6, WORDS_7, WORDS_8, WORDS_9, WORDS_10);
    NextRow(t + 15, WORDS_7, WORDS_8, WORDS_9, WORDS_10, WORDS_11);
  }

  lemma FourthWords(t: nat)
    requires IsRow(t, WORDS_8) && IsRow(t + 5, WORDS_9) && IsRow(t + 10, WORDS_10) && IsRow(t + 15, WORDS_11)
    ensures IsRow(t + 20, WORDS_12) && IsRow(t + 25, WORDS_13) && IsRow(t + 30, WORDS_14) && IsRow(t + 35, WORDS_15)
  {
    hide IsRow;
    NextRow(t, WORDS_8, WORDS_9, WORDS_10, WORDS_11, WORDS_12);
    NextRow(t + 5, WORDS_9, WORDS_10, WORDS_11, WORDS_12, WORDS_13);
    NextRow(t + 10, WORDS_10, WORDS_11, WORDS_12, WORDS_13, WORDS_14);
    NextRow(t + 15, WORDS_11, WORDS_12, WORDS_13, WORDS_14, WORDS_15);
  }

  /** The sixteen words of the block, and the first four that follow from them. */
  lemma FirstWords(t: nat)
    requires t == 0
    ensures IsRow(t, WORDS_0) && IsRow(t + 5, WORDS_1) && IsRow(t + 10, WORDS_2) && IsRow(t + 15, WORDS_3)
  {
    hide W, Block;
    Sixteen();
    FourMore();
    assert W(Block(), 1) == W(Block(), 5) == W(Block(), 10) == W(Block(), 14) == 0;
  }

  lemma FourMore()
    ensures W(Block(), 16) == 0xc2c4c700 && W(Block(), 17) == 0
    ensures W(Block(), 18) == 0x30 && W(Block(), 19) == 0x85898e01
  {
    hide W, Repeat, Mix;
    Sixteen();
    FirstMixes();
    Expand(16);
    Expand(17);
    Expand(18);
    Expand(19);
  }

  lemma FirstMixes()
    ensures Mix(0, 0, 0, 0x61626380) == 0xc2c4c700 && Mix(0, 0, 0, 0) == 0
    ensures Mix(0x18, 0, 0, 0) == 0x30 && Mix(0xc2c4c700, 0, 0, 0) == 0x85898e01
  {
  }

  lemma Sixteen()
    ensures W(Block(), 0) == 0x61626380 && W(Block(), 15) == 0x18
    ensures forall i :: 0 < i < 15 ==> W(Block(), i) == 0
  {
    hide Repeat;
  }

  lemma Started(t: nat)
    requires t == 0
    ensures Reached(t, A_0)
  {
  }

  /** The padded message is the one block. */
  lemma PaddedIsBlock()
    ensures Pad(ABC) == Block()
  {
    hide Repeat;
    LengthBytes();
    assert ZeroBits(24) / 8 == 52;
    assert Repeat(0, 52) + [0, 0, 0, 0, 0, 0, 0] == Repeat(0, 59);
  }

  lemma LengthBytes()
    ensures BigEndian64(24) == [0, 0, 0, 0, 0, 0, 0, 0x18]
  {
    hide AsByte;
    Literals();
  }

  lemma Literals()
    ensures AsByte(0) == 0 && AsByte(24) == 0x18
  {
  }

  lemma AbcWords(t: nat)
    requires t == 0
    ensures IsRow(t, WORDS_0) && IsRow(t + 5, WORDS_1) && IsRow(t + 10, WORDS_2) && IsRow(t + 15, WORDS_3)
    ensures IsRow(t + 20, WORDS_4) && IsRow(t + 25, WORDS_5) && IsRow(t + 30, WORDS_6) && IsRow(t + 35, WORDS_7)
    ensures IsRow(t + 40, WORDS_8) && IsRow(t + 45, WORDS_9) && IsRow(t + 50, WORDS_10) && IsRow(t + 55, WORDS_11)
    ensures IsRow(t + 60, WORDS_12) && IsRow(t + 65, WORDS_13) && IsRow(t + 70, WORDS_14) && IsRow(t + 75, WORDS_15)
  {
    hide IsRow;
    FirstWords(t);
    SecondWords(t);
    ThirdWords(t + 20);
    FourthWords(t + 40);
  }

  lemma AbcRounds(t: nat)
    requires t == 0
    ensures Reached(t + 80, A_16)
  {
    hide IsRow, Reached;
    AbcWords(t);
    Started(t);
    FirstRounds(t);
    SecondRounds(t + 20);
    ThirdRounds(t + 40);
    FourthRounds(t + 60);
  }

  const DIGEST: seq<byte> := [
    0xa9, 0x99, 0x3e, 0x36, 0x47, 0x06, 0x81, 0x6a, 0xba, 0x3e, 0x25, 0x71, 0x78, 0x50, 0xc2, 0x6c, 0x9c, 0xd0,
    0xd8, 0x9d ]

  lemma AbcCompressed()
    ensures Compress(INITIAL, Block()) == Vars(0xa9993e36, 0x4706816a, 0xba3e2571, 0x7850c26c, 0x9cd0d89d)
  {
    hide Rounds;
    AbcRounds(0);
  }

  /** The known answer. */
  lemma Sha1OfAbc()
    ensures Sha1(ABC) == DIGEST
  {
    hide Compress, Pad;
    PaddedIsBlock();
    AbcCompressed();
    assert Block()[..0] == [] && Block()[0..] == Block();
    assert HashBlocks(Block()) == Compress(HashBlocks([]), Block());
  }
}
