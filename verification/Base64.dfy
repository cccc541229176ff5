/** Base64EncodeString against the decoder of section 4 of RFC 4648. */
module Base64 {
  import opened Bytes

  const PAD: byte := 0x3D     // '='

  // ---- the alphabet, as ASCII codes

  /** Table 1 of RFC 4648: A-Z, a-z, 0-9, + and /. */
  function Char(v: byte): byte
    requires v < 64
  {
    if v < 26 then 0x41 + v else if v < 52 then 0x61 + (v - 26) else if v < 62 then 0x30 + (v - 52)
    else if v == 62 then 0x2B else 0x2F
  }

  /** The table in order: A to Z, a to z and 0 to 9, one after the other, then + and /. */
  lemma Table(v: byte)
    requires v < 64
    ensures Char(0) == 'A' as byte && Char(25) == 'Z' as byte && Char(26) == 'a' as byte && Char(51) == 'z' as byte
    ensures Char(52) == '0' as byte && Char(61) == '9' as byte && Char(62) == '+' as byte && Char(63) == '/' as byte
    ensures v < 61 && v != 25 && v != 51 ==> Char(v + 1) == Char(v) + 1
  {
  }

  predicate IsChar(c: byte) {
    0x41 <= c <= 0x5A || 0x61 <= c <= 0x7A || 0x30 <= c <= 0x39 || c == 0x2B || c == 0x2F
  }

  function Sextet(c: byte): (v: byte)
    requires IsChar(c)
    ensures v < 64
  {
    if 0x41 <= c <= 0x5A then c - 0x41 else if 0x61 <= c <= 0x7A then c - 0x61 + 26
    else if 0x30 <= c <= 0x39 then c - 0x30 + 52 else if c == 0x2B then 62 else 63
  }

  lemma Alphabet(v: byte)
    requires v < 64
    ensures IsChar(Char(v)) && Sextet(Char(v)) == v && Char(v) != PAD
  {
  }

  lemma AlphabetBack(c: byte)
    requires IsChar(c)
    ensures Char(Sextet(c)) == c && c != PAD
  {
  }

  // ---- the encoder

  function First(a: byte): (v: byte)
    ensures v < 64
  {
    a >> 2
  }

  function Second(a: byte, b: byte): (v: byte)
    ensures v < 64
  {
    ((a << 4) & 0x30) | (b >> 4)
  }

  function Third(b: byte, c: byte): (v: byte)
    ensures v < 64
  {
    ((b << 2) & 0x3C) | (c >> 6)
  }

  function Fourth(c: byte): (v: byte)
    ensures v < 64
  {
    c & 0x3F
  }

  function Encoded(data: seq<byte>): seq<byte> {
    if |data| >= 3 then Quad(data[0], data[1], data[2]) + Encoded(data[3..]) else Tail(data)
  }

  function Quad(a: byte, b: byte, c: byte): seq<byte> {
    [Char(First(a)), Char(Second(a, b)), Char(Third(b, c)), Char(Fourth(c))]
  }

  function Tail(data: seq<byte>): seq<byte>
    requires |data| < 3
  {
    if |data| == 0 then []
    else if |data| == 1 then [Char(First(data[0])), Char(Second(data[0], 0)), PAD, PAD]
    else [Char(First(data[0])), Char(Second(data[0], data[1])), Char(Third(data[1], 0)), PAD]
  }

  method Encode(data: seq<byte>) returns (encode: seq<byte>)
    ensures encode == Encoded(data)
  {
    hide Tail, Quad;
    encode := [];
    var i := 0;
    while i + 3 <= |data|
      invariant 0 <= i <= |data| && encode + Encoded(data[i..]) == Encoded(data)
    {
      ghost var rest := data[i..];
      var quad := EncodeQuad(data, i);
      encode := encode + quad;
      assert rest[3..] == data[i + 3..];
      i := i + 3;
    }
    var tail := EncodeTail(data, i);
    encode := encode + tail;
  }

  /** The body of the loop. */
  method EncodeQuad(data: seq<byte>, i: nat) returns (encode: seq<byte>)
    requires i + 3 <= |data|
    ensures encode == Quad(data[i], data[i + 1], data[i + 2])
  {
    hide Char, First, Second, Third, Fourth;
    encode := [Char(First(data[i]))];
    encode := encode + [Char(Second(data[i], data[i + 1]))];
    encode := encode + [Char(Third(data[i + 1], data[i + 2]))];
    encode := encode + [Char(Fourth(data[i + 2]))];
  }

  /** The branch behind the loop. */
  method EncodeTail(data: seq<byte>, i: nat) returns (encode: seq<byte>)
    requires i <= |data| < i + 3
    ensures encode == Tail(data[i..])
  {
    hide Char, First, Second, Third;
    encode := [];
    if i < |data| {
      var tail := |data| - i;
      if tail == 1 {
        encode := encode + [Char(First(data[i])), Char(Second(data[i], 0)), PAD, PAD];
      } else {
        encode := encode + [Char(First(data[i])), Char(Second(data[i], data[i + 1])), Char(Third(data[i + 1], 0)), PAD];
      }
    }
  }

  // ---- the decoder of the standard

  datatype Result = Ok(data: seq<byte>) | Invalid

  /** A 24-bit input group of four 6-bit values. */
  function Group(p: byte, q: byte, r: byte, t: byte): bv24 {
    ((p as bv24) << 18) | ((q as bv24) << 12) | ((r as bv24) << 6) | (t as bv24)
  }

  function Byte0(g: bv24): byte {
    (g >> 16) as byte
  }

  function Byte1(g: bv24): byte {
    ((g >> 8) & 0xFF) as byte
  }

  function Byte2(g: bv24): byte {
    (g & 0xFF) as byte
  }

  /** Groups of four characters; padding only at the end, and the bits it leaves over must be zero. */
  function Decoded(s: seq<byte>): Result {
    if s == [] then Ok([])
    else if |s| < 4 || !IsChar(s[0]) || !IsChar(s[1]) then Invalid
    else if s[2] == PAD then
      var g := Group(Sextet(s[0]), Sextet(s[1]), 0, 0);
      if |s| == 4 && s[3] == PAD && Byte1(g) == 0 && Byte2(g) == 0 then Ok([Byte0(g)]) else Invalid
    else if !IsChar(s[2]) then Invalid
    else if s[3] == PAD then
      var g := Group(Sextet(s[0]), Sextet(s[1]), Sextet(s[2]), 0);
      if |s| == 4 && Byte2(g) == 0 then Ok([Byte0(g), Byte1(g)]) else Invalid
    else if !IsChar(s[3]) then Invalid
    else
      var g := Group(Sextet(s[0]), Sextet(s[1]), Sextet(s[2]), Sextet(s[3]));
      match Decoded(s[4..])
      case Ok(rest) => Ok([Byte0(g), Byte1(g), Byte2(g)] + rest)
      case Invalid => Invalid
  }

  lemma Split(a: byte, b: byte, c: byte)
    ensures var g := Group(First(a), Second(a, b), Third(b, c), Fourth(c));
      Byte0(g) == a && Byte1(g) == b && Byte2(g) == c
    ensures Third(0, 0) == 0 && Fourth(0) == 0
  {
  }

  /** The four values are the 24 bits of the three bytes, six by six from the top. */
  lemma SixBySix(a: byte, b: byte, c: byte)
    ensures var g := ((a as bv24) << 16) | ((b as bv24) << 8) | (c as bv24);
      && First(a) as bv24 == g >> 18 && Second(a, b) as bv24 == (g >> 12) & 0x3F
      && Third(b, c) as bv24 == (g >> 6) & 0x3F && Fourth(c) as bv24 == g & 0x3F
  {
  }

  lemma Join(p: byte, q: byte, r: byte, t: byte)
    requires p < 64 && q < 64 && r < 64 && t < 64
    ensures var g := Group(p, q, r, t);
      && First(Byte0(g)) == p && Second(Byte0(g), Byte1(g)) == q
      && Third(Byte1(g), Byte2(g)) == r && Fourth(Byte2(g)) == t
  {
  }

  /** What was encoded is decoded. */
  lemma {:induction false} Base64RoundTrip(data: seq<byte>)
    ensures Decoded(Encoded(data)) == Ok(data)
  {
    hide Char, Sextet, IsChar, First, Second, Third, Fourth, Group, Byte0, Byte1, Byte2;
    if |data| >= 3 {
      Alphabet(First(data[0]));
      Alphabet(Second(data[0], data[1]));
      Alphabet(Third(data[1], data[2]));
      Alphabet(Fourth(data[2]));
      Split(data[0], data[1], data[2]);
      assert Encoded(data)[4..] == Encoded(data[3..]);
      Base64RoundTrip(data[3..]);
    } else if |data| == 2 {
      Alphabet(First(data[0]));
      Alphabet(Second(data[0], data[1]));
      Alphabet(Third(data[1], 0));
      Split(data[0], data[1], 0);
    } else if |data| == 1 {
      Alphabet(First(data[0]));
      Alphabet(Second(data[0], 0));
      Split(data[0], 0, 0);
    }
  }

  /** And what decodes to some data is its encoding: the form is unique. */
  lemma {:induction false} OnlyEncoding(s: seq<byte>, data: seq<byte>)
    requires Decoded(s) == Ok(data)
    ensures s == Encoded(data)
    decreases |s|
  {
    hide Char, Sextet, IsChar, First, Second, Third, Fourth, Group, Byte0, Byte1, Byte2;
    if s != [] {
      AlphabetBack(s[0]);
      AlphabetBack(s[1]);
      if s[2] == PAD {
        Join(Sextet(s[0]), Sextet(s[1]), 0, 0);
      } else if s[3] == PAD {
        AlphabetBack(s[2]);
        Join(Sextet(s[0]), Sextet(s[1]), Sextet(s[2]), 0);
      } else {
        AlphabetBack(s[2]);
        AlphabetBack(s[3]);
        Join(Sextet(s[0]), Sextet(s[1]), Sextet(s[2]), Sextet(s[3]));
        OnlyEncoding(s[4..], data[3..]);
      }
    }
  }

  /** The test vectors of section 10: "f", "fo", "foo" and "foobar". */
  lemma Vectors()
    ensures Encoded([0x66]) == [0x5A, 0x67, 0x3D, 0x3D] && Encoded([0x66, 0x6F]) == [0x5A, 0x6D, 0x38, 0x3D]
    ensures Encoded([0x66, 0x6F, 0x6F]) == [0x5A, 0x6D, 0x39, 0x76]
    ensures Encoded([0x66, 0x6F, 0x6F, 0x62, 0x61, 0x72]) == [0x5A, 0x6D, 0x39, 0x76, 0x59, 0x6D, 0x46, 0x79]
  {
    var foo, bar: seq<byte> := [0x66, 0x6F, 0x6F], [0x62, 0x61, 0x72];
    assert foo[3..] == [] && bar[3..] == [] && [0x66 as byte, 0x6F, 0x6F, 0x62, 0x61, 0x72][3..] == bar;
    assert Encoded(bar) == Quad(0x62, 0x61, 0x72) + Encoded([]);
  }

  lemma {:induction false} EncodedLength(data: seq<byte>)
    ensures |Encoded(data)| == 4 * ((|data| + 2) / 3)
  {
    if |data| >= 3 {
      EncodedLength(data[3..]);
    }
  }
}
