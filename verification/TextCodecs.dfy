/** Text to bytes and back: hexadecimal, UTF-16BE and the UTF-32 forms. */
module TextCodecs {
  import opened Bytes

  /** A 16-bit unit of a std::wstring. */
  type unit = bv16

  // ---- hexadecimal

  function HexDigit(n: byte): unit
    requires n < 16
  {
    if n < 10 then 0x30 + n as unit else 0x41 + (n - 10) as unit
  }

  predicate IsHex(c: unit) {
    0x30 <= c <= 0x39 || 0x41 <= c <= 0x46 || 0x61 <= c <= 0x66
  }

  function Digit(c: unit): byte
    requires IsHex(c)
  {
    if c <= 0x39 then (c - 0x30) as byte else if c <= 0x46 then (c - 0x41 + 10) as byte else (c - 0x61 + 10) as byte
  }

  /** The value of a digit of either case. */
  lemma DigitValues(c: unit)
    requires IsHex(c)
    ensures Digit('0' as unit) == 0 && Digit('9' as unit) == 9
    ensures Digit('A' as unit) == Digit('a' as unit) == 10 && Digit('F' as unit) == Digit('f' as unit) == 15
    ensures IsHex(c + 1) ==> Digit(c + 1) == Digit(c) + 1
  {
  }

  /** Written in upper case. */
  lemma HexDigits(n: byte)
    requires n < 16
    ensures HexDigit(0) == '0' as unit && HexDigit(9) == '9' as unit
    ensures HexDigit(10) == 'A' as unit && HexDigit(15) == 'F' as unit
    ensures n < 15 && n != 9 ==> HexDigit(n + 1) == HexDigit(n) + 1
  {
  }

  function Pair(high: byte, low: byte): byte {
    (high << 4) | low
  }

  function High(c: byte): (h: byte)
    ensures h < 16
  {
    c >> 4
  }

  function Low(c: byte): (l: byte)
    ensures l < 16
  {
    c & 0x0F
  }

  function Formatted(data: seq<byte>): seq<unit> {
    if data == [] then []
    else [HexDigit(High(data[0])), HexDigit(Low(data[0])), 0x20] + Formatted(data[1..])
  }

  /** What hexutf16_to_bin_string makes of any text: a digit followed by something else counts as its high half
      with low half 0, and swallows what follows. */
  function Parsed(s: seq<unit>): seq<byte> {
    if s == [] then []
    else if !IsHex(s[0]) then Parsed(s[1..])
    else if |s| == 1 then [Pair(Digit(s[0]), 0)]
    else [Pair(Digit(s[0]), if IsHex(s[1]) then Digit(s[1]) else 0)] + Parsed(s[2..])
  }

  lemma ThreeMore(s: seq<unit>, a: unit, b: unit, c: unit, rest: seq<unit>)
    ensures s + [a] + [b] + [c] + rest == s + ([a, b, c] + rest)
  {
  }

  method Format(data: seq<byte>) returns (s: seq<unit>)
    ensures s == Formatted(data)
  {
    hide HexDigit, High, Low;
    s := [];
    for i := 0 to |data|
      invariant s + Formatted(data[i..]) == Formatted(data)
    {
      var c := data[i];
      ghost var before := s;
      s := s + [HexDigit(High(c))];
      s := s + [HexDigit(Low(c))];
      s := s + [0x20];
      assert data[i..][1..] == data[i + 1..];
      ThreeMore(before, HexDigit(High(c)), HexDigit(Low(c)), 0x20, Formatted(data[i + 1..]));
    }
    assert data[|data|..] == [];
  }

  method Parse(data: seq<unit>) returns (result: seq<byte>)
    ensures result == Parsed(data)
  {
    hide IsHex, Digit, Pair;
    result := [];
    var p := 0;
    while p < |data|
      invariant 0 <= p <= |data| && result + Parsed(data[p..]) == Parsed(data)
    {
      var rest := data[p..];
      assert rest[1..] == data[p + 1..];
      if !IsHex(data[p]) {
        p := p + 1;
        continue;
      }
      var d := Digit(data[p]);
      p := p + 1;
      if p >= |data| {
        result := result + [Pair(d, 0)];
        break;
      }
      assert rest[2..] == data[p + 1..];
      result := result + [Pair(d, if IsHex(data[p]) then Digit(data[p]) else 0)];
      p := p + 1;
    }
  }

  /** Two digits of either case. */
  datatype Digits = Digits(high: unit, low: unit)

  predicate NoHex(s: seq<unit>) {
    forall i :: 0 <= i < |s| ==> !IsHex(s[i])
  }

  /** Any text of digit pairs with separators before, between and after them. */
  function Separated(before: seq<seq<unit>>, pairs: seq<Digits>, last: seq<unit>): seq<unit>
    requires |before| == |pairs|
  {
    if pairs == [] then last
    else before[0] + [pairs[0].high, pairs[0].low] + Separated(before[1..], pairs[1..], last)
  }

  predicate Spells(pairs: seq<Digits>, data: seq<byte>) {
    |pairs| == |data| && forall i :: 0 <= i < |pairs| ==>
      IsHex(pairs[i].high) && IsHex(pairs[i].low) && Pair(Digit(pairs[i].high), Digit(pairs[i].low)) == data[i]
  }

  lemma {:induction false} SkipSeparator(sep: seq<unit>, rest: seq<unit>)
    requires NoHex(sep)
    ensures Parsed(sep + rest) == Parsed(rest)
  {
    hide IsHex, Digit, Pair;
    if sep == [] {
      assert sep + rest == rest;
    } else {
      assert (sep + rest)[1..] == sep[1..] + rest;
      SkipSeparator(sep[1..], rest);
    }
  }

  /** Whatever stands between the pairs, if it holds no hexadecimal digit the bytes they spell come out. */
  lemma {:induction false} SeparatorsDoNotMatter(
    before: seq<seq<unit>>, pairs: seq<Digits>, last: seq<unit>, data: seq<byte>)
    requires |before| == |pairs| && (forall i :: 0 <= i < |before| ==> NoHex(before[i])) && NoHex(last)
    requires Spells(pairs, data)
    ensures Parsed(Separated(before, pairs, last)) == data
    decreases |pairs|
  {
    hide IsHex, Digit, Pair, NoHex;
    if pairs == [] {
      SkipSeparator(last, []);
      assert last + [] == last;
    } else {
      var rest := Separated(before[1..], pairs[1..], last);
      var here := [pairs[0].high, pairs[0].low] + rest;
      assert Separated(before, pairs, last) == before[0] + here;
      SkipSeparator(before[0], here);
      assert here[2..] == rest;
      SeparatorsDoNotMatter(before[1..], pairs[1..], last, data[1..]);
    }
  }

  lemma HexDigitRoundTrip(n: byte)
    requires n < 16
    ensures IsHex(HexDigit(n)) && Digit(HexDigit(n)) == n
  {
  }

  /** In numbers: the high digit counts sixteen times. */
  lemma HalvesAre(c: byte, high: byte, low: byte)
    requires high < 16 && low < 16
    ensures High(c) == c / 16 && Low(c) == c % 16 && Pair(high, low) == high * 16 + low
  {
  }

  lemma HalvesJoin(c: byte)
    ensures Pair(High(c), Low(c)) == c
  {
  }

  /** What is formatted is parsed back. */
  lemma {:induction false} HexRoundTrip(data: seq<byte>)
    ensures Parsed(Formatted(data)) == data
  {
    hide IsHex, Digit, Pair, HexDigit, High, Low;
    if data != [] {
      var c, rest := data[0], Formatted(data[1..]);
      HexDigitRoundTrip(High(c));
      HexDigitRoundTrip(Low(c));
      HalvesJoin(c);
      SpaceIsNoHex();
      SkipSeparator([0x20], rest);
      assert Formatted(data)[2..] == [0x20] + rest;
      HexRoundTrip(data[1..]);
    }
  }

  /** Where the two digits and the space of byte `i` are. */
  lemma {:induction false} FormattedAt(data: seq<byte>, i: nat)
    requires i < |data|
    ensures var s := Formatted(data);
      && |s| == 3 * |data| && s[3 * i + 2] == 0x20
      && s[3 * i] == HexDigit(High(data[i])) && s[3 * i + 1] == HexDigit(Low(data[i]))
  {
    hide HexDigit, High, Low;
    FormattedLength(data);
    var rest := Formatted(data[1..]);
    assert forall k :: 0 <= k < |rest| ==> Formatted(data)[3 + k] == rest[k];
    if i > 0 {
      FormattedAt(data[1..], i - 1);
    }
  }

  lemma {:induction false} FormattedLength(data: seq<byte>)
    ensures |Formatted(data)| == 3 * |data|
  {
    hide HexDigit, High, Low;
    if data != [] {
      FormattedLength(data[1..]);
    }
  }

  /** A digit without a partner counts as a high one; what stands in the partner's place is swallowed. */
  lemma LoneDigit(c: unit, x: unit, rest: seq<unit>)
    requires IsHex(c) && !IsHex(x)
    ensures Parsed([c, x] + rest) == [Digit(c) * 16] + Parsed(rest) && Parsed([c]) == [Digit(c) * 16]
  {
    hide IsHex, Digit, Pair;
    assert ([c, x] + rest)[2..] == rest;
    PairWithNone(c);
  }

  lemma PairWithNone(c: unit)
    requires IsHex(c)
    ensures Pair(Digit(c), 0) == Digit(c) * 16
  {
  }

  lemma SpaceIsNoHex()
    ensures NoHex([0x20])
  {
  }

  // ---- units in memory (a little-endian machine)

  function Swap16(value: unit): unit {
    ((value >> 8) & 0xFF) | (value << 8)
  }

  function Swap32(value: bv32): bv32 {
    ((value >> 24) & 0xFF) | ((value >> 8) & 0xFF00) | ((value << 8) & 0xFF_0000) | ((value << 24) & 0xFF00_0000)
  }

  function Store16(u: unit): seq<byte> {
    [(u & 0xFF) as byte, (u >> 8) as byte]
  }

  function Load16(b0: byte, b1: byte): unit {
    b0 as unit | ((b1 as unit) << 8)
  }

  function Store32(w: bv32): seq<byte> {
    [(w & 0xFF) as byte, ((w >> 8) & 0xFF) as byte, ((w >> 16) & 0xFF) as byte, (w >> 24) as byte]
  }

  function Load32(b0: byte, b1: byte, b2: byte, b3: byte): bv32 {
    b0 as bv32 | ((b1 as bv32) << 8) | ((b2 as bv32) << 16) | ((b3 as bv32) << 24)
  }

  lemma Memory16(u: unit)
    ensures Load16(Store16(u)[0], Store16(u)[1]) == u
  {
  }

  lemma Memory32(w: bv32)
    ensures Load32(Store32(w)[0], Store32(w)[1], Store32(w)[2], Store32(w)[3]) == w
  {
  }

  lemma SwapTwice(u: unit)
    ensures Swap16(Swap16(u)) == u
  {
  }

  // ---- UTF-16BE

  function EncodedUtf16Be(text: seq<unit>): seq<byte> {
    if text == [] then [] else Store16(Swap16(text[0])) + EncodedUtf16Be(text[1..])
  }

  /** An odd byte at the end is dropped. */
  function DecodedUtf16Be(data: seq<byte>): seq<unit> {
    if |data| < 2 then [] else [Swap16(Load16(data[0], data[1]))] + DecodedUtf16Be(data[2..])
  }

  method EncodeUtf16Be(data: seq<unit>) returns (result: seq<byte>)
    ensures result == EncodedUtf16Be(data)
  {
    hide Store16, Swap16;
    result := [];
    for first := 0 to |data|
      invariant result + EncodedUtf16Be(data[first..]) == EncodedUtf16Be(data)
    {
      result := result + Store16(Swap16(data[first]));
      assert data[first..][1..] == data[first + 1..];
    }
    assert data[|data|..] == [];
  }

  method DecodeUtf16Be(data: seq<byte>) returns (result: seq<unit>)
    ensures result == DecodedUtf16Be(data)
  {
    hide Load16, Swap16;
    result := [];
    var last := |data| / 2;
    for first := 0 to last
      invariant result + DecodedUtf16Be(data[2 * first..]) == DecodedUtf16Be(data)
    {
      var rest := data[2 * first..];
      result := result + [Swap16(Load16(data[2 * first], data[2 * first + 1]))];
      assert rest[2..] == data[2 * (first + 1)..];
    }
  }

  function UpperByte(u: unit): byte {
    (u >> 8) as byte
  }

  function LowerByte(u: unit): byte {
    (u & 0xFF) as byte
  }

  function UnitOf(high: byte, low: byte): unit {
    ((high as unit) << 8) | (low as unit)
  }

  /** In numbers. */
  lemma UnitInNumbers(u: unit, high: byte, low: byte)
    ensures UpperByte(u) as unit == u / 256 && LowerByte(u) as unit == u % 256
    ensures UnitOf(high, low) == (high as unit) * 256 + low as unit
  {
  }

  /** The bytes are in big-endian order, and read in that order. */
  lemma BigEndianOrder(u: unit, b0: byte, b1: byte)
    ensures Store16(Swap16(u)) == [UpperByte(u), LowerByte(u)]
    ensures Swap16(Load16(b0, b1)) == UnitOf(b0, b1)
  {
  }

  lemma Behind<T>(a: seq<T>, b: seq<T>, from: nat, to: nat)
    requires |a| <= from <= to <= |a| + |b|
    ensures (a + b)[from..to] == b[from - |a|..to - |a|]
  {
  }

  /** Unit by unit, in order: the two bytes of unit `i`. */
  lemma {:induction false} Utf16BeAt(text: seq<unit>, i: nat)
    requires i < |text|
    ensures var b := EncodedUtf16Be(text);
      |b| == 2 * |text| && b[2 * i..2 * i + 2] == [UpperByte(text[i]), LowerByte(text[i])]
  {
    hide Store16, Swap16, UpperByte, LowerByte;
    BigEndianOrder(text[0], 0, 0);
    var b, rest := EncodedUtf16Be(text), EncodedUtf16Be(text[1..]);
    if |text| > 1 {
      Utf16BeAt(text[1..], if i > 0 then i - 1 else 0);
    }
    assert b == Store16(Swap16(text[0])) + rest;
    if i > 0 {
      Behind(b[..2], rest, 2 * i, 2 * i + 2);
    }
  }

  lemma {:induction false} Utf16BeReadAt(data: seq<byte>, i: nat)
    requires i < |data| / 2
    ensures var text := DecodedUtf16Be(data);
      |text| == |data| / 2 && text[i] == UnitOf(data[2 * i], data[2 * i + 1])
  {
    hide Load16, Swap16, UnitOf;
    BigEndianOrder(0, data[0], data[1]);
    if |data| >= 4 {
      Utf16BeReadAt(data[2..], if i > 0 then i - 1 else 0);
    }
  }

  lemma {:induction false} Utf16BeRoundTrip(text: seq<unit>)
    ensures DecodedUtf16Be(EncodedUtf16Be(text)) == text
  {
    hide Load16, Store16, Swap16;
    if text != [] {
      var pair := Store16(Swap16(text[0]));
      Stored16(Swap16(text[0]));
      Memory16(Swap16(text[0]));
      SwapTwice(text[0]);
      assert EncodedUtf16Be(text)[2..] == EncodedUtf16Be(text[1..]);
      Utf16BeRoundTrip(text[1..]);
    }
  }

  lemma Stored16(u: unit)
    ensures |Store16(u)| == 2
  {
  }

  lemma Stored32(w: bv32)
    ensures |Store32(w)| == 4
  {
  }

  // ---- UTF-32: little-endian, and big-endian as written

  /** UTF-32BE swaps the unit as 16 bits before it is widened. */
  function Wide(u: unit, bigEndian: bool): bv32 {
    (if bigEndian then Swap16(u) else u) as bv32
  }

  /** Assigning a word to a 16-bit unit keeps its low half. */
  function Narrow(w: bv32, bigEndian: bool): unit {
    ((if bigEndian then Swap32(w) else w) & 0xFFFF) as unit
  }

  function EncodedUtf32(text: seq<unit>, bigEndian: bool): seq<byte> {
    if text == [] then [] else Store32(Wide(text[0], bigEndian)) + EncodedUtf32(text[1..], bigEndian)
  }

  /** Up to three bytes at the end are dropped. */
  function DecodedUtf32(data: seq<byte>, bigEndian: bool): seq<unit> {
    if |data| < 4 then []
    else [Narrow(Load32(data[0], data[1], data[2], data[3]), bigEndian)] + DecodedUtf32(data[4..], bigEndian)
  }

  method EncodeUtf32(data: seq<unit>, bigEndian: bool) returns (result: seq<byte>)
    ensures result == EncodedUtf32(data, bigEndian)
  {
    hide Store32, Wide;
    result := [];
    for first := 0 to |data|
      invariant result + EncodedUtf32(data[first..], bigEndian) == EncodedUtf32(data, bigEndian)
    {
      result := result + Store32(Wide(data[first], bigEndian));
      assert data[first..][1..] == data[first + 1..];
    }
    assert data[|data|..] == [];
  }

  method DecodeUtf32(data: seq<byte>, bigEndian: bool) returns (result: seq<unit>)
    ensures result == DecodedUtf32(data, bigEndian)
  {
    hide Load32, Narrow;
    result := [];
    for first := 0 to |data| / 4
      invariant result + DecodedUtf32(data[4 * first..], bigEndian) == DecodedUtf32(data, bigEndian)
    {
      var rest := data[4 * first..];
      result := result + [Narrow(Load32(rest[0], rest[1], rest[2], rest[3]), bigEndian)];
      assert rest[4..] == data[4 * (first + 1)..];
    }
  }

  /** What a unit comes back as. */
  function Back(u: unit, bigEndian: bool): unit {
    Narrow(Wide(u, bigEndian), bigEndian)
  }

  lemma {:induction false} Utf32UnitByUnit(text: seq<unit>, bigEndian: bool)
    ensures var back := DecodedUtf32(EncodedUtf32(text, bigEndian), bigEndian);
      |back| == |text| && forall i :: 0 <= i < |text| ==> back[i] == Back(text[i], bigEndian)
  {
    hide Load32, Store32, Wide, Narrow;
    if text != [] {
      var w := Wide(text[0], bigEndian);
      Stored32(w);
      Memory32(w);
      assert EncodedUtf32(text, bigEndian)[4..] == EncodedUtf32(text[1..], bigEndian);
      Utf32UnitByUnit(text[1..], bigEndian);
      assert forall i :: 0 < i < |text| ==> text[i] == text[1..][i - 1];
    }
  }

  /** In memory: the low byte first and two zero bytes last; as written, UTF-32BE exchanges the first two only. */
  lemma Utf32Order(u: unit)
    ensures Store32(Wide(u, false)) == [LowerByte(u), UpperByte(u), 0, 0]
    ensures Store32(Wide(u, true)) == [UpperByte(u), LowerByte(u), 0, 0]
  {
  }

  /** Read back, UTF-32LE is the first two bytes of a word, UTF-32BE the last two. */
  lemma Utf32Halves(b0: byte, b1: byte, b2: byte, b3: byte)
    ensures Narrow(Load32(b0, b1, b2, b3), false) == UnitOf(b1, b0)
    ensures Narrow(Load32(b0, b1, b2, b3), true) == UnitOf(b2, b3)
  {
  }

  /** Word by word, in order. */
  lemma {:induction false} Utf32At(text: seq<unit>, bigEndian: bool, i: nat)
    requires i < |text|
    ensures var b, low, high := EncodedUtf32(text, bigEndian), LowerByte(text[i]), UpperByte(text[i]);
      |b| == 4 * |text| && b[4 * i..4 * i + 4] == if bigEndian then [high, low, 0, 0] else [low, high, 0, 0]
  {
    hide Store32, Wide, LowerByte, UpperByte;
    Utf32Order(text[0]);
    var b, rest := EncodedUtf32(text, bigEndian), EncodedUtf32(text[1..], bigEndian);
    if |text| > 1 {
      Utf32At(text[1..], bigEndian, if i > 0 then i - 1 else 0);
    }
    assert b == Store32(Wide(text[0], bigEndian)) + rest;
    if i > 0 {
      Behind(b[..4], rest, 4 * i, 4 * i + 4);
    }
  }

  lemma {:induction false} Utf32ReadAt(data: seq<byte>, bigEndian: bool, i: nat)
    requires i < |data| / 4
    ensures var text := DecodedUtf32(data, bigEndian);
      && |text| == |data| / 4
      && text[i] == if bigEndian then UnitOf(data[4 * i + 2], data[4 * i + 3]) else UnitOf(data[4 * i + 1], data[4 * i])
  {
    hide Load32, Narrow, UnitOf;
    Utf32Halves(data[0], data[1], data[2], data[3]);
    if |data| >= 8 {
      Utf32ReadAt(data[4..], bigEndian, if i > 0 then i - 1 else 0);
    }
  }

  lemma BackIs(u: unit)
    ensures Back(u, false) == u && Back(u, true) == 0
  {
  }

  lemma Utf32LeRoundTrip(text: seq<unit>)
    ensures DecodedUtf32(EncodedUtf32(text, false), false) == text
  {
    hide Back, EncodedUtf32, DecodedUtf32;
    Utf32UnitByUnit(text, false);
    forall i | 0 <= i < |text|
      ensures Back(text[i], false) == text[i]
    {
      BackIs(text[i]);
    }
  }

  /** UTF-32BE as written: every unit comes back as zero, so only such text survives. */
  lemma Utf32BeRoundTripIff(text: seq<unit>)
    ensures DecodedUtf32(EncodedUtf32(text, true), true) == text <==> forall i :: 0 <= i < |text| ==> text[i] == 0
  {
    hide Back, EncodedUtf32, DecodedUtf32;
    Utf32UnitByUnit(text, true);
    forall i | 0 <= i < |text|
      ensures Back(text[i], true) == 0
    {
      BackIs(text[i]);
    }
  }
}
