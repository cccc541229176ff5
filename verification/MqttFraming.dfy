/** MQTT control packets on the wire: section 2.2 of MQTT 3.1.1. */
module MqttFraming {
  import opened Bytes

  const MAX_MESSAGE_PAYLOAD := 8388608     // kMAX_MESSAGE_PAYLOAD
  const LENGTH_LIMIT := 268435456          // what four length bytes hold

  datatype Packet = Packet(header: byte, body: seq<byte>)

  // ---- the remaining length

  /** The value of the length bytes, least significant first, seven bits each (section 2.2.3). */
  function Value(digits: seq<byte>): nat {
    if digits == [] then 0 else Low7(digits[0]) + 128 * Value(digits[1..])
  }

  predicate More(b: byte) {
    b & 0x80 == 0x80
  }

  function Digit(n: nat, more: bool): byte
    requires n < 128
  {
    if more then AsByte(n) | 0x80 else AsByte(n)
  }

  lemma DigitParts(n: nat, more: bool)
    requires n < 128
    ensures Low7(Digit(n, more)) == n && More(Digit(n, more)) == more
  {
    LowByte(n);
    SevenBits(AsByte(n));
  }

  /** The length bytes of `n`: as few as possible, each but the last with its top bit set. */
  function Digits(n: nat): seq<byte> {
    if n < 128 then [Digit(n, false)] else [Digit(n % 128, true)] + Digits(n / 128)
  }

  /** Exactly one length field at the start: only its last byte has the top bit clear. */
  predicate OneField(digits: seq<byte>) {
    digits != [] && !More(digits[|digits| - 1]) && forall i :: 0 <= i < |digits| - 1 ==> More(digits[i])
  }

  lemma {:induction false} DigitsRoundTrip(n: nat)
    ensures OneField(Digits(n)) && Value(Digits(n)) == n
  {
    hide Digit, Low7, More;
    if n < 128 {
      DigitParts(n, false);
      assert Value(Digits(n)[1..]) == 0;
    } else {
      DigitParts(n % 128, true);
      DigitsRoundTrip(n / 128);
      assert Digits(n)[1..] == Digits(n / 128);
      assert forall i :: 0 < i < |Digits(n)| ==> Digits(n)[i] == Digits(n / 128)[i - 1];
    }
  }

  function Power128(k: nat): nat {
    if k == 0 then 1 else 128 * Power128(k - 1)
  }

  /** The shortest form: one byte more is used only when the value needs it. */
  lemma {:induction false} DigitsShortest(n: nat)
    ensures n < Power128(|Digits(n)|)
    ensures |Digits(n)| > 1 ==> n >= Power128(|Digits(n)| - 1)
  {
    if n >= 128 {
      DigitsShortest(n / 128);
    }
  }

  /** The length bytes in numbers: the digits to the base 128, with 128 added to all but the last. */
  lemma DigitsInNumbers(n: nat)
    requires n < LENGTH_LIMIT
    ensures var d := Digits(n);
      && |d| == (if n < 128 then 1 else if n < 16384 then 2 else if n < 2097152 then 3 else 4)
      && d[0] as nat == n % 128 + (if |d| > 1 then 128 else 0)
      && (|d| > 1 ==> d[1] as nat == n / 128 % 128 + if |d| > 2 then 128 else 0)
      && (|d| > 2 ==> d[2] as nat == n / 16384 % 128 + if |d| > 3 then 128 else 0)
      && (|d| > 3 ==> d[3] as nat == n / 2097152 % 128)
  {
    hide Digit, Digits;
    var n1, n2, n3 := n / 128, n / 16384, n / 2097152;
    assert n2 == n1 / 128 && n3 == n2 / 128;
    OneDigit(n);
    OneDigit(n1);
    OneDigit(n2);
    OneDigit(n3);
  }

  lemma OneDigit(n: nat)
    ensures var d := Digits(n);
      && d == [d[0]] + (if n >= 128 then Digits(n / 128) else [])
      && d[0] as nat == n % 128 + if n >= 128 then 128 else 0
  {
    hide Digit, Low7, More;
    DigitsStep(n);
    DigitParts(n % 128, n >= 128);
    Low7Is(Digits(n)[0]);
    MoreIs(Digits(n)[0]);
  }

  lemma MoreIs(b: byte)
    ensures More(b) == (b >= 128)
  {
  }

  lemma AtMostFour(n: nat)
    requires n < LENGTH_LIMIT
    ensures 1 <= |Digits(n)| <= 4
  {
    DigitsShortest(n);
    if |Digits(n)| > 4 {
      PowerGrows(4, |Digits(n)| - 1);
    }
  }

  lemma {:induction false} PowerGrows(a: nat, b: nat)
    requires a <= b
    ensures Power128(a) <= Power128(b)
    decreases b
  {
    if a < b {
      PowerGrows(a, b - 1);
    }
  }

  // ---- writing

  function Encode(p: Packet): seq<byte> {
    [p.header] + Digits(|p.body|) + p.body
  }

  function Uint16(n: nat): (r: seq<byte>)
    requires n < 65536
    ensures |r| == 2
  {
    [AsByte(n / 256), AsByte(n % 256)]
  }

  /** The high byte first. */
  lemma Uint16Order(n: nat)
    requires n < 65536
    ensures Uint16(n)[0] as nat * 256 + Uint16(n)[1] as nat == n
  {
    hide AsByte;
    ByteValue(n / 256);
    ByteValue(n % 256);
  }

  /** WriteUTF8String: the length is cast to 16 bits, the bytes are not cut. */
  function Utf8(s: seq<byte>): seq<byte> {
    Uint16(|s| % 65536) + s
  }

  lemma DigitsStep(n: nat)
    ensures Digits(n) == [Digit(n % 128, n >= 128)] + if n >= 128 then Digits(n / 128) else []
    ensures |Digits(n)| >= 1
  {
    hide Digit;
  }

  method LengthByte(length: nat) returns (temp: byte, rest: nat)
    ensures temp == Digit(length % 128, length >= 128) && rest == length / 128
  {
    temp := (length % 128) as byte;
    rest := length / 128;
    if rest > 0 {
      temp := temp | 0x80;
    }
  }

  class MQTTPacket {
    var header: byte
    var buffer: seq<byte>

    constructor (messageType: byte)
      requires messageType < 16
      ensures header == messageType << 4 && buffer == []
    {
      header, buffer := messageType << 4, [];
    }

    method WriteRawBytes(value: seq<byte>)
      modifies this`buffer
      ensures buffer == old(buffer) + value
    {
      buffer := buffer + value;
    }

    method WriteUint16(value: nat)
      requires value < 65536
      modifies this`buffer
      ensures buffer == old(buffer) + Uint16(value)
    {
      WriteRawBytes([AsByte(value / 256), AsByte(value % 256)]);
    }

    method WriteUTF8String(value: seq<byte>)
      modifies this`buffer
      ensures buffer == old(buffer) + Utf8(value)
    {
      WriteUint16(|value| % 65536);
      WriteRawBytes(value);
    }

    /** `buf` holds the header and four length bytes; a longer body would run over its end. */
    method ToBuffer() returns (result: seq<byte>)
      requires |buffer| < LENGTH_LIMIT
      ensures result == Encode(Packet(header, buffer))
      ensures var size := |result| - |buffer|;
        size >= 2 && result[0] == header && result[1..size] == Digits(|buffer|) && result[size..] == buffer
    {
      hide Digits, Digit;
      var buf := new byte[5];
      buf[0] := header;
      var count := 1;
      var length: nat := |buffer|;
      AtMostFour(|buffer|);
      var more := true;
      while more
        invariant 1 <= count <= 5 && buf[0] == header
        invariant more ==> buf[1..count] + Digits(length) == Digits(|buffer|)
        invariant !more ==> buf[1..count] == Digits(|buffer|)
        decreases more, length
      {
        DigitsStep(length);
        var temp;
        temp, length := LengthByte(length);
        buf[count] := temp;
        count := count + 1;
        more := length > 0;
        assert buf[1..count] == buf[1..count - 1] + [temp];
      }
      result := buf[..count] + buffer;
      assert buf[..count] == [header] + buf[1..count];
    }
  }

  // ---- reading

  datatype Error = CONNECTION_DISCONN | PAYLOAD_EXCEED

  /** What one run of the read chain ends in: a whole packet and where its body is taken to start. */
  datatype Outcome = Received(buffer: seq<byte>, lengthOffset: nat) | Failed(error: Error)

  /** The first index from `i` on whose byte ends the length field. */
  function FieldEnd(s: seq<byte>, i: nat): (e: nat)
    requires i <= |s|
    ensures i <= e <= |s|
    ensures e < |s| ==> !More(s[e])
    ensures forall k :: i <= k < e ==> More(s[k])
    decreases |s| - i
  {
    if i == |s| || !More(s[i]) then i else FieldEnd(s, i + 1)
  }

  /** What the chain makes of the bytes `s` still to come: only four length bytes are looked at. */
  function Receive(s: seq<byte>): Outcome {
    if |s| < 2 then Failed(CONNECTION_DISCONN) else
    var e := FieldEnd(s, 1);
    if e == |s| then Failed(CONNECTION_DISCONN) else Finish(s, e + 1)
  }

  function Finish(s: seq<byte>, size: nat): Outcome
    requires 2 <= size <= |s|
  {
    var n := Value(s[1..Min(5, size)]);
    if n > MAX_MESSAGE_PAYLOAD then Failed(PAYLOAD_EXCEED)
    else if |s| < size + n then Failed(CONNECTION_DISCONN)
    else Received(s[..size + n], Min(5, size))
  }

  /** The socket's side: `input` are the bytes that will arrive before the connection closes. */
  class MQTTReader {
    var input: seq<byte>
    var buffer: seq<byte>

    /** async_read of `n` more bytes onto the end of the buffer: all of them or an error. */
    method Read(n: nat) returns (ok: bool)
      modifies this
      ensures ok == (n <= |old(input)|)
      ensures ok ==> buffer == old(buffer) + old(input)[..n] && input == old(input)[n..]
    {
      ok := n <= |input|;
      if ok {
        buffer, input := buffer + input[..n], input[n..];
      }
    }

    method OnReadMQTTPacket() returns (outcome: Outcome)
      modifies this
      ensures outcome == Receive(old(input))
      ensures outcome.Received? ==> buffer == outcome.buffer && buffer + input == old(input)
    {
      hide Finish, More;
      buffer := [];
      ghost var all := input;
      var ok := Read(2);
      if !ok {
        return Failed(CONNECTION_DISCONN);
      }
      assert buffer[1] == all[1];
      assert buffer + input == all;
      if More(buffer[1]) {
        outcome := OnReadMQTTPacketLength(2, all);
      } else {
        outcome := OnReadMQTTPacketLengthCompleted(all);
      }
    }

    method OnReadMQTTPacketLength(offset: nat, ghost all: seq<byte>) returns (outcome: Outcome)
      requires 2 <= offset == |buffer| && buffer + input == all
      modifies this
      ensures outcome == var e := FieldEnd(all, offset);
                         if e == |all| then Failed(CONNECTION_DISCONN) else Finish(all, e + 1)
      ensures outcome.Received? ==> buffer == outcome.buffer && buffer + input == all
      decreases |input|
    {
      var ok := Read(1);
      if !ok {
        return Failed(CONNECTION_DISCONN);
      }
      assert buffer + input == all;
      assert buffer[offset] == all[offset];
      if More(buffer[offset]) {
        outcome := OnReadMQTTPacketLength(offset + 1, all);
      } else {
        outcome := OnReadMQTTPacketLengthCompleted(all);
      }
    }

    method OnReadMQTTPacketLengthCompleted(ghost all: seq<byte>) returns (outcome: Outcome)
      requires |buffer| >= 2 && buffer + input == all
      modifies this
      ensures outcome == Finish(all, |old(buffer)|)
      ensures outcome.Received? ==> buffer == outcome.buffer && buffer + input == all
    {
      hide Value, Low7;
      var length, lengthOffset := ReadLength();
      assert buffer[1..Min(5, |buffer|)] == all[1..Min(5, |buffer|)];
      if length > MAX_MESSAGE_PAYLOAD {
        return Failed(PAYLOAD_EXCEED);
      }
      ghost var size := |buffer|;
      if length > 0 {
        var ok := Read(length);
        if !ok {
          return Failed(CONNECTION_DISCONN);
        }
      }
      assert buffer + input == all;
      assert buffer == all[..size + length];
      return Received(buffer, lengthOffset);
    }

    /** The loop over the length bytes. No two of them share a bit, so adding is what `|=` does. */
    method ReadLength() returns (length: nat, lengthOffset: nat)
      requires |buffer| >= 2
      ensures lengthOffset == Min(5, |buffer|) && length == Value(buffer[1..lengthOffset])
      ensures length == Low7(buffer[1]) + (if |buffer| > 2 then Low7(buffer[2]) * 128 else 0)
              + (if |buffer| > 3 then Low7(buffer[3]) * 16384 else 0)
              + if |buffer| > 4 then Low7(buffer[4]) * 2097152 else 0
    {
      hide Value, Low7;
      length := 0;
      var i := 1;
      var weight := 1;
      NoValue(buffer[1..1]);
      while i < 5 && i < |buffer|
        invariant 1 <= i <= Min(5, |buffer|)
        invariant weight == Power128(i - 1) && length == Value(buffer[1..i])
      {
        var l := buffer[i];
        assert buffer[1..i + 1] == buffer[1..i] + [l];
        ValueMore(buffer[1..i], l);
        length := length + Low7(l) * weight;
        weight := 128 * weight;
        i := i + 1;
      }
      lengthOffset := i;
      ValueInNumbers(buffer[1..i]);
    }
  }

  lemma ValueInNumbers(digits: seq<byte>)
    requires 1 <= |digits| <= 4
    ensures Value(digits) == Low7(digits[0]) + (if |digits| > 1 then Low7(digits[1]) * 128 else 0)
            + (if |digits| > 2 then Low7(digits[2]) * 16384 else 0)
            + if |digits| > 3 then Low7(digits[3]) * 2097152 else 0
  {
    hide Low7;
    var d1 := digits[1..];
    var d2 := if |d1| > 0 then d1[1..] else [];
    var d3 := if |d2| > 0 then d2[1..] else [];
    assert |d3| > 0 ==> d3[1..] == [];
    assert Value(digits) == Low7(digits[0]) + 128 * Value(d1);
    assert |d1| > 0 ==> Value(d1) == Low7(digits[1]) + 128 * Value(d2);
    assert |d2| > 0 ==> Value(d2) == Low7(digits[2]) + 128 * Value(d3);
    assert |d3| > 0 ==> Value(d3) == Low7(digits[3]);
  }

  lemma NoValue(digits: seq<byte>)
    requires digits == []
    ensures Value(digits) == 0
  {
  }

  lemma {:induction false} ValueMore(digits: seq<byte>, b: byte)
    ensures Value(digits + [b]) == Value(digits) + Low7(b) * Power128(|digits|)
  {
    hide Low7;
    if digits == [] {
      assert (digits + [b])[1..] == [];
    } else {
      assert (digits + [b])[1..] == digits[1..] + [b];
      ValueMore(digits[1..], b);
      var p := Power128(|digits| - 1);
      assert 128 * (Low7(b) * p) == Low7(b) * (128 * p);
    }
  }

  // ---- framing round trip

  function Encodings(packets: seq<Packet>): seq<seq<byte>> {
    seq(|packets|, i requires 0 <= i < |packets| => Encode(packets[i]))
  }

  /** The packets the client sees, reading one after the other until the chain fails. */
  function ReadAll(s: seq<byte>): seq<Packet>
    decreases |s|
  {
    match Receive(s)
    case Failed(_) => []
    case Received(buffer, offset) => [Packet(buffer[0], buffer[offset..])] + ReadAll(s[|buffer|..])
  }

  lemma EncodedIsReceived(p: Packet, tail: seq<byte>)
    requires |p.body| <= MAX_MESSAGE_PAYLOAD
    ensures Receive(Encode(p) + tail) == Received(Encode(p), 1 + |Digits(|p.body|)|)
  {
    hide Digits, Value, More, Power128;
    var s, d := Encode(p) + tail, Digits(|p.body|);
    DigitsRoundTrip(|p.body|);
    AtMostFour(|p.body|);
    assert s == [p.header] + d + p.body + tail;
    assert forall i :: 0 <= i < |d| ==> s[1 + i] == d[i];
    EndOfField(s, d, 1);
    assert s[1..1 + |d|] == d;
    assert s[..1 + |d| + |p.body|] == Encode(p);
  }

  lemma {:induction false} EndOfField(s: seq<byte>, d: seq<byte>, i: nat)
    requires OneField(d) && |s| >= 1 + |d| && 1 <= i <= |d|
    requires forall k :: 0 <= k < |d| ==> s[1 + k] == d[k]
    ensures FieldEnd(s, i) == |d|
    decreases |d| - i
  {
    hide More;
    assert s[1 + (i - 1)] == d[i - 1];
    if i < |d| {
      EndOfField(s, d, i + 1);
    }
  }

  /** Whatever follows, the concatenated encodings of any packets are read back one by one. */
  lemma {:induction false} FramesRoundTrip(packets: seq<Packet>, tail: seq<byte>)
    requires forall p :: p in packets ==> |p.body| <= MAX_MESSAGE_PAYLOAD
    ensures ReadAll(Flatten(Encodings(packets)) + tail) == packets + ReadAll(tail)
  {
    hide Receive, Digits;
    var all := Flatten(Encodings(packets)) + tail;
    if packets == [] {
      assert all == tail;
    } else {
      var p, rest := packets[0], packets[1..];
      assert Encodings(packets)[1..] == Encodings(rest);
      var after := Flatten(Encodings(rest)) + tail;
      assert all == Encode(p) + after;
      EncodedIsReceived(p, after);
      assert all[|Encode(p)|..] == after;
      assert Encode(p)[1 + |Digits(|p.body|)|..] == p.body;
      FramesRoundTrip(rest, tail);
    }
  }

  /** A packet that is not all there is a lost connection, wherever it is cut. */
  lemma CutShort(p: Packet, k: nat)
    requires |p.body| <= MAX_MESSAGE_PAYLOAD && k < |Encode(p)|
    ensures Receive(Encode(p)[..k]) == Failed(CONNECTION_DISCONN)
  {
    hide Digits, Value, More, Power128;
    var s, d := Encode(p)[..k], Digits(|p.body|);
    DigitsRoundTrip(|p.body|);
    AtMostFour(|p.body|);
    assert forall i :: 0 <= i < |d| && 1 + i < k ==> s[1 + i] == d[i];
    if k > |d| {
      EndOfField(s, d, 1);
      assert s[1..1 + |d|] == d;
    }
  }

  /** A packet too long is refused instead. */
  lemma TooLongIsRefused(p: Packet, tail: seq<byte>)
    requires MAX_MESSAGE_PAYLOAD < |p.body| < LENGTH_LIMIT
    ensures Receive(Encode(p) + tail) == Failed(PAYLOAD_EXCEED)
  {
    hide Digits, Value, More, Power128;
    var s, d := Encode(p) + tail, Digits(|p.body|);
    DigitsRoundTrip(|p.body|);
    AtMostFour(|p.body|);
    assert s == [p.header] + d + p.body + tail;
    assert forall i :: 0 <= i < |d| ==> s[1 + i] == d[i];
    EndOfField(s, d, 1);
    assert s[1..1 + |d|] == d;
  }

  /** On any input: what is received is one packet with its own length field, and the body is taken to
      start where it does exactly when the length field has the four bytes section 2.2.3 allows. */
  lemma ReceivedIsFramed(s: seq<byte>, size: nat)
    requires Receive(s).Received? && size == FieldEnd(s, 1) + 1
    ensures var r := Receive(s);
      && r.buffer <= s && 2 <= size <= |r.buffer| && OneField(r.buffer[1..size])
      && (r.lengthOffset == size <==> size <= 5)
      && (size <= 5 ==> |r.buffer[r.lengthOffset..]| == Value(r.buffer[1..size]))
  {
    hide OneField, Value, FieldEnd;
    var r, n := Receive(s), Value(s[1..Min(5, size)]);
    assert r == Received(s[..size + n], Min(5, size));
    assert s[..size + n][1..size] == s[1..size];
    FieldIsOne(s, size);
  }

  lemma FieldIsOne(s: seq<byte>, size: nat)
    requires 2 <= size <= |s| && FieldEnd(s, 1) == size - 1
    ensures OneField(s[1..size])
  {
    hide More, FieldEnd;
    var field := s[1..size];
    assert field[|field| - 1] == s[size - 1];
    forall i | 0 <= i < |field| - 1
      ensures More(field[i])
    {
      assert field[i] == s[1 + i];
    }
  }

  /** A length field of five bytes: the body is taken to start at its last one. */
  lemma FiveLengthBytes()
    ensures var s: seq<byte> := [0x30, 0x80, 0x80, 0x80, 0x80, 0x00];
      Receive(s) == Received(s, 5) && FieldEnd(s, 1) + 1 == 6
  {
    hide Value;
    var s: seq<byte> := [0x30, 0x80, 0x80, 0x80, 0x80, 0x00];
    FieldEndsAt(s, 5);
    var zeros := s[1..5];
    ZeroDigits(zeros);
    assert s[..6] == s;
  }

  lemma FieldEndsAt(s: seq<byte>, e: nat)
    requires 1 <= e < |s| && !More(s[e]) && forall k :: 1 <= k < e ==> More(s[k])
    ensures FieldEnd(s, 1) == e
  {
  }

  lemma {:induction false} ZeroDigits(digits: seq<byte>)
    requires forall i :: 0 <= i < |digits| ==> digits[i] == 0x80
    ensures Value(digits) == 0
  {
    if digits != [] {
      ZeroDigits(digits[1..]);
    }
  }

  // ---- PUBLISH

  datatype Publish = Publish(topic: seq<byte>, id: nat, payload: seq<byte>)

  function PublishHeader(qos: byte, retain: bool): byte {
    (3 << 4) | ((qos & 0x3) << 1) | (if retain then 1 else 0)
  }

  function Qos(header: byte): byte {
    (header >> 1) & 0x3
  }

  function MessageType(header: byte): byte {
    header >> 4
  }

  /** The packet type is the upper half of the header, the QoS its bits 1 and 2. */
  lemma HeaderBits(header: byte)
    ensures MessageType(header) << 4 == header & 0xF0 && Qos(header) << 1 == header & 0x06
  {
  }

  lemma HeaderParts(qos: byte, retain: bool)
    requires qos < 4
    ensures Qos(PublishHeader(qos, retain)) == qos && MessageType(PublishHeader(qos, retain)) == 3
    ensures (PublishHeader(qos, retain) & 1 == 1) == retain && PublishHeader(qos, retain) & 0x08 == 0
  {
  }

  function PublishBody(p: Publish, qos: byte): seq<byte>
    requires p.id < 65536
  {
    Utf8(p.topic) + (if qos > 0 then Uint16(p.id) else []) + p.payload
  }

  /** The body byte by byte: the length of the topic and the topic, the identifier if there is a QoS, the payload. */
  lemma PublishLayout(p: Publish, qos: byte)
    requires p.id < 65536
    ensures var b := PublishBody(p, qos); var e := 2 + |p.topic|; var start := if qos > 0 then e + 2 else e;
      && |b| == start + |p.payload| && b[0] as nat * 256 + b[1] as nat == |p.topic| % 65536
      && b[2..e] == p.topic && b[start..] == p.payload
      && (qos > 0 ==> b[e] as nat * 256 + b[e + 1] as nat == p.id)
  {
    hide Uint16;
    Uint16Order(|p.topic| % 65536);
    Uint16Order(p.id);
  }

  /** The packet Publish hands to its write. */
  method MakePublish(p: Publish, qos: byte, retain: bool) returns (buffer: seq<byte>)
    requires p.id < 65536 && qos < 4 && |p.topic| + |p.payload| + 4 < LENGTH_LIMIT
    ensures buffer == Encode(Packet(PublishHeader(qos, retain), PublishBody(p, qos)))
  {
    var packet := new MQTTPacket(3);
    packet.header := packet.header | ((qos & 0x3) << 1) | (if retain then 1 else 0);
    packet.WriteUTF8String(p.topic);
    if Qos(packet.header) > 0 {
      packet.WriteUint16(p.id);
    }
    packet.WriteRawBytes(p.payload);
    assert packet.buffer == PublishBody(p, qos);
    buffer := packet.ToBuffer();
  }

  function At16(b: seq<byte>, offset: nat): nat
    requires offset + 2 <= |b|
  {
    b[offset] as nat * 256 + b[offset + 1] as nat
  }

  /** A string that runs past the end is taken as empty, and only its length is passed over. */
  function StringEnd(b: seq<byte>, offset: nat): (e: nat)
    requires offset + 2 <= |b|
    ensures offset + 2 <= e <= |b|
  {
    var n := At16(b, offset);
    if |b| >= offset + 2 + n then offset + 2 + n else offset + 2
  }

  /** The body is long enough to be read without leaving the buffer, which the code does not check. */
  predicate Readable(b: seq<byte>, offset: nat, qos: byte) {
    offset + 2 <= |b| && (qos > 0 ==> StringEnd(b, offset) + 2 <= |b|)
  }

  function ParsePublish(b: seq<byte>, offset: nat, qos: byte): Publish
    requires Readable(b, offset, qos)
  {
    var e := StringEnd(b, offset);
    if qos > 0 then Publish(b[offset + 2..e], At16(b, e), b[e + 2..]) else Publish(b[offset + 2..e], 0, b[e..])
  }

  method ReadUint16(buffer: seq<byte>, offset: nat) returns (value: nat, next: nat)
    requires offset + 2 <= |buffer|
    ensures value == At16(buffer, offset) && next == offset + 2
    ensures value == buffer[offset] as nat * 256 + buffer[offset + 1] as nat
  {
    value := buffer[offset] as nat * 256 + buffer[offset + 1] as nat;
    next := offset + 2;
  }

  method ReadUTF8String(buffer: seq<byte>, offset: nat) returns (value: seq<byte>, next: nat)
    requires offset + 2 <= |buffer|
    ensures next == StringEnd(buffer, offset) && value == buffer[offset + 2..next]
    ensures var n := buffer[offset] as nat * 256 + buffer[offset + 1] as nat;
      next == if offset + 2 + n <= |buffer| then offset + 2 + n else offset + 2
  {
    var n, start := ReadUint16(buffer, offset);
    value, next := [], start;
    if |buffer| >= next + n {
      value, next := buffer[next..next + n], next + n;
    }
  }

  /** The PUBLISH case of onReadMQTTPacketCompleted, up to the message callback. */
  method ReadPublish(buffer: seq<byte>, lengthOffset: nat) returns (p: Publish)
    requires buffer != [] && Readable(buffer, lengthOffset, Qos(buffer[0]))
    ensures p == ParsePublish(buffer, lengthOffset, Qos(buffer[0]))
  {
    var topic, offset := ReadUTF8String(buffer, lengthOffset);
    var id := 0;
    if Qos(buffer[0]) > 0 {
      id, offset := ReadUint16(buffer, offset);
    }
    p := Publish(topic, id, buffer[offset..]);
  }

  lemma Uint16RoundTrip(a: seq<byte>, n: nat, c: seq<byte>)
    requires n < 65536
    ensures At16(a + Uint16(n) + c, |a|) == n
  {
    hide AsByte;
    var b := a + Uint16(n) + c;
    assert b[|a|] == AsByte(n / 256) && b[|a| + 1] == AsByte(n % 256);
    ByteValue(n / 256);
    ByteValue(n % 256);
  }

  /** A publish body read back from behind any `front`: topic, identifier and payload, exactly when the
      topic's length fits its 16 bits. */
  lemma PublishRoundTrip(front: seq<byte>, p: Publish, qos: byte)
    requires p.id < 65536 && (qos == 0 ==> p.id == 0)
    ensures var b := front + PublishBody(p, qos);
      && Readable(b, |front|, qos)
      && (ParsePublish(b, |front|, qos) == p <==> |p.topic| < 65536)
  {
    hide At16, Uint16;
    var b := front + PublishBody(p, qos);
    var id := if qos > 0 then Uint16(p.id) else [];
    var n := |p.topic| % 65536;
    assert b == front + Uint16(n) + (p.topic + id + p.payload);
    Uint16RoundTrip(front, n, p.topic + id + p.payload);
    var e := StringEnd(b, |front|);
    assert e == |front| + 2 + n;
    if |p.topic| < 65536 {
      assert b[|front| + 2..e] == p.topic;
      assert b[e..] == id + p.payload;
      if qos > 0 {
        assert b == front + Uint16(n) + p.topic + Uint16(p.id) + p.payload;
        Uint16RoundTrip(front + Uint16(n) + p.topic, p.id, p.payload);
      }
    } else {
      assert |b[|front| + 2..e]| == n;
    }
  }

  /** A publish from one client to another: written, framed, cut out of the stream and parsed. */
  lemma PublishArrives(p: Publish, qos: byte, retain: bool, tail: seq<byte>)
    requires p.id < 65536 && qos < 4 && (qos == 0 ==> p.id == 0)
    requires |PublishBody(p, qos)| <= MAX_MESSAGE_PAYLOAD
    ensures var r := Receive(Encode(Packet(PublishHeader(qos, retain), PublishBody(p, qos))) + tail);
      && r.Received? && MessageType(r.buffer[0]) == 3 && Qos(r.buffer[0]) == qos
      && Readable(r.buffer, r.lengthOffset, qos)
      && (ParsePublish(r.buffer, r.lengthOffset, qos) == p <==> |p.topic| < 65536)
  {
    hide Receive, PublishHeader, Qos, MessageType, PublishBody, Digits, Readable, ParsePublish;
    var packet := Packet(PublishHeader(qos, retain), PublishBody(p, qos));
    HeaderParts(qos, retain);
    EncodedIsReceived(packet, tail);
    PublishRoundTrip([packet.header] + Digits(|packet.body|), p, qos);
  }
}
