/** WebSocket frames on the wire: sections 5.2 and 5.3 of RFC 6455. */
module WebSocketFrames {
  import opened Bytes

  /** `key` is the masking key: four bytes, or none when the frame is not masked. */
  datatype Frame = Frame(fin: bool, opcode: byte, key: seq<byte>, payload: seq<byte>)

  ghost predicate Sound(f: Frame) {
    f.opcode < 16 && (f.key == [] || |f.key| == 4) && |f.payload| < 0x1_0000_0000_0000_0000
  }

  // ---- numbers in network order

  function BigEndian(n: nat, k: nat): (r: seq<byte>)
    ensures |r| == k
  {
    if k == 0 then [] else BigEndian(n / 256, k - 1) + [AsByte(n % 256)]
  }

  function Value(s: seq<byte>): nat {
    if s == [] then 0 else Value(s[..|s| - 1]) * 256 + s[|s| - 1] as nat
  }

  function Power256(k: nat): nat {
    if k == 0 then 1 else 256 * Power256(k - 1)
  }

  lemma {:induction false} BigEndianValue(n: nat, k: nat)
    requires n < Power256(k)
    ensures Value(BigEndian(n, k)) == n
  {
    hide AsByte;
    if k > 0 {
      BigEndianValue(n / 256, k - 1);
      ByteValue(n % 256);
      assert BigEndian(n, k)[..k - 1] == BigEndian(n / 256, k - 1);
    }
  }

  lemma {:induction false} ValueBound(s: seq<byte>)
    ensures Value(s) < Power256(|s|)
  {
    if s != [] {
      ValueBound(s[..|s| - 1]);
      ByteBound(s[|s| - 1]);
    }
  }

  lemma ByteBound(b: byte)
    ensures b as nat < 256
  {
  }

  // ---- the length field

  /** The low seven bits of the second byte, and the extended length behind it. */
  datatype Length = Length(low: nat, extended: seq<byte>)

  /** The value a length field stands for. */
  function LengthValue(l: Length): nat {
    if l.low < 126 then l.low else Value(l.extended)
  }

  /** 0, 2 or 8 extended bytes, as the low bits say. */
  predicate Formed(l: Length) {
    l.low < 128 && |l.extended| == ExtendedSize(l.low)
  }

  function ExtendedSize(low: nat): nat {
    if low < 126 then 0 else if low == 126 then 2 else 8
  }

  function LengthOf(n: nat): Length
    requires n < 0x1_0000_0000_0000_0000
  {
    if n < 126 then Length(n, [])
    else if n < 65536 then Length(126, BigEndian(n, 2))
    else Length(127, BigEndian(n, 8))
  }

  lemma Powers()
    ensures Power256(2) == 65536 && Power256(8) == 0x1_0000_0000_0000_0000
  {
    assert Power256(4) == 0x1_0000_0000;
    assert Power256(5) == 256 * Power256(4);
    assert Power256(6) == 256 * Power256(5);
    assert Power256(7) == 256 * Power256(6);
  }

  lemma LengthRoundTrip(n: nat)
    requires n < 0x1_0000_0000_0000_0000
    ensures Formed(LengthOf(n)) && LengthValue(LengthOf(n)) == n
  {
    hide Power256, BigEndian, Value;
    Powers();
    if 126 <= n < 65536 {
      BigEndianValue(n, 2);
    } else if n >= 65536 {
      BigEndianValue(n, 8);
    }
  }

  /** The shortest form that can say the length is the one that is used. */
  lemma ShortestLength(n: nat, l: Length)
    requires n < 0x1_0000_0000_0000_0000 && Formed(l) && LengthValue(l) == n
    ensures |LengthOf(n).extended| <= |l.extended|
  {
    Powers();
    ValueBound(l.extended);
  }

  // ---- masking

  function Masked(data: seq<byte>, key: seq<byte>): (r: seq<byte>)
    requires |key| == 4
    ensures |r| == |data|
  {
    seq(|data|, i requires 0 <= i < |data| => data[i] ^ key[i % 4])
  }

  lemma MaskingCancels(data: seq<byte>, key: seq<byte>)
    requires |key| == 4
    ensures Masked(Masked(data, key), key) == data
  {
    forall i | 0 <= i < |data|
      ensures Masked(Masked(data, key), key)[i] == data[i]
    {
      XorTwice(data[i], key[i % 4]);
    }
  }

  lemma XorTwice(a: byte, b: byte)
    ensures (a ^ b) ^ b == a
  {
  }

  // ---- the encoding

  function FirstByte(fin: bool, opcode: byte): byte {
    if fin then opcode | 0x80 else opcode
  }

  function SecondByte(low: nat, mask: bool): byte
    requires low < 128
  {
    if mask then AsByte(low) | 0x80 else AsByte(low)
  }

  lemma FirstByteParts(fin: bool, opcode: byte)
    requires opcode < 16
    ensures (FirstByte(fin, opcode) & 0x80 == 0x80) == fin && FirstByte(fin, opcode) & 0x0F == opcode
    ensures FirstByte(fin, opcode) & 0x7F == opcode
  {
  }

  lemma SecondByteParts(low: nat, mask: bool)
    requires low < 128
    ensures (SecondByte(low, mask) & 0x80 == 0x80) == mask && Low7(SecondByte(low, mask)) == low
  {
    LowByte(low);
    SevenBits(AsByte(low));
  }

  function Encode(f: Frame): seq<byte>
    requires Sound(f)
  {
    var l := LengthOf(|f.payload|);
    [FirstByte(f.fin, f.opcode), SecondByte(l.low, f.key != [])] + l.extended + Body(f)
  }

  function Body(f: Frame): seq<byte>
    requires f.key == [] || |f.key| == 4
  {
    if f.key == [] then f.payload else f.key + Masked(f.payload, f.key)
  }

  function HeaderSize(n: nat): nat {
    if n < 126 then 2 else if n < 65536 then 4 else 10
  }

  /** The header of section 5.2: the two flag bytes, and the length as a number. */
  lemma WireHeader(f: Frame)
    requires Sound(f)
    ensures var s, n := Encode(f), |f.payload|;
      && |s| == HeaderSize(n) + |Body(f)| && s[HeaderSize(n)..] == Body(f)
      && (s[0] & 0x80 == 0x80) == f.fin && s[0] & 0x7F == f.opcode
      && (s[1] & 0x80 == 0x80) == (f.key != [])
      && Low7(s[1]) == (if n < 126 then n else if n < 65536 then 126 else 127)
      && (HeaderSize(n) == 4 ==> n == s[2] as nat * 0x100 + s[3] as nat)
      && (HeaderSize(n) == 10 ==>
            n == s[9] as nat + s[8] as nat * 0x100 + s[7] as nat * 0x1_0000 + s[6] as nat * 0x100_0000
                 + s[5] as nat * 0x1_0000_0000 + s[4] as nat * 0x100_0000_0000 + s[3] as nat * 0x1_0000_0000_0000
                 + s[2] as nat * 0x100_0000_0000_0000)
  {
    hide LengthOf, FirstByte, SecondByte, Value, BigEndian, Body, Low7;
    var n, l := |f.payload|, LengthOf(|f.payload|);
    LengthRoundTrip(n);
    LengthForm(n);
    FirstByteParts(f.fin, f.opcode);
    SecondByteParts(l.low, f.key != []);
    var s := Encode(f);
    assert s[2..2 + |l.extended|] == l.extended;
    if |l.extended| == 2 {
      ValueOfTwo(s[2..4]);
    } else if |l.extended| == 8 {
      ValueOfEight(s[2..10]);
    }
  }

  /** Behind it, section 5.3: the key, and each byte of the payload xor the byte of the key whose turn it is. */
  lemma WirePayload(f: Frame)
    requires Sound(f)
    ensures var s, h := Encode(f), HeaderSize(|f.payload|) + |f.key|;
      && |s| == h + |f.payload| && s[h - |f.key|..h] == f.key
      && forall i :: 0 <= i < |f.payload| ==>
           s[h + i] == if f.key == [] then f.payload[i] else f.payload[i] ^ f.key[i % 4]
  {
    hide Encode, HeaderSize, Body;
    WireHeader(f);
    var s, h := Encode(f), HeaderSize(|f.payload|);
    BodyBytes(f);
    assert s[h..h + |f.key|] == s[h..][..|f.key|] == f.key;
    assert forall j :: 0 <= j < |Body(f)| ==> s[h..][j] == s[h + j];
    forall i | 0 <= i < |f.payload|
      ensures s[h + |f.key| + i] == if f.key == [] then f.payload[i] else f.payload[i] ^ f.key[i % 4]
    {
      assert s[h..][|f.key| + i] == Body(f)[|f.key| + i];
    }
  }

  lemma BodyBytes(f: Frame)
    requires f.key == [] || |f.key| == 4
    ensures |Body(f)| == |f.key| + |f.payload| && Body(f)[..|f.key|] == f.key
    ensures forall i :: 0 <= i < |f.payload| ==>
      Body(f)[|f.key| + i] == if f.key == [] then f.payload[i] else f.payload[i] ^ f.key[i % 4]
  {
  }

  /** The masked and the unmasked "Hello" of section 5.7. */
  lemma Hello()
    ensures var hello: seq<byte> := [0x48, 0x65, 0x6c, 0x6c, 0x6f];
      && Encode(Frame(true, 1, [], hello)) == [0x81, 0x05] + hello
      && Encode(Frame(true, 1, [0x37, 0xfa, 0x21, 0x3d], hello))
         == [0x81, 0x85, 0x37, 0xfa, 0x21, 0x3d, 0x7f, 0x9f, 0x4d, 0x51, 0x58]
  {
    var hello, key: seq<byte> := [0x48, 0x65, 0x6c, 0x6c, 0x6f], [0x37, 0xfa, 0x21, 0x3d];
    FiveIs();
    assert Masked(hello, key) == [0x7f, 0x9f, 0x4d, 0x51, 0x58];
  }

  lemma FiveIs()
    ensures AsByte(5) == 5
  {
  }

  lemma LengthForm(n: nat)
    requires n < 0x1_0000_0000_0000_0000
    ensures LengthOf(n).low == if n < 126 then n else if n < 65536 then 126 else 127
  {
    hide BigEndian;
  }

  // ---- reading

  /** A frame and the number of bytes it took, or the channel closed. */
  datatype Outcome = Got(frame: Frame, size: nat) | Closed

  /** What the three reads of ReadPacket make of the bytes still to come. A read of zero bytes counts as
      a reset, whatever it was for. */
  function Receive(s: seq<byte>): Outcome {
    if |s| < 2 then Closed else
    var low := Low7(s[1]);
    var start := 2 + ExtendedSize(low);
    if |s| < start then Closed else
    Finish(s, start, LengthValue(Length(low, s[2..start])))
  }

  function Finish(s: seq<byte>, start: nat, n: nat): Outcome
    requires 2 <= start <= |s|
  {
    var keySize := KeySize(s);
    if n + keySize == 0 || |s| < start + keySize + n then Closed else
    var key, data := s[start..start + keySize], s[start + keySize..start + keySize + n];
    Got(Frame(s[0] & 0x80 == 0x80, s[0] & 0x0F, key, if keySize == 4 then Masked(data, key) else data),
        start + keySize + n)
  }

  /** What is delivered, byte by byte off the wire: unmasked with the key in front of the payload. */
  lemma ReceivedPayload(s: seq<byte>)
    requires Receive(s).Got?
    ensures var f, n := Receive(s).frame, Receive(s).size;
      && |f.payload| + (if f.key == [] then 2 else 6) <= n <= |s| && (f.key != []) == (s[1] & 0x80 == 0x80)
      && var start := n - |f.payload|;
      && (f.key == [] ==> f.payload == s[start..n])
      && (f.key != [] ==>
            f.key == s[start - 4..start]
            && forall i :: 0 <= i < |f.payload| ==> f.payload[i] == s[start + i] ^ s[start - 4 + i % 4])
  {
    hide Low7, LengthValue, ExtendedSize;
    var f, n := Receive(s).frame, Receive(s).size;
    var start := n - |f.payload|;
    if f.key != [] {
      var data := s[start..n];
      assert forall i :: 0 <= i < |f.payload| ==> f.payload[i] == data[i] ^ f.key[i % 4] && data[i] == s[start + i];
      assert forall j :: 0 <= j < 4 ==> f.key[j] == s[start - 4 + j];
    }
  }

  ghost predicate Readable(f: Frame) {
    f.payload != [] || f.key != []
  }

  /** One frame, whatever follows it: read back exactly when it has a payload or a mask. */
  lemma FrameRoundTrip(f: Frame, tail: seq<byte>)
    requires Sound(f)
    ensures Receive(Encode(f) + tail) == if Readable(f) then Got(f, |Encode(f)|) else Closed
  {
    hide LengthOf, Masked, FirstByte, SecondByte, Low7, Value;
    var l, s := LengthOf(|f.payload|), Encode(f) + tail;
    LengthRoundTrip(|f.payload|);
    FirstByteParts(f.fin, f.opcode);
    SecondByteParts(l.low, f.key != []);
    var start := 2 + |l.extended|;
    assert s[0] == FirstByte(f.fin, f.opcode) && s[1] == SecondByte(l.low, f.key != []);
    assert s[2..start] == l.extended;
    assert s[start..start + |Body(f)|] == Body(f);
    BodyRoundTrip(f, s, start);
  }

  lemma BodyRoundTrip(f: Frame, s: seq<byte>, start: nat)
    requires Sound(f) && 2 <= start && start + |Body(f)| <= |s| && s[start..start + |Body(f)|] == Body(f)
    requires (s[1] & 0x80 == 0x80) == (f.key != []) && (s[0] & 0x80 == 0x80) == f.fin && s[0] & 0x0F == f.opcode
    ensures Finish(s, start, |f.payload|) == if Readable(f) then Got(f, start + |Body(f)|) else Closed
  {
    hide Masked;
    if f.key != [] {
      MaskingCancels(f.payload, f.key);
      assert s[start..start + 4] == Body(f)[..4] == f.key;
      assert s[start + 4..start + |Body(f)|] == Body(f)[4..] == Masked(f.payload, f.key);
    } else {
      assert s[start..start] == [];
    }
  }

  /** A frame that is not all there closes the channel, wherever it is cut. */
  lemma CutShort(f: Frame, k: nat)
    requires Sound(f) && k < |Encode(f)|
    ensures Receive(Encode(f)[..k]) == Closed
  {
    hide LengthOf, Masked, FirstByte, SecondByte, Low7, Value;
    var l, s := LengthOf(|f.payload|), Encode(f)[..k];
    LengthRoundTrip(|f.payload|);
    FirstByteParts(f.fin, f.opcode);
    SecondByteParts(l.low, f.key != []);
    var start := 2 + |l.extended|;
    assert |Encode(f)| == start + |Body(f)|;
    assert k >= 2 ==> s[1] == SecondByte(l.low, f.key != []);
    if k >= start {
      assert s[2..start] == l.extended;
      assert Finish(s, start, |f.payload|) == Closed;
    }
  }

  /** The frames a channel delivers, reading one after the other until it closes. */
  function ReadAll(s: seq<byte>): seq<Frame>
    decreases |s|
  {
    match Receive(s)
    case Closed => []
    case Got(f, n) => [f] + ReadAll(s[n..])
  }

  function Encodings(frames: seq<Frame>): seq<seq<byte>>
    requires forall f :: f in frames ==> Sound(f)
  {
    seq(|frames|, i requires 0 <= i < |frames| => Encode(frames[i]))
  }

  /** Whatever follows, any frames with a payload or a mask are read back one by one. */
  lemma {:induction false} FramesRoundTrip(frames: seq<Frame>, tail: seq<byte>)
    requires forall f :: f in frames ==> Sound(f) && Readable(f)
    ensures ReadAll(Flatten(Encodings(frames)) + tail) == frames + ReadAll(tail)
  {
    hide Receive, Encode;
    var all := Flatten(Encodings(frames)) + tail;
    if frames == [] {
      assert all == tail;
    } else {
      var f, rest := frames[0], frames[1..];
      assert f in frames && forall x :: x in rest ==> x in frames;
      assert Encodings(frames)[1..] == Encodings(rest);
      var after := Flatten(Encodings(rest)) + tail;
      assert all == Encode(f) + after;
      FrameRoundTrip(f, after);
      assert all[|Encode(f)|..] == after;
      FramesRoundTrip(rest, tail);
    }
  }

  /** An unmasked empty frame closes the channel: nothing behind it is read. */
  lemma {:induction false} EmptyFrameCloses(before: seq<Frame>, f: Frame, tail: seq<byte>)
    requires forall g :: g in before ==> Sound(g) && Readable(g)
    requires Sound(f) && !Readable(f)
    ensures ReadAll(Flatten(Encodings(before)) + (Encode(f) + tail)) == before
  {
    FramesRoundTrip(before, Encode(f) + tail);
    FrameRoundTrip(f, tail);
  }

  // ---- the classes

  /** The socket's side of a channel: `input` are the bytes that arrive before the peer closes. */
  class WebSocketChannel {
    var input: seq<byte>
    var isOpen: bool

    method AsyncRead(n: nat) returns (ec: bool, data: seq<byte>)
      modifies this`input
      ensures ec == (n > |old(input)|)
      ensures !ec ==> data == old(input)[..n] && input == old(input)[n..]
    {
      ec, data := n > |input|, [];
      if !ec {
        data, input := input[..n], input[n..];
      }
    }

    method CloseSocket()
      modifies this`isOpen
      ensures !isOpen
    {
      isOpen := false;
    }
  }

  class WebSocketHeader {
    var fin: bool
    var opcode: byte
    var mask: bool
    var payloadLength: nat
    var maskingKey: seq<byte>
    var payload: seq<byte>

    ghost predicate Valid()
      reads this
    {
      |maskingKey| == 4 && payloadLength == |payload| && Sound(Contents())
    }

    ghost function Contents(): Frame
      reads this
    {
      Frame(fin, opcode, if mask then maskingKey else [], payload)
    }

    method ToBuffer() returns (buffer: seq<byte>)
      requires Valid()
      ensures buffer == Encode(Contents())
      ensures |buffer| >= |payload| + if mask then 6 else 2
      ensures mask ==> var start := |buffer| - |payload|;
        && buffer[start - 4..start] == maskingKey
        && forall i :: 0 <= i < |payload| ==> buffer[start + i] == payload[i] ^ maskingKey[i % 4]
      ensures !mask ==> buffer[|buffer| - |payload|..] == payload
    {
      hide Encode, Sound;
      buffer := PutFrame();
      WirePayload(Contents());
      assert buffer[|buffer| - |payload|..] == payload <== forall i :: 0 <= i < |payload| ==>
        buffer[|buffer| - |payload| + i] == payload[i];
    }

    method PutFrame() returns (buffer: seq<byte>)
      requires Valid()
      ensures buffer == Encode(Contents())
    {
      hide SecondByte, Masked, LengthOf, BigEndian;
      var first := opcode;
      if fin {
        first := first | 0x80;
      }
      var n := payloadLength;
      var low, extended := PutLength(n);
      if mask {
        var data := PutMasked();
        buffer := [first, SecondByte(low, true)] + extended + maskingKey + data;
        assert buffer == [first, SecondByte(low, true)] + extended + (maskingKey + data);
      } else {
        buffer := [first, SecondByte(low, false)] + extended + payload;
      }
    }

    method PutLength(n: nat) returns (low: nat, extended: seq<byte>)
      requires n < 0x1_0000_0000_0000_0000
      ensures low < 128 && LengthOf(n) == Length(low, extended)
    {
      if n < 126 {
        low, extended := n, [];
      } else if n < 65536 {
        low, extended := 126, [AsByte(n / 0x100 % 256), AsByte(n % 256)];
        TwoBytes(n);
      } else {
        low := 127;
        extended := [AsByte(n / 0x100_0000_0000_0000 % 256), AsByte(n / 0x1_0000_0000_0000 % 256),
                     AsByte(n / 0x100_0000_0000 % 256), AsByte(n / 0x1_0000_0000 % 256),
                     AsByte(n / 0x100_0000 % 256), AsByte(n / 0x1_0000 % 256),
                     AsByte(n / 0x100 % 256), AsByte(n % 256)];
        EightBytes(n);
      }
    }

    method PutMasked() returns (data: seq<byte>)
      requires |maskingKey| == 4 && payloadLength == |payload|
      ensures data == Masked(payload, maskingKey)
    {
      data := [];
      var i := 0;
      while i != payloadLength
        invariant 0 <= i <= payloadLength && |data| == i
        invariant forall k :: 0 <= k < i ==> data[k] == payload[k] ^ maskingKey[k % 4]
      {
        data := data + [payload[i] ^ maskingKey[i % 4]];
        i := i + 1;
      }
    }

    /** The chain ReadPacket, ReadPacketLength, ReadPacketData. */
    method ReadPacket(channel: WebSocketChannel) returns (ok: bool, buffer: seq<byte>)
      requires |maskingKey| == 4
      modifies this, channel
      ensures |maskingKey| == 4
      ensures Delivered(Receive(old(channel.input)), ok, buffer, channel, old(channel.input))
      ensures ok ==> channel.isOpen == old(channel.isOpen)
      ensures ok ==> |old(channel.input)| - |channel.input| >= |buffer| + if mask then 6 else 2
      ensures ok ==> mask == (old(channel.input)[1] & 0x80 == 0x80)
      ensures ok && mask ==>
        var all := old(channel.input); var start := |all| - |channel.input| - |buffer|;
        forall i :: 0 <= i < |buffer| ==> buffer[i] == all[start + i] ^ all[start - 4 + i % 4]
      ensures ok && !mask ==>
        var all := old(channel.input); buffer == all[|all| - |channel.input| - |buffer|..|all| - |channel.input|]
    {
      hide Receive;
      ghost var all := channel.input;
      ok, buffer := ReadHeader(channel);
      if ok {
        ReceivedPayload(all);
      }
    }

    method ReadHeader(channel: WebSocketChannel) returns (ok: bool, buffer: seq<byte>)
      requires |maskingKey| == 4
      modifies this, channel
      ensures |maskingKey| == 4
      ensures Delivered(Receive(old(channel.input)), ok, buffer, channel, old(channel.input))
      ensures ok ==> channel.isOpen == old(channel.isOpen)
    {
      hide Low7, Masked, Value, Finish;
      ghost var all := channel.input;
      ok, buffer := false, [];
      var ec, packet := channel.AsyncRead(2);
      if ec {
        channel.CloseSocket();
        return;
      }
      fin := packet[0] & 0x80 == 0x80;
      opcode := packet[0] & 0x0F;
      mask := packet[1] & 0x80 == 0x80;
      payloadLength := Low7(packet[1]);
      Low7Bound(packet[1]);
      assert packet + channel.input == all;
      if payloadLength < 126 {
        ok, buffer := ReadPacketData(channel, packet, all);
      } else {
        ok, buffer := ReadPacketLength(channel, packet, if payloadLength == 126 then 2 else 8, all);
      }
    }

    method ReadPacketLength(channel: WebSocketChannel, packet: seq<byte>, lengthSize: nat, ghost all: seq<byte>)
      returns (ok: bool, buffer: seq<byte>)
      requires |packet| == 2 && packet + channel.input == all && Flags(packet) && payloadLength in {126, 127}
      requires lengthSize == ExtendedSize(payloadLength) && |maskingKey| == 4
      modifies this`payloadLength, this`payload, this`maskingKey, channel
      ensures |maskingKey| == 4
      ensures if |all| < 2 + lengthSize then !ok && !channel.isOpen
              else Delivered(Finish(all, 2 + lengthSize, Value(all[2..2 + lengthSize])), ok, buffer, channel, all)
                   && (ok ==> channel.isOpen == old(channel.isOpen))
    {
      hide Value, Masked, Finish;
      var ec, more := channel.AsyncRead(lengthSize);
      if ec {
        channel.CloseSocket();
        return false, [];
      }
      var data := packet + more;
      assert data + channel.input == all;
      assert all[2..2 + lengthSize] == data[2..2 + lengthSize] == more;
      TakeLength(data);
      ok, buffer := ReadPacketData(channel, data, all);
    }

    /** The length in network order behind the first two bytes. */
    method TakeLength(data: seq<byte>)
      requires payloadLength in {126, 127} && |data| == 2 + ExtendedSize(payloadLength)
      modifies this`payloadLength
      ensures payloadLength == Value(data[2..])
    {
      hide Value;
      if payloadLength == 126 {
        payloadLength := data[2] as nat * 0x100 + data[3] as nat;
        ValueOfTwo(data[2..]);
      } else {
        payloadLength := data[9] as nat + data[8] as nat * 0x100 + data[7] as nat * 0x1_0000
        + data[6] as nat * 0x100_0000 + data[5] as nat * 0x1_0000_0000 + data[4] as nat * 0x100_0000_0000
        + data[3] as nat * 0x1_0000_0000_0000 + data[2] as nat * 0x100_0000_0000_0000;
        ValueOfEight(data[2..]);
      }
    }

    /** What the first two bytes said is in the fields. */
    ghost predicate Flags(packet: seq<byte>)
      reads this`fin, this`opcode, this`mask
    {
      && |packet| >= 2 && fin == (packet[0] & 0x80 == 0x80) && opcode == packet[0] & 0x0F
      && mask == (packet[1] & 0x80 == 0x80)
    }

    ghost predicate Delivered(
      outcome: Outcome, ok: bool, buffer: seq<byte>, channel: WebSocketChannel, all: seq<byte>)
      reads this, channel
    {
      match outcome
      case Closed => !ok && !channel.isOpen
      case Got(f, n) =>
        && ok && buffer == f.payload && payloadLength == |f.payload| && fin == f.fin && opcode == f.opcode
        && mask == (f.key != []) && (mask ==> maskingKey == f.key) && n <= |all| && channel.input == all[n..]
    }

    method ReadPacketData(channel: WebSocketChannel, packet: seq<byte>, ghost all: seq<byte>)
      returns (ok: bool, buffer: seq<byte>)
      requires packet + channel.input == all && Flags(packet) && |maskingKey| == 4
      modifies this`payload, this`maskingKey, channel
      ensures |maskingKey| == 4
      ensures Delivered(Finish(all, |packet|, payloadLength), ok, buffer, channel, all)
      ensures ok ==> channel.isOpen == old(channel.isOpen)
    {
      hide Masked, Finish;
      var maskKeyLen := if mask then 4 else 0;
      ghost var start, n := |packet|, payloadLength;
      var ec, data := channel.AsyncRead(payloadLength + maskKeyLen);
      if ec || |data| == 0 {
        FinishCloses(all, start, n);
        channel.CloseSocket();
        return false, [];
      }
      payload := data;
      TakenFrom(packet, data, all);
      FinishGets(all, start, n, data);
      if mask {
        maskingKey := payload[..4];
        payload := payload[4..];
        buffer := PutMasked();
      } else {
        buffer := payload;
      }
      ok := true;
    }
  }

  lemma TakenFrom(packet: seq<byte>, data: seq<byte>, all: seq<byte>)
    requires |packet| + |data| <= |all| && packet <= all && data == all[|packet|..][..|data|]
    ensures data == all[|packet|..|packet| + |data|] && all[|packet|..][|data|..] == all[|packet| + |data|..]
  {
  }

  function KeySize(s: seq<byte>): nat
    requires |s| >= 2
  {
    if s[1] & 0x80 == 0x80 then 4 else 0
  }

  lemma FinishCloses(s: seq<byte>, start: nat, n: nat)
    requires 2 <= start <= |s| && (n + KeySize(s) == 0 || |s| < start + KeySize(s) + n)
    ensures Finish(s, start, n) == Closed
  {
  }

  lemma FinishGets(s: seq<byte>, start: nat, n: nat, data: seq<byte>)
    requires 2 <= start && start + |data| <= |s| && data == s[start..start + |data|]
    requires |data| == n + KeySize(s) > 0
    ensures Finish(s, start, n) == Got(
      if KeySize(s) == 4 then Frame(s[0] & 0x80 == 0x80, s[0] & 0x0F, data[..4], Masked(data[4..], data[..4]))
      else Frame(s[0] & 0x80 == 0x80, s[0] & 0x0F, [], data), start + |data|)
  {
    hide Masked;
    assert s[start..start] == [];
    if KeySize(s) == 4 {
      assert s[start..start + 4] == data[..4] && s[start + 4..start + 4 + n] == data[4..];
    }
  }

  lemma TwoBytes(n: nat)
    requires n < 65536
    ensures BigEndian(n, 2) == [AsByte(n / 0x100 % 256), AsByte(n % 256)]
  {
    hide AsByte;
    assert BigEndian(n / 256, 1) == [AsByte(n / 256 % 256)];
  }

  lemma EightBytes(n: nat)
    ensures BigEndian(n, 8) ==
            [AsByte(n / 0x100_0000_0000_0000 % 256), AsByte(n / 0x1_0000_0000_0000 % 256),
             AsByte(n / 0x100_0000_0000 % 256), AsByte(n / 0x1_0000_0000 % 256),
             AsByte(n / 0x100_0000 % 256), AsByte(n / 0x1_0000 % 256), AsByte(n / 0x100 % 256), AsByte(n % 256)]
  {
    hide AsByte, BigEndian;
    var n2, n4, n6 := n / 0x1_0000, n / 0x1_0000_0000, n / 0x1_0000_0000_0000;
    TwoMore(n, 6);
    TwoMore(n2, 4);
    TwoMore(n4, 2);
    TwoMore(n6, 0);
    assert n2 / 0x1_0000 == n4 && n4 / 0x1_0000 == n6;
    assert n2 / 0x100 == n / 0x100_0000 && n4 / 0x100 == n / 0x100_0000_0000;
    assert n6 / 0x100 == n / 0x100_0000_0000_0000;
  }

  lemma TwoMore(n: nat, k: nat)
    ensures BigEndian(n, k + 2) == BigEndian(n / 0x1_0000, k) + [AsByte(n / 0x100 % 256), AsByte(n % 256)]
    ensures BigEndian(n, 0) == []
  {
    hide AsByte;
    assert BigEndian(n / 256, k + 1) == BigEndian(n / 256 / 256, k) + [AsByte(n / 256 % 256)];
  }

  lemma ValueOfTwo(s: seq<byte>)
    requires |s| == 2
    ensures Value(s) == s[0] as nat * 0x100 + s[1] as nat
  {
    ValueSteps(s);
  }

  lemma ValueOfEight(s: seq<byte>)
    requires |s| == 8
    ensures Value(s) == s[7] as nat + s[6] as nat * 0x100 + s[5] as nat * 0x1_0000
        + s[4] as nat * 0x100_0000 + s[3] as nat * 0x1_0000_0000 + s[2] as nat * 0x100_0000_0000
        + s[1] as nat * 0x1_0000_0000_0000 + s[0] as nat * 0x100_0000_0000_0000
  {
    hide Value;
    ValueSteps(s);
    ValueSteps(s[..6]);
    ValueSteps(s[..4]);
    ValueSteps(s[..2]);
    assert s[..6][..4] == s[..4] && s[..4][..2] == s[..2];
  }

  lemma ValueSteps(s: seq<byte>)
    requires |s| >= 2
    ensures Value(s) == Value(s[..|s| - 2]) * 0x1_0000 + s[|s| - 2] as nat * 0x100 + s[|s| - 1] as nat
    ensures Value(s[..0]) == 0
  {
    var r := s[..|s| - 1];
    assert r[..|r| - 1] == s[..|s| - 2];
  }
}
