/** The accept key of a WebSocket handshake: section 4.2.2 of RFC 6455. */
module WebSocketAccept {
  import opened Bytes
  import Base64
  import Sha1Code
  import Sha1Spec

  /** "258EAFA5-E914-47DA-95CA-C5AB0DC85B11" in ASCII. */
  const GUID: seq<byte> := [
    0x32, 0x35, 0x38, 0x45, 0x41, 0x46, 0x41, 0x35, 0x2D, 0x45, 0x39, 0x31, 0x34, 0x2D, 0x34, 0x37, 0x44, 0x41,
    0x2D, 0x39, 0x35, 0x43, 0x41, 0x2D, 0x43, 0x35, 0x41, 0x42, 0x30, 0x44, 0x43, 0x38, 0x35, 0x42, 0x31, 0x31 ]

  lemma DigestLength(message: seq<byte>)
    requires 8 * |message| < 0x1_0000_0000_0000_0000
    ensures |Sha1Spec.Sha1(message)| == 20
  {
    hide Sha1Spec.HashBlocks, Sha1Spec.Pad;
  }

  /** The part of HttpConnectResponseString that answers the key; any key a header line can hold. */
  method AcceptKey(key: seq<byte>) returns (accept: seq<byte>)
    requires |key| < 0x1_0000_0000
    ensures accept == Base64.Encoded(Sha1Spec.Sha1(key + GUID))
    ensures |accept| == 28 && Base64.Decoded(accept) == Base64.Ok(Sha1Spec.Sha1(key + GUID))
  {
    hide Sha1Spec.Sha1, Sha1Code.Absorbed, Sha1Code.SHA1.Valid, Base64.Encoded, Base64.Decoded;
    var sha1 := new Sha1Code.SHA1();
    sha1.Update(key);
    sha1.Update(GUID);
    assert sha1.message == key + GUID;
    var digest := sha1.Final();
    DigestLength(key + GUID);
    accept := Base64.Encode(digest);
    Base64.Base64RoundTrip(digest);
    Base64.EncodedLength(digest);
  }
}
