/** The two halves of the key exchange, and the building of a message, as the
    program performs them: reading into a size buffer and filling arrays. */
module Exchanges {
  import opened Defs
  import opened Wire
  import opened Crypto
  import opened CryptoDatas
  import opened Links
  import opened Handshakes

  /** A read call that delivers n bytes fills the front of the caller's buffer. */
  method ReadInto(buffer: array<Byte>, l: Link, n: nat)
    requires n <= buffer.Length && n <= |l.inbox|
    modifies buffer
    ensures buffer[..] == l.inbox[..n] + old(buffer[n..])
  {
    forall i | 0 <= i < n { buffer[i] := l.inbox[i]; }
  }

  /** Encrypt and frame: what both sides do to send. */
  method SealMessage(c: Cipher, key: Bytes, random: Bytes, data: array<Byte>) returns (message: array<Byte>)
    requires Lawful(c) && Keyed(key) && |random| == AES_KEY_SIZE && Encryptable(data.Length)
    ensures fresh(message) && message[..] == Frame(AesSeal(c, key, random[..NONCE_SIZE], data[..]))
  {
    var encrypted := AesEncrypt(c, key, random, data);
    AesRoundTrip(c, key, random[..NONCE_SIZE], data[..]);
    assert |encrypted[..]| <= INT_MAX;
    message := ConstructMessage(encrypted);
  }

  /** Read a header, then a body of the length it gives. */
  method ReceiveFrame(l: Link, sizeBuffer: array<Byte>, header: ReadResult, body: ReadResult) returns (r: Option<Link>)
    requires sizeBuffer.Length == LENSIZE && AllowsReceive(l, sizeBuffer[..], header, body)
    modifies sizeBuffer
    ensures r == Receive(l, old(sizeBuffer[..]), header, body)
  {
    if !header.Data? { return None; }
    ReadInto(sizeBuffer, l, header.n);
    assert sizeBuffer[..LENSIZE] == HeaderBuffer(l, old(sizeBuffer[..]), header.n);
    var size := DecodeMessageSize(sizeBuffer);
    if !body.Data? || body.n != size { return None; }
    return Some(TakeBody(TakeHeader(l, header.n), size, size));
  }

  method ServerExchangeKeys(c: Cipher, public: Bytes, private: Bytes, greeted: bool, arrived: Bytes, hangup: bool,
                            sizeBuffer: array<Byte>, header: ReadResult, body: ReadResult) returns (outcome: Outcome)
    requires Lawful(c) && LENSIZE + |public| <= SIZE_MAX && sizeBuffer.Length == LENSIZE
    requires greeted ==> AllowsReceive(Accepted(arrived, hangup, public), sizeBuffer[..], header, body)
    modifies sizeBuffer
    ensures outcome == ServerExchange(c, private, greeted, Accepted(arrived, hangup, public), old(sizeBuffer[..]),
                                      header, body)
  {
    var publicKey := FromBytes(public);
    var encoded := ConstructMessage(publicKey);
    if !greeted { return Refused; }
    var l := Link(arrived, arrived, hangup, encoded[..], [], [], true);
    assert l == Accepted(arrived, hangup, public);
    var r := ReceiveFrame(l, sizeBuffer, header, body);
    if r == None { return Refused; }
    var frames := r.value.frames;
    var buffer := FromBytes(frames[|frames| - 1]);
    var key := RsaDecrypt(c, private, buffer);
    match key {
      case None => return Faulted;
      case Some(k) => return Agreed(r.value, k);
    }
  }

  method ClientExchangeKeys(c: Cipher, d: Draw, l: Link, sizeBuffer: array<Byte>, header: ReadResult, body: ReadResult,
                            sent: bool) returns (outcome: Outcome)
    requires Lawful(c) && ProperDraw(d) && sizeBuffer.Length == LENSIZE
    requires AllowsReceive(l, sizeBuffer[..], header, body)
    modifies sizeBuffer
    ensures outcome == ClientExchange(c, d, l, old(sizeBuffer[..]), header, body, sent)
  {
    var r := ReceiveFrame(l, sizeBuffer, header, body);
    if r == None { return Refused; }
    var frames := r.value.frames;
    if !c.parses(frames[|frames| - 1]) { return Faulted; }
    var key := FromBytes(d.key);
    var keyEncrypted := RsaEncrypt(c, frames[|frames| - 1], d.session, d.nonce, key);
    assert |keyEncrypted[..]| < HEADER_LIMIT;
    var keyEncoded := ConstructMessage(keyEncrypted);
    if !sent { return Refused; }
    return Agreed(r.value.(outbox := r.value.outbox + keyEncoded[..]), d.key);
  }
}
