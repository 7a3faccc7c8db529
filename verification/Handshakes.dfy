/** The key exchange: the server sends its public key, the client answers with a
    fresh symmetric key in an envelope, and both then talk with that key. */
module Handshakes {
  import opened Defs
  import opened Wire
  import opened Crypto
  import opened Links

  /** Refused: the exchange reported failure. Faulted: the bytes received could
      not be decrypted, or do not parse as a public key, and the program goes on
      to use the missing result. */
  datatype Outcome = Refused | Faulted | Agreed(link: Link, key: Bytes)

  /** Read one whole frame from a blocking socket, or give up. */
  function Receive(l: Link, buffer: Bytes, header: ReadResult, body: ReadResult): Option<Link>
    requires |buffer| == LENSIZE
    requires header.Data? ==> header.n <= LENSIZE && header.n <= |l.inbox|
    requires header.Data? && body.Data? ==> header.n + body.n <= |l.inbox|
  {
    if !header.Data? || !body.Data? || body.n != Value(HeaderBuffer(l, buffer, header.n)) then None
    else Some(TakeBody(TakeHeader(l, header.n), body.n, body.n))
  }

  /** The kernel's part in reading one frame on an open socket. */
  predicate AllowsReceive(l: Link, buffer: Bytes, header: ReadResult, body: ReadResult)
    requires |buffer| == LENSIZE
  {
    && Allows(l, true, LENSIZE, header)
    && (header.Data? ==>
          Allows(TakeHeader(l, header.n), true, Value(HeaderBuffer(l, buffer, header.n)), body))
  }

  lemma {:induction false} ReceiveIsAccounted(l: Link, buffer: Bytes, header: ReadResult, body: ReadResult)
    requires |buffer| == LENSIZE && AllowsReceive(l, buffer, header, body)
    requires Accounted(l) && l.partial == []
    requires Receive(l, buffer, header, body).Some?
    ensures var r := Receive(l, buffer, header, body).value;
            && Accounted(r) && r.partial == [] && r.arrived == l.arrived && r.outbox == l.outbox
            && |r.frames| == |l.frames| + 1 && l.frames <= r.frames
            && r.intact == (l.intact && header.n == LENSIZE)
  {
    HeaderIsAccounted(l, buffer, header.n);
    BodyIsAccounted(TakeHeader(l, header.n), body.n, body.n);
  }

  /** The link of a connection as the server accepts it: the peer's first bytes
      have come in, and the server's public key has been sent. */
  function Accepted(arrived: Bytes, hangup: bool, public: Bytes): Link {
    Link(arrived, arrived, hangup, Frame(public), [], [], true)
  }

  /** greeted: whether the send of the public key went through. */
  function ServerExchange(c: Cipher, private: Bytes, greeted: bool, l: Link, buffer: Bytes,
                          header: ReadResult, body: ReadResult): Outcome
    requires |buffer| == LENSIZE && (greeted ==> AllowsReceive(l, buffer, header, body))
  {
    if !greeted then Refused
    else
      match Receive(l, buffer, header, body)
      case None => Refused
      case Some(r) =>
        match RsaOpen(c, private, r.frames[|r.frames| - 1])
        case None => Faulted
        case Some(key) => Agreed(r, key)
  }

  /** What the client draws at random: its key, and what the envelope uses. */
  datatype Draw = Draw(key: Bytes, session: Bytes, nonce: Bytes)

  predicate ProperDraw(d: Draw) {
    |d.key| == AES_KEY_SIZE && |d.session| == AES_KEY_SIZE && |d.nonce| == NONCE_SIZE
  }

  function ClientExchange(c: Cipher, d: Draw, l: Link, buffer: Bytes, header: ReadResult, body: ReadResult,
                          sent: bool): Outcome
    requires |buffer| == LENSIZE && AllowsReceive(l, buffer, header, body)
  {
    match Receive(l, buffer, header, body)
    case None => Refused
    case Some(r) =>
      if !c.parses(r.frames[|r.frames| - 1]) then Faulted
      else if !sent then Refused
      else Agreed(r.(outbox := r.outbox + Frame(RsaSeal(c, r.frames[|r.frames| - 1], d.session, d.nonce, d.key))),
                  d.key)
  }

  /** Reading a frame whose header is read whole takes exactly that frame. */
  lemma {:induction false} ReceiveTakesOneFrame(l: Link, buffer: Bytes, header: ReadResult, body: ReadResult,
                             first: Bytes, queued: Bytes)
    requires |buffer| == LENSIZE && AllowsReceive(l, buffer, header, body)
    requires l.inbox == Frame(first) + queued && Sendable(first)
    requires Receive(l, buffer, header, body).Some?
    ensures header.n == LENSIZE <==>
            var r := Receive(l, buffer, header, body).value;
            r.frames == l.frames + [first] && r.inbox == queued
  {
    var s := l.inbox;
    var r := Receive(l, buffer, header, body).value;
    var k, size := header.n, body.n;
    FrameIsReadExactly(first, queued, buffer, k);
    assert s[k..][..size] == s[k..k + size];
    assert s[k..][size..] == s[k + size..];
    assert r.frames == l.frames + [s[k..k + size]];
    assert r.frames[|l.frames|] == s[k..k + size];
  }

  /** The envelope of a key no longer than the program's own. */
  lemma {:induction false} EnvelopeIsSendable(c: Cipher, public: Bytes, d: Draw)
    requires Lawful(c) && c.parses(public)
    requires |d.session| == AES_KEY_SIZE && |d.nonce| == NONCE_SIZE && |d.key| <= AES_KEY_SIZE
    ensures Sendable(RsaSeal(c, public, d.session, d.nonce, d.key))
  {
  }

  lemma {:induction false} HandshakeIsSendable(c: Cipher, public: Bytes, private: Bytes, d: Draw)
    requires Lawful(c) && Paired(c, public, private) && ProperDraw(d)
    ensures Sendable(RsaSeal(c, public, d.session, d.nonce, d.key))
  {
  }

  lemma {:induction false} ClientHalf(c: Cipher, public: Bytes, d: Draw, l: Link, buffer: Bytes, body: ReadResult,
                                      queued: Bytes)
    requires |buffer| == LENSIZE && AllowsReceive(l, buffer, Data(LENSIZE), body) && Sendable(public)
    requires l.inbox == Frame(public) + queued
    requires ClientExchange(c, d, l, buffer, Data(LENSIZE), body, true).Agreed?
    ensures var ours := ClientExchange(c, d, l, buffer, Data(LENSIZE), body, true);
            && ours.key == d.key && ours.link.inbox == queued
            && ours.link.outbox == l.outbox + Frame(RsaSeal(c, public, d.session, d.nonce, d.key))
  {
    ReceiveTakesOneFrame(l, buffer, Data(LENSIZE), body, public, queued);
  }

  lemma {:induction false} ServerHalf(c: Cipher, public: Bytes, private: Bytes, d: Draw, l: Link, buffer: Bytes,
                                      body: ReadResult, queued: Bytes)
    requires Lawful(c) && Paired(c, public, private) && ProperDraw(d)
    requires |buffer| == LENSIZE && AllowsReceive(l, buffer, Data(LENSIZE), body)
    requires l.inbox == Frame(RsaSeal(c, public, d.session, d.nonce, d.key)) + queued
    requires !ServerExchange(c, private, true, l, buffer, Data(LENSIZE), body).Refused?
    ensures var theirs := ServerExchange(c, private, true, l, buffer, Data(LENSIZE), body);
            theirs.Agreed? && theirs.key == d.key && theirs.link.inbox == queued
  {
    HandshakeIsSendable(c, public, private, d);
    ReceiveTakesOneFrame(l, buffer, Data(LENSIZE), body, RsaSeal(c, public, d.session, d.nonce, d.key), queued);
    RsaRoundTrip(c, public, private, d.session, d.nonce, d.key);
  }

  /** When both halves report success on whole headers, the two sides hold the
      same key, and the bytes queued behind either handshake message are all
      still unread. */
  lemma {:induction false} KeysAgree(c: Cipher, public: Bytes, private: Bytes, d: Draw,
                  client: Link, clientBuffer: Bytes, clientBody: ReadResult, toClient: Bytes,
                  server: Link, serverBuffer: Bytes, serverBody: ReadResult, toServer: Bytes)
    requires Lawful(c) && Paired(c, public, private) && ProperDraw(d) && Sendable(public)
    requires |clientBuffer| == LENSIZE && AllowsReceive(client, clientBuffer, Data(LENSIZE), clientBody)
    requires |serverBuffer| == LENSIZE && AllowsReceive(server, serverBuffer, Data(LENSIZE), serverBody)
    requires client.inbox == Frame(public) + toClient && client.outbox == []
    requires ClientExchange(c, d, client, clientBuffer, Data(LENSIZE), clientBody, true).Agreed?
    requires server.inbox ==
             ClientExchange(c, d, client, clientBuffer, Data(LENSIZE), clientBody, true).link.outbox + toServer
    requires !ServerExchange(c, private, true, server, serverBuffer, Data(LENSIZE), serverBody).Refused?
    ensures var ours := ClientExchange(c, d, client, clientBuffer, Data(LENSIZE), clientBody, true);
            var theirs := ServerExchange(c, private, true, server, serverBuffer, Data(LENSIZE), serverBody);
            && theirs.Agreed? && ours.key == theirs.key == d.key
            && ours.link.inbox == toClient && theirs.link.inbox == toServer
  {
    ClientHalf(c, public, d, client, clientBuffer, clientBody, toClient);
    var answer := Frame(RsaSeal(c, public, d.session, d.nonce, d.key));
    assert client.outbox + answer == answer;
    ServerHalf(c, public, private, d, server, serverBuffer, serverBody, toServer);
  }
}
