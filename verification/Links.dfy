/** One end of a connection: what the kernel holds of it, and the reading of a
    header and then a body that the server and the client share. */
module Links {
  import opened Defs
  import opened Wire
  import opened Crypto

  /** What a read call can report. */
  datatype ReadResult = Data(n: nat) | Eof | WouldBlock | BadFd | OtherError

  /** arrived: every byte the peer has sent that has come in;
      inbox: those of them not read yet;     hangup: whether the peer has closed;
      outbox: every byte written to the peer;
      frames: the bodies read whole so far, the handshake's first;
      partial: the bytes read of an unfinished frame;
      intact: whether every header read so far was whole. */
  datatype Link = Link(arrived: Bytes, inbox: Bytes, hangup: bool, outbox: Bytes,
                       frames: seq<Bytes>, partial: Bytes, intact: bool)

  /** The results the kernel may give to a read of up to `want` bytes. */
  predicate Allows(l: Link, isOpen: bool, want: nat, r: ReadResult) {
    if !isOpen then r == BadFd
    else match r
      case BadFd => false
      case OtherError => true
      case Eof => want == 0 || (l.inbox == [] && l.hangup)
      case WouldBlock => want > 0 && l.inbox == [] && !l.hangup
      case Data(n) => 1 <= n <= want && n <= |l.inbox| && n <= INT_MAX
  }

  /** The size buffer after a header read of n bytes: the rest of it is stale. */
  function HeaderBuffer(l: Link, buffer: Bytes, n: nat): (b: Bytes)
    requires |buffer| == LENSIZE && n <= LENSIZE && n <= |l.inbox|
    ensures |b| == LENSIZE
  {
    l.inbox[..n] + buffer[n..]
  }

  function TakeHeader(l: Link, n: nat): Link
    requires n <= |l.inbox|
  {
    l.(inbox := l.inbox[n..], partial := l.inbox[..n], intact := l.intact && n == LENSIZE)
  }

  function TakeBody(l: Link, n: nat, want: nat): Link
    requires n <= |l.inbox|
  {
    if n == want then l.(inbox := l.inbox[n..], frames := l.frames + [l.inbox[..n]], partial := [])
    else l.(inbox := l.inbox[n..], partial := l.partial + l.inbox[..n])
  }

  /** Every byte that came in is in a frame read whole, in the frame being read,
      or still waiting, in that order, unless a header was cut short; and if one
      was, the frames read claim more bytes than were there. */
  ghost predicate Accounted(l: Link) {
    && Framable(l.frames)
    && (l.intact ==> l.arrived == Frames(l.frames) + l.partial + l.inbox)
    && (!l.intact && l.partial == [] ==> |l.arrived| < |Frames(l.frames)| + |l.inbox|)
  }

  /** A header has been read, and a body of the given size is to be read next. */
  ghost predicate BodyDue(l: Link, size: nat) {
    && l.partial != [] && size < HEADER_LIMIT
    && (l.intact ==> l.partial == Digits(size, LENSIZE))
    && (!l.intact ==> |l.arrived| < |Frames(l.frames)| + LENSIZE + |l.inbox|)
  }

  function WithArrival(l: Link, bytes: Bytes): Link {
    l.(arrived := l.arrived + bytes, inbox := l.inbox + bytes)
  }

  lemma {:induction false} ArrivalIsAccounted(l: Link, bytes: Bytes, size: nat)
    requires Accounted(l)
    ensures Accounted(WithArrival(l, bytes))
    ensures BodyDue(l, size) ==> BodyDue(WithArrival(l, bytes), size)
  {
    if l.intact {
      assert Frames(l.frames) + l.partial + l.inbox + bytes == Frames(l.frames) + l.partial + (l.inbox + bytes);
    }
  }

  lemma {:induction false} HeaderIsAccounted(l: Link, buffer: Bytes, n: nat)
    requires Accounted(l) && l.partial == []
    requires |buffer| == LENSIZE && 1 <= n <= LENSIZE && n <= |l.inbox|
    ensures Accounted(TakeHeader(l, n)) && BodyDue(TakeHeader(l, n), Value(HeaderBuffer(l, buffer, n)))
  {
    HeaderIsOnto(HeaderBuffer(l, buffer, n));
    assert Frames(l.frames) + [] + l.inbox == Frames(l.frames) + l.inbox;
    if n == LENSIZE {
      assert HeaderBuffer(l, buffer, n) == l.inbox[..n];
      assert Frames(l.frames) + l.inbox == Frames(l.frames) + l.inbox[..n] + l.inbox[n..];
    }
  }

  lemma {:induction false} BodyIsAccounted(l: Link, n: nat, want: nat)
    requires Accounted(l) && BodyDue(l, want) && n <= |l.inbox|
    ensures Accounted(TakeBody(l, n, want))
  {
    var all, body, rest := Frames(l.frames), l.inbox[..n], l.inbox[n..];
    assert l.inbox == body + rest;
    Regroup(all, l.partial, body, rest);
    if n == want {
      FramesAppend(l.frames, body);
    }
  }

  lemma {:induction false} Regroup(a: Bytes, b: Bytes, c: Bytes, d: Bytes)
    ensures a + b + (c + d) == a + (b + c) + d == a + (b + c) + [] + d
  {
  }

  /** Bytes read whole but not usable stay on record as a partial frame. */
  lemma {:induction false} SpoiltIsAccounted(l: Link, n: nat)
    requires Accounted(l) && l.partial != [] && n <= |l.inbox|
    ensures Accounted(TakeBody(l, n, n + 1))
  {
    Regroup(Frames(l.frames), l.partial, l.inbox[..n], l.inbox[n..]);
    assert l.inbox == l.inbox[..n] + l.inbox[n..];
  }

  /** Between frames, the stream is in step with the frames read if and only if
      every header has been read whole; and if all of a list of frames has come
      in and been read, the list is what has been read if and only if every
      header has. */
  lemma {:induction false} InStepIffIntact(l: Link, sent: seq<Bytes>)
    requires Accounted(l) && l.partial == [] && Framable(sent)
    ensures l.intact <==> l.arrived == Frames(l.frames) + l.inbox
    ensures l.arrived == Frames(sent) && l.inbox == [] ==> (l.frames == sent <==> l.intact)
  {
    assert Frames(l.frames) + [] + l.inbox == Frames(l.frames) + l.inbox;
    if l.arrived == Frames(sent) && l.inbox == [] {
      assert Frames(l.frames) + [] == Frames(l.frames);
      FramesAreInjective(l.frames, sent);
    }
  }

  /** A frame is read exactly, leaving the stream at the next one, if and only if
      its header is read whole: with k bytes read of the header, whatever was in
      the size buffer before. */
  lemma {:induction false} FrameIsReadExactly(body: Bytes, rest: Bytes, stale: Bytes, k: nat)
    requires Sendable(body) && |stale| == LENSIZE && 1 <= k <= LENSIZE
    requires var s := Frame(body) + rest;
             k + Value(s[..k] + stale[k..]) <= |s|
    ensures var s := Frame(body) + rest;
            var size := Value(s[..k] + stale[k..]);
            s[k..k + size] == body && s[k + size..] == rest <==> k == LENSIZE
  {
    var s := Frame(body) + rest;
    FrameParts(body, rest);
    HeaderRoundTrip(|body|);
    if k == LENSIZE {
      assert s[..k] + stale[k..] == s[..k];
    } else {
      var size := Value(s[..k] + stale[k..]);
      assert |s| == LENSIZE + |body| + |rest|;
      assert |s[k + size..]| == |rest| ==> |s[k..k + size]| != |body|;
    }
  }

  /** If a whole frame has been read off the front of a stream that begins with
      this frame, it is this frame. */
  lemma {:induction false} FirstFrame(arrived: Bytes, stream: Bytes, first: Bytes, buffer: Bytes, l: Link,
                                      n: nat) returns (queued: Bytes)
    requires Sendable(first) && Frame(first) <= stream && arrived <= stream && l.inbox == arrived
    requires |buffer| == LENSIZE && LENSIZE + n <= |arrived| && n == Value(HeaderBuffer(l, buffer, LENSIZE))
    ensures arrived == Frame(first) + queued
  {
    assert HeaderBuffer(l, buffer, LENSIZE) == stream[..LENSIZE] == Frame(first)[..LENSIZE];
    assert Frame(first)[..LENSIZE] == Digits(|first|, LENSIZE);
    HeaderRoundTrip(|first|);
    queued := arrived[LENSIZE + n..];
    assert arrived[..LENSIZE + n] == stream[..LENSIZE + n] == Frame(first);
  }

  /** What has been read is how the list that was sent begins; and it is the
      whole list once every byte has come in and been read. */
  lemma {:induction false} ReadIsPrefixOfSent(l: Link, sent: seq<Bytes>)
    requires Accounted(l) && l.intact && Framable(sent)
    requires l.arrived <= Frames(sent)
    ensures l.frames <= sent
    ensures l.arrived == Frames(sent) && l.inbox == [] && l.partial == [] ==> l.frames == sent
  {
    assert Frames(l.frames) <= l.arrived;
    FramesPrefix(l.frames, sent);
    if l.arrived == Frames(sent) && l.inbox == [] && l.partial == [] {
      assert l.arrived == Frames(l.frames);
      FramesAreInjective(l.frames, sent);
    }
  }

  // Messages.

  function Sealed(c: Cipher, key: Bytes, nonces: seq<Bytes>, messages: seq<Bytes>): (bodies: seq<Bytes>)
    requires |nonces| == |messages|
    ensures |bodies| == |messages|
  {
    seq(|messages|, i requires 0 <= i < |messages| => AesSeal(c, key, nonces[i], messages[i]))
  }

  /** The given texts are what the given bodies decrypt to, in order. */
  ghost predicate Opens(c: Cipher, key: Bytes, bodies: seq<Bytes>, texts: seq<Bytes>) {
    && |bodies| == |texts|
    && forall i | 0 <= i < |bodies| :: AesOpen(c, key, bodies[i]) == Some(texts[i])
  }

  ghost predicate Sending(c: Cipher, key: Bytes, nonces: seq<Bytes>, messages: seq<Bytes>) {
    && Keyed(key) && |nonces| == |messages|
    && forall i | 0 <= i < |messages| :: |nonces[i]| == NONCE_SIZE && Encryptable(|messages[i]|)
  }

  lemma {:induction false} SealedIsFramable(c: Cipher, key: Bytes, nonces: seq<Bytes>, messages: seq<Bytes>)
    requires Lawful(c) && Sending(c, key, nonces, messages)
    ensures forall i | 0 <= i < |messages| :: Sendable(Sealed(c, key, nonces, messages)[i])
  {
    forall i | 0 <= i < |messages| ensures Sendable(Sealed(c, key, nonces, messages)[i]) {
      AesRoundTrip(c, key, nonces[i], messages[i]);
    }
  }

  /** Reading sealed messages in order yields the messages in order. */
  lemma {:induction false} OpenedArePrefix(c: Cipher, key: Bytes, nonces: seq<Bytes>, messages: seq<Bytes>,
                        bodies: seq<Bytes>, texts: seq<Bytes>)
    requires Lawful(c) && Sending(c, key, nonces, messages)
    requires bodies <= Sealed(c, key, nonces, messages)
    requires Opens(c, key, bodies, texts)
    ensures texts <= messages
  {
    forall i | 0 <= i < |texts| ensures texts[i] == messages[i] {
      AesRoundTrip(c, key, nonces[i], messages[i]);
      assert bodies[i] == AesSeal(c, key, nonces[i], messages[i]);
    }
  }
}
