/** Particular runs: one that delivers a message; those in which a header or a send
    cut short, or a short key, does its damage; and one that shows what a failed
    close costs. */
module ServerWitness {
  import opened Defs
  import opened Wire
  import opened Crypto
  import opened Links
  import opened Mails
  import opened Handshakes
  import opened ServerSpec
  import opened Delivery
  import Tables

  /** A server with its keys, and the one client of these runs, on descriptor fd:
      what it draws, and the message it sends. */
  datatype Case = Case(pair: KeyPair, fd: nat, d: Draw, nonce: Bytes, message: Bytes)

  /** The handshake is in order, except that the key may be too short. */
  ghost predicate Greets(c: Cipher, k: Case) {
    && Lawful(c) && Paired(c, k.pair.public, k.pair.private)
    && |k.d.session| == AES_KEY_SIZE && |k.d.nonce| == NONCE_SIZE && |k.d.key| <= AES_KEY_SIZE
  }

  ghost predicate Proper(c: Cipher, k: Case) {
    Greets(c, k) && ProperDraw(k.d) && |k.nonce| == NONCE_SIZE && Encryptable(|k.message|)
  }

  function PeerOf(k: Case): Peer {
    Peer(k.d, [k.nonce], [k.message])
  }

  function Hello(c: Cipher, k: Case): Bytes {
    RsaSeal(c, k.pair.public, k.d.session, k.d.nonce, k.d.key)
  }

  function Body(c: Cipher, k: Case): Bytes {
    AesSeal(c, k.d.key, k.nonce, k.message)
  }

  /** All that the client sends. */
  function Output(c: Cipher, k: Case): Bytes {
    Frame(Hello(c, k)) + Frame(Body(c, k))
  }

  lemma {:induction false} TwoFrames(a: Bytes, b: Bytes)
    ensures Frames([a, b]) == Frame(a) + Frame(b)
  {
    FramesAppend([a], b);
    assert [a] + [b] == [a, b] && [a][1..] == [] && Frame(a) + [] == Frame(a);
  }

  lemma {:induction false} OutputIsStream(c: Cipher, k: Case)
    requires Proper(c, k)
    ensures ProperPeer(c, PeerOf(k)) && Output(c, k) == Frames(BodiesOf(c, k.pair.public, PeerOf(k)))
  {
    assert BodiesOf(c, k.pair.public, PeerOf(k)) == [Hello(c, k), Body(c, k)];
    TwoFrames(Hello(c, k), Body(c, k));
  }

  /** The accept of the client, when everything it sends has come in. */
  function Welcome(c: Cipher, k: Case): Action {
    AcceptClient(k.fd, Output(c, k), false, k.pair, true, Digits(0, LENSIZE), Data(LENSIZE), Data(|Hello(c, k)|))
  }

  /** The client's stream after the handshake. */
  function Greeted(c: Cipher, k: Case): Link {
    Link(Output(c, k), Frame(Body(c, k)), false, Frame(k.pair.public), [Hello(c, k)], [], true)
  }

  lemma {:induction false} WelcomeAgrees(c: Cipher, k: Case)
    requires Greets(c, k)
    ensures Exchangeable(Welcome(c, k)) && Exchanged(c, Welcome(c, k)) == Agreed(Greeted(c, k), k.d.key)
  {
    var hello, rest := Hello(c, k), Frame(Body(c, k));
    var l := Accepted(Output(c, k), false, k.pair.public);
    FrameParts(hello, rest);
    assert HeaderBuffer(l, Digits(0, LENSIZE), LENSIZE) == Digits(|hello|, LENSIZE);
    EnvelopeIsSendable(c, k.pair.public, k.d);
    HeaderRoundTrip(|hello|);
    assert TakeHeader(l, LENSIZE).inbox == hello + rest;
    assert [] + [hello] == [hello];
    RsaRoundTrip(c, k.pair.public, k.pair.private, k.d.session, k.d.nonce, k.d.key);
  }

  function Listed(k: Case): seq<Entry> {
    [Entry(0, Socket(k.fd, k.d.key))]
  }

  /** The server with the one client, in a phase, with a size buffer, the client's
      stream and a history. */
  function With(k: Case, phase: Phase, buffer: Bytes, l: Link, history: seq<Event>): State {
    var clients := map[0 := Socket(k.fd, k.d.key)];
    State(Book(clients, clients, multiset{}, map[], multiset{}, multiset{}, None), 1, true, false,
          phase, buffer, map[k.fd := l], map[k.fd := k.pair], history)
  }

  /** There are runs in which a client connects. */
  lemma {:induction false} FirstClient(c: Cipher, k: Case, buffer: Bytes)
      returns (states: seq<State>, actions: seq<Action>)
    requires Greets(c, k) && |buffer| == LENSIZE
    ensures IsRun(c, states, actions) && actions == [Start(true)] + [Welcome(c, k)]
    ensures states[2] == With(k, Polling, buffer, Greeted(c, k), [Connected(0)])
  {
    var s0 := Initial(buffer);
    var s1 := FirstStart(c, buffer);
    var s2 := FirstAccept(c, k, s1);
    RunTwoMore(c, [s0], [], Start(true), s1, Welcome(c, k), s2);
    states, actions := [s0] + [s1] + [s2], [Start(true)] + [Welcome(c, k)];
    assert [] + [Start(true)] == [Start(true)];
  }

  lemma {:induction false} FirstStart(c: Cipher, buffer: Bytes) returns (s1: State)
    requires |buffer| == LENSIZE
    ensures var s0 := Initial(buffer);
            && IsRun(c, [s0], []) && Enabled(c, s0, Start(true)) && s1 == Next(c, s0, Start(true))
            && s1 == s0.(serving := true, phase := Accepting)
  {
    s1 := Next(c, Initial(buffer), Start(true));
  }

  lemma {:induction false} FirstAccept(c: Cipher, k: Case, s: State) returns (s2: State)
    requires Greets(c, k) && |s.sizeBuffer| == LENSIZE
    requires s == Initial(s.sizeBuffer).(serving := true, phase := Accepting)
    ensures Enabled(c, s, Welcome(c, k)) && s2 == Next(c, s, Welcome(c, k))
    ensures s2 == With(k, Polling, s.sizeBuffer, Greeted(c, k), [Connected(0)])
  {
    WelcomeAgrees(c, k);
    s2 := Admitted(s.(nextId := 1), 0, k.fd, k.pair, Agreed(Greeted(c, k), k.d.key));
    FirstAdmitted(k, s, Greeted(c, k));
  }

  lemma {:induction false} FirstAdmitted(k: Case, s: State, l: Link)
    requires s == Initial(s.sizeBuffer).(serving := true, phase := Accepting)
    ensures Admitted(s.(nextId := 1), 0, k.fd, k.pair, Agreed(l, k.d.key)) ==
            With(k, Polling, s.sizeBuffer, l, [Connected(0)])
  {
    assert [] + [Connected(0)] == [Connected(0)];
  }

  lemma {:induction false} ListingOne(k: Case)
    ensures Tables.Lists(Listed(k), map[0 := Socket(k.fd, k.d.key)])
  {
    assert Tables.Listed(Listed(k), 0) by { assert Listed(k)[0].id == 0; }
  }

  /** The client connects, and the server starts a pass. */
  function Opening(c: Cipher, k: Case): seq<Action> {
    [Start(true)] + [Welcome(c, k)] + [Snapshot(Listed(k))]
  }

  /** ... and then starts a pass over it. */
  lemma {:induction false} FirstPass(c: Cipher, k: Case, buffer: Bytes)
      returns (states: seq<State>, actions: seq<Action>)
    requires Proper(c, k) && |buffer| == LENSIZE
    ensures IsRun(c, states, actions) && actions == Opening(c, k)
    ensures states[3] == With(k, Scanning(Listed(k), 0), buffer, Greeted(c, k), [Connected(0)])
  {
    states, actions := FirstClient(c, k, buffer);
    ListingOne(k);
    var s3 := With(k, Scanning(Listed(k), 0), buffer, Greeted(c, k), [Connected(0)]);
    RunOneMore(c, states, actions, Snapshot(Listed(k)), s3);
    states, actions := states + [s3], actions + [Snapshot(Listed(k))];
  }

  /** Reading n bytes of the client's header, over what was in the buffer. */
  lemma {:induction false} HeaderStep(c: Cipher, k: Case, buffer: Bytes, n: nat) returns (s: State)
    requires |buffer| == LENSIZE && 1 <= n <= LENSIZE
    ensures var s3 := With(k, Scanning(Listed(k), 0), buffer, Greeted(c, k), [Connected(0)]);
            && Enabled(c, s3, ReadHeader(Data(n))) && s == Next(c, s3, ReadHeader(Data(n)))
    ensures var b := HeaderBuffer(Greeted(c, k), buffer, n);
            s == With(k, Awaiting(Listed(k), 0, Value(b)), b, TakeHeader(Greeted(c, k), n), [Connected(0)])
  {
    var s3 := With(k, Scanning(Listed(k), 0), buffer, Greeted(c, k), [Connected(0)]);
    s := Next(c, s3, ReadHeader(Data(n)));
    assert s.links == map[k.fd := TakeHeader(Greeted(c, k), n)];
  }

  /** Then the body. */
  lemma {:induction false} BodyStep(c: Cipher, k: Case, buffer: Bytes, l: Link, size: nat) returns (s: State)
    requires |buffer| == LENSIZE && 1 <= size <= |l.inbox| && size <= INT_MAX
    ensures var s4 := With(k, Awaiting(Listed(k), 0, size), buffer, l, [Connected(0)]);
            && Enabled(c, s4, ReadBody(Data(size))) && s == Next(c, s4, ReadBody(Data(size)))
    ensures var text := AesOpen(c, k.d.key, l.inbox[..size]);
            && (text.Some? ==>
                  s == With(k, Accepting, buffer, TakeBody(l, size, size), [Connected(0), Received(0, text.value)]))
            && (text.None? ==> s == With(k, Crashed, buffer, TakeBody(l, size, size + 1), [Connected(0)]))
  {
    var s4 := With(k, Awaiting(Listed(k), 0, size), buffer, l, [Connected(0)]);
    s := Next(c, s4, ReadBody(Data(size)));
    var text := AesOpen(c, k.d.key, l.inbox[..size]);
    assert s.links == map[k.fd := TakeBody(l, size, if text.Some? then size else size + 1)];
    if text.Some? {
      assert [Connected(0)] + [Received(0, text.value)] == [Connected(0), Received(0, text.value)];
    }
  }

  lemma {:induction false} RunTwoMore(c: Cipher, states: seq<State>, actions: seq<Action>,
                                      a: Action, s: State, b: Action, t: State)
    requires IsRun(c, states, actions) && Enabled(c, states[|actions|], a) && s == Next(c, states[|actions|], a)
    requires Enabled(c, s, b) && t == Next(c, s, b)
    ensures IsRun(c, states + [s] + [t], actions + [a] + [b])
  {
    RunOneMore(c, states, actions, a, s);
    RunOneMore(c, states + [s], actions + [a], b, t);
  }

  /** The run that goes on with these two actions. */
  lemma {:induction false} Continue(c: Cipher, k: Case, buffer: Bytes, a: Action, s4: State, b: Action, s5: State)
      returns (states: seq<State>, actions: seq<Action>)
    requires Proper(c, k) && |buffer| == LENSIZE
    requires var s3 := With(k, Scanning(Listed(k), 0), buffer, Greeted(c, k), [Connected(0)]);
             Enabled(c, s3, a) && s4 == Next(c, s3, a)
    requires Enabled(c, s4, b) && s5 == Next(c, s4, b)
    ensures IsRun(c, states, actions) && actions == Opening(c, k) + [a] + [b] && states[4] == s4 && states[5] == s5
  {
    states, actions := FirstPass(c, k, buffer);
    RunTwoMore(c, states, actions, a, s4, b, s5);
    states, actions := states + [s4] + [s5], actions + [a] + [b];
  }

  /** The client is on the server's books with all it sent, on whole headers, and has
      been written nothing but the greeting. */
  ghost predicate Serves(c: Cipher, k: Case, s: State) {
    && Known(s, 0) && s.book.roster[0] == Socket(k.fd, k.d.key) && PairOf(s, 0) == k.pair
    && StreamOf(s, 0).intact && StreamOf(s, 0).arrived == Output(c, k)
    && StreamOf(s, 0).outbox == Frame(k.pair.public)
  }

  /** In each of these states the stream is a proper peer's, all come in. */
  lemma {:induction false} HearsPeer(c: Cipher, k: Case, phase: Phase, buffer: Bytes, l: Link, history: seq<Event>)
    requires Proper(c, k) && l.arrived == Output(c, k)
    ensures var s := With(k, phase, buffer, l, history);
            Hears(c, s, 0, PeerOf(k)) && StreamOf(s, 0) == l && StreamFrom(c, s, 0, PeerOf(k)) == Output(c, k)
  {
    OutputIsStream(c, k);
  }

  /** The client's header, read whole, gives the length of what follows. */
  lemma {:induction false} WholeHeader(c: Cipher, k: Case, buffer: Bytes)
    requires Proper(c, k) && |buffer| == LENSIZE
    ensures Value(HeaderBuffer(Greeted(c, k), buffer, LENSIZE)) == |Body(c, k)| && 1 <= |Body(c, k)| <= INT_MAX
    ensures TakeHeader(Greeted(c, k), LENSIZE).inbox == Body(c, k) == Body(c, k)[..|Body(c, k)|]
    ensures AesOpen(c, k.d.key, Body(c, k)) == Some(k.message)
  {
    FrameParts(Body(c, k), []);
    assert Frame(Body(c, k)) + [] == Frame(Body(c, k));
    AesRoundTrip(c, k.d.key, k.nonce, k.message);
    HeaderRoundTrip(|Body(c, k)|);
    assert HeaderBuffer(Greeted(c, k), buffer, LENSIZE) == Digits(|Body(c, k)|, LENSIZE);
  }

  /** For every cipher, key pair and message there is a run in which the message
      is received. */
  lemma {:induction false} MessageIsReceived(c: Cipher, k: Case, buffer: Bytes)
      returns (states: seq<State>, actions: seq<Action>)
    requires Proper(c, k) && |buffer| == LENSIZE
    ensures IsRun(c, states, actions)
    ensures actions == Opening(c, k) + [ReadHeader(Data(LENSIZE))] + [ReadBody(Data(|Body(c, k)|))]
    ensures states[5].history == [Connected(0), Received(0, k.message)]
    ensures Hears(c, states[5], 0, PeerOf(k)) && Serves(c, k, states[5])
    ensures AllRead(StreamOf(states[5], 0), StreamFrom(c, states[5], 0, PeerOf(k)))
    ensures states[5] == With(k, Accepting, states[5].sizeBuffer, StreamOf(states[5], 0), states[5].history)
    ensures !StreamOf(states[5], 0).hangup && |states[5].sizeBuffer| == LENSIZE
  {
    WholeHeader(c, k, buffer);
    var size := |Body(c, k)|;
    var l := TakeHeader(Greeted(c, k), LENSIZE);
    var s4 := HeaderStep(c, k, buffer, LENSIZE);
    var s5 := BodyStep(c, k, HeaderBuffer(Greeted(c, k), buffer, LENSIZE), l, size);
    states, actions := Continue(c, k, buffer, ReadHeader(Data(LENSIZE)), s4, ReadBody(Data(size)), s5);
    HearsPeer(c, k, s5.phase, s5.sizeBuffer, TakeBody(l, size, size), s5.history);
  }

  lemma {:induction false} FirstDigit(n: nat, k: nat)
    requires n < Pow256(k)
    ensures Digits(n, k + 1)[0] == 0
  {
    if k > 0 { FirstDigit(n / 256, k - 1); }
  }

  lemma {:induction false} OneInDigits()
    ensures Digits(1, LENSIZE) == [0, 0, 0, 0, 1]
  {
    assert Digits(0, 1) == [0] && Digits(0, 2) == [0, 0] && Digits(0, 3) == [0, 0, 0] && Digits(0, 4) == [0, 0, 0, 0];
  }

  /** The header of any message the client can send begins with a zero. */
  lemma {:induction false} HeaderOverOne(c: Cipher, k: Case)
    requires Proper(c, k)
    ensures HeaderBuffer(Greeted(c, k), Digits(1, LENSIZE), 1) == Digits(1, LENSIZE)
  {
    var body := Body(c, k);
    AesRoundTrip(c, k.d.key, k.nonce, k.message);
    assert Pow256(4) == 0x1_0000_0000 by {
      assert Pow256(1) == 256 && Pow256(2) == 0x1_0000 && Pow256(3) == 0x100_0000;
    }
    FirstDigit(|body|, 4);
    OneInDigits();
    assert Frame(body)[..1] == [0];
  }

  /** A header cut short brings the server down, for every cipher, key pair and
      message of a client that does nothing wrong: when one byte of the header is
      read over a buffer that ends in 1, the next byte is taken for the message. */
  lemma {:induction false} ShortHeaderCrashes(c: Cipher, k: Case) returns (states: seq<State>, actions: seq<Action>)
    requires Proper(c, k)
    ensures IsRun(c, states, actions)
    ensures actions == Opening(c, k) + [ReadHeader(Data(1))] + [ReadBody(Data(1))]
    ensures states[5].phase.Crashed? && states[5].history == [Connected(0)]
    ensures Hears(c, states[5], 0, PeerOf(k)) && !StreamOf(states[5], 0).intact
  {
    var buffer, l := Digits(1, LENSIZE), TakeHeader(Greeted(c, k), 1);
    HeaderOverOne(c, k);
    HeaderRoundTrip(1);
    var s4 := HeaderStep(c, k, buffer, 1);
    var s5 := BodyStep(c, k, buffer, l, 1);
    states, actions := Continue(c, k, buffer, ReadHeader(Data(1)), s4, ReadBody(Data(1)), s5);
    HearsPeer(c, k, s5.phase, s5.sizeBuffer, TakeBody(l, 1, 2), s5.history);
  }

  // A close that fails.

  lemma {:induction false} StopInThePass(c: Cipher, k: Case, buffer: Bytes, l: Link) returns (s: State)
    requires |buffer| == LENSIZE
    ensures var s3 := With(k, Scanning(Listed(k), 0), buffer, l, [Connected(0)]);
            && Enabled(c, s3, Stop(Listed(k), Some(0))) && s == Next(c, s3, Stop(Listed(k), Some(0)))
            && s == s3.(serving := false, done := true,
                        book := s3.book.(closed := multiset{k.fd}, jammed := Some(k.fd)))
  {
    ListingOne(k);
    var s3 := With(k, Scanning(Listed(k), 0), buffer, l, [Connected(0)]);
    s := Next(c, s3, Stop(Listed(k), Some(0)));
  }

  lemma {:induction false} ReadAfterStop(c: Cipher, k: Case, s: State) returns (s5: State)
    requires s.phase == Scanning(Listed(k), 0) && |s.sizeBuffer| == LENSIZE
    requires s.book.clients == map[0 := Socket(k.fd, k.d.key)] && s.book.closed == multiset{k.fd}
    requires s.history == [Connected(0)]
    ensures Enabled(c, s, ReadHeader(BadFd)) && s5 == Next(c, s, ReadHeader(BadFd))
    ensures s5.book.closed[k.fd] == 2 && s5.history == [Connected(0), Disconnected(0)]
  {
    s5 := Next(c, s, ReadHeader(BadFd));
    assert [Connected(0)] + [Disconnected(0)] == [Connected(0), Disconnected(0)];
  }

  /** If a close fails during stop, the serve loop's pass goes on to close the
      same descriptor again, and reports a disconnection after the stop: closing
      once is not promised unless every close succeeds. */
  lemma {:induction false} FailedCloseClosesTwice(c: Cipher, k: Case, buffer: Bytes)
      returns (states: seq<State>, actions: seq<Action>)
    requires Proper(c, k) && |buffer| == LENSIZE
    ensures IsRun(c, states, actions) && actions == Opening(c, k) + [Stop(Listed(k), Some(0))] + [ReadHeader(BadFd)]
    ensures states[4].history == [Connected(0)]
    ensures states[5].book.closed[k.fd] == 2 && states[5].history == [Connected(0), Disconnected(0)]
  {
    var s4 := StopInThePass(c, k, buffer, Greeted(c, k));
    var s5 := ReadAfterStop(c, k, s4);
    states, actions := Continue(c, k, buffer, Stop(Listed(k), Some(0)), s4, ReadHeader(BadFd), s5);
  }

  // Clients that leave.

  lemma {:induction false} RemoveInThePass(c: Cipher, k: Case, buffer: Bytes, l: Link) returns (s4: State, s5: State)
    requires |buffer| == LENSIZE
    ensures var s3 := With(k, Scanning(Listed(k), 0), buffer, l, [Connected(0)]);
            Enabled(c, s3, Remove(0, true)) && s4 == Next(c, s3, Remove(0, true))
    ensures Enabled(c, s4, ReadHeader(BadFd)) && s5 == Next(c, s4, ReadHeader(BadFd))
    ensures s5.book.clients == map[] && s5.book.closed == s5.book.freed == multiset{k.fd}
    ensures s5.history == [Connected(0)]
  {
    s4 := Next(c, With(k, Scanning(Listed(k), 0), buffer, l, [Connected(0)]), Remove(0, true));
    s5 := Next(c, s4, ReadHeader(BadFd));
  }

  /** A run in which remove_client takes the client out between the listing and the
      read of its header: it is closed once, freed once, and nobody is told. */
  lemma {:induction false} RemovedInThePass(c: Cipher, k: Case, buffer: Bytes)
      returns (states: seq<State>, actions: seq<Action>)
    requires Proper(c, k) && |buffer| == LENSIZE
    ensures IsRun(c, states, actions) && actions == Opening(c, k) + [Remove(0, true)] + [ReadHeader(BadFd)]
    ensures states[5].book.clients == map[] && states[5].history == [Connected(0)]
    ensures states[5].book.closed == states[5].book.freed == multiset{k.fd}
  {
    var s4, s5 := RemoveInThePass(c, k, buffer, Greeted(c, k));
    states, actions := Continue(c, k, buffer, Remove(0, true), s4, ReadHeader(BadFd), s5);
  }

  /** An accept without a connection, and the client hangs up. */
  lemma {:induction false} HangsUp(c: Cipher, k: Case, s: State, h: seq<Event>) returns (s6: State, s7: State)
    requires s.links.Keys == {k.fd} && |s.sizeBuffer| == LENSIZE
    requires s == With(k, Accepting, s.sizeBuffer, s.links[k.fd], h)
    ensures Enabled(c, s, NoConnection) && s6 == Next(c, s, NoConnection)
    ensures Enabled(c, s6, HangUp(k.fd)) && s7 == Next(c, s6, HangUp(k.fd))
    ensures s7 == With(k, Polling, s.sizeBuffer, s.links[k.fd].(hangup := true), h)
  {
    s6 := Next(c, s, NoConnection);
    s7 := Next(c, s6, HangUp(k.fd));
    assert s7.links == map[k.fd := s.links[k.fd].(hangup := true)];
  }

  /** A pass over a client that has hung up, with nothing left to read. */
  lemma {:induction false} FindsGone(c: Cipher, k: Case, buffer: Bytes, l: Link, h: seq<Event>)
      returns (s8: State, s9: State)
    requires |buffer| == LENSIZE && l.inbox == [] && l.hangup
    ensures var s7 := With(k, Polling, buffer, l, h);
            Enabled(c, s7, Snapshot(Listed(k))) && s8 == Next(c, s7, Snapshot(Listed(k)))
    ensures Enabled(c, s8, ReadHeader(Eof)) && s9 == Next(c, s8, ReadHeader(Eof))
    ensures s9.book.clients == map[] && s9.book.closed == s9.book.freed == multiset{k.fd}
    ensures s9.history == h + [Disconnected(0)]
  {
    ListingOne(k);
    s8 := Next(c, With(k, Polling, buffer, l, h), Snapshot(Listed(k)));
    s9 := Next(c, s8, ReadHeader(Eof));
  }

  /** The whole life of a client: it connects, its message is received, it hangs up,
      and the next pass closes it, frees its key and reports it gone. */
  lemma {:induction false} WholeLife(c: Cipher, k: Case, buffer: Bytes)
      returns (states: seq<State>, actions: seq<Action>)
    requires Proper(c, k) && |buffer| == LENSIZE
    ensures IsRun(c, states, actions) && |actions| == 9
    ensures states[9].history == [Connected(0), Received(0, k.message), Disconnected(0)]
    ensures states[9].book.clients == map[] && states[9].book.closed == states[9].book.freed == multiset{k.fd}
  {
    states, actions := MessageIsReceived(c, k, buffer);
    var s5 := states[5];
    var s6, s7 := HangsUp(c, k, s5, s5.history);
    var s8, s9 := FindsGone(c, k, s5.sizeBuffer, s5.links[k.fd].(hangup := true), s5.history);
    RunTwoMore(c, states, actions, NoConnection, s6, HangUp(k.fd), s7);
    states, actions := states + [s6] + [s7], actions + [NoConnection] + [HangUp(k.fd)];
    RunTwoMore(c, states, actions, Snapshot(Listed(k)), s8, ReadHeader(Eof), s9);
    states, actions := states + [s8] + [s9], actions + [Snapshot(Listed(k))] + [ReadHeader(Eof)];
    assert s5.history + [Disconnected(0)] == [Connected(0), Received(0, k.message), Disconnected(0)];
  }

  // Sends that go wrong.

  lemma {:induction false} SendStep(c: Cipher, k: Case, buffer: Bytes, data: Bytes, nonce: Bytes, n: nat)
      returns (s: State)
    requires |buffer| == LENSIZE && Keyed(k.d.key) && n <= |Frame(AesSeal(c, k.d.key, nonce, data))|
    ensures var s2 := With(k, Polling, buffer, Greeted(c, k), [Connected(0)]);
            && Enabled(c, s2, Send(0, data, nonce, Sent(n))) && s == Next(c, s2, Send(0, data, nonce, Sent(n)))
    ensures s.links[k.fd].outbox == Frame(k.pair.public) + Frame(AesSeal(c, k.d.key, nonce, data))[..n]
  {
    s := Next(c, With(k, Polling, buffer, Greeted(c, k), [Connected(0)]), Send(0, data, nonce, Sent(n)));
  }

  /** For every cipher, key pair and message, and every n short of its length, there
      is a run in which a send takes n bytes, and what has been written falls short
      of the frames of what was sent. No later send mends that: OutboxIffWhole. */
  lemma {:induction false} ShortSendCuts(c: Cipher, k: Case, buffer: Bytes, data: Bytes, nonce: Bytes, n: nat)
      returns (states: seq<State>, actions: seq<Action>)
    requires Proper(c, k) && |buffer| == LENSIZE && n < |Frame(AesSeal(c, k.d.key, nonce, data))|
    ensures IsRun(c, states, actions)
    ensures actions == [Start(true)] + [Welcome(c, k)] + [Send(0, data, nonce, Sent(n))]
    ensures Known(states[3], 0)
    ensures var sent := [k.pair.public] + [AesSeal(c, k.d.key, nonce, data)];
            StreamOf(states[3], 0).outbox < Frames(sent)
  {
    states, actions := FirstClient(c, k, buffer);
    var s := SendStep(c, k, buffer, data, nonce, n);
    RunOneMore(c, states, actions, Send(0, data, nonce, Sent(n)), s);
    states, actions := states + [s], actions + [Send(0, data, nonce, Sent(n))];
    TwoFrames(k.pair.public, AesSeal(c, k.d.key, nonce, data));
    assert [k.pair.public] + [AesSeal(c, k.d.key, nonce, data)] == [k.pair.public, AesSeal(c, k.d.key, nonce, data)];
  }

  lemma {:induction false} ShortKeyStep(c: Cipher, k: Case, buffer: Bytes, data: Bytes, nonce: Bytes) returns (s: State)
    requires |buffer| == LENSIZE && !Keyed(k.d.key)
    ensures var s2 := With(k, Polling, buffer, Greeted(c, k), [Connected(0)]);
            && Enabled(c, s2, Send(0, data, nonce, SendError)) && s == Next(c, s2, Send(0, data, nonce, SendError))
    ensures s.phase.Crashed?
  {
    s := Next(c, With(k, Polling, buffer, Greeted(c, k), [Connected(0)]), Send(0, data, nonce, SendError));
  }

  /** A key too short for the cipher is accepted all the same, and the first send to
      its client stops the model, for every cipher, key pair and such key. */
  lemma {:induction false} ShortKeyCrashes(c: Cipher, k: Case, buffer: Bytes, data: Bytes, nonce: Bytes)
      returns (states: seq<State>, actions: seq<Action>)
    requires Greets(c, k) && !Keyed(k.d.key) && |buffer| == LENSIZE
    ensures IsRun(c, states, actions)
    ensures actions == [Start(true)] + [Welcome(c, k)] + [Send(0, data, nonce, SendError)]
    ensures states[2].book.clients == map[0 := Socket(k.fd, k.d.key)] && states[3].phase.Crashed?
  {
    states, actions := FirstClient(c, k, buffer);
    var s := ShortKeyStep(c, k, buffer, data, nonce);
    RunOneMore(c, states, actions, Send(0, data, nonce, SendError), s);
    states, actions := states + [s], actions + [Send(0, data, nonce, SendError)];
  }
}
