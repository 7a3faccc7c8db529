/** End to end: what a client sends is what the server receives from it, and
    what the server broadcasts is what every client is sent. */
module Delivery {
  import opened Defs
  import opened Wire
  import opened Crypto
  import opened Links
  import opened Mails
  import opened Handshakes
  import opened ServerSpec
  import opened ServerBook
  import opened ServerEvents
  import opened ServerSafety
  import opened ServerSteps
  import opened Outboxes
  import ClientSpec
  import Tables

  /** A client: its random draws for the handshake, and its messages with the
      nonce drawn for each. */
  datatype Peer = Peer(draw: Draw, nonces: seq<Bytes>, messages: seq<Bytes>)

  ghost predicate ProperPeer(c: Cipher, p: Peer) {
    ProperDraw(p.draw) && Sending(c, p.draw.key, p.nonces, p.messages)
  }

  /** The bodies it sends: the key in its envelope, then the messages. */
  ghost function BodiesOf(c: Cipher, public: Bytes, p: Peer): seq<Bytes>
    requires ProperPeer(c, p)
  {
    [RsaSeal(c, public, p.draw.session, p.draw.nonce, p.draw.key)] + Sealed(c, p.draw.key, p.nonces, p.messages)
  }

  lemma {:induction false} BodiesAreFramable(c: Cipher, pair: KeyPair, p: Peer)
    requires Lawful(c) && Paired(c, pair.public, pair.private) && ProperPeer(c, p)
    ensures Framable(BodiesOf(c, pair.public, p))
  {
    HandshakeIsSendable(c, pair.public, pair.private, p.draw);
    SealedIsFramable(c, p.draw.key, p.nonces, p.messages);
  }

  /** What has been received on one stream is how the peer's messages begin, and
      all of them once every byte has come in and been read. */
  lemma {:induction false} StreamDelivers(c: Cipher, pair: KeyPair, key: Bytes, l: Link, texts: seq<Bytes>, p: Peer)
    requires Lawful(c) && Paired(c, pair.public, pair.private) && ProperPeer(c, p)
    requires Accounted(l) && l.intact && |l.frames| >= 1
    requires RsaOpen(c, pair.private, l.frames[0]) == Some(key) && Opens(c, key, l.frames[1..], texts)
    requires l.arrived <= Frames(BodiesOf(c, pair.public, p))
    ensures key == p.draw.key && texts <= p.messages
    ensures l.arrived == Frames(BodiesOf(c, pair.public, p)) && l.inbox == [] && l.partial == []
            ==> texts == p.messages
  {
    var sent := BodiesOf(c, pair.public, p);
    BodiesAreFramable(c, pair, p);
    ReadIsPrefixOfSent(l, sent);
    RsaRoundTrip(c, pair.public, pair.private, p.draw.session, p.draw.nonce, p.draw.key);
    assert l.frames[0] == sent[0];
    assert sent[1..] == Sealed(c, p.draw.key, p.nonces, p.messages);
    assert l.frames[1..] <= sent[1..];
    OpenedArePrefix(c, key, p.nonces, p.messages, l.frames[1..], texts);
  }

  /** A client the server has a stream of, and the key pair it was greeted with. */
  predicate Known(s: State, id: SizeT) {
    id in s.book.roster && s.book.roster[id].fd in s.links && s.book.roster[id].fd in s.keyPairs
  }

  function StreamOf(s: State, id: SizeT): Link
    requires Known(s, id)
  {
    s.links[s.book.roster[id].fd]
  }

  function PairOf(s: State, id: SizeT): KeyPair
    requires Known(s, id)
  {
    s.keyPairs[s.book.roster[id].fd]
  }

  /** Everything the peer sends. */
  ghost function StreamFrom(c: Cipher, s: State, id: SizeT, p: Peer): Bytes
    requires Known(s, id) && ProperPeer(c, p)
  {
    Frames(BodiesOf(c, PairOf(s, id).public, p))
  }

  /** What has come in from the client is how a proper peer's stream begins. */
  ghost predicate Hears(c: Cipher, s: State, id: SizeT, p: Peer) {
    && Known(s, id) && Paired(c, PairOf(s, id).public, PairOf(s, id).private) && ProperPeer(c, p)
    && StreamOf(s, id).arrived <= StreamFrom(c, s, id, p)
  }

  /** All of the given bytes have come in and been read. */
  predicate AllRead(l: Link, stream: Bytes) {
    l.arrived == stream && l.inbox == [] && l.partial == []
  }

  /** End to end, for every run, any interleaving of any number of clients, and
      any other traffic: if the bytes that have come in from a client are how a
      proper peer's stream begins, and no header of its was cut short, then the
      texts received from it are how the peer's messages begin, in order, and
      all of them once every frame has been read. */
  lemma {:induction false} EndToEnd(c: Cipher, states: seq<State>, actions: seq<Action>, n: nat, id: SizeT, p: Peer)
    requires Lawful(c) && IsRun(c, states, actions) && n <= |actions|
    requires Hears(c, states[n], id, p) && StreamOf(states[n], id).intact
    ensures states[n].book.roster[id].key == p.draw.key
    ensures TextsOf(states[n].history, id) <= p.messages
    ensures AllRead(StreamOf(states[n], id), StreamFrom(c, states[n], id, p)) ==>
              TextsOf(states[n].history, id) == p.messages
  {
    RunsAreSafe(c, states, actions, n);
    var s := states[n];
    var sock := s.book.roster[id];
    assert Streamed(c, s, id);
    StreamDelivers(c, s.keyPairs[sock.fd], sock.key, s.links[sock.fd], TextsOf(s.history, id), p);
  }

  // Whole headers, and what happens without them.

  /** The action does not cut short a header on this descriptor. */
  predicate WholeOn(s: State, a: Action, fd: nat) {
    match a
    case AcceptClient(_, _, _, _, _, _, _, _) => a.fd == fd && a.header.Data? ==> a.header.n == LENSIZE
    case ReadHeader(r) => InScan(s.phase) && Current(s.phase).sock.fd == fd && r.Data? ==> r.n == LENSIZE
    case _ => true
  }

  ghost predicate WholeAt(states: seq<State>, actions: seq<Action>, i: nat, fd: nat)
    requires i < |actions| < |states|
  {
    fd in states[i + 1].links ==> WholeOn(states[i], actions[i], fd)
  }

  /** Every header on this descriptor, in the first n actions, was read whole. */
  ghost predicate WholeUntil(states: seq<State>, actions: seq<Action>, n: nat, fd: nat)
    requires n <= |actions| < |states|
  {
    forall i | 0 <= i < n :: WholeAt(states, actions, i, fd)
  }

  lemma {:induction false} WholeOneMore(states: seq<State>, actions: seq<Action>, n: nat, fd: nat)
    requires n < |actions| < |states|
    ensures WholeUntil(states, actions, n + 1, fd) <==>
            WholeUntil(states, actions, n, fd) && WholeAt(states, actions, n, fd)
  {
    if WholeUntil(states, actions, n + 1, fd) { assert WholeAt(states, actions, n, fd); }
  }

  lemma {:induction false} BodyKeepsIntact(c: Cipher, s: State, r: ReadResult, fd: nat)
    requires fd in s.links && s.phase.Awaiting? && InScan(s.phase)
    requires r.Data? ==> r.n <= |LinkOf(s, Current(s.phase).sock.fd).inbox|
    ensures var s' := AfterBody(c, s, r); fd in s'.links && s'.links[fd].intact == s.links[fd].intact
  {
    if r.Data? {
      var _, _, _ := BodyCases(c, s, r.n);
    }
  }

  lemma {:induction false} HeaderKeepsIntact(s: State, r: ReadResult, fd: nat)
    requires fd in s.links && InScan(s.phase) && |s.sizeBuffer| == LENSIZE
    requires r.Data? ==> r.n <= LENSIZE && r.n <= |LinkOf(s, Current(s.phase).sock.fd).inbox|
    ensures var s' := AfterHeader(s, r);
            && fd in s'.links
            && (s'.links[fd].intact <==> s.links[fd].intact && WholeOn(s, ReadHeader(r), fd))
  {
  }

  lemma {:induction false} SendsKeepIntact(c: Cipher, s: State, a: Action, n: nat, fd: nat)
    requires a.SendAll? && |a.order| == |a.nonces| == |a.results| && n <= |a.order| && fd in s.links
    ensures var s' := AfterSends(c, s, a, n); fd in s'.links && s'.links[fd].intact == s.links[fd].intact
  {
    if n > 0 { SendsKeepIntact(c, s, a, n - 1, fd); }
  }

  lemma {:induction false} AcceptKeepsLink(c: Cipher, s: State, a: Action, fd: nat)
    requires a.AcceptClient? && Exchangeable(a) && s.nextId < SIZE_MAX && a.fd != fd && fd in s.links
    ensures var s' := AfterAccept(c, s, a); fd in s'.links && s'.links[fd] == s.links[fd]
  {
  }

  lemma {:induction false} StepKeepsIntact(c: Cipher, s: State, a: Action, s': State, fd: nat)
    requires Enabled(c, s, a) && s' == Next(c, s, a) && fd in s.links
    ensures fd in s'.links && (s'.links[fd].intact <==> s.links[fd].intact && WholeOn(s, a, fd))
  {
    match a
    case AcceptClient(_, _, _, _, _, _, _, _) => if s.serving { AcceptKeepsLink(c, s, a, fd); }
    case ReadHeader(r) => HeaderKeepsIntact(s, r, fd);
    case ReadBody(r) => BodyKeepsIntact(c, s, r, fd);
    case SendAll(order, _, _, _) => SendsKeepIntact(c, s, a, |order|, fd);
    case _ =>
  }

  lemma {:induction false} SendsAddNoLink(c: Cipher, s: State, a: Action, n: nat)
    requires Registered(s) && a.SendAll? && |a.order| == |a.nonces| == |a.results| && n <= |a.order|
    ensures AfterSends(c, s, a, n).links.Keys == s.links.Keys
  {
    if n > 0 {
      SendsAddNoLink(c, s, a, n - 1);
      SendsKeepBook(c, s, a, n - 1);
      SendAddsNoLink(c, AfterSends(c, s, a, n - 1), a.order[n - 1].id, a.data, a.nonces[n - 1], a.results[n - 1]);
    }
  }

  lemma {:induction false} SendAddsNoLink(c: Cipher, s: State, id: SizeT, data: Bytes, nonce: Bytes, result: SendResult)
    requires Rostered(s.book) && Within(s.book, s.links.Keys)
    ensures AfterSend(c, s, id, data, nonce, result).links.Keys == s.links.Keys
  {
    if id in s.book.clients {
      assert s.book.roster[id] == s.book.clients[id];
    }
  }

  lemma {:induction false} HeaderAddsNoLink(s: State, r: ReadResult)
    requires InScan(s.phase) && |s.sizeBuffer| == LENSIZE
    requires var fd := Current(s.phase).sock.fd; Allows(LinkOf(s, fd), IsOpen(s, fd), LENSIZE, r)
    ensures AfterHeader(s, r).links.Keys == s.links.Keys
  {
  }

  lemma {:induction false} BodyAddsNoLink(c: Cipher, s: State, r: ReadResult)
    requires s.phase.Awaiting? && InScan(s.phase)
    requires var fd := Current(s.phase).sock.fd; Allows(LinkOf(s, fd), IsOpen(s, fd), s.phase.size, r)
    ensures AfterBody(c, s, r).links.Keys == s.links.Keys
  {
    if r.Data? {
      var _, _, _ := BodyCases(c, s, r.n);
    }
  }

  lemma {:induction false} StepAddsNoLink(c: Cipher, s: State, a: Action, s': State)
    requires Registered(s) && Enabled(c, s, a) && s' == Next(c, s, a) && !Enrols(c, s, a)
    ensures s'.links.Keys == s.links.Keys
  {
    match a
    case ReadHeader(r) => HeaderAddsNoLink(s, r);
    case ReadBody(r) => BodyAddsNoLink(c, s, r);
    case Send(id, data, nonce, result) => SendAddsNoLink(c, s, id, data, nonce, result);
    case SendAll(order, _, _, _) => SendsAddNoLink(c, s, a, |order|);
    case _ =>
  }

  /** A stream that is new is that of a client just accepted. */
  lemma {:induction false} NewStreamIsIntact(c: Cipher, s: State, a: Action, s': State, fd: nat)
    requires Registered(s) && Enabled(c, s, a) && s' == Next(c, s, a) && fd !in s.links && fd in s'.links
    ensures s'.links[fd].intact <==> WholeOn(s, a, fd)
  {
    if Enrols(c, s, a) {
      AcceptIsIntact(c, a);
    } else {
      StepAddsNoLink(c, s, a, s');
    }
  }

  lemma {:induction false} AcceptIsIntact(c: Cipher, a: Action)
    requires a.AcceptClient? && Exchangeable(a)
    ensures Exchanged(c, a).Agreed? ==> (Exchanged(c, a).link.intact <==> a.header.n == LENSIZE)
    ensures Exchanged(c, a).Agreed? ==> a.header.Data?
  {
  }

  /** No header has been cut short on this descriptor, if it has been used at all. */
  predicate IntactSoFar(s: State, fd: nat) {
    fd in s.links ==> s.links[fd].intact
  }

  lemma {:induction false} IntactOneMore(c: Cipher, states: seq<State>, actions: seq<Action>, n: nat, fd: nat)
    requires IsRun(c, states, actions) && n < |actions|
    ensures IntactSoFar(states[n + 1], fd) <==> IntactSoFar(states[n], fd) && WholeAt(states, actions, n, fd)
  {
    if fd in states[n].links {
      StepKeepsIntact(c, states[n], actions[n], states[n + 1], fd);
    } else if fd in states[n + 1].links {
      RunIsRegistered(c, states, actions, n);
      NewStreamIsIntact(c, states[n], actions[n], states[n + 1], fd);
    }
  }

  /** In every run, a stream is intact for exactly as long as every header on it
      is read whole. */
  lemma {:induction false} IntactIffWholeHeaders(c: Cipher, states: seq<State>, actions: seq<Action>, n: nat, fd: nat)
    requires IsRun(c, states, actions) && n <= |actions|
    ensures IntactSoFar(states[n], fd) <==> WholeUntil(states, actions, n, fd)
  {
    if n == 0 {
      NothingIsLinked(c, states, actions);
    } else {
      IntactIffWholeHeaders(c, states, actions, n - 1, fd);
      IntactOneMore(c, states, actions, n - 1, fd);
      WholeOneMore(states, actions, n - 1, fd);
    }
  }

  lemma {:induction false} NothingIsLinked(c: Cipher, states: seq<State>, actions: seq<Action>)
    requires IsRun(c, states, actions)
    ensures states[0].links == map[]
  {
  }

  /** In every run and for every client, between frames the stream is in step with
      the frames read if and only if every header was read whole. */
  lemma {:induction false} InStepIffWholeHeaders(c: Cipher, states: seq<State>, actions: seq<Action>, n: nat, id: SizeT)
    requires IsRun(c, states, actions) && n <= |actions| && Known(states[n], id)
    requires StreamOf(states[n], id).partial == []
    ensures var l := StreamOf(states[n], id);
            l.arrived == Frames(l.frames) + l.inbox <==>
            WholeUntil(states, actions, n, states[n].book.roster[id].fd)
  {
    RunsAreSafe(c, states, actions, n);
    assert Streamed(c, states[n], id);
    InStepIffIntact(StreamOf(states[n], id), []);
    IntactIffWholeHeaders(c, states, actions, n, states[n].book.roster[id].fd);
  }

  /** In every run, once a peer's whole stream has come in and been read, what was
      read are the peer's frames if and only if every header was read whole. */
  lemma {:induction false} ReadsExactly(c: Cipher, states: seq<State>, actions: seq<Action>, n: nat, id: SizeT, p: Peer)
    requires Lawful(c) && IsRun(c, states, actions) && n <= |actions| && Hears(c, states[n], id, p)
    requires AllRead(StreamOf(states[n], id), StreamFrom(c, states[n], id, p))
    ensures StreamOf(states[n], id).frames == BodiesOf(c, PairOf(states[n], id).public, p) <==>
            WholeUntil(states, actions, n, states[n].book.roster[id].fd)
  {
    var s := states[n];
    RunsAreSafe(c, states, actions, n);
    assert Streamed(c, s, id);
    BodiesAreFramable(c, PairOf(s, id), p);
    InStepIffIntact(StreamOf(s, id), BodiesOf(c, PairOf(s, id).public, p));
    IntactIffWholeHeaders(c, states, actions, n, s.book.roster[id].fd);
  }

  /** The body due on a proper peer's stream is its next. */
  lemma {:induction false} NextBody(l: Link, n: nat, sent: seq<Bytes>)
    requires Accounted(l) && l.intact && BodyDue(l, n) && n <= |l.inbox|
    requires Framable(sent) && l.arrived <= Frames(sent)
    ensures |l.frames| < |sent| && l.inbox[..n] == sent[|l.frames|]
  {
    BodyIsAccounted(l, n, n);
    ReadIsPrefixOfSent(TakeBody(l, n, n), sent);
    assert TakeBody(l, n, n).frames[|l.frames|] == l.inbox[..n];
  }

  lemma {:induction false} NextBodyOpens(c: Cipher, pair: KeyPair, key: Bytes, l: Link, n: nat, texts: seq<Bytes>,
                                         p: Peer)
    requires Lawful(c) && Paired(c, pair.public, pair.private) && ProperPeer(c, p)
    requires l.intact && BodyDue(l, n) && n <= |l.inbox| && Flows(c, key, pair.private, l, texts)
    requires l.arrived <= Frames(BodiesOf(c, pair.public, p))
    ensures |texts| < |p.messages| && AesOpen(c, key, l.inbox[..n]) == Some(p.messages[|texts|])
  {
    var k := |texts|;
    StreamDelivers(c, pair, key, l, texts, p);
    BodiesAreFramable(c, pair, p);
    NextBody(l, n, BodiesOf(c, pair.public, p));
    assert BodiesOf(c, pair.public, p)[k + 1] == AesSeal(c, p.draw.key, p.nonces[k], p.messages[k]);
    AesRoundTrip(c, p.draw.key, p.nonces[k], p.messages[k]);
  }

  /** The stream that the serve loop has a body to read from. */
  lemma {:induction false} CurrentStream(c: Cipher, s: State, id: SizeT)
    requires Safe(c, s) && s.phase.Awaiting? && InScan(s.phase)
    requires id == Current(s.phase).id && id in s.book.clients && IsOpen(s, Current(s.phase).sock.fd)
    ensures var sock := Current(s.phase).sock;
            && Known(s, id) && s.book.roster[id] == s.book.clients[id] == sock
            && BodyDue(StreamOf(s, id), s.phase.size)
            && Flows(c, sock.key, PairOf(s, id).private, StreamOf(s, id), TextsOf(s.history, id))
  {
    assert Streamed(c, s, id) && MidFrame(s.phase, Current(s.phase).sock.fd);
    assert s.book.clients[id] == s.book.roster[id] == Current(s.phase).sock;
  }

  /** A proper peer cannot crash the server: whatever whole body the serve loop
      reads from its stream decrypts, to the message next in turn. */
  lemma {:induction false} ProperBodyOpens(c: Cipher, s: State, id: SizeT, p: Peer)
    requires Lawful(c) && Safe(c, s) && s.phase.Awaiting? && InScan(s.phase)
    requires id == Current(s.phase).id && id in s.book.clients && IsOpen(s, Current(s.phase).sock.fd)
    requires Hears(c, s, id, p) && StreamOf(s, id).intact && s.phase.size <= |StreamOf(s, id).inbox|
    ensures var k := |TextsOf(s.history, id)|;
            k < |p.messages| && TextOf(c, s, id, StreamOf(s, id).inbox[..s.phase.size]) == Some(p.messages[k])
  {
    CurrentStream(c, s, id);
    NextBodyOpens(c, PairOf(s, id), s.book.roster[id].key, StreamOf(s, id), s.phase.size, TextsOf(s.history, id), p);
  }

  // From one program to the other.

  /** A client program as a peer: what it drew, and what it has sent. */
  function PeerIn(d: Draw, mails: seq<Mail>): Peer {
    Peer(d, NoncesIn(mails), DatasIn(mails))
  }

  /** The sizes of the texts and nonces sent are in bounds, and the key is long
      enough. */
  ghost predicate Sendings(c: Cipher, key: Bytes, mails: seq<Mail>) {
    Sending(c, key, NoncesIn(mails), DatasIn(mails))
  }

  /** A run of a client program, at a point after it has agreed on a key. */
  datatype Side = Side(states: seq<ClientSpec.State>, actions: seq<ClientSpec.Action>, at: nat)

  ghost predicate InTouch(c: Cipher, e: Side) {
    && ClientSpec.IsRun(c, e.states, e.actions) && e.at <= |e.actions|
    && e.states[e.at].draw.Some?
  }

  ghost function Here(c: Cipher, e: Side): (s: ClientSpec.State)
    requires InTouch(c, e)
  {
    e.states[e.at]
  }

  ghost function KeyHere(c: Cipher, e: Side): Bytes
    requires InTouch(c, e)
  {
    Here(c, e).draw.value.key
  }

  ghost function MailHere(c: Cipher, e: Side): seq<Mail>
    requires InTouch(c, e)
  {
    ClientSpec.MailFrom(e.states, e.actions, e.at)
  }

  /** The client at the other end of one of the server's connections: what has come
      in on each side is how the other's output begins, and the header of the
      greeting was read whole. */
  ghost predicate Joined(c: Cipher, s: State, id: SizeT, e: Side) {
    && Known(s, id) && Paired(c, PairOf(s, id).public, PairOf(s, id).private) && Sendable(PairOf(s, id).public)
    && InTouch(c, e) && ClientSpec.GreetedWhole(c, e.states, e.actions, e.at)
    && Here(c, e).link.arrived <= StreamOf(s, id).outbox
    && StreamOf(s, id).arrived <= Here(c, e).link.outbox
  }

  lemma {:induction false} GreetingIsRead(c: Cipher, states: seq<State>, actions: seq<Action>, n: nat, id: SizeT,
                                          e: Side)
    requires IsRun(c, states, actions) && n <= |actions| && Joined(c, states[n], id, e)
    ensures |Here(c, e).link.frames| >= 1 && Here(c, e).link.frames[0] == PairOf(states[n], id).public
    ensures ProperDraw(Here(c, e).draw.value)
  {
    OutboxHoldsMail(c, states, actions, n, id);
    ClientSpec.AnswersServer(c, e.states, e.actions, e.at, PairOf(states[n], id).public,
                             StreamOf(states[n], id).outbox);
    ClientSpec.RunsAreSafe(c, e.states, e.actions, e.at);
  }

  /** The client's output is a proper peer's stream, if its sends went out whole. */
  lemma {:induction false} OutputIsStream(c: Cipher, states: seq<State>, actions: seq<Action>, n: nat, id: SizeT,
                                          e: Side)
    requires IsRun(c, states, actions) && n <= |actions| && Joined(c, states[n], id, e)
    requires Sendings(c, KeyHere(c, e), MailHere(c, e)) && AllWhole(c, KeyHere(c, e), MailHere(c, e))
    ensures ProperPeer(c, PeerIn(Here(c, e).draw.value, MailHere(c, e)))
    ensures Here(c, e).link.outbox ==
            Frames(BodiesOf(c, PairOf(states[n], id).public, PeerIn(Here(c, e).draw.value, MailHere(c, e))))
  {
    GreetingIsRead(c, states, actions, n, id, e);
    ClientSpec.OutboxIffWhole(c, e.states, e.actions, e.at);
  }

  /** From one program to the other: in every run of a client and of a server that
      are joined, with whatever else either does, if the client's sends went out
      whole and none of its headers was cut short at the server, both hold the
      client's key, and the texts received from it are how the data of its sends
      begin; and all of them, once its output has been read. */
  lemma {:induction false} SentIsReceived(c: Cipher, states: seq<State>, actions: seq<Action>, n: nat, id: SizeT,
                                          e: Side)
    requires Lawful(c) && IsRun(c, states, actions) && n <= |actions| && Joined(c, states[n], id, e)
    requires WholeUntil(states, actions, n, states[n].book.roster[id].fd)
    requires Sendings(c, KeyHere(c, e), MailHere(c, e)) && AllWhole(c, KeyHere(c, e), MailHere(c, e))
    ensures states[n].book.roster[id].key == KeyHere(c, e)
    ensures TextsOf(states[n].history, id) <= DatasIn(MailHere(c, e))
    ensures AllRead(StreamOf(states[n], id), Here(c, e).link.outbox) ==>
              TextsOf(states[n].history, id) == DatasIn(MailHere(c, e))
  {
    OutputIsStream(c, states, actions, n, id, e);
    IntactIffWholeHeaders(c, states, actions, n, states[n].book.roster[id].fd);
    EndToEnd(c, states, actions, n, id, PeerIn(Here(c, e).draw.value, MailHere(c, e)));
  }

  /** And exactly then: when all of a client's output has been read at the server,
      on whole headers, what was read is the client's answer and the sealed data
      of its sends if and only if every send went out whole. */
  lemma {:induction false} SentIsReadIffWhole(c: Cipher, states: seq<State>, actions: seq<Action>, n: nat, id: SizeT,
                                              e: Side)
    requires Lawful(c) && IsRun(c, states, actions) && n <= |actions| && Joined(c, states[n], id, e)
    requires WholeUntil(states, actions, n, states[n].book.roster[id].fd)
    requires Sendings(c, KeyHere(c, e), MailHere(c, e)) && AllRead(StreamOf(states[n], id), Here(c, e).link.outbox)
    ensures |Here(c, e).link.frames| >= 1
    ensures StreamOf(states[n], id).frames ==
            [ClientSpec.Answer(c, Here(c, e))] + BodiesIn(c, KeyHere(c, e), MailHere(c, e)) <==>
            AllWhole(c, KeyHere(c, e), MailHere(c, e))
  {
    GreetingIsRead(c, states, actions, n, id, e);
    ClientSpec.OutboxHoldsMail(c, e.states, e.actions, e.at);
    RunsAreSafe(c, states, actions, n);
    assert Streamed(c, states[n], id);
    IntactIffWholeHeaders(c, states, actions, n, states[n].book.roster[id].fd);
    HandshakeIsSendable(c, PairOf(states[n], id).public, PairOf(states[n], id).private, Here(c, e).draw.value);
    ReadIffWhole(c, KeyHere(c, e), ClientSpec.Answer(c, Here(c, e)), MailHere(c, e), StreamOf(states[n], id));
  }

  /** The mail of a run of the server to one of its clients. */
  ghost function MailFor(c: Cipher, states: seq<State>, actions: seq<Action>, n: nat, id: SizeT): seq<Mail>
    requires IsRun(c, states, actions) && n <= |actions| && Known(states[n], id)
  {
    MailTo(c, states, actions, n, states[n].book.roster[id].fd)
  }

  /** And back: what the client has received, on whole headers, is how the data of
      the sends and broadcasts that reached it begin, if they went out whole; and
      all of them, once it has read all its mail. */
  lemma {:induction false} MailIsHeard(c: Cipher, states: seq<State>, actions: seq<Action>, n: nat, id: SizeT,
                                       e: Side)
    requires Lawful(c) && IsRun(c, states, actions) && n <= |actions| && Joined(c, states[n], id, e)
    requires states[n].book.roster[id].key == KeyHere(c, e)
    requires ClientSpec.WholeUntil(c, e.states, e.actions, e.at)
    requires Sendings(c, KeyHere(c, e), MailFor(c, states, actions, n, id))
    requires AllWhole(c, KeyHere(c, e), MailFor(c, states, actions, n, id))
    ensures Here(c, e).texts <= DatasIn(MailFor(c, states, actions, n, id))
    ensures AllRead(Here(c, e).link, StreamOf(states[n], id).outbox) ==>
              Here(c, e).texts == DatasIn(MailFor(c, states, actions, n, id))
  {
    var mails := MailFor(c, states, actions, n, id);
    OutboxIffWhole(c, states, actions, n, id);
    ClientSpec.RunsAreSafe(c, e.states, e.actions, e.at);
    ClientSpec.IntactIffWholeHeaders(c, e.states, e.actions, e.at);
    ClientSpec.ServerIsHeard(c, Here(c, e), PairOf(states[n], id).public, NoncesIn(mails), DatasIn(mails));
  }

  /** And exactly then: when the client has read all that the server wrote to it,
      on whole headers, what it has read is the public key and the sealed data of
      its mail if and only if every send to it went out whole. */
  lemma {:induction false} MailIsReadIffWhole(c: Cipher, states: seq<State>, actions: seq<Action>, n: nat, id: SizeT,
                                              e: Side)
    requires Lawful(c) && IsRun(c, states, actions) && n <= |actions| && Joined(c, states[n], id, e)
    requires states[n].book.roster[id].key == KeyHere(c, e)
    requires ClientSpec.WholeUntil(c, e.states, e.actions, e.at)
    requires Sendings(c, KeyHere(c, e), MailFor(c, states, actions, n, id))
    requires AllRead(Here(c, e).link, StreamOf(states[n], id).outbox)
    ensures Here(c, e).link.frames ==
            [PairOf(states[n], id).public] + BodiesIn(c, KeyHere(c, e), MailFor(c, states, actions, n, id)) <==>
            AllWhole(c, KeyHere(c, e), MailFor(c, states, actions, n, id))
  {
    OutboxHoldsMail(c, states, actions, n, id);
    ClientSpec.RunsAreSafe(c, e.states, e.actions, e.at);
    ClientSpec.IntactIffWholeHeaders(c, e.states, e.actions, e.at);
    ReadIffWhole(c, KeyHere(c, e), PairOf(states[n], id).public, MailFor(c, states, actions, n, id), Here(c, e).link);
  }

  /** On this connection no header was cut short, and no send either way. */
  ghost predicate Undisturbed(c: Cipher, states: seq<State>, actions: seq<Action>, n: nat, id: SizeT, e: Side)
    requires IsRun(c, states, actions) && n <= |actions| && Joined(c, states[n], id, e)
  {
    && WholeUntil(states, actions, n, states[n].book.roster[id].fd)
    && ClientSpec.WholeUntil(c, e.states, e.actions, e.at)
    && Sendings(c, KeyHere(c, e), MailHere(c, e)) && AllWhole(c, KeyHere(c, e), MailHere(c, e))
    && Sendings(c, KeyHere(c, e), MailFor(c, states, actions, n, id))
    && AllWhole(c, KeyHere(c, e), MailFor(c, states, actions, n, id))
  }

  /** A whole conversation, between one run of a client program, which connects,
      sends, receives and disconnects as it likes, and one run of a server, with
      any other clients and threads. If the two are joined and the connection is
      undisturbed, each side has received, in order, the beginning of what the
      other has sent; and all of it, once it has read all that was written. */
  lemma {:induction false} Conversation(c: Cipher, states: seq<State>, actions: seq<Action>, n: nat, id: SizeT,
                                        e: Side)
    requires Lawful(c) && IsRun(c, states, actions) && n <= |actions| && Joined(c, states[n], id, e)
    requires Undisturbed(c, states, actions, n, id, e)
    ensures states[n].book.roster[id].key == KeyHere(c, e)
    ensures TextsOf(states[n].history, id) <= DatasIn(MailHere(c, e))
    ensures AllRead(StreamOf(states[n], id), Here(c, e).link.outbox) ==>
              TextsOf(states[n].history, id) == DatasIn(MailHere(c, e))
    ensures Here(c, e).texts <= DatasIn(MailFor(c, states, actions, n, id))
    ensures AllRead(Here(c, e).link, StreamOf(states[n], id).outbox) ==>
              Here(c, e).texts == DatasIn(MailFor(c, states, actions, n, id))
  {
    SentIsReceived(c, states, actions, n, id, e);
    MailIsHeard(c, states, actions, n, id, e);
  }

  // Broadcast.

  /** The send to client i of the order goes out whole. */
  predicate SentWhole(c: Cipher, a: Action, i: nat, data: Bytes)
    requires a.SendAll? && i < |a.order| == |a.nonces| == |a.results|
  {
    a.results[i] == Sent(|MessageFor(c, a.order[i].sock, a.nonces[i], data)|)
  }

  /** Every entry is a client of the map, and no two share a descriptor. */
  ghost predicate Apart(order: seq<Entry>, m: map<SizeT, Socket>) {
    && (forall i | 0 <= i < |order| :: order[i].id in m && m[order[i].id] == order[i].sock)
    && (forall i, j | 0 <= i < j < |order| :: order[i].sock.fd != order[j].sock.fd)
  }

  lemma {:induction false} ListedIsApart(b: Book, order: seq<Entry>)
    requires Rostered(b) && Tables.Lists(order, b.clients)
    ensures Apart(order, b.clients)
  {
    forall i, j | 0 <= i < j < |order| ensures order[i].sock.fd != order[j].sock.fd {
      assert order[i].id != order[j].id;
      assert b.roster[order[i].id] == order[i].sock && b.roster[order[j].id] == order[j].sock;
    }
  }

  /** A broadcast as it is carried out: to clients of the map, with keys the
      cipher takes, and whole. */
  ghost predicate Broadcast(c: Cipher, s: State, a: Action) {
    && a.SendAll? && |a.order| == |a.nonces| == |a.results|
    && s.serving && !s.phase.Crashed? && Apart(a.order, s.book.clients)
    && forall j | 0 <= j < |a.order| :: Keyed(a.order[j].sock.key) && SentWhole(c, a, j, a.data)
  }

  /** What send n of a broadcast does to the stream on fd. */
  lemma {:induction false} SendStep(c: Cipher, s: State, a: Action, n: nat, fd: nat)
    requires Broadcast(c, s, a) && n < |a.order| && !AfterSends(c, s, a, n).phase.Crashed?
    ensures var sock := a.order[n].sock;
            var l := LinkOf(AfterSends(c, s, a, n), fd);
            LinkOf(AfterSends(c, s, a, n + 1), fd) ==
            if sock.fd == fd then l.(outbox := l.outbox + MessageFor(c, sock, a.nonces[n], a.data)) else l
    ensures !AfterSends(c, s, a, n + 1).phase.Crashed?
  {
    SendsKeepBook(c, s, a, n);
    var e := a.order[n];
    assert e.id in s.book.clients && s.book.clients[e.id] == e.sock && SentWhole(c, a, n, a.data);
    var message := MessageFor(c, e.sock, a.nonces[n], a.data);
    assert Part(message, |message|) == message;
  }

  lemma {:induction false} BroadcastStands(c: Cipher, s: State, a: Action, n: nat)
    requires Broadcast(c, s, a) && n <= |a.order|
    ensures !AfterSends(c, s, a, n).phase.Crashed?
  {
    if n > 0 {
      BroadcastStands(c, s, a, n - 1);
      SendStep(c, s, a, n - 1, 0);
    }
  }

  /** Sends leave alone a descriptor that is none of theirs ... */
  lemma {:induction false} SendsMiss(c: Cipher, s: State, a: Action, n: nat, fd: nat)
    requires a.SendAll? && |a.order| == |a.nonces| == |a.results| && n <= |a.order|
    requires forall id | id in s.book.clients :: s.book.clients[id].fd != fd
    ensures LinkOf(AfterSends(c, s, a, n), fd) == LinkOf(s, fd)
  {
    if n > 0 {
      SendsMiss(c, s, a, n - 1, fd);
      SendsKeepBook(c, s, a, n - 1);
    }
  }

  lemma {:induction false} SendsMissFirst(c: Cipher, s: State, a: Action, n: nat, fd: nat)
    requires Broadcast(c, s, a) && n <= |a.order|
    requires forall j | 0 <= j < n :: a.order[j].sock.fd != fd
    ensures LinkOf(AfterSends(c, s, a, n), fd) == LinkOf(s, fd)
  {
    if n > 0 {
      SendsMissFirst(c, s, a, n - 1, fd);
      BroadcastStands(c, s, a, n - 1);
      SendStep(c, s, a, n - 1, fd);
    }
  }

  /** ... and put one message on each that is. */
  lemma {:induction false} SendHits(c: Cipher, s: State, a: Action, i: nat)
    requires Broadcast(c, s, a) && i < |a.order|
    ensures var sock := a.order[i].sock;
            var l := LinkOf(s, sock.fd);
            LinkOf(AfterSends(c, s, a, i + 1), sock.fd) ==
            l.(outbox := l.outbox + MessageFor(c, sock, a.nonces[i], a.data))
  {
    BroadcastStands(c, s, a, i);
    SendStep(c, s, a, i, a.order[i].sock.fd);
    SendsMissFirst(c, s, a, i, a.order[i].sock.fd);
  }

  lemma {:induction false} SendsHit(c: Cipher, s: State, a: Action, n: nat, i: nat)
    requires Broadcast(c, s, a) && i < n <= |a.order|
    ensures LinkOf(AfterSends(c, s, a, n), a.order[i].sock.fd) == LinkOf(AfterSends(c, s, a, i + 1), a.order[i].sock.fd)
  {
    if i < n - 1 {
      SendsHit(c, s, a, n - 1, i);
      BroadcastStands(c, s, a, n - 1);
      SendStep(c, s, a, n - 1, a.order[i].sock.fd);
    }
  }

  /** A broadcast that meets a key too short for the cipher brings the server
      down. */
  lemma {:induction false} ShortKeyFalls(c: Cipher, s: State, a: Action, n: nat, i: nat)
    requires a.SendAll? && |a.order| == |a.nonces| == |a.results| && i < n <= |a.order|
    requires s.serving && Apart(a.order, s.book.clients) && !Keyed(a.order[i].sock.key)
    ensures AfterSends(c, s, a, n).phase.Crashed?
  {
    SendsKeepBook(c, s, a, n - 1);
    if i < n - 1 { ShortKeyFalls(c, s, a, n - 1, i); }
  }

  lemma {:induction false} AnyShortKeyFalls(c: Cipher, s: State, a: Action)
    requires a.SendAll? && |a.order| == |a.nonces| == |a.results| && Tables.Lists(a.order, s.book.clients)
    requires s.serving && Apart(a.order, s.book.clients) && !AllKeyed(s.book.clients)
    ensures AfterSends(c, s, a, |a.order|).phase.Crashed?
  {
    var id :| id in s.book.clients && !Keyed(s.book.clients[id].key);
    assert Tables.Listed(a.order, id);
    var i :| 0 <= i < |a.order| && a.order[i].id == id;
    ShortKeyFalls(c, s, a, |a.order|, i);
  }

  /** The stream to a client has grown by one frame, which it can decrypt. */
  ghost predicate GotOne(c: Cipher, l: Link, l': Link, key: Bytes, data: Bytes) {
    exists body: Bytes :: l' == l.(outbox := l.outbox + Frame(body)) && AesOpen(c, key, body) == Some(data)
  }

  ghost predicate AllKeyed(m: map<SizeT, Socket>) {
    forall id | id in m :: Keyed(m[id].key)
  }

  /** A broadcast whose sends all go out whole puts exactly one frame with the
      data on the stream of every client in the map, whatever the order, unless
      the key of one is too short for the cipher; and nothing on any other. */
  lemma {:induction false} BroadcastReachesEveryone(c: Cipher, s: State, a: Action, s': State)
    requires Lawful(c) && Rostered(s.book) && s.serving && !s.phase.Crashed?
    requires a.SendAll? && |a.order| == |a.nonces| == |a.results| && Tables.Lists(a.order, s.book.clients)
    requires forall i | 0 <= i < |a.order| :: |a.nonces[i]| == NONCE_SIZE && SentWhole(c, a, i, a.data)
    requires s' == AfterSends(c, s, a, |a.order|)
    ensures s'.phase.Crashed? <==> !AllKeyed(s.book.clients)
    ensures !s'.phase.Crashed? ==>
              forall id | id in s.book.clients ::
                var sock := s.book.clients[id];
                GotOne(c, LinkOf(s, sock.fd), LinkOf(s', sock.fd), sock.key, a.data)
    ensures forall fd: nat | (forall id | id in s.book.clients :: s.book.clients[id].fd != fd) ::
              LinkOf(s', fd) == LinkOf(s, fd)
  {
    ListedIsApart(s.book, a.order);
    forall fd: nat | forall id | id in s.book.clients :: s.book.clients[id].fd != fd
      ensures LinkOf(s', fd) == LinkOf(s, fd)
    {
      SendsMiss(c, s, a, |a.order|, fd);
    }
    if AllKeyed(s.book.clients) {
      BroadcastStands(c, s, a, |a.order|);
      forall id | id in s.book.clients
        ensures var sock := s.book.clients[id];
                GotOne(c, LinkOf(s, sock.fd), LinkOf(s', sock.fd), sock.key, a.data)
      {
        BroadcastReachesOne(c, s, a, s', id);
      }
    } else {
      AnyShortKeyFalls(c, s, a);
    }
  }

  lemma {:induction false} BroadcastReachesOne(c: Cipher, s: State, a: Action, s': State, id: SizeT)
    requires Lawful(c) && Broadcast(c, s, a) && Tables.Lists(a.order, s.book.clients) && id in s.book.clients
    requires forall i | 0 <= i < |a.order| :: |a.nonces[i]| == NONCE_SIZE
    requires s' == AfterSends(c, s, a, |a.order|)
    ensures var sock := s.book.clients[id];
            GotOne(c, LinkOf(s, sock.fd), LinkOf(s', sock.fd), sock.key, a.data)
  {
    assert Tables.Listed(a.order, id);
    var i :| 0 <= i < |a.order| && a.order[i].id == id;
    var sock := a.order[i].sock;
    SendHits(c, s, a, i);
    SendsHit(c, s, a, |a.order|, i);
    AesRoundTrip(c, sock.key, a.nonces[i], a.data);
    var l, body := LinkOf(s, sock.fd), AesSeal(c, sock.key, a.nonces[i], a.data);
    assert LinkOf(s', sock.fd) == l.(outbox := l.outbox + Frame(body));
  }
}
