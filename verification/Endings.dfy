/** How service ends: exactly which steps stop the serve thread or bring the server
    down, that service does not come back, and that honest clients never bring it
    down. */
module Endings {
  import opened Defs
  import opened Wire
  import opened Crypto
  import opened Links
  import opened Handshakes
  import opened ServerSpec
  import opened ServerBook
  import opened ServerEvents
  import opened ServerSafety
  import opened ServerSteps
  import opened ServerTheorems
  import opened Outboxes
  import opened Delivery
  import Tables

  // Crashing.

  lemma {:induction false} KeyedSendsStand(c: Cipher, s: State, a: Action, n: nat)
    requires a.SendAll? && |a.order| == |a.nonces| == |a.results| && n <= |a.order|
    requires AllKeyed(s.book.clients) && !s.phase.Crashed?
    ensures AfterSends(c, s, a, n).phase == s.phase
  {
    if n > 0 {
      KeyedSendsStand(c, s, a, n - 1);
      SendsKeepBook(c, s, a, n - 1);
    }
  }

  lemma {:induction false} SendAllCrashes(c: Cipher, s: State, a: Action)
    requires a.SendAll? && |a.order| == |a.nonces| == |a.results| && Tables.Lists(a.order, s.book.clients)
    requires Rostered(s.book) && !s.phase.Crashed?
    ensures AfterSends(c, s, a, |a.order|).phase.Crashed? <==> s.serving && !AllKeyed(s.book.clients)
    ensures !AfterSends(c, s, a, |a.order|).phase.Crashed? ==> AfterSends(c, s, a, |a.order|).phase == s.phase
  {
    if !s.serving {
      UnservedSends(c, s, a, |a.order|);
    } else if AllKeyed(s.book.clients) {
      KeyedSendsStand(c, s, a, |a.order|);
    } else {
      ListedIsApart(s.book, a.order);
      AnyShortKeyFalls(c, s, a);
    }
  }

  /** The body read is whole, and does not open under the key of its client. */
  predicate Unopened(c: Cipher, s: State, r: ReadResult)
    requires s.phase.Awaiting? && InScan(s.phase)
    requires r.Data? ==> r.n <= |LinkOf(s, Current(s.phase).sock.fd).inbox|
  {
    var sock := Current(s.phase).sock;
    r.Data? && r.n == s.phase.size && AesOpen(c, sock.key, LinkOf(s, sock.fd).inbox[..r.n]).None?
  }

  /** Exactly when a step crashes the server. */
  ghost predicate Crashes(c: Cipher, s: State, a: Action)
    requires Enabled(c, s, a)
  {
    match a
    case AcceptClient(_, _, _, _, _, _, _, _) => s.serving && Exchanged(c, a).Faulted?
    case ReadBody(r) => Unopened(c, s, r)
    case Send(id, _, _, _) => s.serving && id in s.book.clients && !Keyed(s.book.clients[id].key)
    case SendAll(_, _, _, _) => s.serving && !AllKeyed(s.book.clients)
    case _ => false
  }

  lemma {:induction false} BodyCrashes(c: Cipher, s: State, r: ReadResult, s': State)
    requires Safe(c, s) && s.phase.Awaiting? && InScan(s.phase)
    requires var fd := Current(s.phase).sock.fd; Allows(LinkOf(s, fd), IsOpen(s, fd), s.phase.size, r)
    requires s' == AfterBody(c, s, r)
    ensures s'.phase.Crashed? <==> Unopened(c, s, r)
  {
    if r.Data? {
      DispatchFindsClient(c, s, r);
      DataCrashes(c, s, r.n, s');
    }
  }

  lemma {:induction false} DataCrashes(c: Cipher, s: State, n: nat, s': State)
    requires s.phase.Awaiting? && InScan(s.phase) && n <= |LinkOf(s, Current(s.phase).sock.fd).inbox|
    requires var e := Current(s.phase); e.id in s.book.clients && s.book.clients[e.id] == e.sock
    requires s' == AfterBody(c, s, Data(n))
    ensures s'.phase.Crashed? <==> Unopened(c, s, Data(n))
  {
  }

  lemma {:induction false} HeaderDoesNotCrash(s: State, r: ReadResult)
    requires InScan(s.phase) && |s.sizeBuffer| == LENSIZE
    requires r.Data? ==> r.n <= LENSIZE && r.n <= |LinkOf(s, Current(s.phase).sock.fd).inbox|
    ensures !AfterHeader(s, r).phase.Crashed?
  {
  }

  /** A step crashes the server if and only if the handshake it serves does not
      decrypt, the whole body it reads does not, or it sends under a key too short
      for the cipher. */
  lemma {:induction false} CrashesIff(c: Cipher, s: State, a: Action, s': State)
    requires Safe(c, s) && Enabled(c, s, a) && s' == Next(c, s, a)
    ensures s'.phase.Crashed? <==> Crashes(c, s, a)
  {
    match a
    case ReadHeader(r) => HeaderDoesNotCrash(s, r);
    case ReadBody(r) => BodyCrashes(c, s, r, s');
    case SendAll(_, _, _, _) => SendAllCrashes(c, s, a);
    case _ =>
  }

  /** In every run, nothing is ever received from a client whose key is too short for
      the cipher. */
  lemma {:induction false} ShortKeyHearsNothing(c: Cipher, states: seq<State>, actions: seq<Action>, n: nat, id: SizeT)
    requires IsRun(c, states, actions) && n <= |actions| && id in states[n].book.roster
    ensures !Keyed(states[n].book.roster[id].key) ==> TextsOf(states[n].history, id) == []
  {
    RunsAreSafe(c, states, actions, n);
    assert Streamed(c, states[n], id);
    OnlyKeyedOpens(c, states[n].book.roster[id].key, StreamOf(states[n], id).frames[1..],
                   TextsOf(states[n].history, id));
  }

  lemma {:induction false} OnlyKeyedOpens(c: Cipher, key: Bytes, bodies: seq<Bytes>, texts: seq<Bytes>)
    requires Opens(c, key, bodies, texts)
    ensures !Keyed(key) ==> texts == []
  {
    if texts != [] { assert AesOpen(c, key, bodies[0]).Some?; }
  }

  // Returning.

  /** Exactly when a step makes the serve thread return. */
  ghost predicate Returns(c: Cipher, s: State, a: Action)
    requires Enabled(c, s, a)
  {
    match a
    case NoConnection => !s.serving
    case AcceptFails => true
    case AcceptBroken => true
    case AcceptClient(_, _, _, _, _, _, _, _) => !s.serving || Exchanged(c, a).Refused?
    case ReadHeader(r) => r.OtherError?
    case ReadBody(r) => r.WouldBlock? || r.OtherError? || (r.Data? && r.n != s.phase.size)
    case _ => false
  }

  lemma {:induction false} SendsKeepPhase(c: Cipher, s: State, a: Action, n: nat)
    requires a.SendAll? && |a.order| == |a.nonces| == |a.results| && n <= |a.order|
    ensures var p := AfterSends(c, s, a, n).phase; p == s.phase || p == Crashed
  {
    if n > 0 { SendsKeepPhase(c, s, a, n - 1); }
  }

  lemma {:induction false} HeaderReturns(s: State, r: ReadResult)
    requires InScan(s.phase) && |s.sizeBuffer| == LENSIZE
    requires r.Data? ==> r.n <= LENSIZE && r.n <= |LinkOf(s, Current(s.phase).sock.fd).inbox|
    ensures AfterHeader(s, r).phase.Returned? <==> r.OtherError?
  {
  }

  lemma {:induction false} BodyReturns(c: Cipher, s: State, r: ReadResult)
    requires s.phase.Awaiting? && InScan(s.phase)
    requires r.Data? ==> r.n <= |LinkOf(s, Current(s.phase).sock.fd).inbox|
    ensures AfterBody(c, s, r).phase.Returned? <==>
            r.WouldBlock? || r.OtherError? || (r.Data? && r.n != s.phase.size)
  {
  }

  /** A step makes the serve thread return if and only if the server has stopped, an
      accept goes wrong, a handshake is refused, or a read fails or is short. */
  lemma {:induction false} ReturnsIff(c: Cipher, s: State, a: Action, s': State)
    requires Enabled(c, s, a) && s' == Next(c, s, a) && !s.phase.Returned?
    ensures s'.phase.Returned? <==> Returns(c, s, a)
  {
    match a
    case ReadHeader(r) => HeaderReturns(s, r);
    case ReadBody(r) => BodyReturns(c, s, r);
    case SendAll(order, _, _, _) => SendsKeepPhase(c, s, a, |order|);
    case _ =>
  }

  // Service does not come back.

  lemma {:induction false} OverStaysOver(c: Cipher, s: State, a: Action, s': State)
    requires Switched(s) && Enabled(c, s, a) && s' == Next(c, s, a) && !Live(s.phase)
    ensures !Live(s'.phase) && s'.history == s.history && s'.nextId == s.nextId
  {
    if a.SendAll? {
      SendsKeepPhase(c, s, a, |a.order|);
      SendsKeepBook(c, s, a, |a.order|);
    }
  }

  lemma {:induction false} RunIsSwitched(c: Cipher, states: seq<State>, actions: seq<Action>, n: nat)
    requires IsRun(c, states, actions) && n <= |actions|
    ensures Switched(states[n])
  {
    RunsAreSafe(c, states, actions, n);
  }

  /** In every run, once the serve thread has returned or the server has crashed, no
      callback is started and no client connects ever again. */
  lemma {:induction false} ServiceIsOver(c: Cipher, states: seq<State>, actions: seq<Action>, n: nat, m: nat)
    requires IsRun(c, states, actions) && n <= m <= |actions| && !Live(states[n].phase)
    ensures !Live(states[m].phase) && states[m].history == states[n].history && states[m].nextId == states[n].nextId
  {
    if n < m {
      ServiceIsOver(c, states, actions, n, m - 1);
      RunIsSwitched(c, states, actions, m - 1);
      OverStaysOver(c, states[m - 1], actions[m - 1], states[m]);
    }
  }

  /** One client ends service for all: its handshake is refused, or a body of its is
      cut short. */
  ghost predicate OneClientEnds(c: Cipher, s: State, a: Action)
    requires Enabled(c, s, a)
  {
    || (a.AcceptClient? && s.serving && Exchanged(c, a).Refused?)
    || (a.ReadBody? && a.r.Data? && a.r.n != s.phase.size)
  }

  lemma {:induction false} EndIsSilent(c: Cipher, s: State, a: Action, s': State)
    requires Enabled(c, s, a) && s' == Next(c, s, a) && OneClientEnds(c, s, a)
    ensures !Live(s'.phase) && s'.history == s.history
  {
  }

  /** One client's refused handshake, or body cut short, ends service for every
      client: nothing is delivered of it, and no callback is started after it. */
  lemma {:induction false} OneClientEndsService(c: Cipher, states: seq<State>, actions: seq<Action>, n: nat, m: nat)
    requires IsRun(c, states, actions) && n < m <= |actions| && OneClientEnds(c, states[n], actions[n])
    ensures !Live(states[m].phase) && states[m].history == states[n].history
  {
    EndIsSilent(c, states[n], actions[n], states[n + 1]);
    ServiceIsOver(c, states, actions, n + 1, m);
  }

  // Honest clients.

  /** The accept of a client whose stream is that of a proper peer. */
  ghost predicate HonestAccept(c: Cipher, a: Action, p: Peer)
    requires a.AcceptClient?
  {
    && Paired(c, a.pair.public, a.pair.private) && ProperPeer(c, p)
    && a.arrived <= Frames(BodiesOf(c, a.pair.public, p)) && (a.header.Data? ==> a.header.n == LENSIZE)
  }

  lemma {:induction false} FirstOfFrames(bodies: seq<Bytes>)
    requires bodies != []
    ensures Frame(bodies[0]) <= Frames(bodies)
  {
  }

  lemma {:induction false} HonestAcceptStands(c: Cipher, a: Action, p: Peer)
    requires Lawful(c) && a.AcceptClient? && Exchangeable(a) && HonestAccept(c, a, p)
    ensures !Exchanged(c, a).Faulted?
  {
    if !Exchanged(c, a).Refused? {
      var bodies := BodiesOf(c, a.pair.public, p);
      var l := Accepted(a.arrived, a.hangup, a.pair.public);
      HandshakeIsSendable(c, a.pair.public, a.pair.private, p.draw);
      FirstOfFrames(bodies);
      var queued := FirstFrame(a.arrived, Frames(bodies), bodies[0], a.buffer, l, a.body.n);
      ServerHalf(c, a.pair.public, a.pair.private, p.draw, l, a.buffer, a.body, queued);
    }
  }

  /** In the first n steps, every accepted client is a proper peer, all that comes in
      from it is how its stream begins, and no header is cut short. */
  ghost predicate AllHonest(c: Cipher, states: seq<State>, actions: seq<Action>, n: nat, peers: SizeT -> Peer)
    requires IsRun(c, states, actions) && n <= |actions|
  {
    && (forall i {:trigger actions[i]} | 0 <= i < n :: HonestAt(c, states[i], actions[i], peers))
    && (forall fd: nat :: WholeUntil(states, actions, n, fd))
  }

  lemma {:induction false} HonestBefore(c: Cipher, states: seq<State>, actions: seq<Action>, n: nat,
                                        peers: SizeT -> Peer)
    requires IsRun(c, states, actions) && n < |actions| && AllHonest(c, states, actions, n + 1, peers)
    ensures AllHonest(c, states, actions, n, peers) && HonestAt(c, states[n], actions[n], peers)
  {
    forall fd: nat ensures WholeUntil(states, actions, n, fd) {
      assert WholeUntil(states, actions, n + 1, fd);
      WholeOneMore(states, actions, n, fd);
    }
  }

  ghost predicate HonestAt(c: Cipher, s: State, a: Action, peers: SizeT -> Peer) {
    && (forall id | id in s.book.roster :: Hears(c, s, id, peers(id)))
    && (a.AcceptClient? && s.serving && s.nextId < SIZE_MAX ==> HonestAccept(c, a, peers(s.nextId)))
  }

  lemma {:induction false} HonestKeys(c: Cipher, states: seq<State>, actions: seq<Action>, n: nat, peers: SizeT -> Peer)
    requires Lawful(c) && IsRun(c, states, actions) && n < |actions| && HonestAt(c, states[n], actions[n], peers)
    requires forall fd: nat :: WholeUntil(states, actions, n, fd)
    ensures AllKeyed(states[n].book.clients)
  {
    RunIsRegistered(c, states, actions, n);
    forall id | id in states[n].book.clients ensures Keyed(states[n].book.clients[id].key) {
      assert states[n].book.roster[id] == states[n].book.clients[id];
      assert Hears(c, states[n], id, peers(id));
      IntactIffWholeHeaders(c, states, actions, n, states[n].book.roster[id].fd);
      EndToEnd(c, states, actions, n, id, peers(id));
    }
  }

  lemma {:induction false} HonestBodyOpens(c: Cipher, states: seq<State>, actions: seq<Action>, n: nat,
                                           r: ReadResult, peers: SizeT -> Peer)
    requires Lawful(c) && IsRun(c, states, actions) && n < |actions| && actions[n] == ReadBody(r)
    requires HonestAt(c, states[n], actions[n], peers) && forall fd: nat :: WholeUntil(states, actions, n, fd)
    ensures !Unopened(c, states[n], r)
  {
    var s := states[n];
    var id := Current(s.phase).id;
    RunsAreSafe(c, states, actions, n);
    if r.Data? && r.n == s.phase.size {
      DispatchFindsClient(c, s, r);
      CurrentStream(c, s, id);
      assert Hears(c, s, id, peers(id));
      IntactIffWholeHeaders(c, states, actions, n, Current(s.phase).sock.fd);
      ProperBodyOpens(c, s, id, peers(id));
    }
  }

  lemma {:induction false} HonestStepStands(c: Cipher, states: seq<State>, actions: seq<Action>, n: nat,
                                            peers: SizeT -> Peer)
    requires Lawful(c) && IsRun(c, states, actions) && n < |actions| && HonestAt(c, states[n], actions[n], peers)
    requires forall fd: nat :: WholeUntil(states, actions, n, fd)
    ensures !Crashes(c, states[n], actions[n])
  {
    var a := actions[n];
    if a.AcceptClient? && states[n].serving {
      HonestAcceptStands(c, a, peers(states[n].nextId));
    } else if a.ReadBody? {
      HonestBodyOpens(c, states, actions, n, a.r, peers);
    } else if a.Send? || a.SendAll? {
      HonestKeys(c, states, actions, n, peers);
    }
  }

  lemma {:induction false} StartsCalm(c: Cipher, states: seq<State>, actions: seq<Action>)
    requires IsRun(c, states, actions)
    ensures !states[0].phase.Crashed?
  {
  }

  lemma {:induction false} HonestNext(c: Cipher, states: seq<State>, actions: seq<Action>, n: nat, peers: SizeT -> Peer)
    requires Lawful(c) && IsRun(c, states, actions) && n < |actions| && AllHonest(c, states, actions, n + 1, peers)
    ensures !Crashes(c, states[n], actions[n])
  {
    HonestBefore(c, states, actions, n, peers);
    HonestStepStands(c, states, actions, n, peers);
  }

  lemma {:induction false} CrashesInRunIff(c: Cipher, states: seq<State>, actions: seq<Action>, n: nat)
    requires IsRun(c, states, actions) && n < |actions|
    ensures states[n + 1].phase.Crashed? <==> Crashes(c, states[n], actions[n])
  {
    RunsAreSafe(c, states, actions, n);
    CrashesIff(c, states[n], actions[n], states[n + 1]);
  }

  /** In every run, as long as every accepted client is a proper peer, and no header
      is cut short, the server does not crash, whatever its other threads do. */
  lemma {:induction false} HonestClientsDoNotCrash(c: Cipher, states: seq<State>, actions: seq<Action>, n: nat,
                                                   peers: SizeT -> Peer)
    requires Lawful(c) && IsRun(c, states, actions) && n <= |actions| && AllHonest(c, states, actions, n, peers)
    ensures !states[n].phase.Crashed?
  {
    if n == 0 {
      StartsCalm(c, states, actions);
    } else {
      HonestNext(c, states, actions, n - 1, peers);
      CrashesInRunIff(c, states, actions, n - 1);
    }
  }
}
