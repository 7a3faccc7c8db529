/** What each step of the server does to the clients in the map, to the records of
    the past and to the streams: who leaves and when, what is reported, what is
    consumed, and that nothing else changes. */
module Effects {
  import opened Defs
  import opened Wire
  import opened Crypto
  import opened Links
  import opened Mails
  import opened Handshakes
  import opened ServerSpec
  import opened ServerBook
  import opened ServerSafety
  import opened ServerSteps
  import opened ServerTheorems
  import opened Outboxes
  import opened Endings
  import Tables

  // Who leaves.

  /** This client, and no other, has left the map: its socket has been closed, and
      its key freed or not, for this cause. */
  ghost predicate LeavesBook(b: Book, b': Book, id: SizeT, cause: Cause, freed: bool)
    requires id in b.clients
  {
    var fd := b.clients[id].fd;
    && b'.clients == b.clients - {id} && b'.roster == b.roster && b'.jammed == b.jammed
    && b'.leaves == b.leaves + multiset{id} && b'.causes == b.causes[id := cause]
    && b'.closed == b.closed + multiset{fd}
    && b'.freed == (if freed then b.freed + multiset{fd} else b.freed)
  }

  /** The kernel reports that the connection is gone. */
  predicate SaysGone(r: ReadResult) {
    r.Eof? || r.BadFd?
  }

  /** A read, of a header or of a body, makes the client it is on leave if and only
      if it reports that the connection is gone, and the client is still in the
      map: then the client leaves, closed and freed, and its disconnection is
      reported. Otherwise nobody leaves, and at most a text is reported. */
  lemma {:induction false} ReadDisconnectsIff(c: Cipher, s: State, a: Action, s': State)
    requires Safe(c, s) && Enabled(c, s, a) && s' == Next(c, s, a) && (a.ReadHeader? || a.ReadBody?)
    ensures var id := Current(s.phase).id;
            if SaysGone(a.r) && id in s.book.clients
            then LeavesBook(s.book, s'.book, id, ByServe, true) && s'.history == s.history + [Disconnected(id)]
            else s'.book == s.book
                 && (s'.history == s.history || exists text :: s'.history == s.history + [Received(id, text)])
  {
    if a.ReadHeader? {
      HeaderDisconnectsIff(s, a.r, s');
    } else {
      BodyDisconnectsIff(c, s, a.r, s');
    }
  }

  lemma {:induction false} HeaderDisconnectsIff(s: State, r: ReadResult, s': State)
    requires s.phase.Scanning? && InScan(s.phase) && |s.sizeBuffer| == LENSIZE
    requires r.Data? ==> r.n <= LENSIZE && r.n <= |LinkOf(s, Current(s.phase).sock.fd).inbox|
    requires s' == AfterHeader(s, r)
    ensures var id := Current(s.phase).id;
            if SaysGone(r) && id in s.book.clients
            then LeavesBook(s.book, s'.book, id, ByServe, true) && s'.history == s.history + [Disconnected(id)]
            else s'.book == s.book && s'.history == s.history
  {
  }

  lemma {:induction false} BodyDisconnectsIff(c: Cipher, s: State, r: ReadResult, s': State)
    requires s.phase.Awaiting? && InScan(s.phase)
    requires r.Data? ==> r.n <= |LinkOf(s, Current(s.phase).sock.fd).inbox|
    requires s' == AfterBody(c, s, r)
    ensures var id := Current(s.phase).id;
            if SaysGone(r) && id in s.book.clients
            then LeavesBook(s.book, s'.book, id, ByServe, true) && s'.history == s.history + [Disconnected(id)]
            else s'.book == s.book
                 && (s'.history == s.history || exists text :: s'.history == s.history + [Received(id, text)])
  {
    if r.Data? {
      var _, _, text := BodyCases(c, s, r.n);
    }
  }

  /** A text is reported if and only if it is what a body, read whole, opens to under
      the key of the client it was read from. */
  lemma {:induction false} ReadDeliversIff(c: Cipher, s: State, a: Action, s': State, text: Bytes)
    requires Safe(c, s) && Enabled(c, s, a) && s' == Next(c, s, a) && (a.ReadHeader? || a.ReadBody?)
    ensures var e := Current(s.phase);
            s'.history == s.history + [Received(e.id, text)] <==>
            && a.ReadBody? && a.r.Data? && a.r.n == s.phase.size
            && AesOpen(c, e.sock.key, s.links[e.sock.fd].inbox[..a.r.n]) == Some(text)
  {
    if a.ReadBody? && a.r.Data? {
      DispatchFindsClient(c, s, a.r);
      DataDelivers(c, s, a.r.n, s', text);
    } else {
      if a.ReadHeader? {
        HeaderDisconnectsIff(s, a.r, s');
      } else {
        BodyDisconnectsIff(c, s, a.r, s');
        NoTextWithoutData(c, s, a.r, s');
      }
      OtherLast(s.history, Received(Current(s.phase).id, text), Disconnected(Current(s.phase).id));
    }
  }

  lemma {:induction false} DataDelivers(c: Cipher, s: State, n: nat, s': State, text: Bytes)
    requires s.phase.Awaiting? && InScan(s.phase) && n <= |LinkOf(s, Current(s.phase).sock.fd).inbox|
    requires var e := Current(s.phase); e.id in s.book.clients && s.book.clients[e.id] == e.sock
    requires s' == AfterBody(c, s, Data(n))
    ensures var e := Current(s.phase);
            s'.history == s.history + [Received(e.id, text)] <==>
            n == s.phase.size && AesOpen(c, e.sock.key, LinkOf(s, e.sock.fd).inbox[..n]) == Some(text)
  {
    var id := Current(s.phase).id;
    var plain := AesOpen(c, Current(s.phase).sock.key, LinkOf(s, Current(s.phase).sock.fd).inbox[..n]);
    OtherLast(s.history, Received(id, text), Received(id, if plain.Some? then plain.value else []));
  }

  lemma {:induction false} NoTextWithoutData(c: Cipher, s: State, r: ReadResult, s': State)
    requires s.phase.Awaiting? && InScan(s.phase) && !r.Data? && s' == AfterBody(c, s, r)
    ensures s'.history == s.history || s'.history == s.history + [Disconnected(Current(s.phase).id)]
  {
  }

  // What a read consumes.

  /** A read that delivers n bytes takes exactly these off the stream of the client
      it is on, and a header read leaves them in the buffer; every other stream,
      and all of them if none came, stands. */
  lemma {:induction false} ReadConsumes(c: Cipher, s: State, a: Action, s': State)
    requires Safe(c, s) && Enabled(c, s, a) && s' == Next(c, s, a) && (a.ReadHeader? || a.ReadBody?)
    ensures !a.r.Data? ==> s'.links == s.links && s'.sizeBuffer == s.sizeBuffer
    ensures a.r.Data? ==>
              var fd := Current(s.phase).sock.fd;
              && fd in s.links && s'.links.Keys == s.links.Keys
              && (forall other | other in s.links && other != fd :: s'.links[other] == s.links[other])
              && Consumed(s.links[fd], s'.links[fd], a.r.n)
              && s'.sizeBuffer == if a.ReadHeader? then s.links[fd].inbox[..a.r.n] + s.sizeBuffer[a.r.n..]
                                  else s.sizeBuffer
    ensures a.ReadHeader? && a.r.Data? ==>
              s'.phase == Awaiting(s.phase.snapshot, s.phase.at, Value(s'.sizeBuffer))
    ensures s'.serving == s.serving && s'.done == s.done && s'.nextId == s.nextId && s'.keyPairs == s.keyPairs
  {
    if a.ReadHeader? {
      HeaderConsumes(s, a.r, s');
    } else {
      BodyConsumes(c, s, a.r, s');
    }
  }

  ghost predicate Consumed(l: Link, l': Link, n: nat) {
    n <= |l.inbox| && l'.inbox == l.inbox[n..]
    && l'.arrived == l.arrived && l'.hangup == l.hangup && l'.outbox == l.outbox
  }

  /** The stream on fd, and no other, has given n bytes. */
  ghost predicate OnlyConsumed(links: map<nat, Link>, links': map<nat, Link>, fd: nat, n: nat) {
    && fd in links && links'.Keys == links.Keys && Consumed(links[fd], links'[fd], n)
    && forall other | other in links && other != fd :: links'[other] == links[other]
  }

  lemma {:induction false} HeaderConsumes(s: State, r: ReadResult, s': State)
    requires s.phase.Scanning? && InScan(s.phase) && |s.sizeBuffer| == LENSIZE
    requires var fd := Current(s.phase).sock.fd; Allows(LinkOf(s, fd), IsOpen(s, fd), LENSIZE, r)
    requires s' == AfterHeader(s, r)
    ensures !r.Data? ==> s'.links == s.links && s'.sizeBuffer == s.sizeBuffer
    ensures r.Data? ==>
              var fd := Current(s.phase).sock.fd;
              && OnlyConsumed(s.links, s'.links, fd, r.n)
              && s'.sizeBuffer == s.links[fd].inbox[..r.n] + s.sizeBuffer[r.n..]
              && s'.phase == Awaiting(s.phase.snapshot, s.phase.at, Value(s'.sizeBuffer))
    ensures s'.serving == s.serving && s'.done == s.done && s'.nextId == s.nextId && s'.keyPairs == s.keyPairs
  {
  }

  lemma {:induction false} BodyConsumes(c: Cipher, s: State, r: ReadResult, s': State)
    requires s.phase.Awaiting? && InScan(s.phase)
    requires var fd := Current(s.phase).sock.fd; Allows(LinkOf(s, fd), IsOpen(s, fd), s.phase.size, r)
    requires s' == AfterBody(c, s, r)
    ensures !r.Data? ==> s'.links == s.links
    ensures r.Data? ==> OnlyConsumed(s.links, s'.links, Current(s.phase).sock.fd, r.n)
    ensures s'.sizeBuffer == s.sizeBuffer
    ensures s'.serving == s.serving && s'.done == s.done && s'.nextId == s.nextId && s'.keyPairs == s.keyPairs
  {
    if r.Data? {
      var l, _, _ := BodyCases(c, s, r.n);
      assert Consumed(LinkOf(s, Current(s.phase).sock.fd), l, r.n);
    }
  }

  // The public interface.

  /** remove_client takes a client of a serving server out: its socket is closed, its
      key is freed if and only if that succeeded, nobody is told, and the serve
      loop's pass goes on as it was. Otherwise it does nothing. */
  lemma {:induction false} RemoveTakesOut(c: Cipher, s: State, id: SizeT, closeOk: bool, s': State)
    requires Enabled(c, s, Remove(id, closeOk)) && s' == Next(c, s, Remove(id, closeOk))
    ensures if s.serving && id in s.book.clients
            then LeavesBook(s.book, s'.book, id, ByRemove(closeOk), closeOk) && s' == s.(book := s'.book)
            else s' == s
  {
  }

  /** stop does nothing unless the server serves; then it never serves again, and the
      streams, the callbacks and the serve loop's place in its pass stand. */
  lemma {:induction false} StopOnlyStops(c: Cipher, s: State, order: seq<Entry>, failAt: Option<nat>, s': State)
    requires Enabled(c, s, Stop(order, failAt)) && s' == Next(c, s, Stop(order, failAt))
    ensures !s.serving ==> s' == s
    ensures s.serving ==> s' == s.(book := s'.book, serving := false, done := true)
    ensures s'.book.roster == s.book.roster
  {
    DepartFirstLeaves(s.book, order, if failAt.Some? then failAt.value else |order|);
  }

  /** A server starts if and only if it does not serve, has not been stopped, and can
      bind and listen; else nothing happens. */
  lemma {:induction false} StartsIff(c: Cipher, s: State, ready: bool, s': State)
    requires Enabled(c, s, Start(ready)) && s' == Next(c, s, Start(ready))
    ensures if !s.serving && !s.done && ready
            then s'.serving && s'.phase.Accepting? && s' == s.(serving := true, phase := s'.phase)
            else s' == s
  {
  }

  /** A send or broadcast changes nothing but what is written to clients; the mail
      says what that is. It brings the server down only over a short key. */
  lemma {:induction false} SendOnlyWrites(c: Cipher, s: State, a: Action, s': State)
    requires Registered(s) && Enabled(c, s, a) && s' == Next(c, s, a) && (a.Send? || a.SendAll?)
    ensures s' == s.(links := s'.links, phase := s'.phase) && (s'.phase == s.phase || s'.phase == Crashed)
    ensures forall fd | fd in s.links :: fd in s'.links && s'.links[fd] == s.links[fd].(outbox := s'.links[fd].outbox)
  {
    if a.Send? {
      OneSendOnlyWrites(c, s, a.id, a.data, a.nonce, a.result);
    } else {
      SendsOnlyWrite(c, s, a, |a.order|);
      SendsKeepBook(c, s, a, |a.order|);
      SendsKeepPhase(c, s, a, |a.order|);
    }
  }

  /** The links differ at most in what has been written. */
  ghost predicate WrittenOnly(links: map<nat, Link>, links': map<nat, Link>) {
    forall fd | fd in links :: fd in links' && links'[fd] == links[fd].(outbox := links'[fd].outbox)
  }

  lemma {:induction false} OneSendOnlyWrites(c: Cipher, s: State, id: SizeT, data: Bytes, nonce: Bytes,
                                             result: SendResult)
    ensures var s' := AfterSend(c, s, id, data, nonce, result);
            && WrittenOnly(s.links, s'.links) && s' == s.(links := s'.links, phase := s'.phase)
            && (s'.phase == s.phase || s'.phase == Crashed)
  {
  }

  lemma {:induction false} WrittenTwice(links: map<nat, Link>, links': map<nat, Link>, links'': map<nat, Link>)
    requires WrittenOnly(links, links') && WrittenOnly(links', links'')
    ensures WrittenOnly(links, links'')
  {
  }

  lemma {:induction false} SendsOnlyWrite(c: Cipher, s: State, a: Action, n: nat)
    requires a.SendAll? && |a.order| == |a.nonces| == |a.results| && n <= |a.order|
    ensures WrittenOnly(s.links, AfterSends(c, s, a, n).links)
  {
    if n > 0 {
      var m := n - 1;
      SendsOnlyWrite(c, s, a, m);
      OneSendOnlyWrites(c, AfterSends(c, s, a, m), a.order[m].id, a.data, a.nonces[m], a.results[m]);
      WrittenTwice(s.links, AfterSends(c, s, a, m).links, AfterSends(c, s, a, n).links);
    }
  }

  // Accepting.

  /** The handshake of an accepted client came in: its header and its body were read,
      and the body is as long as the size buffer then says. */
  predicate CameIn(a: Action)
    requires a.AcceptClient?
  {
    && a.greeted && a.header.Data? && a.body.Data?
    && a.header.n <= |a.buffer| && a.header.n + a.body.n <= |a.arrived|
    && a.body.n == Value(a.arrived[..a.header.n] + a.buffer[a.header.n..])
  }

  /** What came in as the client's key, sealed. */
  function Envelope(a: Action): Bytes
    requires a.AcceptClient? && CameIn(a)
  {
    a.arrived[a.header.n..a.header.n + a.body.n]
  }

  /** The exchange agrees on a key if and only if the greeting went out, a handshake
      came in, and it opens to the key; it faults if and only if one came in that
      does not open; and else it is refused. */
  lemma {:induction false} ExchangeAgreesIff(c: Cipher, a: Action, key: Bytes)
    requires a.AcceptClient? && Exchangeable(a)
    ensures Exchanged(c, a).Agreed? && Exchanged(c, a).key == key <==>
            CameIn(a) && RsaOpen(c, a.pair.private, Envelope(a)) == Some(key)
    ensures Exchanged(c, a).Faulted? <==> CameIn(a) && RsaOpen(c, a.pair.private, Envelope(a)).None?
    ensures Exchanged(c, a).Refused? <==> !CameIn(a)
    ensures Exchanged(c, a).Agreed? ==>
              var k := a.header.n + a.body.n;
              Exchanged(c, a).link == Link(a.arrived, a.arrived[k..], a.hangup, Frame(a.pair.public), [Envelope(a)], [],
                                           a.header.n == LENSIZE)
  {
    if a.greeted { HandshakeReceived(a); }
  }

  /** What the exchange reads, if it reads anything. */
  lemma {:induction false} HandshakeReceived(a: Action)
    requires a.AcceptClient? && Exchangeable(a) && a.greeted
    ensures var l := Accepted(a.arrived, a.hangup, a.pair.public);
            && (Receive(l, a.buffer, a.header, a.body).Some? <==> CameIn(a))
            && (CameIn(a) ==>
                  Receive(l, a.buffer, a.header, a.body) ==
                  Some(Link(a.arrived, a.arrived[a.header.n + a.body.n..], a.hangup, Frame(a.pair.public),
                            [Envelope(a)], [], a.header.n == LENSIZE)))
  {
    if a.header.Data? && a.body.Data? { CutTwice(a.arrived, a.header.n, a.body.n); }
    if CameIn(a) { assert [] + [Envelope(a)] == [Envelope(a)]; }
  }

  /** An accepted connection uses up an id, and becomes a client, under that id and
      with that key, if and only if the server serves, the greeting went out, a
      handshake came in and it opens. No other stream, client or record changes. */
  lemma {:induction false} AcceptEnrolsIff(c: Cipher, s: State, a: Action, s': State)
    requires Safe(c, s) && Enabled(c, s, a) && s' == Next(c, s, a) && a.AcceptClient? && s.serving
    ensures s' == s.(nextId := s.nextId + 1, phase := s'.phase, book := s'.book, history := s'.history,
                     links := s'.links, keyPairs := s'.keyPairs)
    ensures CameIn(a) && RsaOpen(c, a.pair.private, Envelope(a)).Some? ==>
              var sock := Socket(a.fd, RsaOpen(c, a.pair.private, Envelope(a)).value);
              && s'.phase == Polling && s'.history == s.history + [Connected(s.nextId)]
              && s'.book == s.book.(clients := s.book.clients[s.nextId := sock],
                                    roster := s.book.roster[s.nextId := sock])
              && s'.links == s.links[a.fd := Link(a.arrived, a.arrived[a.header.n + a.body.n..], a.hangup,
                                                  Frame(a.pair.public), [Envelope(a)], [], a.header.n == LENSIZE)]
              && s'.keyPairs == s.keyPairs[a.fd := a.pair]
    ensures !(CameIn(a) && RsaOpen(c, a.pair.private, Envelope(a)).Some?) ==>
              && s'.phase == (if CameIn(a) then Crashed else Returned)
              && s' == s.(nextId := s.nextId + 1, phase := s'.phase)
  {
    NewIdIsUnused(s, a.fd);
    ExchangeAgreesIff(c, a, if Exchanged(c, a).Agreed? then Exchanged(c, a).key else []);
  }

  /** An accept without a client, or by a server that has stopped, only moves the
      serve thread; one that breaks after it was made uses up an id. */
  lemma {:induction false} NoClientMovesOn(c: Cipher, s: State, a: Action, s': State)
    requires Enabled(c, s, a) && s' == Next(c, s, a)
    requires a.NoConnection? || a.AcceptFails? || a.AcceptBroken? || (a.AcceptClient? && !s.serving)
    ensures s'.phase == if a.NoConnection? && s.serving then Polling else Returned
    ensures s' == s.(phase := s'.phase, nextId := s'.nextId)
    ensures s'.nextId == s.nextId + if a.AcceptBroken? && s.serving then 1 else 0
  {
  }

  /** A listing only moves the serve thread: to its first client, or back. */
  lemma {:induction false} SnapshotOnlyLists(c: Cipher, s: State, order: seq<Entry>, s': State)
    requires Enabled(c, s, Snapshot(order)) && s' == Next(c, s, Snapshot(order))
    ensures s' == s.(phase := s'.phase)
    ensures s'.phase == if s.book.clients == map[] then Accepting else Scanning(order, 0)
  {
    if s.book.clients != map[] {
      var id :| id in s.book.clients;
      assert Tables.Listed(order, id);
    }
    if order != [] { assert order[0].id in s.book.clients; }
  }

  /** What comes in is queued behind what came in before, on its own stream; a hangup
      is only that. */
  lemma {:induction false} KernelOnlyDelivers(c: Cipher, s: State, a: Action, s': State)
    requires Enabled(c, s, a) && s' == Next(c, s, a) && (a.Arrive? || a.HangUp?)
    ensures var l := s.links[a.fd];
            s' == s.(links := s.links[a.fd := if a.HangUp? then l.(hangup := true)
                                             else l.(arrived := l.arrived + a.bytes, inbox := l.inbox + a.bytes)])
  {
  }
}
