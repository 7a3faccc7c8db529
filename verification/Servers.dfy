/** The server on the heap. Each method does one step of the serve loop or one
    call of the public interface on the real hash table, and is proved to do
    exactly what the state machine says. */
module Servers {
  import opened Defs
  import opened Wire
  import opened Crypto
  import opened CryptoDatas
  import opened Links
  import opened Mails
  import opened Handshakes
  import opened Exchanges
  import opened ClientMaps
  import opened ServerSpec
  import opened ServerBook
  import Tables

  /** The nonces that go with random draws. */
  ghost function Nonces(randoms: seq<Bytes>): (nonces: seq<Bytes>)
    requires forall i | 0 <= i < |randoms| :: |randoms[i]| == AES_KEY_SIZE
    ensures |nonces| == |randoms| && forall i | 0 <= i < |nonces| :: nonces[i] == randoms[i][..NONCE_SIZE]
  {
    seq(|randoms|, i requires 0 <= i < |randoms| => randoms[i][..NONCE_SIZE])
  }

  class Server {
    const cipher: Cipher

    var clients: ClientMap
    var nextClientId: SizeT
    var serving: bool
    var done: bool

    // The serve thread: where it is, and its buffer for message sizes.
    var phase: Phase
    var sizeBuffer: array<Byte>

    // The kernel's links.
    var links: map<nat, Link>

    // The record of the past.
    ghost var book: Book
    ghost var keyPairs: map<nat, KeyPair>
    ghost var history: seq<Event>

    ghost var Repr: set<object>

    ghost predicate Valid()
      reads this, Repr
      ensures Valid() ==> this in Repr
    {
      && this in Repr && clients in Repr && sizeBuffer in Repr
      && clients.Repr <= Repr && this !in clients.Repr && sizeBuffer as object !in clients.Repr
      && clients.Valid() && book.clients == clients.Contents()
      && clients.size <= nextClientId && sizeBuffer.Length == LENSIZE
      && (phase.Awaiting? ==> phase.size < HEADER_LIMIT)
    }

    ghost function State(): State
      reads this, sizeBuffer
    {
      ServerSpec.State(book, nextClientId, serving, done, phase, sizeBuffer[..], links, keyPairs, history)
    }

    constructor (cipher: Cipher)
      ensures Valid() && fresh(Repr)
      ensures this.cipher == cipher && State() == Initial(sizeBuffer[..])
    {
      this.cipher := cipher;
      clients := new ClientMap();
      nextClientId := 0;
      serving, done := false, false;
      phase := NotStarted;
      sizeBuffer := new Byte[LENSIZE];
      links, keyPairs, history := map[], map[], [];
      new;
      book := Book(map[], map[], multiset{}, map[], multiset{}, multiset{}, None);
      Repr := {this, clients, sizeBuffer} + clients.Repr;
      assert clients.Contents() == map[];
    }

    // The public interface.

    /** Pop from the map, which may resize it even if the id is not there. */
    method PopClient(id: SizeT) returns (client: Option<Socket>)
      requires Valid() && Manageable(nextClientId)
      modifies Repr
      ensures this in Repr && clients in Repr && sizeBuffer in Repr
      ensures clients.Repr <= Repr && this !in clients.Repr && sizeBuffer as object !in clients.Repr
      ensures clients.Valid() && clients.size <= nextClientId && sizeBuffer.Length == LENSIZE
      ensures fresh(Repr - old(Repr)) && clients.Contents() == old(clients.Contents()) - {id}
      ensures client == Tables.Lookup(old(clients.Contents()), id)
      ensures State() == old(State())
    {
      clients.FewMayResize(nextClientId);
      Tables.PopAgrees(clients.Table, id);
      client := clients.Pop(id);
      Repr := Repr + clients.Repr;
    }

    /** Take a client out of the map, close its socket and free its key. */
    method TakeOut(id: SizeT, ghost cause: Cause) returns (client: Option<Socket>)
      requires Valid() && Manageable(nextClientId)
      modifies Repr
      ensures Valid() && fresh(Repr - old(Repr))
      ensures client == Tables.Lookup(old(book).clients, id)
      ensures State() == old(State()).(book := Depart(old(book), id, cause))
    {
      client := PopClient(id);
      book := Depart(book, id, cause);
    }

    method RemoveClient(id: SizeT, closeOk: bool)
      requires Valid() && Manageable(nextClientId)
      modifies Repr
      ensures Valid() && fresh(Repr - old(Repr))
      ensures State() == AfterRemove(old(State()), id, closeOk)
    {
      if !serving { return; }
      var client := TakeOut(id, ByRemove(closeOk));
      if client == None { return; }
    }

    /** ready: whether the address could be bound and listened on. */
    method Start(ready: bool)
      requires Valid()
      modifies this
      ensures Valid() && Repr == old(Repr)
      ensures State() == if old(done || serving) || !ready then old(State())
                         else old(State()).(serving := true, phase := Accepting)
    {
      if done { return; }
      if serving { return; }
      if !ready { return; }
      serving := true;
      phase := Accepting;
    }

    /** Stop closes and pops the clients of one listing in turn, while each pop
        may shrink and rehash the table the listing was made from. Descriptors
        in `stuck` do not close. */
    method Stop(stuck: set<nat>) returns (ghost order: seq<Entry>)
      requires Valid() && Manageable(nextClientId)
      modifies Repr
      ensures Valid() && fresh(Repr - old(Repr))
      ensures order == Tables.Listing(old(clients.Table)) && Tables.Lists(order, old(book).clients)
      ensures State() == AfterStop(old(State()), order, FirstStuck(order, stuck, 0))
    {
      Tables.ListingLists(clients.Table);
      order := Tables.Listing(clients.Table);
      if !serving { return; }
      StopServing(stuck, order);
    }

    method StopServing(stuck: set<nat>, ghost order: seq<Entry>)
      requires Valid() && Manageable(nextClientId)
      requires order == Tables.Listing(clients.Table) && Tables.Lists(order, book.clients)
      modifies Repr
      ensures Valid() && fresh(Repr - old(Repr))
      ensures State() == old(State()).(serving := false, done := true,
                                       book := StopBook(old(book), order, FirstStuck(order, stuck, 0)))
    {
      serving := false;
      done := true;
      var iter := clients.Iter();
      StopClients(iter[..], stuck);
    }

    method StopClients(order: seq<Entry>, stuck: set<nat>)
      requires Valid() && Manageable(nextClientId) && Tables.Lists(order, book.clients)
      modifies Repr
      ensures Valid() && fresh(Repr - old(Repr))
      ensures State() == old(State()).(book := StopBook(old(book), order, FirstStuck(order, stuck, 0)))
    {
      ghost var s0, first := State(), FirstStuck(order, stuck, 0);
      var i, jammed := 0, false;
      while i < |order| && !jammed
        invariant Valid() && fresh(Repr - old(Repr)) && i <= |order|
        invariant State() == s0.(book := book)
        invariant jammed ==> book == StopBook(s0.book, order, first)
        invariant !jammed ==> first == FirstStuck(order, stuck, i) && book == DepartFirst(s0.book, order, i)
      {
        jammed := StopClient(order, i, stuck, s0.book, first);
        i := i + 1;
      }
    }

    /** The pop finds the very client whose socket has just been closed. */
    method StopClient(order: seq<Entry>, i: nat, stuck: set<nat>, ghost b0: Book, ghost first: Option<nat>)
        returns (jammed: bool)
      requires Valid() && Manageable(nextClientId) && i < |order| && Tables.Lists(order, b0.clients)
      requires book == DepartFirst(b0, order, i) && first == FirstStuck(order, stuck, i)
      modifies Repr
      ensures Valid() && fresh(Repr - old(Repr)) && (jammed <==> order[i].sock.fd in stuck)
      ensures State() == old(State()).(book := book)
      ensures jammed ==> first == Some(i) && book == StopBook(b0, order, first)
      ensures !jammed ==> first == FirstStuck(order, stuck, i + 1) && book == DepartFirst(b0, order, i + 1)
    {
      var e := order[i];
      StillThere(b0, order, i);
      jammed := e.sock.fd in stuck;
      if jammed {
        book := book.(closed := book.closed + multiset{e.sock.fd}, jammed := Some(e.sock.fd));
      } else {
        var client := TakeOut(e.id, ByStop);
        assert client == Some(e.sock);
      }
    }

    /** What one send call takes of a message for one client. */
    method Send(id: SizeT, data: array<Byte>, random: Bytes, result: SendResult)
      requires Valid() && Lawful(cipher) && |random| == AES_KEY_SIZE && Encryptable(data.Length)
      requires !phase.Crashed?
      modifies this`links, this`phase
      ensures Valid()
      ensures State() == AfterSend(cipher, old(State()), id, data[..], random[..NONCE_SIZE], result)
    {
      if !serving { return; }
      var client := clients.Get(id);
      if client == None { return; }
      var sock := client.value;
      if !Keyed(sock.key) {
        phase := Crashed;
        return;
      }
      var message := SealMessage(cipher, sock.key, random, data);
      if result.SendError? { return; }
      var l := LinkAt(links, sock.fd);
      links := links[sock.fd := l.(outbox := l.outbox + Part(message[..], result.n))];
    }

    /** Send to every client of one listing. */
    method SendAll(data: array<Byte>, randoms: seq<Bytes>, results: seq<SendResult>) returns (ghost a: Action)
      requires Valid() && Lawful(cipher) && Encryptable(data.Length)
      requires |randoms| == |results| == clients.size && !phase.Crashed?
      requires forall i | 0 <= i < |randoms| :: |randoms[i]| == AES_KEY_SIZE
      modifies this`links, this`phase
      ensures Valid() && a.SendAll? && a.order == Tables.Listing(clients.Table) && a.data == data[..]
      ensures a.nonces == Nonces(randoms) && a.results == results && |a.order| == |randoms|
      ensures State() == if serving then AfterSends(cipher, old(State()), a, |a.order|) else old(State())
    {
      a := ServerSpec.Action.SendAll(Tables.Listing(clients.Table), data[..], Nonces(randoms), results);
      if !serving { return; }
      var iter := clients.Iter();
      SendEach(iter, data, randoms, results, a);
    }

    method SendEach(iter: array<Entry>, data: array<Byte>, randoms: seq<Bytes>, results: seq<SendResult>,
                    ghost a: Action)
      requires Valid() && Lawful(cipher) && Encryptable(data.Length)
      requires |randoms| == |results| == iter.Length && !phase.Crashed?
      requires forall i | 0 <= i < |randoms| :: |randoms[i]| == AES_KEY_SIZE
      requires a == ServerSpec.Action.SendAll(iter[..], data[..], Nonces(randoms), results)
      modifies this`links, this`phase
      ensures Valid() && State() == AfterSends(cipher, old(State()), a, iter.Length)
    {
      ghost var s0 := State();
      var i := SendUntilCrash(iter, data, randoms, results, a);
      CrashedSendsNothing(cipher, s0, a, i, iter.Length);
    }

    method SendUntilCrash(iter: array<Entry>, data: array<Byte>, randoms: seq<Bytes>, results: seq<SendResult>,
                          ghost a: Action) returns (i: nat)
      requires Valid() && Lawful(cipher) && Encryptable(data.Length)
      requires |randoms| == |results| == iter.Length && !phase.Crashed?
      requires forall k | 0 <= k < |randoms| :: |randoms[k]| == AES_KEY_SIZE
      requires a == ServerSpec.Action.SendAll(iter[..], data[..], Nonces(randoms), results)
      modifies this`links, this`phase
      ensures Valid() && i <= iter.Length && State() == AfterSends(cipher, old(State()), a, i)
      ensures i < iter.Length ==> phase.Crashed?
    {
      ghost var s0 := State();
      i := 0;
      while i < iter.Length && !phase.Crashed?
        invariant i <= iter.Length && Valid() && State() == AfterSends(cipher, s0, a, i)
      {
        SendOne(iter, i, data, randoms, results, a, s0);
        i := i + 1;
      }
    }

    method SendOne(iter: array<Entry>, i: nat, data: array<Byte>, randoms: seq<Bytes>, results: seq<SendResult>,
                   ghost a: Action, ghost s0: ServerSpec.State)
      requires Valid() && Lawful(cipher) && Encryptable(data.Length)
      requires i < |randoms| == |results| == iter.Length && !phase.Crashed?
      requires forall k | 0 <= k < |randoms| :: |randoms[k]| == AES_KEY_SIZE
      requires a == ServerSpec.Action.SendAll(iter[..], data[..], Nonces(randoms), results)
      requires State() == AfterSends(cipher, s0, a, i)
      modifies this`links, this`phase
      ensures Valid() && State() == AfterSends(cipher, s0, a, i + 1)
    {
      Send(iter[i].id, data, randoms[i], results[i]);
    }

    // What the kernel does by itself.

    method Arrive(fd: nat, bytes: Bytes)
      requires Valid() && fd in links
      modifies this`links
      ensures Valid()
      ensures State() == old(State()).(links := old(links)[fd := WithArrival(old(links)[fd], bytes)])
    {
      links := links[fd := WithArrival(links[fd], bytes)];
    }

    method HangUp(fd: nat)
      requires Valid() && fd in links
      modifies this`links
      ensures Valid()
      ensures State() == old(State()).(links := old(links)[fd := old(links)[fd].(hangup := true)])
    {
      links := links[fd := links[fd].(hangup := true)];
    }

    // The serve loop.

    method NewClientId() returns (id: SizeT)
      requires Valid() && nextClientId < SIZE_MAX
      modifies this`nextClientId
      ensures Valid() && id == old(nextClientId) && nextClientId == id + 1
    {
      id := nextClientId;
      nextClientId := nextClientId + 1;
    }

    /** The accept of one pass, with the key exchange and the insertion. */
    method Accept(a: Action, buffer: array<Byte>)
      requires Valid() && Manageable(nextClientId + 1) && Lawful(cipher) && buffer !in Repr
      requires a.NoConnection? || a.AcceptFails? || a.AcceptBroken? || a.AcceptClient?
      requires Enabled(cipher, State(), a) && nextClientId < SIZE_MAX
      requires a.AcceptClient? ==> a.buffer == buffer[..] && LENSIZE + |a.pair.public| <= SIZE_MAX
      modifies Repr, buffer
      ensures Valid() && fresh(Repr - old(Repr))
      ensures State() == Next(cipher, old(State()), a)
    {
      if !serving {
        phase := Returned;
        return;
      }
      match a {
        case NoConnection => phase := Polling;
        case AcceptFails => phase := Returned;
        case AcceptBroken =>
          var _ := NewClientId();
          phase := Returned;
        case AcceptClient(_, _, _, _, _, _, _, _) => ExchangeAndAdmit(a, buffer);
      }
    }

    method ExchangeAndAdmit(a: Action, buffer: array<Byte>)
      requires Valid() && Manageable(nextClientId + 1) && Lawful(cipher) && buffer !in Repr
      requires a.AcceptClient? && Exchangeable(a) && a.buffer == buffer[..] && nextClientId < SIZE_MAX
      requires LENSIZE + |a.pair.public| <= SIZE_MAX
      modifies Repr, buffer
      ensures Valid() && fresh(Repr - old(Repr))
      ensures State() == AfterAccept(cipher, old(State()), a)
    {
      var id := NewClientId();
      var outcome := Exchange(a, buffer);
      Admit(id, a.fd, a.pair, outcome);
    }

    method Exchange(a: Action, buffer: array<Byte>) returns (outcome: Outcome)
      requires Valid() && Lawful(cipher) && buffer !in Repr && a.AcceptClient? && Exchangeable(a)
      requires a.buffer == buffer[..] && LENSIZE + |a.pair.public| <= SIZE_MAX
      modifies buffer
      ensures Valid() && State() == old(State()) && outcome == Exchanged(cipher, a)
    {
      outcome := ServerExchangeKeys(cipher, a.pair.public, a.pair.private, a.greeted, a.arrived, a.hangup, buffer,
                                    a.header, a.body);
    }

    /** Put a client in the map; whether that succeeded is ignored. */
    method AddClient(id: SizeT, sock: Socket)
      requires Valid() && Manageable(nextClientId) && clients.size < nextClientId
      modifies Repr
      ensures Valid() && fresh(Repr - old(Repr))
      ensures State() == old(State()).(book := Enrol(old(book), id, sock))
    {
      clients.FewMayResize(nextClientId);
      Tables.SetAgrees(clients.Table, id, sock);
      var _ := clients.Set(id, sock);
      Repr := Repr + clients.Repr;
      book := Enrol(book, id, sock);
    }

    /** What follows the exchange: a client that agreed on a key is inserted. */
    method Admit(id: SizeT, fd: nat, ghost pair: KeyPair, outcome: Outcome)
      requires Valid() && Manageable(nextClientId) && clients.size < nextClientId
      modifies Repr
      ensures Valid() && fresh(Repr - old(Repr))
      ensures State() == Admitted(old(State()), id, fd, pair, outcome)
    {
      match outcome {
        case Refused => phase := Returned;
        case Faulted => phase := Crashed;
        case Agreed(link, key) =>
          AddClient(id, Socket(fd, key));
          Welcome(id, fd, pair, link);
      }
    }

    /** The stream of a client just inserted, and its on_connect. */
    method Welcome(id: SizeT, fd: nat, ghost pair: KeyPair, link: Link)
      requires Valid()
      modifies this`links, this`keyPairs, this`history, this`phase
      ensures Valid()
      ensures State() == old(State()).(links := old(links)[fd := link], keyPairs := old(keyPairs)[fd := pair],
                                       history := old(history) + [Connected(id)], phase := Polling)
    {
      links := links[fd := link];
      keyPairs := keyPairs[fd := pair];
      history := history + [Connected(id)];
      phase := Polling;
    }

    method TakeSnapshot() returns (ghost order: seq<Entry>)
      requires Valid() && phase.Polling?
      modifies this`phase
      ensures Valid()
      ensures order == Tables.Listing(clients.Table) && Tables.Lists(order, book.clients)
      ensures State() == old(State()).(phase := if order == [] then Accepting else Scanning(order, 0))
    {
      Tables.ListingLists(clients.Table);
      order := Tables.Listing(clients.Table);
      var iter := clients.Iter();
      phase := if iter.Length == 0 then Accepting else Scanning(iter[..], 0);
    }

    method DropClient(id: SizeT)
      requires Valid() && Manageable(nextClientId)
      modifies Repr
      ensures Valid() && fresh(Repr - old(Repr))
      ensures State() == DropIfPresent(old(State()), id)
    {
      var present := clients.Contains(id);
      if present {
        var _ := TakeOut(id, ByServe);
        history := history + [Disconnected(id)];
      }
    }

    method ReadHeader(r: ReadResult)
      requires Valid() && Manageable(nextClientId) && phase.Scanning? && InScan(phase)
      requires r.Data? ==> r.n <= LENSIZE && r.n <= |LinkAt(links, Current(phase).sock.fd).inbox|
      modifies Repr
      ensures Valid() && fresh(Repr - old(Repr))
      ensures State() == AfterHeader(old(State()), r)
    {
      if r.Eof? || r.BadFd? {
        DropAndGoOn();
        return;
      }
      match r {
        case WouldBlock => phase := Advance(phase);
        case OtherError => phase := Returned;
        case Data(n) => TakeSize(n);
      }
    }

    /** The client is gone, or going: report it if it was in the map. */
    method DropAndGoOn()
      requires Valid() && Manageable(nextClientId) && InScan(phase)
      modifies Repr
      ensures Valid() && fresh(Repr - old(Repr))
      ensures State() == DropIfPresent(old(State()), Current(old(phase)).id).(phase := Advance(old(phase)))
    {
      DropClient(Current(phase).id);
      phase := Advance(phase);
    }

    method TakeSize(n: nat)
      requires Valid() && phase.Scanning? && InScan(phase)
      requires n <= LENSIZE && n <= |LinkAt(links, Current(phase).sock.fd).inbox|
      modifies this`phase, this`links, sizeBuffer
      ensures Valid() && State() == AfterHeader(old(State()), Data(n))
    {
      var fd := Current(phase).sock.fd;
      var l := LinkAt(links, fd);
      var size := ReadSize(l, n);
      AwaitBody(fd, TakeHeader(l, n), size);
    }

    /** The wait for the body. */
    method AwaitBody(fd: nat, l: Link, size: SizeT)
      requires Valid() && phase.Scanning? && size < HEADER_LIMIT
      modifies this`phase, this`links
      ensures Valid()
      ensures State() == old(State()).(links := old(links)[fd := l],
                                       phase := Awaiting(old(phase).snapshot, old(phase).at, size))
    {
      links := links[fd := l];
      phase := Awaiting(phase.snapshot, phase.at, size);
    }

    method ReadSize(l: Link, n: nat) returns (size: SizeT)
      requires sizeBuffer.Length == LENSIZE && n <= LENSIZE && n <= |l.inbox|
      modifies sizeBuffer
      ensures sizeBuffer[..] == HeaderBuffer(l, old(sizeBuffer[..]), n) && size == Value(sizeBuffer[..]) < HEADER_LIMIT
    {
      ReadInto(sizeBuffer, l, n);
      assert sizeBuffer[..LENSIZE] == sizeBuffer[..];
      size := DecodeMessageSize(sizeBuffer);
    }

    /** on_recv: the client is looked up again, and its key opens the body. */
    method TextFor(id: SizeT, buffer: array<Byte>) returns (text: Option<Bytes>)
      requires Valid() && Lawful(cipher) && buffer.Length <= SIZE_MAX
      ensures text == TextOf(cipher, State(), id, buffer[..])
    {
      var client := clients.Get(id);
      if client == None { return None; }
      text := AesDecrypt(cipher, client.value.key, buffer);
    }

    method ReadBody(r: ReadResult)
      requires Valid() && Manageable(nextClientId) && Lawful(cipher) && phase.Awaiting? && InScan(phase)
      requires r.Data? ==> r.n <= |LinkAt(links, Current(phase).sock.fd).inbox| && r.n <= phase.size
      modifies Repr
      ensures Valid() && fresh(Repr - old(Repr))
      ensures State() == AfterBody(cipher, old(State()), r)
    {
      if r.Eof? || r.BadFd? {
        DropAndGoOn();
        return;
      }
      match r {
        case WouldBlock => phase := Returned;
        case OtherError => phase := Returned;
        case Data(n) => Dispatch(n);
      }
    }

    method Dispatch(n: nat)
      requires Valid() && Lawful(cipher) && phase.Awaiting? && InScan(phase)
      requires n <= |LinkAt(links, Current(phase).sock.fd).inbox| && n <= phase.size
      modifies this`phase, this`links, this`history
      ensures Valid() && State() == AfterBody(cipher, old(State()), Data(n))
    {
      var e := Current(phase);
      var l := LinkAt(links, e.sock.fd);
      var buffer := FromBytes(l.inbox[..n]);
      if n != phase.size {
        links := links[e.sock.fd := TakeBody(l, n, phase.size)];
        phase := Returned;
        return;
      }
      var text := TextFor(e.id, buffer);
      if text == None {
        links := links[e.sock.fd := TakeBody(l, n, n + 1)];
        phase := Crashed;
        return;
      }
      Deliver(e, TakeBody(l, n, n), text.value);
    }

    /** on_recv starts with the text, and the loop goes on to the next client. */
    method Deliver(e: Entry, l: Link, text: Bytes)
      requires Valid() && InScan(phase)
      modifies this`phase, this`links, this`history
      ensures Valid()
      ensures State() == old(State()).(links := old(links)[e.sock.fd := l], phase := Advance(old(phase)),
                                       history := old(history) + [Received(e.id, text)])
    {
      links := links[e.sock.fd := l];
      history := history + [Received(e.id, text)];
      phase := Advance(phase);
    }
  }
}
