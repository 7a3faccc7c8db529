/** The server as a state machine. Its threads share everything without a lock;
    a step of the machine is what the model takes to be atomic: one call of the
    public interface, one accept with its key exchange and insertion, the taking
    of a snapshot, one read with whatever the serve loop does about its result.
    Everything that the outside decides is in the action. */
module ServerSpec {
  import opened Defs
  import opened Wire
  import opened Crypto
  import opened Links
  import opened Mails
  import opened Handshakes
  import Tables

  datatype Event = Connected(id: SizeT) | Received(id: SizeT, text: Bytes) | Disconnected(id: SizeT)

  /** Who took a client out of the map. */
  datatype Cause = ByServe | ByRemove(closeOk: bool) | ByStop

  /** Where the serve thread is. In a pass it walks a snapshot of the map. */
  datatype Phase =
    | NotStarted
    | Accepting
    | Polling
    | Scanning(snapshot: seq<Entry>, at: nat)
    | Awaiting(snapshot: seq<Entry>, at: nat, size: nat)
    | Returned
    | Crashed

  datatype KeyPair = KeyPair(public: Bytes, private: Bytes)

  /** The clients in the map, and a record of the past: every client ever
      connected, how often each id was taken from the map and by whom, how often
      each descriptor was closed and its key freed, and the descriptor, if any,
      that stop failed to close. */
  datatype Book = Book(
    clients: map<SizeT, Socket>, roster: map<SizeT, Socket>,
    leaves: multiset<SizeT>, causes: map<SizeT, Cause>,
    closed: multiset<nat>, freed: multiset<nat>, jammed: Option<nat>)

  /** The server, the kernel's links by descriptor, and the callbacks in the
      order they were started. */
  datatype State = State(
    book: Book, nextId: nat, serving: bool, done: bool,
    phase: Phase, sizeBuffer: Bytes,
    links: map<nat, Link>, keyPairs: map<nat, KeyPair>, history: seq<Event>)

  datatype Action =
    | Start(ready: bool)
    | NoConnection
    | AcceptFails
    | AcceptBroken
    | AcceptClient(fd: nat, arrived: Bytes, hangup: bool, pair: KeyPair, greeted: bool, buffer: Bytes,
                   header: ReadResult, body: ReadResult)
    | Snapshot(order: seq<Entry>)
    | ReadHeader(r: ReadResult)
    | ReadBody(r: ReadResult)
    | Remove(id: SizeT, closeOk: bool)
    | Send(id: SizeT, data: Bytes, nonce: Bytes, result: SendResult)
    | SendAll(order: seq<Entry>, data: Bytes, nonces: seq<Bytes>, results: seq<SendResult>)
    | Stop(order: seq<Entry>, failAt: Option<nat>)
    | Arrive(fd: nat, bytes: Bytes)
    | HangUp(fd: nat)

  function Initial(buffer: Bytes): State {
    State(Book(map[], map[], multiset{}, map[], multiset{}, multiset{}, None), 0, false, false, NotStarted, buffer,
          map[], map[], [])
  }

  function LinkAt(links: map<nat, Link>, fd: nat): Link {
    if fd in links then links[fd] else Link([], [], false, [], [], [], true)
  }

  function LinkOf(s: State, fd: nat): Link {
    LinkAt(s.links, fd)
  }

  predicate IsOpen(s: State, fd: nat) {
    fd in s.links && s.book.closed[fd] == 0
  }

  predicate InScan(p: Phase) {
    (p.Scanning? || p.Awaiting?) && p.at < |p.snapshot|
  }

  function Current(p: Phase): Entry
    requires InScan(p)
  {
    p.snapshot[p.at]
  }

  /** On to the next client, or, after the last, to the next accept. */
  function Advance(p: Phase): Phase
    requires InScan(p)
  {
    if p.at + 1 < |p.snapshot| then Scanning(p.snapshot, p.at + 1) else Accepting
  }

  function MessageFor(c: Cipher, sock: Socket, nonce: Bytes, data: Bytes): Bytes {
    Frame(AesSeal(c, sock.key, nonce, data))
  }

  /** The kernel's part in the key exchange with a client just accepted. */
  predicate Exchangeable(a: Action)
    requires a.AcceptClient?
  {
    && |a.buffer| == LENSIZE
    && (a.greeted ==> AllowsReceive(Accepted(a.arrived, a.hangup, a.pair.public), a.buffer, a.header, a.body))
  }

  ghost predicate Enabled(c: Cipher, s: State, a: Action) {
    && s.phase != Crashed
    && |s.sizeBuffer| == LENSIZE
    && match a
       case Start(_) => true
       case NoConnection => s.phase.Accepting?
       case AcceptFails => s.phase.Accepting?
       case AcceptBroken => s.phase.Accepting?
       case AcceptClient(fd, _, _, _, _, _, _, _) =>
         s.phase.Accepting? && fd !in s.links && s.nextId < SIZE_MAX && Exchangeable(a)
       case Snapshot(order) => s.phase.Polling? && Tables.Lists(order, s.book.clients)
       case ReadHeader(r) =>
         && s.phase.Scanning? && InScan(s.phase)
         && var fd := Current(s.phase).sock.fd; Allows(LinkOf(s, fd), IsOpen(s, fd), LENSIZE, r)
       case ReadBody(r) =>
         && s.phase.Awaiting? && InScan(s.phase)
         && var fd := Current(s.phase).sock.fd; Allows(LinkOf(s, fd), IsOpen(s, fd), s.phase.size, r)
       case Remove(_, _) => true
       case Send(id, data, nonce, result) =>
         id in s.book.clients && result.Sent? ==> result.n <= |MessageFor(c, s.book.clients[id], nonce, data)|
       case SendAll(order, data, nonces, results) =>
         && Tables.Lists(order, s.book.clients) && |order| == |nonces| == |results|
         && forall i | 0 <= i < |order| && results[i].Sent? ::
              results[i].n <= |MessageFor(c, order[i].sock, nonces[i], data)|
       case Stop(order, failAt) => Tables.Lists(order, s.book.clients) && (failAt.Some? ==> failAt.value < |order|)
       case Arrive(fd, _) => IsOpen(s, fd) && !s.links[fd].hangup
       case HangUp(fd) => IsOpen(s, fd)
  }

  /** A client is taken from the map and its socket closed; its key is freed,
      unless remove_client could not close the socket. */
  function Depart(b: Book, id: SizeT, cause: Cause): Book {
    if id !in b.clients then b
    else
      var fd := b.clients[id].fd;
      b.(clients := b.clients - {id}, leaves := b.leaves + multiset{id}, causes := b.causes[id := cause],
         closed := b.closed + multiset{fd},
         freed := if cause == ByRemove(false) then b.freed else b.freed + multiset{fd})
  }

  function Enrol(b: Book, id: SizeT, sock: Socket): Book {
    b.(clients := if id in b.clients then b.clients else b.clients[id := sock], roster := b.roster[id := sock])
  }

  /** The serve loop drops a client that is still in the map, and reports it. */
  function DropIfPresent(s: State, id: SizeT): State {
    if id !in s.book.clients then s
    else s.(book := Depart(s.book, id, ByServe), history := s.history + [Disconnected(id)])
  }

  /** What the serve loop does with the outcome of a key exchange. */
  function Admitted(s: State, id: SizeT, fd: nat, pair: KeyPair, outcome: Outcome): State {
    match outcome
    case Refused => s.(phase := Returned)
    case Faulted => s.(phase := Crashed)
    case Agreed(link, key) =>
      s.(book := Enrol(s.book, id, Socket(fd, key)), phase := Polling,
         links := s.links[fd := link], keyPairs := s.keyPairs[fd := pair],
         history := s.history + [Connected(id)])
  }

  function Exchanged(c: Cipher, a: Action): Outcome
    requires a.AcceptClient? && Exchangeable(a)
  {
    ServerExchange(c, a.pair.private, a.greeted, Accepted(a.arrived, a.hangup, a.pair.public),
                   a.buffer, a.header, a.body)
  }

  function AfterAccept(c: Cipher, s: State, a: Action): State
    requires a.AcceptClient? && Exchangeable(a) && s.nextId < SIZE_MAX
  {
    Admitted(s.(nextId := s.nextId + 1), s.nextId, a.fd, a.pair, Exchanged(c, a))
  }

  function AfterHeader(s: State, r: ReadResult): State
    requires InScan(s.phase) && |s.sizeBuffer| == LENSIZE
    requires r.Data? ==> r.n <= LENSIZE && r.n <= |LinkOf(s, Current(s.phase).sock.fd).inbox|
  {
    var e := Current(s.phase);
    match r
    case Eof => DropIfPresent(s, e.id).(phase := Advance(s.phase))
    case BadFd => DropIfPresent(s, e.id).(phase := Advance(s.phase))
    case WouldBlock => s.(phase := Advance(s.phase))
    case OtherError => s.(phase := Returned)
    case Data(n) =>
      var l := LinkOf(s, e.sock.fd);
      var buffer := HeaderBuffer(l, s.sizeBuffer, n);
      s.(links := s.links[e.sock.fd := TakeHeader(l, n)], sizeBuffer := buffer,
         phase := Awaiting(s.phase.snapshot, s.phase.at, Value(buffer)))
  }

  /** The text to hand to on_recv; None where the program would follow a null
      pointer, to a client that has gone or to a text that did not decrypt. */
  function TextOf(c: Cipher, s: State, id: SizeT, body: Bytes): Option<Bytes> {
    if id in s.book.clients then AesOpen(c, s.book.clients[id].key, body) else None
  }

  function AfterBody(c: Cipher, s: State, r: ReadResult): State
    requires s.phase.Awaiting? && InScan(s.phase)
    requires r.Data? ==> r.n <= |LinkOf(s, Current(s.phase).sock.fd).inbox|
  {
    var e := Current(s.phase);
    match r
    case Eof => DropIfPresent(s, e.id).(phase := Advance(s.phase))
    case BadFd => DropIfPresent(s, e.id).(phase := Advance(s.phase))
    case WouldBlock => s.(phase := Returned)
    case OtherError => s.(phase := Returned)
    case Data(n) =>
      var l := LinkOf(s, e.sock.fd);
      var text := TextOf(c, s, e.id, l.inbox[..n]);
      if n != s.phase.size then
        s.(links := s.links[e.sock.fd := TakeBody(l, n, s.phase.size)], phase := Returned)
      else if text.None? then
        s.(links := s.links[e.sock.fd := TakeBody(l, n, n + 1)], phase := Crashed)
      else
        s.(links := s.links[e.sock.fd := TakeBody(l, n, n)], phase := Advance(s.phase),
           history := s.history + [Received(e.id, text.value)])
  }

  function AfterRemove(s: State, id: SizeT, closeOk: bool): State {
    if !s.serving || id !in s.book.clients then s
    else s.(book := Depart(s.book, id, ByRemove(closeOk)))
  }

  /** A key too short for the cipher brings the program down. */
  function AfterSend(c: Cipher, s: State, id: SizeT, data: Bytes, nonce: Bytes, result: SendResult): State
  {
    if s.phase.Crashed? || !s.serving || id !in s.book.clients then s
    else
      var sock := s.book.clients[id];
      var l := LinkOf(s, sock.fd);
      if !Keyed(sock.key) then s.(phase := Crashed)
      else if result.SendError? then s
      else
        s.(links := s.links[sock.fd := l.(outbox := l.outbox + Part(MessageFor(c, sock, nonce, data), result.n))])
  }

  /** Sending to the first n clients of a snapshot, one after the other. */
  function AfterSends(c: Cipher, s: State, a: Action, n: nat): State
    requires a.SendAll? && |a.order| == |a.nonces| == |a.results| && n <= |a.order|
  {
    if n == 0 then s
    else AfterSend(c, AfterSends(c, s, a, n - 1), a.order[n - 1].id, a.data, a.nonces[n - 1], a.results[n - 1])
  }

  lemma {:induction false} CrashedSendsNothing(c: Cipher, s: State, a: Action, i: nat, n: nat)
    requires a.SendAll? && |a.order| == |a.nonces| == |a.results| && i <= n <= |a.order|
    requires AfterSends(c, s, a, i).phase.Crashed? || i == n
    ensures AfterSends(c, s, a, n) == AfterSends(c, s, a, i)
  {
    if i < n { CrashedSendsNothing(c, s, a, i, n - 1); }
  }

  /** The first n clients of a snapshot leave, one after the other. */
  function DepartFirst(b: Book, order: seq<Entry>, n: nat): Book
    requires n <= |order|
  {
    if n == 0 then b else Depart(DepartFirst(b, order, n - 1), order[n - 1].id, ByStop)
  }

  /** The first client, from the i-th on, whose socket does not close. */
  function FirstStuck(order: seq<Entry>, stuck: set<nat>, i: nat): (r: Option<nat>)
    requires i <= |order|
    ensures r.Some? ==> i <= r.value < |order| && order[r.value].sock.fd in stuck
    ensures forall j | i <= j < (if r.Some? then r.value else |order|) :: order[j].sock.fd !in stuck
    decreases |order| - i
  {
    if i == |order| then None
    else if order[i].sock.fd in stuck then Some(i)
    else FirstStuck(order, stuck, i + 1)
  }

  /** The clients of a snapshot leave in order, up to the one, if any, whose
      socket does not close; that one stays in the map. */
  function StopBook(b: Book, order: seq<Entry>, failAt: Option<nat>): Book
    requires failAt.Some? ==> failAt.value < |order|
  {
    match failAt
    case None => DepartFirst(b, order, |order|)
    case Some(n) =>
      var b' := DepartFirst(b, order, n);
      var fd := order[n].sock.fd;
      b'.(closed := b'.closed + multiset{fd}, jammed := Some(fd))
  }

  function AfterStop(s: State, order: seq<Entry>, failAt: Option<nat>): State
    requires failAt.Some? ==> failAt.value < |order|
  {
    if !s.serving then s
    else s.(serving := false, done := true, book := StopBook(s.book, order, failAt))
  }

  ghost function Next(c: Cipher, s: State, a: Action): State
    requires Enabled(c, s, a)
  {
    match a
    case Start(ready) => if s.done || s.serving || !ready then s else s.(serving := true, phase := Accepting)
    case NoConnection => s.(phase := if s.serving then Polling else Returned)
    case AcceptFails => s.(phase := Returned)
    case AcceptBroken => if s.serving then s.(nextId := s.nextId + 1, phase := Returned) else s.(phase := Returned)
    case AcceptClient(_, _, _, _, _, _, _, _) => if s.serving then AfterAccept(c, s, a) else s.(phase := Returned)
    case Snapshot(order) => s.(phase := if order == [] then Accepting else Scanning(order, 0))
    case ReadHeader(r) => AfterHeader(s, r)
    case ReadBody(r) => AfterBody(c, s, r)
    case Remove(id, closeOk) => AfterRemove(s, id, closeOk)
    case Send(id, data, nonce, result) => AfterSend(c, s, id, data, nonce, result)
    case SendAll(order, _, _, _) => AfterSends(c, s, a, |order|)
    case Stop(order, failAt) => AfterStop(s, order, failAt)
    case Arrive(fd, bytes) =>
      s.(links := s.links[fd := WithArrival(s.links[fd], bytes)])
    case HangUp(fd) => s.(links := s.links[fd := s.links[fd].(hangup := true)])
  }

  /** states[i] is the state before actions[i]. */
  ghost predicate IsChain(c: Cipher, states: seq<State>, actions: seq<Action>) {
    && |states| == |actions| + 1
    && forall i {:trigger actions[i]} | 0 <= i < |actions| ::
         Enabled(c, states[i], actions[i]) && states[i + 1] == Next(c, states[i], actions[i])
  }

  /** A run starts from a server that has not been started. */
  ghost predicate IsRun(c: Cipher, states: seq<State>, actions: seq<Action>) {
    && IsChain(c, states, actions)
    && exists buffer: Bytes :: |buffer| == LENSIZE && states[0] == Initial(buffer)
  }

  lemma {:induction false} RunOneMore(c: Cipher, states: seq<State>, actions: seq<Action>, a: Action, s': State)
    requires IsRun(c, states, actions)
    requires Enabled(c, states[|actions|], a) && s' == Next(c, states[|actions|], a)
    ensures IsRun(c, states + [s'], actions + [a])
  {
    var ss, aa := states + [s'], actions + [a];
    forall i | 0 <= i < |aa| ensures Enabled(c, ss[i], aa[i]) && ss[i + 1] == Next(c, ss[i], aa[i]) {
      assert ss[i] == states[i];
      assert aa[i] == if i < |actions| then actions[i] else a;
    }
  }
}
