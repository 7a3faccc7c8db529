/** Every step of the server keeps it safe. */
module ServerSteps {
  import opened Defs
  import opened Wire
  import opened Crypto
  import opened Links
  import opened Mails
  import opened Handshakes
  import opened ServerSpec
  import opened ServerBook
  import opened ServerEvents
  import opened ServerSafety
  import Tables

  /** After the current client has been dropped, its socket is not open. */
  lemma {:induction false} DroppedIsShut(s: State)
    requires Registered(s) && Snapped(s) && InScan(s.phase)
    ensures !IsOpen(DropIfPresent(s, Current(s.phase).id), Current(s.phase).sock.fd)
  {
    var e := Current(s.phase);
    if e.id !in s.book.clients && e.sock.fd in s.links {
      assert s.book.closed[s.book.roster[e.id].fd] == TimesClosed(s.book, e.id);
    }
  }

  /** A stream that is not the current one is read on as before. */
  lemma {:induction false} OthersReadOn(p: Phase, l: Link, fd: nat)
    requires InScan(p) && Current(p).sock.fd != fd && Reading(p, l, fd)
    ensures Reading(Advance(p), l, fd)
  {
  }

  lemma {:induction false} DropLeavesStreams(c: Cipher, s: State, s': State, id: SizeT)
    requires InScan(s.phase) && id in s.book.roster && Streamed(c, s, id)
    requires s'.book.roster == s.book.roster && s.book.closed <= s'.book.closed && s'.phase == Advance(s.phase)
    requires s'.links == s.links && s'.keyPairs == s.keyPairs && !IsOpen(s', Current(s.phase).sock.fd)
    requires TextsOf(s'.history, id) == TextsOf(s.history, id)
    ensures Streamed(c, s', id)
  {
    var fd := s.book.roster[id].fd;
    if IsOpen(s', fd) {
      assert IsOpen(s, fd);
      if Live(s.phase) { OthersReadOn(s.phase, s.links[fd], fd); }
    }
  }

  lemma {:induction false} DropKeepsTexts(s: State, id: SizeT, k: SizeT)
    ensures TextsOf(DropIfPresent(s, id).history, k) == TextsOf(s.history, k)
    ensures ConnectCount(DropIfPresent(s, id).history) == ConnectCount(s.history)
    ensures Counted(s.history) ==> Counted(DropIfPresent(s, id).history)
  {
    if id in s.book.clients { Append(s.history, Disconnected(id), k); }
  }

  lemma {:induction false} DropKeepsBooks(s: State, id: SizeT, s': State)
    requires Registered(s) && Numbered(s) && Switched(s) && Evented(s.history, s.book)
    requires s' == DropIfPresent(s, id)
    ensures Registered(s') && Numbered(s') && Switched(s') && Evented(s'.history, s'.book)
    ensures s'.book.roster == s.book.roster && s.book.closed <= s'.book.closed
  {
    if id in s.book.clients {
      DepartKeepsSound(s.book, id, ByServe, s'.book);
      DepartStaysWithin(s.book, id, ByServe, s.links.Keys);
      ServedDepartIsEvented(s.history, s.book, id);
      DropKeepsTexts(s, id, id);
    }
  }

  lemma {:induction false} DropAndAdvance(c: Cipher, s: State, s': State)
    requires Safe(c, s) && InScan(s.phase)
    requires s' == DropIfPresent(s, Current(s.phase).id).(phase := Advance(s.phase))
    ensures Safe(c, s')
  {
    var t := DropIfPresent(s, Current(s.phase).id);
    DropKeepsBooks(s, Current(s.phase).id, t);
    DroppedIsShut(s);
    DropKeepsStreams(c, s, s');
    AdvanceKeepsBooks(t, s');
  }

  lemma {:induction false} DropKeepsStreams(c: Cipher, s: State, s': State)
    requires AllStreamed(c, s) && InScan(s.phase)
    requires s' == DropIfPresent(s, Current(s.phase).id).(phase := Advance(s.phase))
    requires s'.book.roster == s.book.roster && s.book.closed <= s'.book.closed
    requires !IsOpen(s', Current(s.phase).sock.fd)
    ensures AllStreamed(c, s')
  {
    forall id | id in s.book.roster ensures Streamed(c, s', id) {
      DropKeepsTexts(s, Current(s.phase).id, id);
      assert Streamed(c, s, id);
      DropLeavesStreams(c, s, s', id);
    }
  }

  lemma {:induction false} AdvanceKeepsBooks(s: State, s': State)
    requires Numbered(s) && Switched(s) && Snapped(s) && InScan(s.phase) && s' == s.(phase := Advance(s.phase))
    ensures Numbered(s') && Switched(s') && Snapped(s')
  {
  }

  /** A step that only moves the serve thread on, or stops it. */
  lemma {:induction false} MoveOn(c: Cipher, s: State, s': State)
    requires Safe(c, s) && s' == s.(phase := s'.phase) && Snapped(s')
    requires !s.phase.NotStarted? && !s'.phase.Awaiting? && !s'.phase.NotStarted?
    requires Live(s'.phase) ==> Live(s.phase) && !s.phase.Awaiting?
    ensures Safe(c, s')
  {
    forall id | id in s'.book.roster ensures Streamed(c, s', id) {
      assert Streamed(c, s, id);
      UntouchedIsStreamed(c, s, s', id);
    }
  }

  lemma {:induction false} StartIsSafe(c: Cipher, s: State, ready: bool)
    requires Safe(c, s) && Enabled(c, s, Start(ready))
    ensures Safe(c, Next(c, s, Start(ready)))
  {
    if !s.done && !s.serving && ready {
      var s' := Next(c, s, Start(ready));
      forall id | id in s'.book.roster ensures Streamed(c, s', id) {
        assert Streamed(c, s, id);
        UntouchedIsStreamed(c, s, s', id);
      }
    }
  }

  lemma {:induction false} NoClientIsSafe(c: Cipher, s: State, a: Action)
    requires Safe(c, s) && Enabled(c, s, a) && (a.NoConnection? || a.AcceptFails? || a.AcceptBroken?)
    ensures Safe(c, Next(c, s, a))
  {
    var s' := s.(phase := Next(c, s, a).phase);
    MoveOn(c, s, s');
    if a.AcceptBroken? && s.serving {
      var t := Next(c, s, a);
      assert t == s'.(nextId := s.nextId + 1);
      forall id | id in t.book.roster ensures Streamed(c, t, id) {
        assert Streamed(c, s', id);
        UntouchedIsStreamed(c, s', t, id);
      }
    }
  }

  lemma {:induction false} SnapshotIsSafe(c: Cipher, s: State, a: Action)
    requires Safe(c, s) && Enabled(c, s, a) && a.Snapshot?
    ensures Safe(c, Next(c, s, a))
  {
    forall i | 0 <= i < |a.order|
      ensures a.order[i].id in s.book.roster && s.book.roster[a.order[i].id] == a.order[i].sock {
      assert a.order[i].id in s.book.clients;
    }
    MoveOn(c, s, Next(c, s, a));
  }

  // The accept step.

  lemma {:induction false} NewIdIsUnused(s: State, fd: nat)
    requires Registered(s) && Numbered(s) && Live(s.phase) && fd !in s.links && s.nextId <= SIZE_MAX
    ensures s.nextId !in s.book.roster && s.nextId !in s.book.clients && Unused(s.book, fd)
  {
    assert fd !in s.links.Keys;
  }

  lemma {:induction false} EnrolStaysWithin(b: Book, id: SizeT, sock: Socket, b': Book, fds: set<nat>, keyed: set<nat>)
    requires Within(b, fds) && HasPairs(b, keyed) && b' == Enrol(b, id, sock)
    ensures Within(b', fds + {sock.fd}) && HasPairs(b', keyed + {sock.fd})
  {
  }

  lemma {:induction false} EnrolIsNumbered(h: seq<Event>, roster: map<SizeT, Socket>, id: SizeT, sock: Socket)
    requires NumberedBy(h, roster, id, true)
    ensures NumberedBy(h + [Connected(id)], roster[id := sock], id + 1, true)
  {
    Append(h, Connected(id), id);
  }

  lemma {:induction false} NewStream(c: Cipher, a: Action, l: Link, key: Bytes)
    requires a.AcceptClient? && Exchangeable(a) && Exchanged(c, a) == Agreed(l, key)
    ensures Flows(c, key, a.pair.private, l, []) && l.partial == []
  {
    var l0 := Accepted(a.arrived, a.hangup, a.pair.public);
    assert Frames([]) == [];
    assert Accounted(l0);
    ReceiveIsAccounted(l0, a.buffer, a.header, a.body);
  }

  lemma {:induction false} NewIsStreamed(c: Cipher, s: State, id: SizeT, sock: Socket, s': State)
    requires EventsOf(s.history, id) == [] && s'.history == s.history + [Connected(id)]
    requires id in s'.book.roster && s'.book.roster[id] == sock && s'.phase == Polling
    requires sock.fd in s'.links && sock.fd in s'.keyPairs && s'.links[sock.fd].partial == []
    requires Flows(c, sock.key, s'.keyPairs[sock.fd].private, s'.links[sock.fd], [])
    ensures Streamed(c, s', id)
  {
    Append(s.history, Connected(id), id);
    NoEventsNoTexts(s.history, id);
  }

  lemma {:induction false} AgreedBooks(s: State, s': State, newId: SizeT, sock: Socket)
    requires Registered(s) && Numbered(s) && Switched(s) && Evented(s.history, s.book)
    requires s.serving && s.phase.Accepting? && sock.fd !in s.links && newId == s.nextId
    requires s'.book == Enrol(s.book, newId, sock) && s'.history == s.history + [Connected(newId)]
    requires s'.links.Keys == s.links.Keys + {sock.fd} && s'.keyPairs.Keys == s.keyPairs.Keys + {sock.fd}
    requires s'.nextId == s.nextId + 1 && s'.phase == Polling && s'.serving && s'.done == s.done
    ensures Registered(s') && Numbered(s') && Switched(s') && Snapped(s') && Evented(s'.history, s'.book)
  {
    NewIdIsUnused(s, sock.fd);
    EnrolKeepsSound(s.book, newId, sock, s'.book);
    EnrolStaysWithin(s.book, newId, sock, s'.book, s.links.Keys, s.keyPairs.Keys);
    EnrolIsNumbered(s.history, s.book.roster, newId, sock);
    EnrolIsEvented(s.history, s.book, newId, sock);
  }

  lemma {:induction false} AgreedOthers(c: Cipher, s: State, s': State, id: SizeT, newId: SizeT, sock: Socket,
                                        l: Link, pair: KeyPair)
    requires id in s.book.roster && Streamed(c, s, id) && id != newId && sock.fd !in s.links && s.phase.Accepting?
    requires s' == s.(book := Enrol(s.book, newId, sock), nextId := s.nextId + 1, phase := Polling,
                      links := s.links[sock.fd := l], keyPairs := s.keyPairs[sock.fd := pair],
                      history := s.history + [Connected(newId)])
    ensures Streamed(c, s', id)
  {
    Append(s.history, Connected(newId), id);
    UntouchedIsStreamed(c, s, s', id);
  }

  lemma {:induction false} AgreedIsSafe(c: Cipher, s: State, a: Action, l: Link, sock: Socket, s': State)
    requires Safe(c, s) && s.phase.Accepting? && s.serving && a.AcceptClient? && Exchangeable(a)
    requires Exchanged(c, a) == Agreed(l, sock.key) && sock.fd == a.fd
    requires a.fd !in s.links && s.nextId < SIZE_MAX
    requires s' == s.(book := Enrol(s.book, s.nextId, sock), nextId := s.nextId + 1, phase := Polling,
                      links := s.links[sock.fd := l], keyPairs := s.keyPairs[sock.fd := a.pair],
                      history := s.history + [Connected(s.nextId)])
    ensures Safe(c, s')
  {
    assert s'.links.Keys == s.links.Keys + {sock.fd} && s'.keyPairs.Keys == s.keyPairs.Keys + {sock.fd};
    AgreedBooks(s, s', s.nextId, sock);
    NewIdIsUnused(s, a.fd);
    NewStream(c, a, l, sock.key);
    NewIsStreamed(c, s, s.nextId, sock, s');
    forall id | id in s.book.roster ensures Streamed(c, s', id) {
      AgreedOthers(c, s, s', id, s.nextId, sock, l, a.pair);
    }
  }

  lemma {:induction false} NotAgreedIsSafe(c: Cipher, s: State, s': State)
    requires Safe(c, s) && s.phase.Accepting? && !Live(s'.phase) && s.nextId <= s'.nextId
    requires s' == s.(phase := s'.phase, nextId := s'.nextId)
    ensures Safe(c, s')
  {
    forall id | id in s'.book.roster ensures Streamed(c, s', id) {
      assert Streamed(c, s, id);
      UntouchedIsStreamed(c, s, s', id);
    }
  }

  lemma {:induction false} AcceptIsSafe(c: Cipher, s: State, a: Action, s': State)
    requires Safe(c, s) && s.phase.Accepting? && s.nextId < SIZE_MAX
    requires a.AcceptClient? && Exchangeable(a) && a.fd !in s.links
    requires s' == if s.serving then AfterAccept(c, s, a) else s.(phase := Returned)
    ensures Safe(c, s')
  {
    if s.serving && Exchanged(c, a).Agreed? {
      var outcome := Exchanged(c, a);
      AgreedIsSafe(c, s, a, outcome.link, Socket(a.fd, outcome.key), s');
    } else {
      NotAgreedIsSafe(c, s, s');
    }
  }

  // Reading.

  lemma {:induction false} HeaderStream(c: Cipher, s: State, n: nat, s': State)
    requires Snapped(s) && InScan(s.phase) && s.phase.Scanning? && |s.sizeBuffer| == LENSIZE
    requires Streamed(c, s, Current(s.phase).id) && IsOpen(s, Current(s.phase).sock.fd)
    requires 1 <= n <= LENSIZE && n <= |LinkOf(s, Current(s.phase).sock.fd).inbox| && s' == AfterHeader(s, Data(n))
    ensures Streamed(c, s', Current(s.phase).id)
  {
    HeaderIsAccounted(s.links[Current(s.phase).sock.fd], s.sizeBuffer, n);
  }

  lemma {:induction false} HeaderOthers(c: Cipher, s: State, s': State, id: SizeT)
    requires InScan(s.phase) && s.phase.Scanning? && id in s.book.roster && Streamed(c, s, id)
    requires var fd := Current(s.phase).sock.fd;
             && fd != s.book.roster[id].fd
             && s' == s.(links := s.links[fd := LinkOf(s', fd)], sizeBuffer := s'.sizeBuffer, phase := s'.phase)
             && MidFrame(s'.phase, fd)
    ensures Streamed(c, s', id)
  {
    UntouchedIsStreamed(c, s, s', id);
  }

  lemma {:induction false} HeaderKeepsBooks(s: State, n: nat, s': State)
    requires Registered(s) && Numbered(s) && Switched(s) && Snapped(s) && s.phase.Scanning? && InScan(s.phase)
    requires |s.sizeBuffer| == LENSIZE && Current(s.phase).sock.fd in s.links
    requires n <= LENSIZE && n <= |LinkOf(s, Current(s.phase).sock.fd).inbox| && s' == AfterHeader(s, Data(n))
    ensures Registered(s') && Numbered(s') && Switched(s') && Snapped(s')
  {
    assert s'.links.Keys == s.links.Keys;
  }

  lemma {:induction false} HeaderDataIsSafe(c: Cipher, s: State, n: nat, s': State)
    requires Safe(c, s) && s.phase.Scanning? && InScan(s.phase)
    requires var fd := Current(s.phase).sock.fd; Allows(LinkOf(s, fd), IsOpen(s, fd), LENSIZE, Data(n))
    requires s' == AfterHeader(s, Data(n))
    ensures Safe(c, s')
  {
    var e := Current(s.phase);
    assert Streamed(c, s, e.id);
    HeaderStream(c, s, n, s');
    HeaderKeepsBooks(s, n, s');
    forall id | id in s.book.roster && id != e.id ensures Streamed(c, s', id) {
      HeaderOthers(c, s, s', id);
    }
  }

  lemma {:induction false} ReadHeaderIsSafe(c: Cipher, s: State, r: ReadResult, s': State)
    requires Safe(c, s) && s.phase.Scanning? && InScan(s.phase)
    requires var fd := Current(s.phase).sock.fd; Allows(LinkOf(s, fd), IsOpen(s, fd), LENSIZE, r)
    requires s' == AfterHeader(s, r)
    ensures Safe(c, s')
  {
    match r
    case Eof => DropAndAdvance(c, s, s');
    case BadFd => DropAndAdvance(c, s, s');
    case WouldBlock => MoveOn(c, s, s');
    case OtherError => MoveOn(c, s, s');
    case Data(n) => HeaderDataIsSafe(c, s, n, s');
  }

  /** The state after n bytes of a body: what is left of the stream, whether the
      serve thread goes on, and the text received, if one was. */
  lemma {:induction false} BodyCases(c: Cipher, s: State, n: nat) returns (l: Link, p: Phase, text: Option<Bytes>)
    requires s.phase.Awaiting? && InScan(s.phase) && n <= |LinkOf(s, Current(s.phase).sock.fd).inbox|
    ensures var e := Current(s.phase);
            var m := LinkOf(s, e.sock.fd);
            && AfterBody(c, s, Data(n)) ==
               s.(links := s.links[e.sock.fd := l], phase := p,
                  history := if text.Some? then s.history + [Received(e.id, text.value)] else s.history)
            && (text.Some? ==> n == s.phase.size && TextOf(c, s, e.id, m.inbox[..n]) == text)
            && (l == TakeBody(m, n, s.phase.size) || l == TakeBody(m, n, n + 1))
            && (text.Some? ==> l == TakeBody(m, n, n) && p == Advance(s.phase))
            && (text.None? ==> !Live(p) && l.frames == m.frames)
  {
    var s' := AfterBody(c, s, Data(n));
    var e := Current(s.phase);
    l, p := s'.links[e.sock.fd], s'.phase;
    text := if n == s.phase.size then TextOf(c, s, e.id, LinkOf(s, e.sock.fd).inbox[..n]) else None;
  }

  lemma {:induction false} BodyAccounts(c: Cipher, s: State, n: nat, l: Link)
    requires InScan(s.phase) && s.phase.Awaiting?
    requires var m := LinkOf(s, Current(s.phase).sock.fd);
             && Accounted(m) && n <= |m.inbox| && Reading(s.phase, m, Current(s.phase).sock.fd)
             && (l == TakeBody(m, n, s.phase.size) || l == TakeBody(m, n, n + 1))
    ensures Accounted(l)
  {
    var m := LinkOf(s, Current(s.phase).sock.fd);
    BodyIsAccounted(m, n, s.phase.size);
    SpoiltIsAccounted(m, n);
  }

  lemma {:induction false} OpensOneMore(c: Cipher, key: Bytes, bodies: seq<Bytes>, texts: seq<Bytes>,
                                        body: Bytes, text: Bytes)
    requires Opens(c, key, bodies, texts) && AesOpen(c, key, body) == Some(text)
    ensures Opens(c, key, bodies + [body], texts + [text])
  {
  }

  lemma {:induction false} BodyDataIsSafe(c: Cipher, s: State, n: nat, s': State)
    requires Safe(c, s) && s.phase.Awaiting? && InScan(s.phase)
    requires var fd := Current(s.phase).sock.fd; Allows(LinkOf(s, fd), IsOpen(s, fd), s.phase.size, Data(n))
    requires s' == AfterBody(c, s, Data(n))
    ensures Safe(c, s')
  {
    var e := Current(s.phase);
    assert Streamed(c, s, e.id);
    OpenMeansPresent(s, e.id);
    var l, p, text := BodyCases(c, s, n);
    BodyAccounts(c, s, n, l);
    if text.Some? {
      HandedIsSafe(c, s, text.value, s');
    } else {
      CutShortIsSafe(c, s, l, p, s');
    }
  }

  lemma {:induction false} CutShortIsSafe(c: Cipher, s: State, l: Link, p: Phase, s': State)
    requires Safe(c, s) && InScan(s.phase) && s.phase.Awaiting? && !Live(p)
    requires var m := LinkOf(s, Current(s.phase).sock.fd);
             Accounted(l) && l.frames == m.frames
    requires s' == s.(links := s.links[Current(s.phase).sock.fd := l], phase := p)
    ensures Safe(c, s')
  {
    assert s'.links.Keys == s.links.Keys by { assert Streamed(c, s, Current(s.phase).id); }
    forall id | id in s'.book.roster ensures Streamed(c, s', id) {
      assert Streamed(c, s, id);
    }
  }

  /** The state once a whole body has been handed over as a text. */
  function Handed(s: State, text: Bytes): State
    requires InScan(s.phase) && s.phase.Awaiting? && s.phase.size <= |LinkOf(s, Current(s.phase).sock.fd).inbox|
  {
    var e := Current(s.phase);
    s.(links := s.links[e.sock.fd := TakeBody(LinkOf(s, e.sock.fd), s.phase.size, s.phase.size)],
       phase := Advance(s.phase), history := s.history + [Received(e.id, text)])
  }

  lemma {:induction false} HandedStream(c: Cipher, s: State, text: Bytes)
    requires InScan(s.phase) && s.phase.Awaiting? && Current(s.phase).id in s.book.roster
    requires s.book.roster[Current(s.phase).id] == Current(s.phase).sock
    requires Streamed(c, s, Current(s.phase).id)
    requires var m := LinkOf(s, Current(s.phase).sock.fd);
             && s.phase.size <= |m.inbox| && Accounted(TakeBody(m, s.phase.size, s.phase.size))
             && AesOpen(c, Current(s.phase).sock.key, m.inbox[..s.phase.size]) == Some(text)
    ensures Streamed(c, Handed(s, text), Current(s.phase).id)
  {
    var e := Current(s.phase);
    var m := s.links[e.sock.fd];
    var body := m.inbox[..s.phase.size];
    Append(s.history, Received(e.id, text), e.id);
    OpensOneMore(c, e.sock.key, m.frames[1..], TextsOf(s.history, e.id), body, text);
    assert (m.frames + [body])[1..] == m.frames[1..] + [body];
  }

  lemma {:induction false} HandedOthers(c: Cipher, s: State, text: Bytes, id: SizeT)
    requires InScan(s.phase) && s.phase.Awaiting? && s.phase.size <= |LinkOf(s, Current(s.phase).sock.fd).inbox|
    requires id in s.book.roster && id != Current(s.phase).id && s.book.roster[id].fd != Current(s.phase).sock.fd
    requires Streamed(c, s, id)
    ensures Streamed(c, Handed(s, text), id)
  {
    Append(s.history, Received(Current(s.phase).id, text), id);
    UntouchedIsStreamed(c, s, Handed(s, text), id);
  }

  lemma {:induction false} HandedBooks(s: State, text: Bytes, s': State)
    requires Registered(s) && Numbered(s) && Switched(s) && Snapped(s) && Evented(s.history, s.book)
    requires InScan(s.phase) && s.phase.Awaiting? && Current(s.phase).id in s.book.clients
    requires s.phase.size <= |LinkOf(s, Current(s.phase).sock.fd).inbox| && Current(s.phase).sock.fd in s.links
    requires s' == Handed(s, text)
    ensures Registered(s') && Numbered(s') && Switched(s') && Snapped(s') && Evented(s'.history, s'.book)
  {
    var e := Current(s.phase);
    ReceiveIsEvented(s.history, s.book, e.id, text);
    Append(s.history, Received(e.id, text), e.id);
    assert s'.links.Keys == s.links.Keys;
  }

  lemma {:induction false} HandedIsSafe(c: Cipher, s: State, text: Bytes, s': State)
    requires Safe(c, s) && InScan(s.phase) && s.phase.Awaiting?
    requires var e := Current(s.phase);
             var m := LinkOf(s, e.sock.fd);
             && e.id in s.book.clients && s.phase.size <= |m.inbox|
             && Accounted(TakeBody(m, s.phase.size, s.phase.size))
             && AesOpen(c, e.sock.key, m.inbox[..s.phase.size]) == Some(text)
    requires s' == Handed(s, text)
    ensures Safe(c, s')
  {
    var e := Current(s.phase);
    assert Streamed(c, s, e.id);
    HandedBooks(s, text, s');
    HandedStream(c, s, text);
    forall id | id in s.book.roster && id != e.id ensures Streamed(c, s', id) {
      HandedOthers(c, s, text, id);
    }
  }

  lemma {:induction false} ReadBodyIsSafe(c: Cipher, s: State, r: ReadResult, s': State)
    requires Safe(c, s) && s.phase.Awaiting? && InScan(s.phase)
    requires var fd := Current(s.phase).sock.fd; Allows(LinkOf(s, fd), IsOpen(s, fd), s.phase.size, r)
    requires s' == AfterBody(c, s, r)
    ensures Safe(c, s')
  {
    match r
    case Eof => DropAndAdvance(c, s, s');
    case BadFd => DropAndAdvance(c, s, s');
    case WouldBlock => MoveOn(c, s, s');
    case OtherError => MoveOn(c, s, s');
    case Data(n) => BodyDataIsSafe(c, s, n, s');
  }

  // The public interface.

  /** A step that only writes in the books, on clients already connected. */
  lemma {:induction false} BooksOnly(c: Cipher, s: State, s': State)
    requires AllStreamed(c, s)
    requires s' == s.(book := s'.book, serving := s'.serving, done := s'.done)
    requires s'.book.roster == s.book.roster && s.book.closed <= s'.book.closed
    ensures AllStreamed(c, s')
  {
    forall id | id in s'.book.roster ensures Streamed(c, s', id) {
      assert Streamed(c, s, id);
    }
  }

  lemma {:induction false} RemoveIsSafe(c: Cipher, s: State, id: SizeT, closeOk: bool, s': State)
    requires Safe(c, s) && s' == AfterRemove(s, id, closeOk)
    ensures Safe(c, s')
  {
    if s.serving && id in s.book.clients {
      RemoveKeepsBooks(s, id, closeOk, s'.book);
      BooksOnly(c, s, s');
    }
  }

  lemma {:induction false} RemoveKeepsBooks(s: State, id: SizeT, closeOk: bool, b: Book)
    requires Registered(s) && Evented(s.history, s.book) && b == Depart(s.book, id, ByRemove(closeOk))
    ensures Sound(b) && Within(b, s.links.Keys) && Evented(s.history, b)
    ensures b.roster == s.book.roster && b.jammed == s.book.jammed && s.book.closed <= b.closed
  {
    DepartKeepsSound(s.book, id, ByRemove(closeOk), b);
    DepartStaysWithin(s.book, id, ByRemove(closeOk), s.links.Keys);
    OtherDepartIsEvented(s.history, s.book, id, ByRemove(closeOk));
  }

  lemma {:induction false} DepartFirstCloses(b: Book, order: seq<Entry>, n: nat)
    requires n <= |order|
    ensures b.closed <= DepartFirst(b, order, n).closed
  {
    if n > 0 { DepartFirstCloses(b, order, n - 1); }
  }

  lemma {:induction false} DepartFirstIsSafe(c: Cipher, s: State, order: seq<Entry>, n: nat)
    requires Safe(c, s) && n <= |order|
    ensures var b := DepartFirst(s.book, order, n);
            && Sound(b) && Within(b, s.links.Keys) && Evented(s.history, b)
            && b.roster == s.book.roster && b.jammed == s.book.jammed && s.book.closed <= b.closed
            && b.clients == s.book.clients - Named(order, n)
  {
    DepartFirstKeepsSound(s.book, order, n, s.links.Keys);
    DepartFirstIsEvented(s.history, s.book, order, n);
    DepartFirstLeaves(s.book, order, n);
    DepartFirstCloses(s.book, order, n);
  }

  lemma {:induction false} JamCounts(b: Book, id: SizeT, b': Book, k: SizeT)
    requires id in b.roster && k in b.roster && (k != id ==> b.roster[k].fd != b.roster[id].fd) && b.jammed.None?
    requires var fd := b.roster[id].fd; b' == b.(closed := b.closed + multiset{fd}, jammed := Some(fd))
    ensures b'.closed[b.roster[k].fd] - TimesClosed(b', k) == b.closed[b.roster[k].fd] - TimesClosed(b, k)
  {
  }

  lemma {:induction false} JamFreesNone(b: Book, b': Book)
    requires FreedOnce(b) && b' == b.(closed := b'.closed, jammed := b'.jammed)
    ensures FreedOnce(b')
  {
    forall k | k in b.roster ensures b'.freed[b'.roster[k].fd] == TimesFreed(b', k) {
      assert b.freed[b.roster[k].fd] == TimesFreed(b, k);
    }
  }

  /** A socket that does not close stays in the books, with its close on record. */
  lemma {:induction false} JamKeepsSound(b: Book, id: SizeT, b': Book)
    requires Sound(b) && b.jammed.None? && id in b.clients
    requires var fd := b.clients[id].fd; b' == b.(closed := b.closed + multiset{fd}, jammed := Some(fd))
    ensures Sound(b')
  {
    assert b.roster[id] == b.clients[id];
    forall k | k in b.roster ensures b'.closed[b'.roster[k].fd] == TimesClosed(b', k) {
      JamCounts(b, id, b', k);
    }
    JamFreesNone(b, b');
  }

  lemma {:induction false} CleanStopKeepsBooks(c: Cipher, s: State, order: seq<Entry>, b: Book)
    requires Safe(c, s) && s.serving && Tables.Lists(order, s.book.clients)
    requires b == DepartFirst(s.book, order, |order|)
    ensures Sound(b) && Within(b, s.links.Keys) && b.roster == s.book.roster && s.book.closed <= b.closed
    ensures Evented(s.history, b) && b.jammed.None? && b.clients == map[]
  {
    DepartFirstIsSafe(c, s, order, |order|);
    EveryoneIsNamed(order, s.book.clients);
  }

  lemma {:induction false} JammedStopKeepsBooks(c: Cipher, s: State, order: seq<Entry>, n: nat, b0: Book, b: Book)
    requires Safe(c, s) && s.serving && n < |order| && Tables.Lists(order, s.book.clients)
    requires b0 == DepartFirst(s.book, order, n)
    requires var fd := order[n].sock.fd; b == b0.(closed := b0.closed + multiset{fd}, jammed := Some(fd))
    ensures Sound(b) && Within(b, s.links.Keys) && b.roster == s.book.roster && s.book.closed <= b.closed
    ensures Evented(s.history, b) && order[n].id in b.clients
  {
    DepartFirstIsSafe(c, s, order, n);
    NotNamed(order, n, n);
    assert order[n].id in b0.clients && b0.clients[order[n].id] == order[n].sock;
    JamKeepsBooks(s.links.Keys, b0, order[n].id, b);
    JamIsEvented(s.history, b0, b);
  }

  lemma {:induction false} JamKeepsBooks(fds: set<nat>, b0: Book, id: SizeT, b: Book)
    requires Sound(b0) && Within(b0, fds) && b0.jammed.None? && id in b0.clients
    requires var fd := b0.clients[id].fd; b == b0.(closed := b0.closed + multiset{fd}, jammed := Some(fd))
    ensures Sound(b) && Within(b, fds) && b0.closed <= b.closed
  {
    JamKeepsSound(b0, id, b);
    assert b0.roster[id] == b0.clients[id];
  }

  lemma {:induction false} JamIsEvented(h: seq<Event>, b0: Book, b: Book)
    requires Evented(h, b0) && b.roster == b0.roster && b.causes == b0.causes
    ensures Evented(h, b)
  {
    forall k: SizeT ensures ServedOut(b, k) == ServedOut(b0, k) {}
  }

  lemma {:induction false} StopIsSafe(c: Cipher, s: State, order: seq<Entry>, failAt: Option<nat>, s': State)
    requires Safe(c, s) && Enabled(c, s, Stop(order, failAt)) && s' == AfterStop(s, order, failAt)
    ensures Safe(c, s')
  {
    if s.serving {
      match failAt {
        case None => CleanStopKeepsBooks(c, s, order, s'.book);
        case Some(n) => JammedStopKeepsBooks(c, s, order, n, DepartFirst(s.book, order, n), s'.book);
      }
      BooksOnly(c, s, s');
    }
  }

  /** What reading and delivering go by is the same in both. */
  ghost predicate ReadAlike(l: Link, l': Link) {
    && l'.frames == l.frames && l'.partial == l.partial && l'.intact == l.intact
    && |l'.arrived| - |l'.inbox| == |l.arrived| - |l.inbox|
    && (Accounted(l) ==> Accounted(l'))
  }

  lemma {:induction false} StreamReadsAlike(c: Cipher, s: State, fd: nat, l: Link, id: SizeT)
    requires fd in s.links && ReadAlike(s.links[fd], l) && id in s.book.roster && Streamed(c, s, id)
    ensures Streamed(c, s.(links := s.links[fd := l]), id)
  {
  }

  /** A step that only changes what is written to, or has come in from, one peer. */
  lemma {:induction false} LinkOnly(c: Cipher, s: State, fd: nat, l: Link)
    requires Safe(c, s) && fd in s.links && ReadAlike(s.links[fd], l)
    ensures Safe(c, s.(links := s.links[fd := l]))
  {
    assert s.links[fd := l].Keys == s.links.Keys;
    forall id | id in s.book.roster ensures Streamed(c, s.(links := s.links[fd := l]), id) {
      StreamReadsAlike(c, s, fd, l, id);
    }
  }

  lemma {:induction false} FallIsSafe(c: Cipher, s: State)
    requires Safe(c, s) && s.serving
    ensures Safe(c, s.(phase := Crashed))
  {
    forall id | id in s.book.roster ensures Streamed(c, s.(phase := Crashed), id) {
      UntouchedIsStreamed(c, s, s.(phase := Crashed), id);
    }
  }

  lemma {:induction false} SendIsSafe(c: Cipher, s: State, id: SizeT, data: Bytes, nonce: Bytes, result: SendResult,
                                      s': State)
    requires Safe(c, s)
    requires s' == AfterSend(c, s, id, data, nonce, result)
    ensures Safe(c, s')
  {
    if s' != s {
      var sock := s.book.clients[id];
      if Keyed(sock.key) {
        assert s.book.roster[id] == sock && sock.fd in s.links.Keys;
        var l := s.links[sock.fd];
        LinkOnly(c, s, sock.fd, l.(outbox := l.outbox + Part(MessageFor(c, sock, nonce, data), result.n)));
      } else {
        FallIsSafe(c, s);
      }
    }
  }

  lemma {:induction false} SendsAreSafe(c: Cipher, s: State, a: Action, n: nat, s': State)
    requires Safe(c, s) && a.SendAll? && |a.order| == |a.nonces| == |a.results|
    requires n <= |a.order| && s' == AfterSends(c, s, a, n)
    ensures Safe(c, s')
  {
    if n > 0 {
      var before := AfterSends(c, s, a, n - 1);
      SendsAreSafe(c, s, a, n - 1, before);
      SendIsSafe(c, before, a.order[n - 1].id, a.data, a.nonces[n - 1], a.results[n - 1], s');
    }
  }

  lemma {:induction false} KernelIsSafe(c: Cipher, s: State, a: Action)
    requires Safe(c, s) && Enabled(c, s, a) && (a.Arrive? || a.HangUp?)
    ensures Safe(c, Next(c, s, a))
  {
    var l := s.links[a.fd];
    if a.Arrive? {
      if Accounted(l) { ArrivalIsAccounted(l, a.bytes, 0); }
      LinkOnly(c, s, a.fd, WithArrival(l, a.bytes));
    } else {
      LinkOnly(c, s, a.fd, l.(hangup := true));
    }
  }

  lemma {:induction false} ServeStepIsSafe(c: Cipher, s: State, a: Action, s': State)
    requires Safe(c, s) && Enabled(c, s, a) && s' == Next(c, s, a) && !FromOutside(a)
    ensures Safe(c, s')
  {
    match a
    case NoConnection => NoClientIsSafe(c, s, a);
    case AcceptFails => NoClientIsSafe(c, s, a);
    case AcceptBroken => NoClientIsSafe(c, s, a);
    case AcceptClient(_, _, _, _, _, _, _, _) => AcceptIsSafe(c, s, a, s');
    case Snapshot(_) => SnapshotIsSafe(c, s, a);
    case ReadHeader(r) => ReadHeaderIsSafe(c, s, r, s');
    case ReadBody(r) => ReadBodyIsSafe(c, s, r, s');
  }

  /** Steps of the other threads, and what the kernel does by itself. */
  predicate FromOutside(a: Action) {
    a.Start? || a.Remove? || a.Send? || a.SendAll? || a.Stop? || a.Arrive? || a.HangUp?
  }

  lemma {:induction false} OutsideStepIsSafe(c: Cipher, s: State, a: Action, s': State)
    requires Safe(c, s) && Enabled(c, s, a) && s' == Next(c, s, a) && FromOutside(a)
    ensures Safe(c, s')
  {
    match a
    case Start(ready) => StartIsSafe(c, s, ready);
    case Remove(id, closeOk) => RemoveIsSafe(c, s, id, closeOk, s');
    case Send(id, data, nonce, result) => SendIsSafe(c, s, id, data, nonce, result, s');
    case SendAll(order, _, _, _) => SendsAreSafe(c, s, a, |order|, s');
    case Stop(order, failAt) => StopIsSafe(c, s, order, failAt, s');
    case Arrive(_, _) => KernelIsSafe(c, s, a);
    case HangUp(_) => KernelIsSafe(c, s, a);
  }

  /** Every step keeps the server safe. */
  lemma {:induction false} StepIsSafe(c: Cipher, s: State, a: Action, s': State)
    requires Safe(c, s) && Enabled(c, s, a) && s' == Next(c, s, a)
    ensures Safe(c, s')
  {
    if FromOutside(a) {
      OutsideStepIsSafe(c, s, a, s');
    } else {
      ServeStepIsSafe(c, s, a, s');
    }
  }

  /** Every state of every run is safe. */
  lemma {:induction false} RunsAreSafe(c: Cipher, states: seq<State>, actions: seq<Action>, n: nat)
    requires IsRun(c, states, actions) && n <= |actions|
    ensures Safe(c, states[n])
  {
    if n == 0 {
      var buffer: Bytes :| |buffer| == LENSIZE && states[0] == Initial(buffer);
      InitiallySafe(c, buffer);
    } else {
      RunsAreSafe(c, states, actions, n - 1);
      StepIsSafe(c, states[n - 1], actions[n - 1], states[n]);
    }
  }
}
