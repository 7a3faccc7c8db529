/** What every reachable state of the server satisfies, and that every step
    keeps it. */
module ServerSafety {
  import opened Defs
  import opened Wire
  import opened Crypto
  import opened Links
  import opened ServerSpec
  import opened ServerBook
  import opened ServerEvents

  /** Every client ever connected has a key pair. */
  ghost predicate HasPairs(b: Book, fds: set<nat>) {
    forall id | id in b.roster :: b.roster[id].fd in fds
  }

  ghost predicate Registered(s: State) {
    Sound(s.book) && Within(s.book, s.links.Keys) && HasPairs(s.book, s.keyPairs.Keys)
  }

  /** The serve thread may still act. */
  predicate Live(p: Phase) {
    !p.Returned? && !p.Crashed?
  }

  /** Ids are given out in order, and, while the serve thread lives, every one
      given out belongs to a client that connected. */
  ghost predicate NumberedBy(h: seq<Event>, roster: map<SizeT, Socket>, nextId: nat, live: bool) {
    && Counted(h)
    && (forall id: SizeT :: id in roster <==> id < ConnectCount(h))
    && ConnectCount(h) <= nextId
    && (live ==> ConnectCount(h) == nextId)
  }

  ghost predicate Numbered(s: State) {
    NumberedBy(s.history, s.book.roster, s.nextId, Live(s.phase))
  }

  ghost predicate Switched(s: State) {
    && (s.serving ==> s.book.jammed.None? && !s.done)
    && (!s.serving && s.book.jammed.None? ==> s.book.clients == map[])
    && (!s.serving && !s.done ==> s.phase.NotStarted? && s.book.jammed.None?)
  }

  ghost predicate Snapped(s: State) {
    s.phase.Scanning? || s.phase.Awaiting? ==>
      && s.phase.at < |s.phase.snapshot|
      && forall i | 0 <= i < |s.phase.snapshot| ::
           var e := s.phase.snapshot[i]; e.id in s.book.roster && s.book.roster[e.id] == e.sock
  }

  /** The serve loop has read the header, not yet the body, of a frame on fd. */
  predicate MidFrame(p: Phase, fd: nat) {
    p.Awaiting? && InScan(p) && Current(p).sock.fd == fd
  }

  /** What the serve loop is in the middle of reading from an open socket. */
  ghost predicate Reading(p: Phase, l: Link, fd: nat) {
    if MidFrame(p, fd) then BodyDue(l, p.size) else l.partial == []
  }

  /** All bytes of a stream are accounted for, its first frame holds the key, and
      the others are the texts received. */
  ghost predicate Flows(c: Cipher, key: Bytes, private: Bytes, l: Link, texts: seq<Bytes>) {
    && Accounted(l) && |l.frames| >= 1
    && RsaOpen(c, private, l.frames[0]) == Some(key)
    && Opens(c, key, l.frames[1..], texts)
  }

  /** The stream of one client. */
  ghost predicate Streamed(c: Cipher, s: State, id: SizeT)
    requires id in s.book.roster
  {
    var sock := s.book.roster[id];
    && sock.fd in s.links && sock.fd in s.keyPairs
    && Flows(c, sock.key, s.keyPairs[sock.fd].private, s.links[sock.fd], TextsOf(s.history, id))
    && (IsOpen(s, sock.fd) && Live(s.phase) ==> Reading(s.phase, s.links[sock.fd], sock.fd))
  }

  ghost predicate AllStreamed(c: Cipher, s: State) {
    forall id | id in s.book.roster :: Streamed(c, s, id)
  }

  ghost predicate Safe(c: Cipher, s: State) {
    && Registered(s) && Numbered(s) && Switched(s) && Snapped(s)
    && Evented(s.history, s.book) && AllStreamed(c, s)
    && |s.sizeBuffer| == LENSIZE
  }

  lemma {:induction false} InitiallySafe(c: Cipher, buffer: Bytes)
    requires |buffer| == LENSIZE
    ensures Safe(c, Initial(buffer))
  {
  }

  /** An open socket of a connected client is that of a client in the map: the
      serve loop never dispatches to one that has gone. */
  lemma {:induction false} OpenMeansPresent(s: State, id: SizeT)
    requires Registered(s) && id in s.book.roster && IsOpen(s, s.book.roster[id].fd)
    ensures id in s.book.clients && s.book.clients[id] == s.book.roster[id]
  {
    assert s.book.closed[s.book.roster[id].fd] == TimesClosed(s.book, id);
  }

  // Streams that a step does not touch.

  /** The step leaves the stream of this client alone. */
  ghost predicate Untouched(s: State, s': State, id: SizeT) {
    && id in s.book.roster && id in s'.book.roster && s'.book.roster[id] == s.book.roster[id]
    && var fd := s.book.roster[id].fd;
       && fd in s.links && fd in s'.links && s'.links[fd] == s.links[fd]
       && fd in s.keyPairs && fd in s'.keyPairs && s'.keyPairs[fd] == s.keyPairs[fd]
       && TextsOf(s'.history, id) == TextsOf(s.history, id)
       && (IsOpen(s', fd) && Live(s'.phase) ==>
             IsOpen(s, fd) && Live(s.phase)
             && (Reading(s.phase, s.links[fd], fd) ==> Reading(s'.phase, s'.links[fd], fd)))
  }

  lemma {:induction false} UntouchedIsStreamed(c: Cipher, s: State, s': State, id: SizeT)
    requires id in s.book.roster && Streamed(c, s, id) && Untouched(s, s', id)
    ensures Streamed(c, s', id)
  {
  }
}
