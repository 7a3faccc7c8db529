/** The model tells connections apart; the program knows them by their descriptors,
    and the kernel gives a closed descriptor out again. Whatever numbers it gives
    out, the number of a connection that the server may still use never names
    another one, so it makes no difference. */
module Descriptors {
  import opened Defs
  import opened Wire
  import opened Crypto
  import opened Links
  import opened ServerSpec
  import opened ServerBook
  import opened ServerSafety
  import opened ServerSteps
  import opened Outboxes
  import opened Delivery
  import Tables

  /** The number of this connection names no other open one. */
  ghost predicate Clear(s: State, fd: nat, num: nat -> nat) {
    forall other | IsOpen(s, other) && other != fd :: num(other) != num(fd)
  }

  /** The kernel gives a new client a number that no open connection has. */
  ghost predicate GivesFree(c: Cipher, s: State, a: Action, num: nat -> nat) {
    Enrols(c, s, a) ==> forall fd | IsOpen(s, fd) :: num(fd) != num(a.fd)
  }

  /** The connections that the server may still read, write or close: those of the
      clients in the map, and of the snapshot it is going through. */
  ghost predicate InUse(s: State, fd: nat) {
    || (exists id :: id in s.book.clients && s.book.clients[id].fd == fd)
    || (InScan(s.phase) && exists i | 0 <= i < |s.phase.snapshot| :: s.phase.snapshot[i].sock.fd == fd)
  }

  ghost predicate Unclashing(s: State, num: nat -> nat) {
    && (forall fd | IsOpen(s, fd) :: Clear(s, fd, num))
    && (forall fd | InUse(s, fd) :: Clear(s, fd, num))
  }

  // Without a new client, connections only close.

  lemma {:induction false} BodyCloses(c: Cipher, s: State, r: ReadResult, s': State)
    requires s.phase.Awaiting? && InScan(s.phase)
    requires r.Data? ==> r.n <= |LinkOf(s, Current(s.phase).sock.fd).inbox|
    requires s' == AfterBody(c, s, r)
    ensures s.book.closed <= s'.book.closed && s'.book.clients.Keys <= s.book.clients.Keys
    ensures InScan(s'.phase) ==> s'.phase.snapshot == s.phase.snapshot
  {
    if r.Data? {
      var _, _, _ := BodyCases(c, s, r.n);
    }
  }

  lemma {:induction false} HeaderCloses(s: State, r: ReadResult, s': State)
    requires InScan(s.phase) && |s.sizeBuffer| == LENSIZE
    requires r.Data? ==> r.n <= LENSIZE && r.n <= |LinkOf(s, Current(s.phase).sock.fd).inbox|
    requires s' == AfterHeader(s, r)
    ensures s.book.closed <= s'.book.closed && s'.book.clients.Keys <= s.book.clients.Keys
    ensures InScan(s'.phase) ==> s'.phase.snapshot == s.phase.snapshot
  {
  }

  lemma {:induction false} RemoveCloses(s: State, id: SizeT, closeOk: bool)
    ensures var s' := AfterRemove(s, id, closeOk);
            && s.book.closed <= s'.book.closed && s'.book.clients.Keys <= s.book.clients.Keys && s'.phase == s.phase
  {
  }

  lemma {:induction false} StopCloses(b: Book, order: seq<Entry>, failAt: Option<nat>)
    requires failAt.Some? ==> failAt.value < |order|
    ensures b.closed <= StopBook(b, order, failAt).closed
    ensures StopBook(b, order, failAt).clients.Keys <= b.clients.Keys
  {
    var n := if failAt.Some? then failAt.value else |order|;
    DepartFirstCloses(b, order, n);
    DepartFirstLeaves(b, order, n);
  }

  /** The snapshot, if the serve loop is going through one, is what it was, or one
      of the clients now in the map. */
  ghost predicate SnapshotFrom(s: State, s': State) {
    InScan(s'.phase) ==>
      || (InScan(s.phase) && s'.phase.snapshot == s.phase.snapshot)
      || (forall i | 0 <= i < |s'.phase.snapshot| ::
            s'.phase.snapshot[i].id in s.book.clients
            && s.book.clients[s'.phase.snapshot[i].id] == s'.phase.snapshot[i].sock)
  }

  lemma {:induction false} StepCloses(c: Cipher, s: State, a: Action, s': State)
    requires Enabled(c, s, a) && s' == Next(c, s, a) && !Enrols(c, s, a)
    ensures s.book.closed <= s'.book.closed && s'.book.clients.Keys <= s.book.clients.Keys
  {
    match a
    case ReadHeader(r) => HeaderCloses(s, r, s');
    case ReadBody(r) => BodyCloses(c, s, r, s');
    case Remove(id, closeOk) => RemoveCloses(s, id, closeOk);
    case SendAll(order, _, _, _) => SendsKeepBook(c, s, a, |order|);
    case Stop(order, failAt) => StopCloses(s.book, order, failAt);
    case _ =>
  }

  lemma {:induction false} StepKeepsSnapshot(c: Cipher, s: State, a: Action, s': State)
    requires Enabled(c, s, a) && s' == Next(c, s, a) && !Enrols(c, s, a)
    ensures SnapshotFrom(s, s')
  {
    match a
    case ReadHeader(r) => HeaderCloses(s, r, s');
    case ReadBody(r) => BodyCloses(c, s, r, s');
    case SendAll(order, _, _, _) => SendsKeepScan(c, s, a, |order|);
    case _ =>
  }

  lemma {:induction false} SendsKeepScan(c: Cipher, s: State, a: Action, n: nat)
    requires a.SendAll? && |a.order| == |a.nonces| == |a.results| && n <= |a.order|
    ensures var p := AfterSends(c, s, a, n).phase; p == s.phase || p == Crashed
  {
    if n > 0 { SendsKeepScan(c, s, a, n - 1); }
  }

  // What every step keeps.

  lemma {:induction false} FewerClash(s: State, s': State, fd: nat, num: nat -> nat)
    requires Clear(s, fd, num) && forall other | IsOpen(s', other) :: IsOpen(s, other)
    ensures Clear(s', fd, num)
  {
  }

  lemma {:induction false} ClosingKeepsApart(c: Cipher, s: State, a: Action, s': State, num: nat -> nat)
    requires Registered(s) && Registered(s') && Enabled(c, s, a) && s' == Next(c, s, a) && !Enrols(c, s, a)
    requires Unclashing(s, num)
    ensures Unclashing(s', num)
  {
    StepCloses(c, s, a, s');
    StepKeepsSnapshot(c, s, a, s');
    StepKeepsRoster(c, s, a, s');
    StepAddsNoLink(c, s, a, s');
    OnlyClose(s, s');
    forall fd | IsOpen(s', fd) ensures Clear(s', fd, num) { FewerClash(s, s', fd, num); }
    forall fd | InUse(s', fd) ensures Clear(s', fd, num) {
      StillInUse(s, s', fd);
      FewerClash(s, s', fd, num);
    }
  }

  lemma {:induction false} OnlyClose(s: State, s': State)
    requires s'.links.Keys == s.links.Keys && s.book.closed <= s'.book.closed
    ensures forall other | IsOpen(s', other) :: IsOpen(s, other)
  {
  }

  lemma {:induction false} StillInUse(s: State, s': State, fd: nat)
    requires Rostered(s.book) && Rostered(s'.book) && s'.book.roster == s.book.roster
    requires s'.book.clients.Keys <= s.book.clients.Keys && SnapshotFrom(s, s') && InUse(s', fd)
    ensures InUse(s, fd)
  {
    if id :| id in s'.book.clients && s'.book.clients[id].fd == fd {
      assert s'.book.clients[id] == s'.book.roster[id] == s.book.clients[id];
    }
  }

  /** While the server serves, every client in the map is connected. */
  lemma {:induction false} ClientsAreOpen(s: State, id: SizeT)
    requires Registered(s) && Switched(s) && s.serving && id in s.book.clients
    ensures IsOpen(s, s.book.clients[id].fd)
  {
    assert s.book.roster[id] == s.book.clients[id];
    assert s.book.closed[s.book.roster[id].fd] == TimesClosed(s.book, id);
    assert s.book.roster[id].fd in s.links.Keys;
  }

  lemma {:induction false} NewcomerJoins(c: Cipher, s: State, a: Action, s': State)
    requires Enabled(c, s, a) && s' == Next(c, s, a) && Enrols(c, s, a)
    ensures !InScan(s'.phase) && forall other | IsOpen(s', other) :: other == a.fd || IsOpen(s, other)
    ensures forall id | id in s'.book.clients ::
              if id in s.book.clients then s'.book.clients[id] == s.book.clients[id]
              else s'.book.clients[id].fd == a.fd
  {
  }

  lemma {:induction false} NewcomerIsApart(s: State, newFd: nat, s': State, num: nat -> nat)
    requires Registered(s) && Switched(s) && s.serving && Unclashing(s, num)
    requires forall other | IsOpen(s, other) :: num(other) != num(newFd)
    requires !InScan(s'.phase) && forall other | IsOpen(s', other) :: other == newFd || IsOpen(s, other)
    requires forall id | id in s'.book.clients ::
               if id in s.book.clients then s'.book.clients[id] == s.book.clients[id]
               else s'.book.clients[id].fd == newFd
    ensures Unclashing(s', num)
  {
    forall fd | IsOpen(s', fd) ensures Clear(s', fd, num) {
      NewcomerIsClear(s, s', newFd, fd, num);
    }
    forall fd | InUse(s', fd) ensures Clear(s', fd, num) {
      var id :| id in s'.book.clients && s'.book.clients[id].fd == fd;
      if id in s.book.clients { ClientsAreOpen(s, id); }
      NewcomerIsClear(s, s', newFd, fd, num);
    }
  }

  lemma {:induction false} NewcomerIsClear(s: State, s': State, newFd: nat, fd: nat, num: nat -> nat)
    requires forall other | IsOpen(s', other) :: other == newFd || IsOpen(s, other)
    requires forall other | IsOpen(s, other) :: num(other) != num(newFd)
    requires fd == newFd || (IsOpen(s, fd) && Clear(s, fd, num))
    ensures Clear(s', fd, num)
  {
  }

  /** In every run, and whatever free numbers the kernel gives to new clients, closed
      ones again among them, the number of a connection that the server may still
      use never names another open connection. */
  lemma {:induction false} NumbersNeverClash(c: Cipher, states: seq<State>, actions: seq<Action>, n: nat,
                                             num: nat -> nat)
    requires IsRun(c, states, actions) && n <= |actions|
    requires forall i {:trigger actions[i]} | 0 <= i < |actions| :: GivesFree(c, states[i], actions[i], num)
    ensures forall fd | InUse(states[n], fd) :: Clear(states[n], fd, num)
    ensures Unclashing(states[n], num)
  {
    if n == 0 {
      NothingInUse(c, states, actions);
    } else {
      NumbersNeverClash(c, states, actions, n - 1, num);
      assert GivesFree(c, states[n - 1], actions[n - 1], num);
      StepStaysApart(c, states, actions, n - 1, num);
    }
  }

  lemma {:induction false} NothingInUse(c: Cipher, states: seq<State>, actions: seq<Action>)
    requires IsRun(c, states, actions)
    ensures forall fd :: !IsOpen(states[0], fd) && !InUse(states[0], fd)
  {
  }

  lemma {:induction false} StepStaysApart(c: Cipher, states: seq<State>, actions: seq<Action>, n: nat, num: nat -> nat)
    requires IsRun(c, states, actions) && n < |actions|
    requires Unclashing(states[n], num) && GivesFree(c, states[n], actions[n], num)
    ensures Unclashing(states[n + 1], num)
  {
    RunsAreSafe(c, states, actions, n);
    if Enrols(c, states[n], actions[n]) {
      NewcomerJoins(c, states[n], actions[n], states[n + 1]);
      NewcomerIsApart(states[n], actions[n].fd, states[n + 1], num);
    } else {
      RunIsRegistered(c, states, actions, n + 1);
      ClosingKeepsApart(c, states[n], actions[n], states[n + 1], num);
    }
  }
}
