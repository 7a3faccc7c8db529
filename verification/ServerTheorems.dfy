/** What holds of every run of the server, whatever its clients, the network and
    the other threads do. */
module ServerTheorems {
  import opened Defs
  import opened Crypto
  import opened Links
  import opened ServerSpec
  import opened ServerBook
  import opened ServerEvents
  import opened ServerSafety
  import opened ServerSteps
  import Tables

  // Leaving.

  lemma {:induction false} EventIsListed(h: seq<Event>, e: Event)
    ensures e in h <==> e in EventsOf(h, e.id)
  {
    if h != [] {
      EventIsListed(Front(h), e);
      assert h == Front(h) + [Last(h)];
    }
  }

  lemma {:induction false} DisconnectIsLast(h: seq<Event>, b: Book, id: SizeT)
    requires Evented(h, b) && id in b.roster
    ensures Disconnected(id) in h <==> ServedOut(b, id)
  {
    EventIsListed(h, Disconnected(id));
    var p := EventsOf(h, id);
    assert WellShaped(p, id, ServedOut(b, id));
    if Disconnected(id) in p {
      var i :| 0 <= i < |p| && p[i] == Disconnected(id);
      assert i == |p| - 1;
    } else {
      assert p[|p| - 1] in p;
      LastIsOwn(h, id);
    }
  }

  lemma {:induction false} LastIsOwn(h: seq<Event>, id: SizeT)
    ensures forall i | 0 <= i < |EventsOf(h, id)| :: EventsOf(h, id)[i].id == id
  {
    if h != [] { LastIsOwn(Front(h), id); }
  }

  lemma {:induction false} BookEntry(b: Book, id: SizeT)
    requires Sound(b) && id in b.roster
    ensures b.leaves[id] == (if id in b.clients then 0 else 1)
    ensures b.closed[b.roster[id].fd] == b.leaves[id] + (if b.jammed == Some(b.roster[id].fd) then 1 else 0)
    ensures b.freed[b.roster[id].fd] == (if id in b.causes && b.causes[id] != ByRemove(false) then 1 else 0)
    ensures id in b.causes <==> id !in b.clients
  {
    assert b.closed[b.roster[id].fd] == TimesClosed(b, id);
    assert b.freed[b.roster[id].fd] == TimesFreed(b, id);
  }

  /** Each client leaves the map at most once; its socket is then closed, once
      unless a stop has failed to close it before; its key is freed once unless
      remove_client failed to close its socket; and a disconnect is reported if
      and only if the serve loop took it out. */
  lemma {:induction false} EachClientLeavesOnce(c: Cipher, states: seq<State>, actions: seq<Action>, n: nat, id: SizeT)
    requires IsRun(c, states, actions) && n <= |actions| && id in states[n].book.roster
    ensures var b := states[n].book;
            var fd := b.roster[id].fd;
            && b.leaves[id] == (if id in b.clients then 0 else 1)
            && b.closed[fd] == b.leaves[id] + (if b.jammed == Some(fd) then 1 else 0)
            && b.freed[fd] == (if id in b.causes && b.causes[id] != ByRemove(false) then 1 else 0)
            && (id in b.causes <==> id !in b.clients)
    ensures Disconnected(id) in states[n].history <==>
            id in states[n].book.causes && states[n].book.causes[id] == ByServe
  {
    RunsAreSafe(c, states, actions, n);
    BookEntry(states[n].book, id);
    DisconnectIsLast(states[n].history, states[n].book, id);
  }

  /** Each client's callbacks: one connect, any number of receives, and at most
      one disconnect, which is last; and the k-th connect of all, from zero, is
      that of client k. */
  lemma {:induction false} HistoriesAreWellShaped(c: Cipher, states: seq<State>, actions: seq<Action>, n: nat)
    requires IsRun(c, states, actions) && n <= |actions|
    ensures var s := states[n];
            && (forall id: SizeT | EventsOf(s.history, id) != [] ::
                  WellShaped(EventsOf(s.history, id), id, ServedOut(s.book, id)))
            && (forall i | 0 <= i < |s.history| && s.history[i].Connected? ::
                  s.history[i].id == ConnectCount(s.history[..i]))
  {
    RunsAreSafe(c, states, actions, n);
    var s := states[n];
    forall i | 0 <= i < |s.history| && s.history[i].Connected?
      ensures s.history[i].id == ConnectCount(s.history[..i])
    {
      ConnectsAreNumbered(s.history, i);
    }
  }

  /** The serve loop ignores whether its insert succeeded: it always does. Every
      id in the map is below the next, so a client that agrees on a key is added. */
  lemma {:induction false} InsertNeverRefuses(c: Cipher, states: seq<State>, actions: seq<Action>, n: nat)
    requires IsRun(c, states, actions) && n <= |actions|
    ensures forall id | id in states[n].book.clients :: id < states[n].nextId
    ensures n < |actions| && actions[n].AcceptClient? && states[n].serving && Exchanged(c, actions[n]).Agreed? ==>
              var s, sock := states[n], Socket(actions[n].fd, Exchanged(c, actions[n]).key);
              states[n + 1].book.clients == s.book.clients[s.nextId := sock]
  {
    RunsAreSafe(c, states, actions, n);
    forall id | id in states[n].book.clients ensures id < states[n].nextId {
      assert id in states[n].book.roster;
    }
  }

  /** A message is never dispatched for a client that has gone: if the kernel
      delivers a body, the client is still in the map, with its own key. */
  lemma {:induction false} DispatchFindsClient(c: Cipher, s: State, r: ReadResult)
    requires Safe(c, s) && s.phase.Awaiting? && InScan(s.phase) && r.Data?
    requires var fd := Current(s.phase).sock.fd; Allows(LinkOf(s, fd), IsOpen(s, fd), s.phase.size, r)
    ensures var e := Current(s.phase); e.id in s.book.clients && s.book.clients[e.id] == e.sock
  {
    OpenMeansPresent(s, Current(s.phase).id);
  }

  // Stopping.

  /** Between b and b' the socket of this client was closed and its key freed, for
      the first time, by stop. */
  ghost predicate StoppedOnce(b: Book, b': Book, id: SizeT)
    requires id in b.clients
  {
    var fd := b.clients[id].fd;
    && b.closed[fd] == 0 && b'.closed[fd] == 1 && b.freed[fd] == 0 && b'.freed[fd] == 1
    && id in b'.causes && b'.causes[id] == ByStop
  }

  ghost predicate AllStopped(b: Book, b': Book) {
    forall id | id in b.clients :: StoppedOnce(b, b', id)
  }

  /** Stop empties the map exactly when every socket closes; then each client it
      found has been closed once and its key freed once, and nobody is told. */
  lemma {:induction false} StopClosesEveryone(c: Cipher, s: State, order: seq<Entry>, failAt: Option<nat>, s': State)
    requires Safe(c, s) && Enabled(c, s, Stop(order, failAt)) && s.serving && s' == AfterStop(s, order, failAt)
    ensures s'.book.clients == map[] <==> failAt.None?
    ensures s'.history == s.history && !s'.serving && s'.done
    ensures failAt.None? ==> AllStopped(s.book, s'.book)
  {
    match failAt {
      case Some(i) => JammedStopKeepsBooks(c, s, order, i, DepartFirst(s.book, order, i), s'.book);
      case None =>
        CleanStopKeepsBooks(c, s, order, s'.book);
        forall id | id in s.book.clients ensures StoppedOnce(s.book, s'.book, id) {
          StoppedClient(s.book, order, s'.book, id);
        }
    }
  }

  lemma {:induction false} StoppedClient(b: Book, order: seq<Entry>, b': Book, id: SizeT)
    requires Sound(b) && Sound(b') && b' == DepartFirst(b, order, |order|) && Tables.Lists(order, b.clients)
    requires id in b.clients && b.jammed.None?
    ensures StoppedOnce(b, b', id)
  {
    DepartFirstLeaves(b, order, |order|);
    EveryoneIsNamed(order, b.clients);
    assert b.roster[id] == b.clients[id];
    assert b.closed[b.roster[id].fd] == TimesClosed(b, id) && b.freed[b.roster[id].fd] == TimesFreed(b, id);
    assert id in b'.roster && id !in b'.clients && id in b'.causes;
    assert b'.closed[b'.roster[id].fd] == TimesClosed(b', id) && b'.freed[b'.roster[id].fd] == TimesFreed(b', id);
    StopIsTheCause(b, order, |order|, id);
  }

  /** How stop has left one client of its listing: taken out, closed and freed, if its
      turn came before the socket that did not close; that one only closed, and
      those after it untouched. */
  ghost predicate StoppedInTurn(b': Book, e: Entry, i: nat, k: nat) {
    && (e.id in b'.clients <==> i >= k)
    && b'.closed[e.sock.fd] == (if i <= k then 1 else 0) && b'.freed[e.sock.fd] == (if i < k then 1 else 0)
    && (i < k ==> e.id in b'.causes && b'.causes[e.id] == ByStop)
  }

  /** Stop takes the clients of its listing out in order, up to the first socket that
      does not close. */
  lemma {:induction false} StopTakesOutInOrder(c: Cipher, s: State, order: seq<Entry>, failAt: Option<nat>, s': State,
                                               i: nat)
    requires Safe(c, s) && Enabled(c, s, Stop(order, failAt)) && s.serving && s' == Next(c, s, Stop(order, failAt))
    requires i < |order|
    ensures StoppedInTurn(s'.book, order[i], i, if failAt.Some? then failAt.value else |order|)
  {
    var k := if failAt.Some? then failAt.value else |order|;
    StopIsSafe(c, s, order, failAt, s');
    OneInTurn(s.book, order, failAt, s'.book, k, i);
  }

  lemma {:induction false} OneInTurn(b: Book, order: seq<Entry>, failAt: Option<nat>, b': Book, k: nat, i: nat)
    requires Sound(b) && Sound(b') && b.jammed.None? && Tables.Lists(order, b.clients)
    requires (failAt.Some? ==> failAt.value < |order|) && k == (if failAt.Some? then failAt.value else |order|)
    requires b' == StopBook(b, order, failAt) && i < |order|
    ensures StoppedInTurn(b', order[i], i, k)
  {
    var e := order[i];
    DepartFirstLeaves(b, order, k);
    StopIsTheCause(b, order, k, e.id);
    if i < k { NamedIs(order, k, i); } else { NotNamed(order, i, k); }
    assert b.roster[e.id] == e.sock && b'.roster == b.roster;
    BookEntry(b', e.id);
    if k < |order| {
      assert b.roster[order[k].id] == order[k].sock;
      assert i != k ==> order[i].id != order[k].id;
    }
  }

  lemma {:induction false} StopIsTheCause(b: Book, order: seq<Entry>, n: nat, id: SizeT)
    requires n <= |order| && id !in b.causes
    ensures var b' := DepartFirst(b, order, n); id in b'.causes ==> b'.causes[id] == ByStop
  {
    if n > 0 { StopIsTheCause(b, order, n - 1, id); }
  }

  /** Every client has been taken out by a stop whose closes all succeeded. */
  ghost predicate Stopped(s: State) {
    !s.serving && s.done && s.book.jammed.None? && s.book.clients == map[]
  }

  lemma {:induction false} NobodyIsOpen(s: State)
    requires Registered(s) && s.book.clients == map[]
    ensures forall id | id in s.book.roster :: !IsOpen(s, s.book.roster[id].fd)
  {
    forall id | id in s.book.roster ensures !IsOpen(s, s.book.roster[id].fd) {
      assert s.book.closed[s.book.roster[id].fd] == TimesClosed(s.book, id);
    }
  }

  lemma {:induction false} StoppedStepIsSilent(c: Cipher, s: State, a: Action, s': State)
    requires Registered(s) && Snapped(s) && Stopped(s) && Enabled(c, s, a) && s' == Next(c, s, a)
    ensures Stopped(s') && s'.history == s.history
  {
    NobodyIsOpen(s);
    if a.SendAll? { UnservedSends(c, s, a, |a.order|); }
  }

  lemma {:induction false} UnservedSends(c: Cipher, s: State, a: Action, n: nat)
    requires a.SendAll? && |a.order| == |a.nonces| == |a.results| && n <= |a.order| && !s.serving
    ensures AfterSends(c, s, a, n) == s
  {
    if n > 0 { UnservedSends(c, s, a, n - 1); }
  }

  lemma {:induction false} CleanStopStops(c: Cipher, s: State, order: seq<Entry>, s': State)
    requires Safe(c, s) && s.serving && Tables.Lists(order, s.book.clients) && s' == AfterStop(s, order, None)
    ensures Stopped(s') && s'.history == s.history
  {
    CleanStopKeepsBooks(c, s, order, s'.book);
  }

  lemma {:induction false} SilentStep(c: Cipher, states: seq<State>, actions: seq<Action>, i: nat)
    requires IsRun(c, states, actions) && i < |actions| && Stopped(states[i])
    ensures Stopped(states[i + 1]) && states[i + 1].history == states[i].history
  {
    RunsAreSafe(c, states, actions, i);
    StoppedStepIsSilent(c, states[i], actions[i], states[i + 1]);
  }

  lemma {:induction false} FirstSilence(c: Cipher, states: seq<State>, actions: seq<Action>, n: nat)
    requires IsRun(c, states, actions) && n < |actions|
    requires states[n].serving && actions[n].Stop? && actions[n].failAt.None?
    ensures Stopped(states[n + 1]) && states[n + 1].history == states[n].history
  {
    RunsAreSafe(c, states, actions, n);
    CleanStopStops(c, states[n], actions[n].order, states[n + 1]);
  }

  /** After a stop that closed every socket, no callback is ever started again,
      even if the serve thread was in the middle of a pass. */
  lemma {:induction false} StopIsFinal(c: Cipher, states: seq<State>, actions: seq<Action>, n: nat, m: nat)
    requires IsRun(c, states, actions) && n < m <= |actions|
    requires states[n].serving && actions[n].Stop? && actions[n].failAt.None?
    ensures Stopped(states[m]) && states[m].history == states[n].history
  {
    if m == n + 1 {
      FirstSilence(c, states, actions, n);
    } else {
      StopIsFinal(c, states, actions, n, m - 1);
      SilentStep(c, states, actions, m - 1);
    }
  }
}
