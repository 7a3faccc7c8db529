/** How clients leave the server: out of the map once, closed once, freed once. */
module ServerBook {
  import opened Defs
  import opened ServerSpec
  import Tables

  /** Every client in the map is on the roster, and no two share a descriptor. */
  ghost predicate Rostered(b: Book) {
    && (forall id | id in b.clients :: id in b.roster && b.roster[id] == b.clients[id])
    && (forall i, j | i in b.roster && j in b.roster && i != j :: b.roster[i].fd != b.roster[j].fd)
  }

  /** How often the client has left the map. */
  function TimesLeft(b: Book, id: SizeT): nat {
    if id in b.causes then 1 else 0
  }

  /** How often its descriptor has been closed: once more if a stop that could
      not close it left it in the map. */
  function TimesClosed(b: Book, id: SizeT): nat
    requires id in b.roster
  {
    TimesLeft(b, id) + if b.jammed == Some(b.roster[id].fd) then 1 else 0
  }

  /** How often its key has been freed: never, if remove_client gave up. */
  function TimesFreed(b: Book, id: SizeT): nat {
    if id in b.causes && b.causes[id] != ByRemove(false) then 1 else 0
  }

  ghost predicate LeftOnce(b: Book) {
    && (forall id: SizeT :: id in b.causes <==> id in b.roster && id !in b.clients)
    && (forall id: SizeT :: b.leaves[id] == TimesLeft(b, id))
  }

  ghost predicate ClosedOnce(b: Book) {
    forall id | id in b.roster :: b.closed[b.roster[id].fd] == TimesClosed(b, id)
  }

  ghost predicate FreedOnce(b: Book) {
    forall id | id in b.roster :: b.freed[b.roster[id].fd] == TimesFreed(b, id)
  }

  ghost predicate Sound(b: Book) {
    Rostered(b) && LeftOnce(b) && ClosedOnce(b) && FreedOnce(b)
  }

  lemma {:induction false} DepartStaysRostered(b: Book, id: SizeT, cause: Cause, b': Book)
    requires Rostered(b) && LeftOnce(b) && id in b.clients && b' == Depart(b, id, cause)
    ensures Rostered(b') && LeftOnce(b')
  {
    assert b'.roster == b.roster && b'.clients.Keys == b.clients.Keys - {id};
    forall k: SizeT ensures b'.leaves[k] == TimesLeft(b', k) {
      assert b.leaves[k] == TimesLeft(b, k);
    }
  }

  /** What the departure of one client does to the counts of another, or its own. */
  lemma {:induction false} DepartCounts(b: Book, id: SizeT, cause: Cause, b': Book, k: SizeT)
    requires id in b.clients && id in b.roster && b.roster[id] == b.clients[id] && id !in b.causes
    requires k in b.roster && (k != id ==> b.roster[k].fd != b.roster[id].fd) && b' == Depart(b, id, cause)
    ensures b'.closed[b.roster[k].fd] - TimesClosed(b', k) == b.closed[b.roster[k].fd] - TimesClosed(b, k)
    ensures b'.freed[b.roster[k].fd] - TimesFreed(b', k) == b.freed[b.roster[k].fd] - TimesFreed(b, k)
  {
  }

  lemma {:induction false} DepartClosesOnce(b: Book, id: SizeT, cause: Cause, b': Book)
    requires Rostered(b) && LeftOnce(b) && ClosedOnce(b) && FreedOnce(b) && id in b.clients
    requires b' == Depart(b, id, cause)
    ensures ClosedOnce(b') && FreedOnce(b')
  {
    assert id !in b.causes && b'.roster == b.roster;
    forall k | k in b.roster
      ensures b'.closed[b.roster[k].fd] == TimesClosed(b', k) && b'.freed[b.roster[k].fd] == TimesFreed(b', k)
    {
      DepartCounts(b, id, cause, b', k);
    }
  }

  /** A client that leaves has not left before, and its departure is counted. */
  lemma {:induction false} DepartKeepsSound(b: Book, id: SizeT, cause: Cause, b': Book)
    requires Sound(b) && b' == Depart(b, id, cause)
    ensures Sound(b')
  {
    if id in b.clients {
      DepartStaysRostered(b, id, cause, b');
      DepartClosesOnce(b, id, cause, b');
    }
  }

  /** The descriptor has never been used. */
  ghost predicate Unused(b: Book, fd: nat) {
    && b.closed[fd] == 0 && b.freed[fd] == 0 && b.jammed != Some(fd)
    && forall k | k in b.roster :: b.roster[k].fd != fd
  }

  lemma {:induction false} EnrolStaysRostered(b: Book, id: SizeT, sock: Socket, b': Book)
    requires Rostered(b) && LeftOnce(b) && id !in b.roster && Unused(b, sock.fd) && b' == Enrol(b, id, sock)
    ensures Rostered(b') && LeftOnce(b') && b'.clients == b.clients[id := sock]
  {
    assert id !in b.clients && id !in b.causes;
    forall i, j | i in b'.roster && j in b'.roster && i != j ensures b'.roster[i].fd != b'.roster[j].fd {
      assert i == id || b'.roster[i] == b.roster[i];
      assert j == id || b'.roster[j] == b.roster[j];
    }
  }

  lemma {:induction false} EnrolClosesNone(b: Book, id: SizeT, sock: Socket, b': Book)
    requires LeftOnce(b) && ClosedOnce(b) && FreedOnce(b) && id !in b.roster && Unused(b, sock.fd)
    requires b' == Enrol(b, id, sock)
    ensures ClosedOnce(b') && FreedOnce(b')
  {
    assert id !in b.causes;
  }

  lemma {:induction false} EnrolKeepsSound(b: Book, id: SizeT, sock: Socket, b': Book)
    requires Sound(b) && id !in b.roster && Unused(b, sock.fd) && b' == Enrol(b, id, sock)
    ensures Sound(b') && b'.clients == b.clients[id := sock]
  {
    EnrolStaysRostered(b, id, sock, b');
    EnrolClosesNone(b, id, sock, b');
  }

  /** Only the given descriptors are in use. */
  ghost predicate Within(b: Book, fds: set<nat>) {
    && (forall id | id in b.roster :: b.roster[id].fd in fds)
    && (forall fd: nat | fd !in fds :: b.closed[fd] == 0 && b.freed[fd] == 0)
    && (b.jammed.Some? ==> b.jammed.value in fds)
  }

  lemma {:induction false} DepartStaysWithin(b: Book, id: SizeT, cause: Cause, fds: set<nat>)
    requires Rostered(b) && Within(b, fds)
    ensures Within(Depart(b, id, cause), fds)
  {
  }

  function Named(order: seq<Entry>, n: nat): set<SizeT>
    requires n <= |order|
  {
    if n == 0 then {} else Named(order, n - 1) + {order[n - 1].id}
  }

  lemma {:induction false} DepartFirstKeepsSound(b: Book, order: seq<Entry>, n: nat, fds: set<nat>)
    requires Sound(b) && Within(b, fds) && n <= |order|
    ensures Sound(DepartFirst(b, order, n)) && Within(DepartFirst(b, order, n), fds)
  {
    if n > 0 {
      DepartFirstKeepsSound(b, order, n - 1, fds);
      DepartKeepsSound(DepartFirst(b, order, n - 1), order[n - 1].id, ByStop, DepartFirst(b, order, n));
      DepartStaysWithin(DepartFirst(b, order, n - 1), order[n - 1].id, ByStop, fds);
    }
  }

  lemma {:induction false} LessOneMore(m: map<SizeT, Socket>, gone: set<SizeT>, id: SizeT)
    ensures m - gone - {id} == m - (gone + {id})
    ensures id !in m - gone ==> m - gone == m - (gone + {id})
  {
  }

  /** Whatever the order, the clients named so far are gone, the others stay. */
  lemma {:induction false} DepartFirstLeaves(b: Book, order: seq<Entry>, n: nat)
    requires n <= |order|
    ensures var b' := DepartFirst(b, order, n);
            b'.clients == b.clients - Named(order, n) && b'.roster == b.roster && b'.jammed == b.jammed
  {
    if n > 0 {
      DepartFirstLeaves(b, order, n - 1);
      LessOneMore(b.clients, Named(order, n - 1), order[n - 1].id);
    }
  }

  lemma {:induction false} NamedIs(order: seq<Entry>, n: nat, i: nat)
    requires i < n <= |order|
    ensures order[i].id in Named(order, n)
  {
    if i < n - 1 { NamedIs(order, n - 1, i); }
  }

  /** A snapshot names everyone. */
  lemma {:induction false} EveryoneIsNamed(order: seq<Entry>, m: map<SizeT, Socket>)
    requires Tables.Lists(order, m)
    ensures m - Named(order, |order|) == map[]
  {
    forall id | id in m ensures id in Named(order, |order|) {
      assert Tables.Listed(order, id);
      var i :| 0 <= i < |order| && order[i].id == id;
      NamedIs(order, |order|, i);
    }
  }

  lemma {:induction false} NotNamed(order: seq<Entry>, n: nat, m: nat)
    requires m <= n < |order| && forall i, j | 0 <= i < j < |order| :: order[i].id != order[j].id
    ensures order[n].id !in Named(order, m)
  {
    if m > 0 { NotNamed(order, n, m - 1); }
  }

  predicate Present(b: Book, e: Entry) {
    e.id in b.clients && b.clients[e.id] == e.sock
  }

  /** A client of the listing is in the map until its own turn comes. */
  lemma {:induction false} StillThere(b: Book, order: seq<Entry>, n: nat)
    requires n < |order| && Tables.Lists(order, b.clients)
    ensures Present(DepartFirst(b, order, n), order[n])
  {
    DepartFirstLeaves(b, order, n);
    NotNamed(order, n, n);
  }
}
