/** The callbacks the server starts, client by client. */
module ServerEvents {
  import opened Defs
  import opened ServerSpec
  import opened ServerBook

  function Front(h: seq<Event>): seq<Event>
    requires h != []
  {
    h[..|h| - 1]
  }

  function Last(h: seq<Event>): Event
    requires h != []
  {
    h[|h| - 1]
  }

  function ConnectCount(h: seq<Event>): nat {
    if h == [] then 0 else ConnectCount(Front(h)) + if Last(h).Connected? then 1 else 0
  }

  /** Each connect event carries the number of connect events before it. */
  predicate Counted(h: seq<Event>) {
    h == [] || (Counted(Front(h)) && (Last(h).Connected? ==> Last(h).id == ConnectCount(Front(h))))
  }

  /** The events of one client, in order. */
  function EventsOf(h: seq<Event>, id: SizeT): seq<Event> {
    if h == [] then [] else EventsOf(Front(h), id) + if Last(h).id == id then [Last(h)] else []
  }

  /** The texts received from one client, in order. */
  function TextsOf(h: seq<Event>, id: SizeT): seq<Bytes> {
    if h == [] then []
    else TextsOf(Front(h), id) + if Last(h).id == id && Last(h).Received? then [Last(h).text] else []
  }

  lemma {:induction false} Append(h: seq<Event>, e: Event, id: SizeT)
    ensures ConnectCount(h + [e]) == ConnectCount(h) + if e.Connected? then 1 else 0
    ensures Counted(h + [e]) <==> Counted(h) && (e.Connected? ==> e.id == ConnectCount(h))
    ensures EventsOf(h + [e], id) == EventsOf(h, id) + if e.id == id then [e] else []
    ensures TextsOf(h + [e], id) == TextsOf(h, id) + if e.id == id && e.Received? then [e.text] else []
  {
    assert Front(h + [e]) == h;
  }

  lemma {:induction false} AppendConcernsOne(h: seq<Event>, e: Event)
    ensures EventsOf(h + [e], e.id) == EventsOf(h, e.id) + [e]
    ensures forall k: SizeT | k != e.id :: EventsOf(h + [e], k) == EventsOf(h, k)
  {
    Append(h, e, e.id);
    forall k: SizeT | k != e.id ensures EventsOf(h + [e], k) == EventsOf(h, k) { Append(h, e, k); }
  }

  /** The k-th connect event, from zero, carries id k. */
  lemma {:induction false} ConnectsAreNumbered(h: seq<Event>, i: nat)
    requires Counted(h) && i < |h| && h[i].Connected?
    ensures h[i].id == ConnectCount(h[..i])
  {
    if i < |h| - 1 {
      ConnectsAreNumbered(Front(h), i);
      assert Front(h)[..i] == h[..i];
    }
  }

  lemma {:induction false} NoEventsNoTexts(h: seq<Event>, id: SizeT)
    requires EventsOf(h, id) == []
    ensures TextsOf(h, id) == []
  {
    if h != [] { NoEventsNoTexts(Front(h), id); }
  }

  /** One connect, any number of receives, then at most one disconnect. */
  ghost predicate WellShaped(p: seq<Event>, id: SizeT, disconnected: bool) {
    && |p| >= 1 && p[0] == Connected(id)
    && (forall i | 1 <= i < |p| - 1 :: p[i].Received?)
    && (|p| > 1 ==> !p[|p| - 1].Connected?)
    && (p[|p| - 1].Disconnected? <==> disconnected)
  }

  lemma {:induction false} Extend(p: seq<Event>, id: SizeT, e: Event)
    requires WellShaped(p, id, false) && !e.Connected?
    ensures WellShaped(p + [e], id, e.Disconnected?)
  {
  }

  /** The serve loop took the client out. */
  predicate ServedOut(b: Book, id: SizeT) {
    id in b.causes && b.causes[id] == ByServe
  }

  /** A client's events start with its connect; they end with a disconnect if
      and only if the serve loop took it out. */
  ghost predicate Evented(h: seq<Event>, b: Book) {
    && (forall id: SizeT | id !in b.roster :: EventsOf(h, id) == [])
    && (forall id: SizeT | id in b.roster :: WellShaped(EventsOf(h, id), id, ServedOut(b, id)))
  }

  lemma {:induction false} ServedDepartIsEvented(h: seq<Event>, b: Book, id: SizeT)
    requires Evented(h, b) && Rostered(b) && LeftOnce(b) && id in b.clients
    ensures Evented(h + [Disconnected(id)], Depart(b, id, ByServe))
  {
    var h', b' := h + [Disconnected(id)], Depart(b, id, ByServe);
    AppendConcernsOne(h, Disconnected(id));
    assert !ServedOut(b, id);
    Extend(EventsOf(h, id), id, Disconnected(id));
    forall k: SizeT | k in b'.roster ensures WellShaped(EventsOf(h', k), k, ServedOut(b', k)) {
      if k != id { assert ServedOut(b', k) == ServedOut(b, k); }
    }
  }

  lemma {:induction false} OtherDepartIsEvented(h: seq<Event>, b: Book, id: SizeT, cause: Cause)
    requires Evented(h, b) && LeftOnce(b) && cause != ByServe
    ensures Evented(h, Depart(b, id, cause))
  {
    forall k: SizeT ensures ServedOut(Depart(b, id, cause), k) == ServedOut(b, k) {}
  }

  lemma {:induction false} DepartFirstIsEvented(h: seq<Event>, b: Book, order: seq<Entry>, n: nat)
    requires Evented(h, b) && Sound(b) && n <= |order|
    ensures Evented(h, DepartFirst(b, order, n)) && Sound(DepartFirst(b, order, n))
  {
    if n > 0 {
      DepartFirstIsEvented(h, b, order, n - 1);
      DepartKeepsSound(DepartFirst(b, order, n - 1), order[n - 1].id, ByStop, DepartFirst(b, order, n));
      OtherDepartIsEvented(h, DepartFirst(b, order, n - 1), order[n - 1].id, ByStop);
    }
  }

  lemma {:induction false} ReceiveIsEvented(h: seq<Event>, b: Book, id: SizeT, text: Bytes)
    requires Evented(h, b) && Rostered(b) && LeftOnce(b) && id in b.clients
    ensures Evented(h + [Received(id, text)], b)
  {
    AppendConcernsOne(h, Received(id, text));
    assert !ServedOut(b, id);
    Extend(EventsOf(h, id), id, Received(id, text));
  }

  lemma {:induction false} EnrolIsEvented(h: seq<Event>, b: Book, id: SizeT, sock: Socket)
    requires Evented(h, b) && LeftOnce(b) && id !in b.roster
    ensures Evented(h + [Connected(id)], Enrol(b, id, sock))
  {
    AppendConcernsOne(h, Connected(id));
    assert EventsOf(h + [Connected(id)], id) == [Connected(id)];
  }
}
