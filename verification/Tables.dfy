/** The hash table of the client map as a value: a sequence of slots, probed
    linearly and cyclically. */
module Tables {
  import opened Defs
  import opened Sizing

  datatype Slot = Free | Used(id: SizeT, sock: Socket)

  type Table = seq<Slot>

  function Front(t: Table): Table
    requires t != []
  {
    t[..|t| - 1]
  }

  function Last(t: Table): Slot
    requires t != []
  {
    t[|t| - 1]
  }

  function Count(t: Table): (n: nat)
    ensures n <= |t|
  {
    if t == [] then 0 else Count(Front(t)) + (if Last(t).Used? then 1 else 0)
  }

  /** The finite map a table stands for. */
  function Contents(t: Table): map<SizeT, Socket> {
    if t == [] then map[]
    else if Last(t).Free? then Contents(Front(t))
    else Contents(Front(t))[Last(t).id := Last(t).sock]
  }

  /** No client has two slots. */
  predicate Distinct(t: Table) {
    t == [] || (Distinct(Front(t)) && (Last(t).Used? ==> Last(t).id !in Contents(Front(t))))
  }

  /** Slot i of t holds the given client. */
  predicate Holds(t: Table, i: nat, id: SizeT) {
    i < |t| && t[i].Used? && t[i].id == id
  }

  lemma {:induction false} SlotIsContents(t: Table, i: nat)
    requires Distinct(t) && i < |t| && t[i].Used?
    ensures t[i].id in Contents(t) && Contents(t)[t[i].id] == t[i].sock
  {
    if i < |t| - 1 { SlotIsContents(Front(t), i); }
  }

  lemma {:induction false} ContentsHaveSlot(t: Table, id: SizeT) returns (i: nat)
    requires id in Contents(t)
    ensures Holds(t, i, id)
  {
    if Last(t).Used? && Last(t).id == id { i := |t| - 1; } else { i := ContentsHaveSlot(Front(t), id); }
  }

  lemma {:induction false} SlotIsUnique(t: Table, i: nat, j: nat)
    requires Distinct(t) && i < j < |t| && t[i].Used? && t[j].Used?
    ensures t[i].id != t[j].id
  {
    if j == |t| - 1 { SlotIsContents(Front(t), i); } else { SlotIsUnique(Front(t), i, j); }
  }

  /** The number of used slots is the number of clients. */
  lemma {:induction false} CountIsSize(t: Table)
    requires Distinct(t)
    ensures |Contents(t)| == Count(t)
  {
    if t != [] { CountIsSize(Front(t)); }
  }

  function Empty(capacity: nat): (t: Table)
    ensures |t| == capacity && Distinct(t) && Count(t) == 0 && Contents(t) == map[]
  {
    if capacity == 0 then [] else
      var t := Empty(capacity - 1) + [Free];
      assert Front(t) == Empty(capacity - 1);
      t
  }

  lemma {:induction false} EmptySlot(capacity: nat, i: nat)
    requires i < capacity
    ensures Empty(capacity)[i] == Free
  {
    if i < capacity - 1 { EmptySlot(capacity - 1, i); }
  }

  lemma {:induction false} AllUsed(t: Table)
    requires forall i | 0 <= i < |t| :: t[i].Used?
    ensures Count(t) == |t|
  {
    if t != [] { AllUsed(Front(t)); }
  }

  lemma {:induction false} CountPrefix(t: Table, n: nat)
    requires n <= |t|
    ensures Count(t[..n]) <= Count(t)
  {
    if n < |t| {
      CountPrefix(Front(t), n);
      assert Front(t)[..n] == t[..n];
    } else {
      assert t[..n] == t;
    }
  }

  /** Filling a free slot with a new client adds exactly its pair. */
  lemma {:induction false} FillAdds(t: Table, p: nat, id: SizeT, sock: Socket)
    requires Distinct(t) && p < |t| && t[p].Free? && id !in Contents(t)
    ensures Distinct(t[p := Used(id, sock)])
    ensures Contents(t[p := Used(id, sock)]) == Contents(t)[id := sock]
  {
    var r := t[p := Used(id, sock)];
    if p < |t| - 1 {
      FillAdds(Front(t), p, id, sock);
      assert Front(r) == Front(t)[p := Used(id, sock)];
    } else {
      assert Front(r) == Front(t);
    }
  }

  lemma {:induction false} CountFill(t: Table, p: nat, id: SizeT, sock: Socket)
    requires p < |t| && t[p].Free?
    ensures Count(t[p := Used(id, sock)]) == Count(t) + 1
  {
    var r := t[p := Used(id, sock)];
    if p < |t| - 1 {
      CountFill(Front(t), p, id, sock);
      assert Front(r) == Front(t)[p := Used(id, sock)];
    } else {
      assert Front(r) == Front(t);
    }
  }

  /** Freeing a client's slot removes exactly its pair: lookups scan the whole
      cycle, so nothing has to be moved back. */
  lemma {:induction false} FreeRemoves(t: Table, p: nat)
    requires Distinct(t) && p < |t| && t[p].Used?
    ensures Distinct(t[p := Free]) && Count(t[p := Free]) == Count(t) - 1
    ensures Contents(t[p := Free]) == Contents(t) - {t[p].id}
  {
    var r := t[p := Free];
    if p < |t| - 1 {
      FreeRemoves(Front(t), p);
      SlotIsContents(Front(t), p);
      assert Front(r) == Front(t)[p := Free];
    } else {
      assert Front(r) == Front(t);
    }
  }

  // Probing.

  function Next(i: nat, n: nat): (j: nat)
    requires i < n
    ensures j < n && j == (i + 1) % n
  {
    if i + 1 == n then 0 else i + 1
  }

  /** A probe from slot h passes slot i before it reaches slot p. */
  predicate Passes(n: nat, h: int, i: int, p: int) {
    if h <= p then h <= i < p else h <= i < n || 0 <= i < p
  }

  /** Slot p is where a probe for a free slot from h stops. */
  predicate FirstFree(t: Table, h: nat, p: nat) {
    p < |t| && t[p].Free? && forall i | 0 <= i < |t| && Passes(|t|, h, i, p) :: t[i].Used?
  }

  lemma {:induction false} LeastFree(t: Table, lo: nat, p: nat) returns (q: nat)
    requires lo <= p < |t| && t[p].Free?
    ensures lo <= q <= p && t[q].Free? && forall i | lo <= i < q :: t[i].Used?
    decreases p - lo
  {
    if t[lo].Free? { q := lo; } else { q := LeastFree(t, lo + 1, p); }
  }

  lemma {:induction false} ProbeStops(t: Table, h: nat) returns (q: nat)
    requires h < |t| && Count(t) < |t|
    ensures FirstFree(t, h, q)
  {
    if forall i | 0 <= i < |t| :: t[i].Used? { AllUsed(t); }
    var p: nat :| p < |t| && t[p].Free?;
    if above: nat :| h <= above < |t| && t[above].Free? {
      q := LeastFree(t, h, above);
    } else {
      q := LeastFree(t, 0, p);
    }
  }

  /** The slot a probe finds does not depend on how it is found. */
  lemma {:induction false} ProbeIsUnique(t: Table, h: nat, p: nat, q: nat)
    requires h < |t| && FirstFree(t, h, p) && FirstFree(t, h, q)
    ensures p == q
  {
  }

  ghost function Probe(t: Table, h: nat): (p: nat)
    requires h < |t| && Count(t) < |t|
    ensures FirstFree(t, h, p)
  {
    assert exists p: nat :: FirstFree(t, h, p) by { var q := ProbeStops(t, h); }
    var p: nat :| FirstFree(t, h, p);
    p
  }

  ghost function Insert(t: Table, id: SizeT, sock: Socket): (r: Table)
    requires Count(t) < |t|
    ensures |r| == |t| && Count(r) == Count(t) + 1
  {
    CountFill(t, Probe(t, id % |t|), id, sock);
    t[Probe(t, id % |t|) := Used(id, sock)]
  }

  lemma {:induction false} InsertAdds(t: Table, id: SizeT, sock: Socket)
    requires Distinct(t) && Count(t) < |t| && id !in Contents(t)
    ensures Distinct(Insert(t, id, sock))
    ensures Contents(Insert(t, id, sock)) == Contents(t)[id := sock]
  {
    FillAdds(t, Probe(t, id % |t|), id, sock);
  }

  /** A new client goes to the first free slot from its id on, round the table, and
      to no other. */
  lemma {:induction false} InsertFillsFirstFree(t: Table, id: SizeT, sock: Socket, j: nat)
    requires Count(t) < |t| && j < |t| && t[j].Free?
    ensures Insert(t, id, sock) == t[j := Used(id, sock)] <==> FirstFree(t, id % |t|, j)
  {
    var p := Probe(t, id % |t|);
    if FirstFree(t, id % |t|, j) { ProbeIsUnique(t, id % |t|, p, j); }
    if p != j { assert t[p := Used(id, sock)][j] == Free && t[j := Used(id, sock)][j] != Free; }
  }

  // Resizing.

  /** A fresh table of the given capacity after the first n slots of t have been
      reinserted in slot order. */
  ghost function Rehash(t: Table, n: nat, capacity: nat): (r: Table)
    requires n <= |t| && Count(t) <= capacity
    ensures |r| == capacity && Count(r) == Count(t[..n])
  {
    if n == 0 then Empty(capacity)
    else
      assert Front(t[..n]) == t[..n - 1];
      CountPrefix(t, n);
      var r := Rehash(t, n - 1, capacity);
      if t[n - 1].Used? then Insert(r, t[n - 1].id, t[n - 1].sock) else r
  }

  lemma {:induction false} RehashOneMore(t: Table, i: nat, capacity: nat)
    requires i < |t| && Count(t) <= capacity
    ensures t[i].Used? ==> Count(Rehash(t, i, capacity)) < capacity
    ensures Rehash(t, i + 1, capacity) ==
            if t[i].Used? then Insert(Rehash(t, i, capacity), t[i].id, t[i].sock) else Rehash(t, i, capacity)
  {
    assert Front(t[..i + 1]) == t[..i];
    CountPrefix(t, i + 1);
  }

  lemma {:induction false} DistinctPrefix(t: Table, n: nat)
    requires Distinct(t) && n <= |t|
    ensures Distinct(t[..n])
  {
    if n < |t| {
      DistinctPrefix(Front(t), n);
      assert Front(t)[..n] == t[..n];
    } else {
      assert t[..n] == t;
    }
  }

  lemma {:induction false} RehashPrefix(t: Table, n: nat, capacity: nat)
    requires n <= |t| && Count(t) <= capacity && Distinct(t)
    ensures Distinct(Rehash(t, n, capacity))
    ensures Contents(Rehash(t, n, capacity)) == Contents(t[..n])
  {
    if n > 0 {
      RehashPrefix(t, n - 1, capacity);
      assert Front(t[..n]) == t[..n - 1];
      DistinctPrefix(t, n);
      CountPrefix(t, n);
      if t[n - 1].Used? {
        InsertAdds(Rehash(t, n - 1, capacity), t[n - 1].id, t[n - 1].sock);
      }
    }
  }

  function ShapeOf(t: Table): Shape {
    Shape(Count(t), |t|)
  }

  ghost predicate Sound(t: Table) {
    Distinct(t) && Reachable(ShapeOf(t))
  }

  lemma {:induction false} RehashIsSound(t: Table, capacity: nat)
    requires Distinct(t) && Count(t) <= capacity && Reachable(Shape(Count(t), capacity))
    ensures var r := Rehash(t, |t|, capacity);
            Sound(r) && Count(r) == Count(t) && Contents(r) == Contents(t)
  {
    RehashPrefix(t, |t|, capacity);
    assert t[..|t|] == t;
  }

  /** What try_resize leaves. */
  ghost function Resized(t: Table): (r: Table)
    requires Reachable(ShapeOf(t))
    ensures |r| == TargetCapacity(ShapeOf(t)) && Count(r) == Count(t) < |r|
  {
    RoomAfterResize(ShapeOf(t));
    assert t[..|t|] == t;
    if TargetCapacity(ShapeOf(t)) == |t| then t
    else Rehash(t, |t|, TargetCapacity(ShapeOf(t)))
  }

  /** A resize keeps every pair and loses none, whatever the collisions. */
  lemma {:induction false} ResizedKeepsContents(t: Table)
    requires Distinct(t) && Reachable(ShapeOf(t))
    ensures Distinct(Resized(t)) && Contents(Resized(t)) == Contents(t)
  {
    RoomAfterResize(ShapeOf(t));
    assert t[..|t|] == t;
    RehashPrefix(t, |t|, TargetCapacity(ShapeOf(t)));
  }

  // The calls.

  /** Where the table keeps a client it holds. */
  ghost function SlotOf(t: Table, id: SizeT): (i: nat)
    requires id in Contents(t)
    ensures Holds(t, i, id)
  {
    assert exists i: nat :: Holds(t, i, id) by { var i := ContentsHaveSlot(t, id); }
    var i: nat :| Holds(t, i, id);
    i
  }

  lemma {:induction false} SlotOfIs(t: Table, id: SizeT, i: nat)
    requires Distinct(t) && id in Contents(t) && Holds(t, i, id)
    ensures SlotOf(t, id) == i
  {
    var j := SlotOf(t, id);
    if i < j { SlotIsUnique(t, i, j); }
    if j < i { SlotIsUnique(t, j, i); }
  }

  function Lookup(m: map<SizeT, Socket>, id: SizeT): Option<Socket> {
    if id in m then Some(m[id]) else None
  }

  ghost function Set(t: Table, id: SizeT, sock: Socket): Table
    requires Sound(t)
  {
    if id in Contents(t) then t else Insert(Resized(t), id, sock)
  }

  ghost function Pop(t: Table, id: SizeT): Table
    requires Sound(t)
  {
    ResizedKeepsContents(t);
    var r := Resized(t);
    if id in Contents(t) then r[SlotOf(r, id) := Free] else r
  }

  function SetCall(present: bool): Call { if present then SetPresent else SetNew }

  function PopCall(present: bool): Call { if present then PopHit else PopMiss }

  /** A set refuses exactly the ids present and otherwise adds one pair; its
      resize obeys the sizing rules. */
  lemma {:induction false} SetAgrees(t: Table, id: SizeT, sock: Socket)
    requires Sound(t)
    ensures Sound(Set(t, id, sock))
    ensures Contents(Set(t, id, sock)) == if id in Contents(t) then Contents(t) else Contents(t)[id := sock]
    ensures Possible(ShapeOf(t), SetCall(id in Contents(t)))
    ensures ShapeOf(Set(t, id, sock)) == After(ShapeOf(t), SetCall(id in Contents(t)))
  {
    CountIsSize(t);
    if id !in Contents(t) {
      ResizedKeepsContents(t);
      InsertAdds(Resized(t), id, sock);
    }
    CallKeepsReachable(ShapeOf(t), SetCall(id in Contents(t)));
  }

  /** A pop removes exactly the pair asked for, and still resizes when the id is
      absent. */
  lemma {:induction false} PopAgrees(t: Table, id: SizeT)
    requires Sound(t)
    ensures Sound(Pop(t, id))
    ensures Contents(Pop(t, id)) == Contents(t) - {id}
    ensures Possible(ShapeOf(t), PopCall(id in Contents(t)))
    ensures ShapeOf(Pop(t, id)) == After(ShapeOf(t), PopCall(id in Contents(t)))
  {
    CountIsSize(t);
    ResizedKeepsContents(t);
    if id in Contents(t) {
      FreeRemoves(Resized(t), SlotOf(Resized(t), id));
    }
    CallKeepsReachable(ShapeOf(t), PopCall(id in Contents(t)));
  }

  // Listing.

  /** The clients in slot order, as the iterator lists them. */
  function Listing(t: Table): (es: seq<Entry>)
    ensures |es| == Count(t)
  {
    if t == [] then []
    else Listing(Front(t)) + (if Last(t).Used? then [Entry(Last(t).id, Last(t).sock)] else [])
  }

  /** A listing is in slot order: each client comes after those in the slots before. */
  lemma {:induction false} ListingInSlotOrder(t: Table, i: nat)
    requires i < |t| && t[i].Used?
    ensures Count(t[..i]) < |Listing(t)| && Listing(t)[Count(t[..i])] == Entry(t[i].id, t[i].sock)
  {
    if i < |t| - 1 {
      assert Front(t)[..i] == t[..i];
      ListingInSlotOrder(Front(t), i);
    } else {
      assert Front(t) == t[..i];
    }
  }

  /** A sequence that names every client of a map once, with its own socket. */
  ghost predicate Lists(es: seq<Entry>, m: map<SizeT, Socket>) {
    && (forall i | 0 <= i < |es| :: es[i].id in m && m[es[i].id] == es[i].sock)
    && (forall i, j | 0 <= i < j < |es| :: es[i].id != es[j].id)
    && (forall id | id in m :: Listed(es, id))
  }

  ghost predicate Listed(es: seq<Entry>, id: SizeT) {
    exists i :: 0 <= i < |es| && es[i].id == id
  }

  /** An iterator names every client exactly once. */
  lemma {:induction false} ListingLists(t: Table)
    requires Distinct(t)
    ensures Lists(Listing(t), Contents(t))
  {
    if t != [] {
      ListingLists(Front(t));
      if Last(t).Used? {
        ExtendListing(Listing(Front(t)), Contents(Front(t)), Last(t).id, Last(t).sock);
      } else {
        assert Listing(t) == Listing(Front(t));
      }
    }
  }

  lemma {:induction false} ExtendListing(es: seq<Entry>, m: map<SizeT, Socket>, id: SizeT, sock: Socket)
    requires Lists(es, m) && id !in m
    ensures Lists(es + [Entry(id, sock)], m[id := sock])
  {
    var fs := es + [Entry(id, sock)];
    assert fs[|es|].id == id;
    forall k | k in m ensures Listed(fs, k) {
      assert Listed(es, k);
      var i :| 0 <= i < |es| && es[i].id == k;
      assert fs[i].id == k;
    }
  }
}
