/** The client map on the heap: an array of node objects, probed in place. Every
    method is proved to do exactly what the Tables module says of its slots. */
module ClientMaps {
  import opened Defs
  import opened Sizing
  import opened Tables

  // The width of a pointer: an array of n of them takes n times as many bytes.
  const POINTER_SIZE: nat := 8

  /** So many clients that a map of them is sure to have room to double. */
  predicate Manageable(n: nat) {
    (8 * n + 2 * MIN_CAPACITY) * POINTER_SIZE <= SIZE_MAX
  }

  class Node {
    var isAllocated: bool
    var clientId: SizeT
    var sock: Option<Socket>

    constructor ()
      ensures Shows(this, Free)
    {
      isAllocated, clientId, sock := false, SIZE_MAX, None;
    }
  }

  ghost predicate Shows(node: Node, s: Slot)
    reads node
  {
    match s
    case Free => !node.isAllocated && node.clientId == SIZE_MAX && node.sock == None
    case Used(id, sock) => node.isAllocated && node.clientId == id && node.sock == Some(sock)
  }

  /** An array of distinct node objects that shows the slots of t. */
  ghost predicate Mirrors(nodes: array<Node?>, t: Table)
    reads nodes, nodes[..]
  {
    && nodes.Length == |t|
    && (forall i | 0 <= i < |t| :: nodes[i] != null && Shows(nodes[i], t[i]))
    && (forall i, j | 0 <= i < j < |t| :: nodes[i] != nodes[j])
  }

  /** Put a free node in every place of a new array. */
  method FillWithFreeNodes(nodes: array<Node?>) returns (ghost objects: set<Node>)
    modifies nodes
    ensures Mirrors(nodes, Empty(nodes.Length))
    ensures fresh(objects) && forall i | 0 <= i < nodes.Length :: nodes[i] in objects
  {
    objects := {};
    for i := 0 to nodes.Length
      invariant fresh(objects)
      invariant forall k | 0 <= k < i :: nodes[k] != null && nodes[k] in objects && Shows(nodes[k], Free)
      invariant forall k, l | 0 <= k < l < i :: nodes[k] != nodes[l]
    {
      var node := new Node();
      nodes[i] := node;
      objects := objects + {node};
    }
    forall i | 0 <= i < nodes.Length ensures Empty(nodes.Length)[i] == Free { EmptySlot(nodes.Length, i); }
  }

  /** The probe for a free slot, which nothing but the room left bounds. */
  method FindFree(nodes: array<Node?>, start: SizeT, ghost t: Table) returns (hash: SizeT)
    requires Mirrors(nodes, t) && start < |t| <= SIZE_MAX
    requires Count(t) < |t|
    ensures hash < |t| && hash == Probe(t, start)
  {
    hash := start;
    ghost var p := Probe(t, start);
    while nodes[hash].isAllocated
      invariant hash < |t|
      invariant hash == p || Passes(|t|, start, hash, p)
      decreases if hash <= p then p - hash else p + |t| - hash
    {
      assert hash != p;
      hash := Next(hash, nodes.Length);
    }
    assert hash == p;
  }

  /** Fill the free node a probe has found. */
  method Fill(nodes: array<Node?>, hash: SizeT, id: SizeT, sock: Option<Socket>, ghost t: Table)
    requires Mirrors(nodes, t) && Count(t) < |t| && sock.Some?
    requires hash < |t| && hash == Probe(t, id % |t|)
    modifies nodes[hash]
    ensures Mirrors(nodes, Insert(t, id, sock.value))
  {
    var node := nodes[hash];
    node.isAllocated := true;
    node.clientId := id;
    node.sock := sock;
  }

  /** Put the client of one old node into the new nodes. */
  method Transfer(node: Node, nodes: array<Node?>, ghost objects: set<Node>, ghost s: Slot, ghost t: Table)
    requires Shows(node, s) && s.Used? && Mirrors(nodes, t) && Count(t) < |t| <= SIZE_MAX
    requires forall i | 0 <= i < nodes.Length :: nodes[i] in objects
    modifies objects
    ensures Mirrors(nodes, Insert(t, s.id, s.sock))
  {
    var hash := FindFree(nodes, node.clientId % nodes.Length, t);
    Fill(nodes, hash, node.clientId, node.sock, t);
  }

  /** Move every client of the old nodes into the new, empty ones. */
  method Reinsert(oldNodes: array<Node?>, nodes: array<Node?>, ghost objects: set<Node>, ghost t: Table)
    requires Mirrors(oldNodes, t) && Count(t) < nodes.Length <= SIZE_MAX
    requires Mirrors(nodes, Empty(nodes.Length))
    requires forall i | 0 <= i < nodes.Length :: nodes[i] in objects
    requires forall i | 0 <= i < oldNodes.Length :: oldNodes[i] !in objects
    modifies objects
    ensures Mirrors(nodes, Rehash(t, |t|, nodes.Length))
  {
    for i := 0 to oldNodes.Length
      invariant Mirrors(oldNodes, t)
      invariant Mirrors(nodes, Rehash(t, i, nodes.Length))
    {
      ReinsertOne(oldNodes, i, nodes, objects, t);
    }
  }

  method ReinsertOne(oldNodes: array<Node?>, i: nat, nodes: array<Node?>, ghost objects: set<Node>, ghost t: Table)
    requires Mirrors(oldNodes, t) && i < |t| && Count(t) < nodes.Length <= SIZE_MAX
    requires Mirrors(nodes, Rehash(t, i, nodes.Length))
    requires forall k | 0 <= k < nodes.Length :: nodes[k] in objects
    requires forall k | 0 <= k < oldNodes.Length :: oldNodes[k] !in objects
    modifies objects
    ensures Mirrors(nodes, Rehash(t, i + 1, nodes.Length))
  {
    RehashOneMore(t, i, nodes.Length);
    if oldNodes[i].isAllocated {
      Transfer(oldNodes[i], nodes, objects, t[i], Rehash(t, i, nodes.Length));
    }
  }

  /** A fresh array of nodes, with the old clients put back in slot order. */
  method Rebuild(oldNodes: array<Node?>, newCapacity: SizeT, ghost t: Table)
      returns (nodes: array<Node?>, ghost objects: set<Node>)
    requires Mirrors(oldNodes, t) && Count(t) < newCapacity
    ensures Mirrors(nodes, Rehash(t, |t|, newCapacity)) && fresh(nodes) && fresh(objects)
    ensures forall i | 0 <= i < nodes.Length :: nodes[i] in objects
  {
    nodes := new Node?[newCapacity];
    objects := FillWithFreeNodes(nodes);
    assert Mirrors(oldNodes, t);
    Reinsert(oldNodes, nodes, objects, t);
  }

  /** Empty the node of a client. */
  method Clear(nodes: array<Node?>, hash: SizeT, ghost t: Table)
    requires Mirrors(nodes, t) && hash < |t|
    modifies nodes[hash]
    ensures Mirrors(nodes, t[hash := Free])
  {
    var node := nodes[hash];
    node.isAllocated := false;
    node.clientId := SIZE_MAX;
    node.sock := None;
  }

  lemma {:induction false} ListingOneMore(t: Table, i: nat)
    requires i < |t|
    ensures Count(t[..i + 1]) == Count(t[..i]) + (if t[i].Used? then 1 else 0) <= Count(t)
    ensures Listing(t[..i + 1]) == Listing(t[..i]) + if t[i].Used? then [Entry(t[i].id, t[i].sock)] else []
  {
    assert Front(t[..i + 1]) == t[..i];
    CountPrefix(t, i + 1);
  }

  /** The allocated nodes in slot order: the array has exactly room for them. */
  method ListClients(nodes: array<Node?>, size: SizeT, ghost t: Table) returns (clients: array<Entry>)
    requires Mirrors(nodes, t) && size == Count(t)
    ensures fresh(clients) && clients[..] == Listing(t)
  {
    clients := new Entry[size];
    var iterIndex: nat := 0;
    assert t[..0] == [];
    for i := 0 to nodes.Length
      invariant Mirrors(nodes, t) && iterIndex == Count(t[..i])
      invariant iterIndex <= size && clients[..iterIndex] == Listing(t[..i])
    {
      ListingOneMore(t, i);
      var node := nodes[i];
      if node.isAllocated {
        clients[iterIndex] := Entry(node.clientId, node.sock.value);
        iterIndex := iterIndex + 1;
      }
    }
    assert t[..nodes.Length] == t;
  }

  lemma {:induction false} LeastIsSound(t: Table)
    requires t == Empty(|t|) && |t| == MIN_CAPACITY
    ensures Sound(t)
  {
    LeastCapacity();
  }

  class ClientMap {
    var size: SizeT
    var capacity: SizeT
    var nodes: array<Node?>
    ghost var Table: Table
    ghost var Repr: set<object>
    // How many nodes the resizes have allocated so far.
    ghost var NodesFromResizes: nat

    ghost predicate Valid()
      reads this, Repr
      ensures Valid() ==> this in Repr
    {
      && this in Repr && nodes in Repr
      && (forall i | 0 <= i < nodes.Length :: nodes[i] in Repr)
      && Mirrors(nodes, Table)
      && capacity == |Table| && size == Count(Table)
      && Sound(Table)
    }

    ghost function Contents(): map<SizeT, Socket>
      reads this
    {
      Tables.Contents(Table)
    }

    /** A doubled array of node pointers must have a size_t size in bytes. */
    ghost predicate MayResize()
      reads this
    {
      TargetCapacity(ShapeOf(Table)) * POINTER_SIZE <= SIZE_MAX
    }

    lemma {:induction false} FewMayResize(n: nat)
      requires Valid() && size <= n && Manageable(n)
      ensures MayResize()
    {
      TargetIsLinear(ShapeOf(Table), n);
    }

    constructor ()
      ensures Valid() && fresh(Repr)
      ensures Table == Empty(MIN_CAPACITY) && NodesFromResizes == 0
    {
      size, capacity := 0, MIN_CAPACITY;
      nodes := new Node?[MIN_CAPACITY];
      new;
      ghost var objects := FillWithFreeNodes(nodes);
      Table := Empty(nodes.Length);
      Repr := {this, nodes} + objects;
      NodesFromResizes := 0;
      LeastIsSound(Table);
    }

    method Hash(key: SizeT) returns (hash: SizeT)
      requires capacity > 0
      ensures hash == key % capacity
    {
      hash := key % capacity;
    }

    /** Rehash everything into a fresh table of nodes. */
    method Resize(newCapacity: SizeT)
      requires Valid() && size < newCapacity && Reachable(Shape(size, newCapacity))
      modifies this
      ensures Valid() && fresh(Repr - old(Repr))
      ensures Table == Rehash(old(Table), |old(Table)|, newCapacity)
      ensures NodesFromResizes == old(NodesFromResizes) + newCapacity
    {
      ghost var t := Rehash(Table, |Table|, newCapacity);
      RehashIsSound(Table, newCapacity);
      ghost var objects;
      nodes, objects := Rebuild(nodes, newCapacity, Table);
      capacity := newCapacity;
      NodesFromResizes := NodesFromResizes + newCapacity;
      Table := t;
      Repr := {this, nodes} + objects;
    }

    method TryResize() returns (change: int)
      requires Valid() && MayResize()
      modifies this
      ensures Valid() && fresh(Repr - old(Repr))
      ensures Table == Resized(old(Table))
      ensures NodesFromResizes == old(NodesFromResizes) + if |Table| == |old(Table)| then 0 else |Table|
      ensures change == if |Table| > |old(Table)| then 1 else if |Table| < |old(Table)| then -1 else 0
    {
      RoomAfterResize(ShapeOf(Table));
      CallKeepsReachable(ShapeOf(Table), PopMiss);
      var quadrupled: SizeT := size * 4;
      if size >= capacity {
        Resize(capacity * 2);
        return 1;
      } else if capacity > MIN_CAPACITY && quadrupled <= capacity {
        Resize(capacity / 2);
        return -1;
      } else {
        return 0;
      }
    }

    /** Scan the whole cycle for a client, free slots or not. */
    method Find(id: SizeT) returns (found: bool, hash: SizeT)
      requires Valid()
      ensures found <==> id in Contents()
      ensures hash < |Table| && (found ==> Holds(Table, hash, id))
    {
      CapacityIsAtLeastMinimum(ShapeOf(Table));
      hash := Hash(id);
      var original := hash;
      while true
        invariant hash < capacity
        invariant forall i | 0 <= i < |Table| && Passes(|Table|, original, i, hash) :: !Holds(Table, i, id)
        decreases if hash < original then original - hash else capacity - hash + original
      {
        if nodes[hash].isAllocated && nodes[hash].clientId == id {
          SlotIsContents(Table, hash);
          return true, hash;
        }
        hash := Next(hash, capacity);
        if hash == original { break; }
      }
      if id in Contents() {
        var i := ContentsHaveSlot(Table, id);
        assert false;
      }
      return false, hash;
    }

    method Contains(id: SizeT) returns (found: bool)
      requires Valid()
      ensures found <==> id in Contents()
    {
      var hash;
      found, hash := Find(id);
    }

    method Get(id: SizeT) returns (sock: Option<Socket>)
      requires Valid()
      ensures sock == Lookup(Contents(), id)
    {
      var found, hash := Find(id);
      if found {
        SlotIsContents(Table, hash);
        return nodes[hash].sock;
      }
      return None;
    }

    method Set(id: SizeT, sock: Socket) returns (inserted: bool)
      requires Valid() && MayResize()
      modifies Repr
      ensures Valid() && fresh(Repr - old(Repr))
      ensures inserted <==> id !in old(Contents())
      ensures Table == Tables.Set(old(Table), id, sock)
      ensures NodesFromResizes == old(NodesFromResizes)
                                  + NodesAllocated(ShapeOf(old(Table)), SetCall(id in old(Contents())))
    {
      var present := Contains(id);
      if present { return false; }
      Add(id, sock);
      return true;
    }

    /** Resize if need be, then put a new client in its place. */
    method Add(id: SizeT, sock: Socket)
      requires Valid() && MayResize() && id !in Contents()
      modifies Repr
      ensures Valid() && fresh(Repr - old(Repr))
      ensures Table == Tables.Set(old(Table), id, sock)
      ensures NodesFromResizes == old(NodesFromResizes) + NodesAllocated(ShapeOf(old(Table)), SetNew)
    {
      SetAgrees(Table, id, sock);
      var _ := TryResize();
      CapacityIsAtLeastMinimum(ShapeOf(Table));
      Place(id, sock);
    }

    /** Put a client in the first free node from its hash. */
    method Place(id: SizeT, sock: Socket)
      requires Valid() && 0 < |Table| && Count(Table) < |Table| && Sound(Insert(Table, id, sock))
      modifies Repr
      ensures Valid() && Repr == old(Repr)
      ensures Table == Insert(old(Table), id, sock) && NodesFromResizes == old(NodesFromResizes)
    {
      var hash := Hash(id);
      hash := FindFree(nodes, hash, Table);
      Fill(nodes, hash, id, Some(sock), Table);
      Table := Insert(Table, id, sock);
      size := size + 1;
    }

    method Pop(id: SizeT) returns (sock: Option<Socket>)
      requires Valid() && MayResize()
      modifies Repr
      ensures Valid() && fresh(Repr - old(Repr))
      ensures sock == Lookup(old(Contents()), id)
      ensures Table == Tables.Pop(old(Table), id)
      ensures NodesFromResizes == old(NodesFromResizes)
                                  + NodesAllocated(ShapeOf(old(Table)), PopCall(id in old(Contents())))
    {
      PopAgrees(Table, id);
      ResizedKeepsContents(Table);
      var _ := TryResize();
      var found, hash := Find(id);
      if !found { return None; }
      SlotIsContents(Table, hash);
      SlotOfIs(Table, id, hash);
      sock := nodes[hash].sock;
      Vacate(hash);
    }

    /** Empty one client's node in place. */
    method Vacate(hash: SizeT)
      requires Valid() && hash < |Table| && Table[hash].Used? && Sound(Table[hash := Free])
      modifies Repr
      ensures Valid() && Repr == old(Repr)
      ensures Table == old(Table)[hash := Free] && NodesFromResizes == old(NodesFromResizes)
    {
      FreeRemoves(Table, hash);
      Clear(nodes, hash, Table);
      Table := Table[hash := Free];
      size := size - 1;
    }

    method Iter() returns (clients: array<Entry>)
      requires Valid()
      ensures fresh(clients) && clients[..] == Listing(Table)
    {
      clients := ListClients(nodes, size, Table);
    }
  }
}
