/** Whole runs of client map calls against an ideal finite map. */
module MapRuns {
  import opened Defs
  import Sizing
  import Tables
  import opened ClientMaps

  datatype Op =
    | SetOp(id: SizeT, sock: Socket)
    | PopOp(id: SizeT)
    | GetOp(id: SizeT)
    | ContainsOp(id: SizeT)

  datatype Reply = Flag(yes: bool) | Found(sock: Option<Socket>)

  function IdealReply(m: map<SizeT, Socket>, op: Op): Reply {
    match op
    case SetOp(id, _) => Flag(id !in m)
    case PopOp(id) => Found(Tables.Lookup(m, id))
    case GetOp(id) => Found(Tables.Lookup(m, id))
    case ContainsOp(id) => Flag(id in m)
  }

  function IdealAfter(m: map<SizeT, Socket>, op: Op): map<SizeT, Socket> {
    match op
    case SetOp(id, sock) => if id in m then m else m[id := sock]
    case PopOp(id) => m - {id}
    case GetOp(_) => m
    case ContainsOp(_) => m
  }

  /** The ideal map before op n. */
  function IdealBefore(ops: seq<Op>, n: nat): map<SizeT, Socket>
    requires n <= |ops|
  {
    if n == 0 then map[] else IdealAfter(IdealBefore(ops, n - 1), ops[n - 1])
  }

  predicate Changes(op: Op) {
    op.SetOp? || op.PopOp?
  }

  /** How many of the first n ops are set or pop calls. */
  function ChangeCount(ops: seq<Op>, n: nat): (k: nat)
    requires n <= |ops|
    ensures k <= n
  {
    if n == 0 then 0 else ChangeCount(ops, n - 1) + (if Changes(ops[n - 1]) then 1 else 0)
  }

  ghost function CallOf(m: map<SizeT, Socket>, op: Op): Sizing.Call
    requires Changes(op)
  {
    if op.SetOp? then Tables.SetCall(op.id in m) else Tables.PopCall(op.id in m)
  }

  /** The sizing calls so far, with the shapes between them and what their
      resizes cost. */
  datatype Ledger = Ledger(shapes: seq<Sizing.Shape>, calls: seq<Sizing.Call>)

  ghost predicate Balanced(l: Ledger, shape: Sizing.Shape, nodes: nat) {
    && Sizing.IsTrace(l.shapes, l.calls)
    && l.shapes[|l.calls|] == shape
    && Sizing.Allocated(l.shapes, l.calls, |l.calls|) == nodes
  }

  lemma {:induction false} AllocatedPrefix(l: Ledger, s: Sizing.Shape, c: Sizing.Call, n: nat)
    requires n <= |l.calls| <= |l.shapes|
    ensures Sizing.Allocated(l.shapes + [s], l.calls + [c], n) == Sizing.Allocated(l.shapes, l.calls, n)
  {
    if n > 0 { AllocatedPrefix(l, s, c, n - 1); }
  }

  lemma {:induction false} Enter(l: Ledger, shape: Sizing.Shape, nodes: nat, c: Sizing.Call) returns (l': Ledger)
    requires Balanced(l, shape, nodes) && Sizing.Possible(shape, c)
    ensures Balanced(l', Sizing.After(shape, c), nodes + Sizing.NodesAllocated(shape, c))
    ensures |l'.calls| == |l.calls| + 1
  {
    l' := Ledger(l.shapes + [Sizing.After(shape, c)], l.calls + [c]);
    AllocatedPrefix(l, Sizing.After(shape, c), c, |l.calls|);
  }

  /** One call on the heap map answers as the ideal map does. */
  method Perform(m: ClientMap, op: Op) returns (reply: Reply)
    requires m.Valid() && m.MayResize()
    modifies m.Repr
    ensures m.Valid() && fresh(m.Repr - old(m.Repr))
    ensures reply == IdealReply(old(m.Contents()), op)
    ensures m.Contents() == IdealAfter(old(m.Contents()), op)
    ensures !Changes(op) ==> m.Table == old(m.Table) && m.NodesFromResizes == old(m.NodesFromResizes)
    ensures Changes(op) ==>
              var shape, c := Tables.ShapeOf(old(m.Table)), CallOf(old(m.Contents()), op);
              && Sizing.Possible(shape, c)
              && Tables.ShapeOf(m.Table) == Sizing.After(shape, c)
              && m.NodesFromResizes == old(m.NodesFromResizes) + Sizing.NodesAllocated(shape, c)
  {
    match op
    case SetOp(id, sock) =>
      Tables.SetAgrees(m.Table, id, sock);
      var inserted := m.Set(id, sock);
      reply := Flag(inserted);
    case PopOp(id) =>
      Tables.PopAgrees(m.Table, id);
      var sock := m.Pop(id);
      reply := Found(sock);
    case GetOp(id) =>
      var sock := m.Get(id);
      reply := Found(sock);
    case ContainsOp(id) =>
      var found := m.Contains(id);
      reply := Flag(found);
  }

  /** The same call, entered in the ledger. */
  method PerformAndEnter(m: ClientMap, op: Op, ghost l: Ledger) returns (reply: Reply, ghost l': Ledger)
    requires m.Valid() && m.MayResize()
    requires Balanced(l, Tables.ShapeOf(m.Table), m.NodesFromResizes)
    modifies m.Repr
    ensures m.Valid() && fresh(m.Repr - old(m.Repr))
    ensures reply == IdealReply(old(m.Contents()), op)
    ensures m.Contents() == IdealAfter(old(m.Contents()), op)
    ensures Balanced(l', Tables.ShapeOf(m.Table), m.NodesFromResizes)
    ensures |l'.calls| == |l.calls| + if Changes(op) then 1 else 0
    ensures m.size <= old(m.size) + 1
  {
    ghost var shape, made, ideal := Tables.ShapeOf(m.Table), m.NodesFromResizes, m.Contents();
    reply := Perform(m, op);
    l' := l;
    if Changes(op) {
      l' := Enter(l, shape, made, CallOf(ideal, op));
    }
  }

  /** The reply to op i is the one the ideal map gives after the ops before it. */
  ghost predicate IsIdeal(ops: seq<Op>, i: nat, reply: Reply)
    requires i < |ops|
  {
    reply == IdealReply(IdealBefore(ops, i), ops[i])
  }

  /** Every reply so far is the ideal map's. */
  ghost predicate Answered(ops: seq<Op>, replies: seq<Reply>) {
    |replies| <= |ops| && forall i | 0 <= i < |replies| :: IsIdeal(ops, i, replies[i])
  }

  lemma {:induction false} AnsweredOneMore(ops: seq<Op>, replies: seq<Reply>, reply: Reply)
    requires Answered(ops, replies) && |replies| < |ops|
    requires IsIdeal(ops, |replies|, reply)
    ensures Answered(ops, replies + [reply])
  {
    var rs := replies + [reply];
    forall i | 0 <= i < |rs| ensures IsIdeal(ops, i, rs[i]) {
      if i < |replies| { assert rs[i] == replies[i]; }
    }
  }

  /** Where a run stands before op n: the heap map has the ideal map's clients, and
      the ledger is that of the calls so far. */
  ghost predicate Stands(m: ClientMap, ops: seq<Op>, n: nat, l: Ledger)
    requires n <= |ops|
    reads m
  {
    && m.Contents() == IdealBefore(ops, n)
    && Balanced(l, Tables.ShapeOf(m.Table), m.NodesFromResizes)
    && |l.calls| == ChangeCount(ops, n) && m.size <= n
  }

  /** The next op of a run. */
  method Step(m: ClientMap, ops: seq<Op>, replies: seq<Reply>, ghost l: Ledger)
      returns (replies': seq<Reply>, ghost l': Ledger)
    requires m.Valid() && |replies| < |ops| && Manageable(|ops|)
    requires Answered(ops, replies) && Stands(m, ops, |replies|, l)
    modifies m.Repr
    ensures m.Valid() && fresh(m.Repr - old(m.Repr)) && |replies'| == |replies| + 1
    ensures Answered(ops, replies') && Stands(m, ops, |replies'|, l')
  {
    m.FewMayResize(|ops|);
    var reply;
    reply, l' := PerformAndEnter(m, ops[|replies|], l);
    AnsweredOneMore(ops, replies, reply);
    replies' := replies + [reply];
  }

  lemma {:induction false} RunEnds(m: ClientMap, ops: seq<Op>, l: Ledger)
    requires m.Valid() && Stands(m, ops, |ops|, l)
    ensures Balanced(l, Sizing.Shape(|IdealBefore(ops, |ops|)|, m.capacity), m.NodesFromResizes)
    ensures m.NodesFromResizes <= 4 * |l.calls|
    ensures Sizing.Reachable(Sizing.Shape(|IdealBefore(ops, |ops|)|, m.capacity))
  {
    Tables.CountIsSize(m.Table);
    Sizing.AmortisedAllocation(l.shapes, l.calls, |l.calls|);
  }

  /** From an empty map, every reply of every run is the ideal map's reply, with
      however many resizes in between; the nodes those resizes allocate stay
      within four per set or pop; and the space stays linear in the clients. */
  method Run(ops: seq<Op>)
      returns (replies: seq<Reply>, capacity: nat, ghost nodes: nat, ghost l: Ledger)
    requires Manageable(|ops|)
    ensures |replies| == |ops| && Answered(ops, replies)
    ensures Balanced(l, Sizing.Shape(|IdealBefore(ops, |ops|)|, capacity), nodes)
    ensures |l.calls| == ChangeCount(ops, |ops|) && nodes <= 4 * |l.calls|
    ensures Sizing.Reachable(Sizing.Shape(|IdealBefore(ops, |ops|)|, capacity))
  {
    var m := new ClientMap();
    replies := [];
    l := Ledger([Sizing.EMPTY], []);
    for n := 0 to |ops|
      invariant m.Valid() && fresh(m.Repr) && Stands(m, ops, n, l)
      invariant Answered(ops, replies) && |replies| == n
    {
      replies, l := Step(m, ops, replies, l);
    }
    capacity := m.capacity;
    nodes := m.NodesFromResizes;
    RunEnds(m, ops, l);
  }
}
