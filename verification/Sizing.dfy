/** The size and capacity of a client map, apart from what it stores. */
module Sizing {

  const MIN_CAPACITY: nat := 16

  datatype Shape = Shape(size: nat, capacity: nat)

  /** The four ways a set or pop call can go. */
  datatype Call = SetNew | SetPresent | PopHit | PopMiss

  const EMPTY := Shape(0, MIN_CAPACITY)

  function TargetCapacity(s: Shape): nat {
    if s.size >= s.capacity then s.capacity * 2
    else if s.capacity > MIN_CAPACITY && s.size * 4 <= s.capacity then s.capacity / 2
    else s.capacity
  }

  /** A set of a present id returns before it looks at the capacity; every other
      set or pop resizes first, whether or not it then changes the size. */
  predicate Resizes(s: Shape, c: Call) {
    !c.SetPresent? && TargetCapacity(s) != s.capacity
  }

  predicate Possible(s: Shape, c: Call) {
    (c.PopHit? || c.SetPresent?) ==> s.size > 0
  }

  function After(s: Shape, c: Call): Shape
    requires Possible(s, c)
  {
    match c
    case SetPresent => s
    case SetNew => Shape(s.size + 1, TargetCapacity(s))
    case PopHit => Shape(s.size - 1, TargetCapacity(s))
    case PopMiss => Shape(s.size, TargetCapacity(s))
  }

  /** Nodes allocated by the resize of one call. */
  function NodesAllocated(s: Shape, c: Call): nat {
    if Resizes(s, c) then TargetCapacity(s) else 0
  }

  /** shapes[i] is the map's shape before calls[i], starting from an empty map. */
  ghost predicate IsTrace(shapes: seq<Shape>, calls: seq<Call>) {
    && |shapes| == |calls| + 1
    && shapes[0] == EMPTY
    && forall i {:trigger calls[i]} | 0 <= i < |calls| ::
         Possible(shapes[i], calls[i]) && shapes[i + 1] == After(shapes[i], calls[i])
  }

  /** Nodes allocated by the resizes of the first n calls. */
  ghost function Allocated(shapes: seq<Shape>, calls: seq<Call>, n: nat): nat
    requires n <= |calls| <= |shapes|
  {
    if n == 0 then 0
    else Allocated(shapes, calls, n - 1) + NodesAllocated(shapes[n - 1], calls[n - 1])
  }

  function Pow2(k: nat): (p: nat)
    ensures p >= 1
  {
    if k == 0 then 1 else 2 * Pow2(k - 1)
  }

  /** A doubled-up minimum capacity. */
  ghost predicate IsCapacity(n: nat) {
    exists k: nat :: n == MIN_CAPACITY * Pow2(k)
  }

  /** Room for every client, and space linear in their number. */
  predicate Roomy(s: Shape) {
    s.size <= s.capacity && (s.capacity > MIN_CAPACITY ==> s.capacity <= 4 * s.size)
  }

  /** What every reachable shape satisfies. */
  ghost predicate Reachable(s: Shape) {
    IsCapacity(s.capacity) && Roomy(s)
  }

  lemma {:induction false} CapacityIsAtLeastMinimum(s: Shape)
    requires Reachable(s)
    ensures s.capacity >= MIN_CAPACITY && s.capacity % 4 == 0
  {
  }

  lemma {:induction false} HalfCapacity(n: nat)
    requires IsCapacity(n) && n > MIN_CAPACITY
    ensures IsCapacity(n / 2) && n % 32 == 0
  {
    var k: nat :| n == MIN_CAPACITY * Pow2(k);
    var p := Pow2(k - 1);
    assert Pow2(k) == 2 * p;
    assert n == 32 * p && n / 2 == 16 * p;
  }

  lemma {:induction false} DoubleCapacity(n: nat)
    requires IsCapacity(n)
    ensures IsCapacity(2 * n)
  {
    var k: nat :| n == MIN_CAPACITY * Pow2(k);
    assert Pow2(k + 1) == 2 * Pow2(k);
    assert 2 * n == MIN_CAPACITY * Pow2(k + 1);
  }

  lemma {:induction false} TargetIsCapacity(s: Shape)
    requires IsCapacity(s.capacity)
    ensures IsCapacity(TargetCapacity(s))
  {
    if s.size >= s.capacity {
      DoubleCapacity(s.capacity);
    } else if s.capacity > MIN_CAPACITY {
      HalfCapacity(s.capacity);
    }
  }

  lemma {:induction false} CallKeepsRoomy(s: Shape, c: Call, quarter: nat)
    requires Roomy(s) && Possible(s, c) && s.capacity == 4 * quarter >= MIN_CAPACITY
    ensures Roomy(After(s, c))
  {
    assert s.capacity / 2 == 2 * quarter;
  }

  lemma {:induction false} CallKeepsReachable(s: Shape, c: Call)
    requires Reachable(s) && Possible(s, c)
    ensures Reachable(After(s, c))
  {
    CapacityIsAtLeastMinimum(s);
    TargetIsCapacity(s);
    CallKeepsRoomy(s, c, s.capacity / 4);
  }

  lemma {:induction false} LeastCapacity()
    ensures IsCapacity(MIN_CAPACITY)
  {
    assert MIN_CAPACITY == MIN_CAPACITY * Pow2(0);
  }

  /** Every shape in every run of set and pop calls is reachable. */
  lemma {:induction false} TracesAreReachable(shapes: seq<Shape>, calls: seq<Call>, n: nat)
    requires IsTrace(shapes, calls) && n <= |calls|
    ensures Reachable(shapes[n])
  {
    if n == 0 {
      LeastCapacity();
    } else {
      TracesAreReachable(shapes, calls, n - 1);
      CallKeepsReachable(shapes[n - 1], calls[n - 1]);
    }
  }

  /** A resize fires exactly at full, or exactly at a quarter above the minimum,
      and always leaves the table exactly half full for the call's own change. */
  lemma {:induction false} ResizeTriggers(s: Shape, c: Call)
    requires Reachable(s)
    ensures Resizes(s, c) <==>
            !c.SetPresent? && (s.size == s.capacity || (s.capacity > MIN_CAPACITY && 4 * s.size == s.capacity))
    ensures Resizes(s, c) ==> 2 * s.size == TargetCapacity(s)
    ensures Resizes(s, c) ==> TargetCapacity(s) == if s.size == s.capacity then 2 * s.capacity else s.capacity / 2
  {
    if s.capacity > MIN_CAPACITY { HalfCapacity(s.capacity); }
  }

  /** There is always a free slot once a call has resized. */
  lemma {:induction false} RoomAfterResize(s: Shape)
    requires Reachable(s)
    ensures s.size < TargetCapacity(s)
  {
    if s.capacity > MIN_CAPACITY { HalfCapacity(s.capacity); }
  }

  /** A map of up to n clients can always double within size_t. */
  lemma {:induction false} TargetIsLinear(s: Shape, n: nat)
    requires Reachable(s) && s.size <= n
    ensures TargetCapacity(s) <= 8 * n + 2 * MIN_CAPACITY
  {
  }

  // Amortised cost.

  /** The potential: what earlier calls have paid towards the next resize. */
  function Potential(s: Shape): nat {
    if 2 * s.size >= s.capacity then 2 * (2 * s.size - s.capacity)
    else if s.capacity == MIN_CAPACITY then 0
    else s.capacity - 2 * s.size
  }

  lemma {:induction false} CallIsPaidFor(s: Shape, c: Call)
    requires Reachable(s) && Possible(s, c)
    ensures NodesAllocated(s, c) + Potential(After(s, c)) <= Potential(s) + 4
  {
    ResizeTriggers(s, c);
  }

  /** The resizes of any n calls from an empty map allocate at most 4n nodes, and
      the unspent potential is still in hand. */
  lemma {:induction false} AmortisedAllocation(shapes: seq<Shape>, calls: seq<Call>, n: nat)
    requires IsTrace(shapes, calls) && n <= |calls|
    ensures Allocated(shapes, calls, n) + Potential(shapes[n]) <= 4 * n
  {
    if n > 0 {
      AmortisedAllocation(shapes, calls, n - 1);
      TracesAreReachable(shapes, calls, n - 1);
      CallIsPaidFor(shapes[n - 1], calls[n - 1]);
    }
  }

  /** While a map only grows, its capacity is the least one that holds it. */
  ghost predicate GrownTo(s: Shape, k: nat) {
    && s.capacity == MIN_CAPACITY * Pow2(k)
    && s.size <= s.capacity
    && (k > 0 ==> 2 * s.size > s.capacity)
  }

  /** One more client: the capacity doubles if the map is full. */
  lemma {:induction false} GrowthStep(s: Shape, k: nat) returns (k': nat)
    requires GrownTo(s, k)
    ensures GrownTo(After(s, SetNew), k') && After(s, SetNew).size == s.size + 1
    ensures NodesAllocated(s, SetNew) == 2 * After(s, SetNew).capacity - 2 * s.capacity
  {
    if s.size == s.capacity {
      k' := k + 1;
      assert Pow2(k + 1) == 2 * Pow2(k);
      assert After(s, SetNew) == Shape(s.size + 1, 2 * s.capacity);
    } else {
      k' := k;
      assert k == 0 ==> s.capacity == MIN_CAPACITY;
      assert After(s, SetNew) == Shape(s.size + 1, s.capacity);
    }
  }

  lemma {:induction false} GrowthAllocates(shapes: seq<Shape>, calls: seq<Call>, n: nat) returns (k: nat)
    requires IsTrace(shapes, calls) && n <= |calls|
    requires forall i | 0 <= i < |calls| :: calls[i].SetNew?
    ensures shapes[n].size == n && GrownTo(shapes[n], k)
    ensures Allocated(shapes, calls, n) == 2 * shapes[n].capacity - 2 * MIN_CAPACITY
  {
    k := 0;
    if n > 0 {
      k := GrowthAllocates(shapes, calls, n - 1);
      assert calls[n - 1] == SetNew;
      k := GrowthStep(shapes[n - 1], k);
    }
  }

  lemma {:induction false} Pow2IsMonotone(i: nat, j: nat)
    requires i < j
    ensures 2 * Pow2(i) <= Pow2(j)
  {
    if i < j - 1 { Pow2IsMonotone(i, j - 1); }
  }

  /** The 4 cannot be lowered: 16*2^k + 1 inserts come within 36 nodes of it. */
  lemma {:induction false} AmortisedBoundIsTight(shapes: seq<Shape>, calls: seq<Call>, k: nat)
    requires IsTrace(shapes, calls) && |calls| == MIN_CAPACITY * Pow2(k) + 1
    requires forall i | 0 <= i < |calls| :: calls[i].SetNew?
    ensures Allocated(shapes, calls, |calls|) == 4 * |calls| - 36
  {
    var n := |calls|;
    var j := GrowthAllocates(shapes, calls, n);
    if j <= k {
      if j < k { Pow2IsMonotone(j, k); }
      assert false;
    }
    if j > k + 1 {
      Pow2IsMonotone(k + 1, j);
      assert Pow2(k + 1) == 2 * Pow2(k);
      assert false;
    }
  }

  // Hysteresis.

  /** While no call in [i, j) resizes, the capacity stands still and the size
      moves by at most one a call. */
  lemma {:induction false} QuietStretch(shapes: seq<Shape>, calls: seq<Call>, i: nat, j: nat)
    requires IsTrace(shapes, calls) && i <= j <= |calls|
    requires forall m | i <= m < j :: !Resizes(shapes[m], calls[m])
    ensures shapes[j].capacity == shapes[i].capacity
    ensures -(j - i) <= shapes[j].size - shapes[i].size <= j - i
  {
    if i < j { QuietStretch(shapes, calls, i, j - 1); }
  }

  /** From half full, give or take one, it is a quarter of the capacity to either
      trigger. */
  lemma {:induction false} QuarterAway(capacity: nat, size: nat, later: nat, calls: nat)
    requires capacity <= 2 * size + 2 <= capacity + 4 && later <= size + calls && size <= later + calls
    requires later == capacity || 4 * later == capacity
    ensures 4 * (calls + 1) >= capacity
  {
  }

  /** Hysteresis: if call i resizes to capacity C and a later call j resizes too,
      at least C/4 calls lie between them, counting call i. */
  lemma {:induction false} ResizesAreSpaced(shapes: seq<Shape>, calls: seq<Call>, i: nat, j: nat)
    requires IsTrace(shapes, calls) && i < j < |calls|
    requires Resizes(shapes[i], calls[i]) && Resizes(shapes[j], calls[j])
    ensures 4 * (j - i) >= shapes[i + 1].capacity
    decreases j
  {
    if m :| i < m < j && Resizes(shapes[m], calls[m]) {
      ResizesAreSpaced(shapes, calls, i, m);
    } else {
      TracesAreReachable(shapes, calls, i);
      TracesAreReachable(shapes, calls, j);
      ResizeTriggers(shapes[i], calls[i]);
      ResizeTriggers(shapes[j], calls[j]);
      QuietStretch(shapes, calls, i + 1, j);
      QuarterAway(shapes[i + 1].capacity, shapes[i + 1].size, shapes[j].size, j - i - 1);
    }
  }
}
