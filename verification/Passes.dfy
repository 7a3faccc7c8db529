/** The order in which the serve thread reads: between two accepts it takes one
    listing of the clients and reads one header from each client of it, in turn. */
module Passes {
  import opened Defs
  import opened Wire
  import opened Crypto
  import opened Links
  import opened ServerSpec
  import opened ServerSafety
  import opened ServerSteps
  import opened Endings
  import Tables

  predicate IsAccept(a: Action) {
    a.NoConnection? || a.AcceptFails? || a.AcceptBroken? || a.AcceptClient?
  }

  /** The descriptor whose header the action reads, if it reads one. */
  function HeaderRead(s: State, a: Action): seq<nat> {
    if a.ReadHeader? && InScan(s.phase) then [Current(s.phase).sock.fd] else []
  }

  /** The descriptors whose headers are read from action i up to action j, in order. */
  function HeaderReads(states: seq<State>, actions: seq<Action>, i: nat, j: nat): seq<nat>
    requires i <= j <= |actions| < |states|
    decreases j
  {
    if i == j then []
    else HeaderReads(states, actions, i, j - 1) + HeaderRead(states[j - 1], actions[j - 1])
  }

  lemma {:induction false} ReadsOneMore(states: seq<State>, actions: seq<Action>, i: nat, m: nat, fds: seq<nat>)
    requires i <= m < |actions| < |states| && fds == HeaderRead(states[m], actions[m])
    ensures HeaderReads(states, actions, i, m + 1) == HeaderReads(states, actions, i, m) + fds
  {
  }

  function FdsOf(order: seq<Entry>): (fds: seq<nat>)
    ensures |fds| == |order|
  {
    seq(|order|, i requires 0 <= i < |order| => order[i].sock.fd)
  }

  lemma {:induction false} FdsOneMore(order: seq<Entry>, n: nat)
    requires n < |order|
    ensures FdsOf(order[..n + 1]) == FdsOf(order[..n]) + [order[n].sock.fd]
  {
  }

  // Within a pass.

  /** Where the serve thread may be in a pass over this listing, once it has read
      these headers; it may also have stopped for good. */
  ghost predicate PassAt(p: Phase, order: seq<Entry>, fds: seq<nat>) {
    match p
    case Scanning(snapshot, at) => snapshot == order && at < |order| && fds == FdsOf(order[..at])
    case Awaiting(snapshot, at, _) => snapshot == order && at < |order| && fds == FdsOf(order[..at + 1])
    case Accepting => fds == FdsOf(order)
    case Returned => true
    case Crashed => true
    case _ => false
  }

  lemma {:induction false} HeaderGoesOn(s: State, r: ReadResult, order: seq<Entry>, fds: seq<nat>)
    requires s.phase.Scanning? && InScan(s.phase) && |s.sizeBuffer| == LENSIZE && PassAt(s.phase, order, fds)
    requires r.Data? ==> r.n <= LENSIZE && r.n <= |LinkOf(s, Current(s.phase).sock.fd).inbox|
    ensures PassAt(AfterHeader(s, r).phase, order, fds + [Current(s.phase).sock.fd])
  {
    FdsOneMore(order, s.phase.at);
    if s.phase.at + 1 == |order| { assert order[..s.phase.at + 1] == order; }
  }

  lemma {:induction false} BodyGoesOn(c: Cipher, s: State, r: ReadResult, order: seq<Entry>, fds: seq<nat>)
    requires s.phase.Awaiting? && InScan(s.phase) && PassAt(s.phase, order, fds)
    requires r.Data? ==> r.n <= |LinkOf(s, Current(s.phase).sock.fd).inbox|
    ensures PassAt(AfterBody(c, s, r).phase, order, fds)
  {
    if s.phase.at + 1 == |order| { assert order[..s.phase.at + 1] == order; }
  }

  lemma {:induction false} PassGoesOn(c: Cipher, s: State, a: Action, s': State, order: seq<Entry>, fds: seq<nat>)
    requires Switched(s) && Enabled(c, s, a) && s' == Next(c, s, a) && !IsAccept(a) && PassAt(s.phase, order, fds)
    ensures PassAt(s'.phase, order, fds + HeaderRead(s, a))
  {
    assert fds + [] == fds;
    match a
    case ReadHeader(r) => HeaderGoesOn(s, r, order, fds);
    case ReadBody(r) => BodyGoesOn(c, s, r, order, fds);
    case SendAll(entries, _, _, _) => SendsKeepPhase(c, s, a, |entries|);
    case _ =>
  }

  lemma {:induction false} PassStarts(c: Cipher, s: State, order: seq<Entry>, s': State)
    requires Enabled(c, s, Snapshot(order)) && s' == Next(c, s, Snapshot(order))
    ensures PassAt(s'.phase, order, [])
  {
  }

  lemma {:induction false} PassHolds(c: Cipher, states: seq<State>, actions: seq<Action>, n: nat, m: nat,
                                     order: seq<Entry>)
    requires IsRun(c, states, actions) && n < m <= |actions| && actions[n] == Snapshot(order)
    requires forall k | n < k < m :: !IsAccept(actions[k])
    ensures PassAt(states[m].phase, order, HeaderReads(states, actions, n + 1, m))
    decreases m
  {
    if m == n + 1 {
      PassStarts(c, states[n], order, states[m]);
    } else {
      var k := m - 1;
      PassHolds(c, states, actions, n, k, order);
      RunIsSwitched(c, states, actions, k);
      PassGoesOn(c, states[k], actions[k], states[m], order, HeaderReads(states, actions, n + 1, k));
      ReadsOneMore(states, actions, n + 1, k, HeaderRead(states[k], actions[k]));
    }
  }

  /** In every run, by the time the serve thread is back at the accept after it took
      a listing, it has read exactly one header from each client of the listing, in
      its order. */
  lemma {:induction false} PassReadsEveryone(c: Cipher, states: seq<State>, actions: seq<Action>, n: nat, m: nat,
                                             order: seq<Entry>)
    requires IsRun(c, states, actions) && n < m <= |actions| && actions[n] == Snapshot(order)
    requires states[m].phase.Accepting? && forall k | n < k < m :: !states[k].phase.Accepting?
    ensures HeaderReads(states, actions, n + 1, m) == FdsOf(order)
  {
    forall k | n < k < m ensures !IsAccept(actions[k]) {
      AcceptNeedsAccepting(c, states, actions, k);
    }
    PassHolds(c, states, actions, n, m, order);
  }

  lemma {:induction false} AcceptNeedsAccepting(c: Cipher, states: seq<State>, actions: seq<Action>, k: nat)
    requires IsRun(c, states, actions) && k < |actions|
    ensures IsAccept(actions[k]) ==> states[k].phase.Accepting?
  {
  }

  // Between two accepts.

  /** Between an accept and the listing after it, or stopped for good. */
  predicate BeforePass(p: Phase) {
    p.Polling? || !Live(p)
  }

  lemma {:induction false} AcceptThenPoll(c: Cipher, s: State, a: Action, s': State)
    requires Enabled(c, s, a) && s' == Next(c, s, a) && IsAccept(a)
    ensures BeforePass(s'.phase) && HeaderRead(s, a) == []
  {
  }

  lemma {:induction false} PollGoesOn(c: Cipher, s: State, a: Action, s': State)
    requires Switched(s) && Enabled(c, s, a) && s' == Next(c, s, a) && BeforePass(s.phase) && !a.Snapshot?
    ensures BeforePass(s'.phase) && HeaderRead(s, a) == []
  {
    if a.SendAll? { SendsKeepPhase(c, s, a, |a.order|); }
  }

  lemma {:induction false} PollHolds(c: Cipher, states: seq<State>, actions: seq<Action>, i: nat, m: nat)
    requires IsRun(c, states, actions) && i < m <= |actions| && IsAccept(actions[i])
    requires forall k | i < k < m :: !actions[k].Snapshot?
    ensures BeforePass(states[m].phase) && HeaderReads(states, actions, i, m) == []
    decreases m
  {
    var k := m - 1;
    if k == i {
      PollBegins(c, states, actions, i);
    } else {
      PollHolds(c, states, actions, i, k);
      PollNext(c, states, actions, i, k);
    }
  }

  lemma {:induction false} PollBegins(c: Cipher, states: seq<State>, actions: seq<Action>, i: nat)
    requires IsRun(c, states, actions) && i < |actions| && IsAccept(actions[i])
    ensures BeforePass(states[i + 1].phase) && HeaderReads(states, actions, i, i + 1) == []
  {
    AcceptThenPoll(c, states[i], actions[i], states[i + 1]);
    ReadsOneMore(states, actions, i, i, []);
  }

  lemma {:induction false} PollNext(c: Cipher, states: seq<State>, actions: seq<Action>, i: nat, k: nat)
    requires IsRun(c, states, actions) && i <= k < |actions| && !actions[k].Snapshot?
    requires BeforePass(states[k].phase) && HeaderReads(states, actions, i, k) == []
    ensures BeforePass(states[k + 1].phase) && HeaderReads(states, actions, i, k + 1) == []
  {
    RunIsSwitched(c, states, actions, k);
    PollGoesOn(c, states[k], actions[k], states[k + 1]);
    ReadsOneMore(states, actions, i, k, []);
  }

  /** In every run, between two accepts there is a listing. */
  lemma {:induction false} ListingBetweenAccepts(c: Cipher, states: seq<State>, actions: seq<Action>, i: nat, j: nat)
    requires IsRun(c, states, actions) && i < j < |actions| && IsAccept(actions[i]) && IsAccept(actions[j])
    ensures exists k | i < k < j :: actions[k].Snapshot?
  {
    if forall k | i < k < j :: !actions[k].Snapshot? {
      PollHolds(c, states, actions, i, j);
      AcceptNeedsAccepting(c, states, actions, j);
    }
  }

  /** Actions that read no header make no difference. */
  lemma {:induction false} ReadsSkip(states: seq<State>, actions: seq<Action>, i: nat, k: nat, j: nat)
    requires i <= k <= j <= |actions| < |states| && HeaderReads(states, actions, i, k) == []
    ensures HeaderReads(states, actions, i, j) == HeaderReads(states, actions, k, j)
    decreases j
  {
    if k < j {
      var m := j - 1;
      ReadsSkip(states, actions, i, k, m);
      ReadsOneMore(states, actions, i, m, HeaderRead(states[m], actions[m]));
      ReadsOneMore(states, actions, k, m, HeaderRead(states[m], actions[m]));
    }
  }

  lemma {:induction false} FirstListing(actions: seq<Action>, i: nat, j: nat) returns (n: nat)
    requires i < j <= |actions| && exists k | i < k < j :: actions[k].Snapshot?
    ensures i < n < j && actions[n].Snapshot? && forall k | i < k < n :: !actions[k].Snapshot?
    decreases j
  {
    n :| i < n < j && actions[n].Snapshot?;
    if exists k | i < k < n :: actions[k].Snapshot? { n := FirstListing(actions, i, n); }
  }

  /** In every run, between one accept and the next, whatever their results, there is
      a listing of all the clients then in the map, and the headers read are one
      from each of them, in its order. No client is passed over, and none is read
      twice. */
  lemma {:induction false} OnePassBetweenAccepts(c: Cipher, states: seq<State>, actions: seq<Action>, i: nat, j: nat)
      returns (n: nat)
    requires IsRun(c, states, actions) && i < j < |actions| && IsAccept(actions[i]) && IsAccept(actions[j])
    requires forall k | i < k < j :: !IsAccept(actions[k])
    ensures i < n < j && actions[n].Snapshot? && Tables.Lists(actions[n].order, states[n].book.clients)
    ensures HeaderReads(states, actions, i, j) == FdsOf(actions[n].order)
  {
    ListingBetweenAccepts(c, states, actions, i, j);
    n := FirstListing(actions, i, j);
    PollHolds(c, states, actions, i, n);
    PassHolds(c, states, actions, n, j, actions[n].order);
    AcceptNeedsAccepting(c, states, actions, j);
    ReadsOfOnePass(c, states, actions, i, n, j);
  }

  lemma {:induction false} ReadsOfOnePass(c: Cipher, states: seq<State>, actions: seq<Action>, i: nat, n: nat, j: nat)
    requires IsRun(c, states, actions) && i <= n < j <= |actions| && actions[n].Snapshot?
    requires HeaderReads(states, actions, i, n) == []
    ensures HeaderReads(states, actions, i, j) == HeaderReads(states, actions, n + 1, j)
    ensures Tables.Lists(actions[n].order, states[n].book.clients)
  {
    ListingReadsNothing(c, states, actions, n);
    ReadsSkip(states, actions, i, n, n + 1);
    ReadsSkip(states, actions, i, n + 1, j);
  }

  lemma {:induction false} ListingReadsNothing(c: Cipher, states: seq<State>, actions: seq<Action>, n: nat)
    requires IsRun(c, states, actions) && n < |actions| && actions[n].Snapshot?
    ensures HeaderReads(states, actions, n, n + 1) == []
    ensures Tables.Lists(actions[n].order, states[n].book.clients)
  {
    assert HeaderReads(states, actions, n, n) == [];
  }
}
