/** The server on the heap carries out every action of the state machine, so what
    is proved of all runs is proved of it. */
module ServerRuns {
  import opened Defs
  import opened Wire
  import opened Crypto
  import opened CryptoDatas
  import opened ClientMaps
  import opened ServerSpec
  import opened ServerBook
  import opened ServerSafety
  import opened ServerSteps
  import opened ServerTheorems
  import opened Outboxes
  import opened Delivery
  import opened Servers
  import Tables

  /** The listing, if any, that the action works through. */
  function OrderOf(a: Action): Option<seq<Entry>> {
    match a
    case Snapshot(order) => Some(order)
    case SendAll(order, _, _, _) => Some(order)
    case Stop(order, _) => Some(order)
    case _ => None
  }

  /** The sizes the program copes with. */
  predicate Fits(a: Action) {
    match a
    case AcceptClient(_, _, _, pair, _, _, _, _) => LENSIZE + |pair.public| <= SIZE_MAX
    case Send(_, data, nonce, _) => |nonce| == NONCE_SIZE && Encryptable(|data|)
    case SendAll(_, data, nonces, _) =>
      Encryptable(|data|) && forall i | 0 <= i < |nonces| :: |nonces[i]| == NONCE_SIZE
    case _ => true
  }

  method PerformStop(server: Server, a: Action)
    requires server.Valid() && Manageable(server.nextClientId) && Rostered(server.book)
    requires a.Stop? && Enabled(server.cipher, server.State(), a)
    requires a.order == Tables.Listing(server.clients.Table)
    modifies server.Repr
    ensures server.Valid() && fresh(server.Repr - old(server.Repr))
    ensures server.State() == AfterStop(old(server.State()), a.order, a.failAt)
  {
    var stuck := if a.failAt.Some? then {a.order[a.failAt.value].sock.fd} else {};
    ListedIsApart(server.book, a.order);
    assert FirstStuck(a.order, stuck, 0) == a.failAt;
    var _ := server.Stop(stuck);
  }

  method PerformSend(server: Server, a: Action)
    requires server.Valid() && Lawful(server.cipher) && a.Send? && Fits(a)
    requires !server.phase.Crashed?
    modifies server`links, server`phase
    ensures server.Valid()
    ensures server.State() == AfterSend(server.cipher, old(server.State()), a.id, a.data, a.nonce, a.result)
  {
    var data := FromBytes(a.data);
    server.Send(a.id, data, DrawFor(a.nonce), a.result);
  }

  method DrawsFor(nonces: seq<Bytes>) returns (randoms: seq<Bytes>)
    requires forall i | 0 <= i < |nonces| :: |nonces[i]| == NONCE_SIZE
    ensures |randoms| == |nonces| && forall i | 0 <= i < |randoms| :: |randoms[i]| == AES_KEY_SIZE
    ensures Nonces(randoms) == nonces
  {
    randoms := seq(|nonces|, i requires 0 <= i < |nonces| => DrawFor(nonces[i]));
  }

  method PerformSendAll(server: Server, a: Action)
    requires server.Valid() && Lawful(server.cipher) && a.SendAll? && Fits(a)
    requires !server.phase.Crashed? && |a.order| == |a.nonces| == |a.results|
    requires a.order == Tables.Listing(server.clients.Table)
    modifies server`links, server`phase
    ensures server.Valid()
    ensures server.State() == AfterSends(server.cipher, old(server.State()), a, |a.order|)
  {
    var data := FromBytes(a.data);
    var randoms := DrawsFor(a.nonces);
    Tables.CountIsSize(server.clients.Table);
    if !server.serving { UnservedSends(server.cipher, server.State(), a, |a.order|); }
    var made := server.SendAll(data, randoms, a.results);
    assert made == a;
  }

  method PerformAccept(server: Server, a: Action)
    requires server.Valid() && Lawful(server.cipher) && Manageable(server.nextClientId + 1) && Fits(a)
    requires a.NoConnection? || a.AcceptFails? || a.AcceptBroken? || a.AcceptClient?
    requires Enabled(server.cipher, server.State(), a)
    modifies server.Repr
    ensures server.Valid() && fresh(server.Repr - old(server.Repr))
    ensures server.State() == Next(server.cipher, old(server.State()), a)
  {
    var buffer := FromBytes(if a.AcceptClient? then a.buffer else []);
    server.Accept(a, buffer);
  }

  method PerformRead(server: Server, a: Action)
    requires server.Valid() && Lawful(server.cipher) && Manageable(server.nextClientId)
    requires (a.ReadHeader? || a.ReadBody?) && Enabled(server.cipher, server.State(), a)
    modifies server.Repr
    ensures server.Valid() && fresh(server.Repr - old(server.Repr))
    ensures server.State() == Next(server.cipher, old(server.State()), a)
  {
    if a.ReadHeader? {
      server.ReadHeader(a.r);
    } else {
      server.ReadBody(a.r);
    }
  }

  method PerformServe(server: Server, a: Action)
    requires server.Valid() && Lawful(server.cipher) && Manageable(server.nextClientId + 1)
    requires Enabled(server.cipher, server.State(), a) && Fits(a) && !FromOutside(a)
    requires a.Snapshot? ==> a.order == Tables.Listing(server.clients.Table)
    modifies server.Repr
    ensures server.Valid() && fresh(server.Repr - old(server.Repr))
    ensures server.State() == Next(server.cipher, old(server.State()), a)
  {
    match a {
      case Snapshot(_) => var _ := server.TakeSnapshot();
      case ReadHeader(_) => PerformRead(server, a);
      case ReadBody(_) => PerformRead(server, a);
      case NoConnection => PerformAccept(server, a);
      case AcceptFails => PerformAccept(server, a);
      case AcceptBroken => PerformAccept(server, a);
      case AcceptClient(_, _, _, _, _, _, _, _) => PerformAccept(server, a);
    }
  }

  method PerformOutside(server: Server, a: Action)
    requires server.Valid() && Lawful(server.cipher) && Manageable(server.nextClientId) && Rostered(server.book)
    requires Enabled(server.cipher, server.State(), a) && Fits(a) && FromOutside(a)
    requires OrderOf(a).Some? ==> OrderOf(a).value == Tables.Listing(server.clients.Table)
    modifies server.Repr
    ensures server.Valid() && fresh(server.Repr - old(server.Repr))
    ensures server.State() == Next(server.cipher, old(server.State()), a)
  {
    match a {
      case Start(ready) => server.Start(ready);
      case Remove(id, closeOk) => server.RemoveClient(id, closeOk);
      case Send(_, _, _, _) => PerformSend(server, a);
      case SendAll(_, _, _, _) => PerformSendAll(server, a);
      case Stop(_, _) => PerformStop(server, a);
      case Arrive(fd, bytes) => server.Arrive(fd, bytes);
      case HangUp(fd) => server.HangUp(fd);
    }
  }

  /** The program carries out any action the machine allows, over the listing its
      own table gives, and ends in the state the machine says. */
  method Perform(server: Server, a: Action)
    requires server.Valid() && Lawful(server.cipher) && Manageable(server.nextClientId + 1) && Rostered(server.book)
    requires Enabled(server.cipher, server.State(), a) && Fits(a)
    requires OrderOf(a).Some? ==> OrderOf(a).value == Tables.Listing(server.clients.Table)
    modifies server.Repr
    ensures server.Valid() && fresh(server.Repr - old(server.Repr))
    ensures server.State() == Next(server.cipher, old(server.State()), a)
  {
    if FromOutside(a) {
      PerformOutside(server, a);
    } else {
      PerformServe(server, a);
    }
  }

  /** The actions carried out so far make a run that has come to this state. */
  ghost predicate HasRun(server: Server, states: seq<State>, actions: seq<Action>)
    reads server, server.sizeBuffer
  {
    IsRun(server.cipher, states, actions) && states[|actions|] == server.State()
  }

  method Launch(cipher: Cipher) returns (server: Server, ghost states: seq<State>)
    ensures server.Valid() && fresh(server.Repr) && server.cipher == cipher && HasRun(server, states, [])
  {
    server := new Server(cipher);
    states := [server.State()];
  }

  lemma {:induction false} RunGoesOn(c: Cipher, states: seq<State>, actions: seq<Action>, a: Action, s': State)
    requires IsRun(c, states, actions)
    requires Enabled(c, states[|actions|], a) && s' == Next(c, states[|actions|], a)
    ensures IsRun(c, states + [s'], actions + [a]) && Safe(c, s')
  {
    RunOneMore(c, states, actions, a, s');
    RunsAreSafe(c, states + [s'], actions + [a], |actions| + 1);
  }

  method PerformNext(server: Server, a: Action, ghost states: seq<State>, ghost actions: seq<Action>)
    requires server.Valid() && Lawful(server.cipher) && Manageable(server.nextClientId + 1)
    requires HasRun(server, states, actions) && Enabled(server.cipher, server.State(), a) && Fits(a)
    requires OrderOf(a).Some? ==> OrderOf(a).value == Tables.Listing(server.clients.Table)
    modifies server.Repr
    ensures server.Valid() && fresh(server.Repr - old(server.Repr))
    ensures server.State() == Next(server.cipher, old(server.State()), a)
  {
    RunIsRegistered(server.cipher, states, actions, |actions|);
    Perform(server, a);
  }

  /** Whatever the program does next, its past is a run: every theorem about runs
      is one about the program. */
  method PerformAndRecord(server: Server, a: Action, ghost states: seq<State>, ghost actions: seq<Action>)
      returns (ghost states': seq<State>)
    requires server.Valid() && Lawful(server.cipher) && Manageable(server.nextClientId + 1)
    requires HasRun(server, states, actions) && Enabled(server.cipher, server.State(), a)
    requires Fits(a)
    requires OrderOf(a).Some? ==> OrderOf(a).value == Tables.Listing(server.clients.Table)
    modifies server.Repr
    ensures server.Valid() && fresh(server.Repr - old(server.Repr))
    ensures HasRun(server, states', actions + [a]) && states <= states'
    ensures Safe(server.cipher, server.State())
  {
    PerformNext(server, a, states, actions);
    RunGoesOn(server.cipher, states, actions, a, server.State());
    states' := states + [server.State()];
  }
}
