/** The client on the heap carries out every action of the state machine, and its
    receive loop goes through the reads of a run, so what is proved of all runs is
    proved of it. */
module ClientRuns {
  import opened Defs
  import opened Wire
  import opened Crypto
  import opened CryptoDatas
  import opened Links
  import opened ClientSpec
  import opened Clients

  /** The sizes the program copes with. */
  predicate Fits(a: Action) {
    a.Send? ==> |a.nonce| == NONCE_SIZE && Encryptable(|a.data|)
  }

  method PerformSend(client: Client, a: Action)
    requires client.Valid() && Lawful(client.cipher) && a.Send? && Fits(a)
    modifies client`link, client`loop
    ensures client.Valid() && client.State() == AfterSend(client.cipher, old(client.State()), a.data, a.nonce, a.result)
  {
    var data := FromBytes(a.data);
    client.Send(data, DrawFor(a.nonce), a.result);
  }

  /** The program carries out any action the machine allows, and ends in the state
      the machine says. */
  method Perform(client: Client, a: Action)
    requires client.Valid() && Lawful(client.cipher) && Enabled(client.cipher, client.State(), a) && Fits(a)
    modifies client, client.sizeBuffer
    ensures client.Valid() && client.sizeBuffer == old(client.sizeBuffer)
    ensures client.State() == Next(client.cipher, old(client.State()), a)
  {
    match a {
      case Connect(_, _, _, _, bytes, _, _, _) =>
        var buffer := FromBytes(bytes);
        client.Connect(a, buffer);
      case ReadHeader(r) => client.ReadHeader(r);
      case ReadBody(r) => client.ReadBody(r);
      case Send(_, _, _) => PerformSend(client, a);
      case Disconnect => client.Disconnect();
      case Arrive(bytes) => client.Arrive(bytes);
      case HangUp => client.HangUp();
    }
  }

  /** The actions carried out so far make a run that has come to this state. */
  ghost predicate HasRun(client: Client, states: seq<State>, actions: seq<Action>)
    reads client, client.sizeBuffer
  {
    IsRun(client.cipher, states, actions) && states[|actions|] == client.State()
  }

  method Launch(cipher: Cipher) returns (client: Client, ghost states: seq<State>)
    ensures client.Valid() && fresh(client) && fresh(client.sizeBuffer) && client.cipher == cipher
    ensures HasRun(client, states, [])
  {
    client := new Client(cipher);
    states := [client.State()];
  }

  /** Whatever the program does next, its past is a run: every theorem about runs
      is one about the program. */
  method PerformAndRecord(client: Client, a: Action, ghost states: seq<State>, ghost actions: seq<Action>)
      returns (ghost states': seq<State>, ghost actions': seq<Action>)
    requires client.Valid() && Lawful(client.cipher) && HasRun(client, states, actions)
    requires Enabled(client.cipher, client.State(), a) && Fits(a)
    modifies client, client.sizeBuffer
    ensures client.Valid() && client.sizeBuffer == old(client.sizeBuffer)
    ensures client.State() == Next(client.cipher, old(client.State()), a)
    ensures HasRun(client, states', actions') && actions' == actions + [a] && states <= states'
  {
    Perform(client, a);
    RunOneMore(client.cipher, states, actions, a, client.State());
    states', actions' := states + [client.State()], actions + [a];
  }

  // The receive loop.

  /** One turn of the loop, and what other threads and the kernel do before each of
      its reads. */
  datatype Turn = Turn(before: seq<Action>, header: ReadResult, between: seq<Action>, body: ReadResult)

  predicate FromOutside(a: Action) {
    !a.ReadHeader? && !a.ReadBody?
  }

  predicate AllOutside(actions: seq<Action>) {
    forall i | 0 <= i < |actions| :: FromOutside(actions[i]) && Fits(actions[i])
  }

  /** The actions of a turn: a body is read only after a header that came in. */
  function ScriptOf(t: Turn): seq<Action> {
    t.before + [ReadHeader(t.header)] + BodyScript(t)
  }

  function BodyScript(t: Turn): seq<Action> {
    if t.header.Data? then t.between + [ReadBody(t.body)] else []
  }

  function Script(turns: seq<Turn>): seq<Action> {
    if turns == [] then [] else ScriptOf(turns[0]) + Script(turns[1..])
  }

  /** The kernel can play its part in the script, for as long as the loop goes on. */
  ghost predicate Possible(c: Cipher, s: State, script: seq<Action>)
    decreases |script|
  {
    Looping(s.loop) && script != [] ==>
      Enabled(c, s, script[0]) && Possible(c, Next(c, s, script[0]), script[1..])
  }

  /** What has been done, and what of the script is still to do. */
  ghost predicate Follows(c: Cipher, s: State, made: seq<Action>, rest: seq<Action>, script: seq<Action>) {
    made + rest == script && Possible(c, s, rest)
  }

  lemma {:induction false} FollowOne(c: Cipher, s: State, a: Action, s': State, made: seq<Action>, rest: seq<Action>,
                                     script: seq<Action>)
    requires Looping(s.loop) && Follows(c, s, made, [a] + rest, script)
    ensures Enabled(c, s, a)
    ensures s' == Next(c, s, a) ==> Follows(c, s', made + [a], rest, script)
  {
    assert ([a] + rest)[0] == a && ([a] + rest)[1..] == rest;
    assert made + [a] + rest == made + ([a] + rest);
  }

  /** While the loop goes on, nothing that others do moves it. */
  lemma {:induction false} OutsideKeepsLoop(c: Cipher, s: State, a: Action, s': State)
    requires Safe(c, s) && Looping(s.loop) && FromOutside(a) && Enabled(c, s, a) && s' == Next(c, s, a)
    ensures s'.loop == s.loop
  {
  }

  lemma {:induction false} LoopStaysInRun(c: Cipher, states: seq<State>, actions: seq<Action>, a: Action, s': State)
    requires IsRun(c, states, actions) && Looping(states[|actions|].loop) && FromOutside(a)
    requires Enabled(c, states[|actions|], a) && s' == Next(c, states[|actions|], a)
    ensures s'.loop == states[|actions|].loop
  {
    RunsAreSafe(c, states, actions, |actions|);
    OutsideKeepsLoop(c, states[|actions|], a, s');
  }

  /** The next action of the script. */
  method FollowScript(client: Client, a: Action, ghost states: seq<State>, ghost actions: seq<Action>,
                      ghost made: seq<Action>, ghost rest: seq<Action>, ghost script: seq<Action>)
      returns (ghost states': seq<State>)
    requires client.Valid() && Lawful(client.cipher) && HasRun(client, states, actions + made)
    requires Looping(client.loop) && Follows(client.cipher, client.State(), made, [a] + rest, script) && Fits(a)
    modifies client, client.sizeBuffer
    ensures client.Valid() && client.sizeBuffer == old(client.sizeBuffer)
    ensures Enabled(client.cipher, old(client.State()), a)
    ensures client.State() == Next(client.cipher, old(client.State()), a)
    ensures HasRun(client, states', actions + (made + [a]))
    ensures Follows(client.cipher, client.State(), made + [a], rest, script)
  {
    ghost var s := client.State();
    FollowOne(client.cipher, s, a, s, made, rest, script);
    ghost var done;
    states', done := PerformAndRecord(client, a, states, actions + made);
    FollowOne(client.cipher, s, a, client.State(), made, rest, script);
    assert actions + made + [a] == actions + (made + [a]);
  }

  /** What other threads and the kernel do before the next read. */
  method LetOutside(client: Client, outside: seq<Action>, ghost states: seq<State>, ghost actions: seq<Action>,
                    ghost made: seq<Action>, ghost rest: seq<Action>, ghost script: seq<Action>)
      returns (ghost states': seq<State>, ghost made': seq<Action>)
    requires client.Valid() && Lawful(client.cipher) && HasRun(client, states, actions + made) && AllOutside(outside)
    requires Looping(client.loop) && Follows(client.cipher, client.State(), made, outside + rest, script)
    modifies client, client.sizeBuffer
    ensures client.Valid() && client.sizeBuffer == old(client.sizeBuffer) && client.loop == old(client.loop)
    ensures HasRun(client, states', actions + made')
    ensures Follows(client.cipher, client.State(), made', rest, script)
  {
    states', made' := states, made;
    for i := 0 to |outside|
      invariant client.Valid() && client.sizeBuffer == old(client.sizeBuffer) && client.loop == old(client.loop)
      invariant HasRun(client, states', actions + made')
      invariant Follows(client.cipher, client.State(), made', outside[i..] + rest, script)
    {
      states', made' := LetOne(client, outside, i, states', actions, made', rest, script);
    }
    assert outside[|outside|..] + rest == rest;
  }

  method LetOne(client: Client, outside: seq<Action>, i: nat, ghost states: seq<State>, ghost actions: seq<Action>,
                ghost made: seq<Action>, ghost rest: seq<Action>, ghost script: seq<Action>)
      returns (ghost states': seq<State>, ghost made': seq<Action>)
    requires client.Valid() && Lawful(client.cipher) && HasRun(client, states, actions + made)
    requires AllOutside(outside) && i < |outside| && Looping(client.loop)
    requires Follows(client.cipher, client.State(), made, outside[i..] + rest, script)
    modifies client, client.sizeBuffer
    ensures client.Valid() && client.sizeBuffer == old(client.sizeBuffer) && client.loop == old(client.loop)
    ensures HasRun(client, states', actions + made')
    ensures Follows(client.cipher, client.State(), made', outside[i + 1..] + rest, script)
  {
    assert outside[i..] + rest == [outside[i]] + (outside[i + 1..] + rest);
    states' := FollowScript(client, outside[i], states, actions, made, outside[i + 1..] + rest, script);
    LoopStaysInRun(client.cipher, states, actions + made, outside[i], client.State());
    made' := made + [outside[i]];
  }

  /** One turn of the receive loop. */
  method TakeTurn(client: Client, t: Turn, ghost states: seq<State>, ghost actions: seq<Action>,
                  ghost made: seq<Action>, ghost rest: seq<Action>, ghost script: seq<Action>)
      returns (ghost states': seq<State>, ghost made': seq<Action>)
    requires client.Valid() && Lawful(client.cipher) && HasRun(client, states, actions + made)
    requires AllOutside(t.before) && AllOutside(t.between) && client.loop.Running?
    requires Follows(client.cipher, client.State(), made, ScriptOf(t) + rest, script)
    modifies client, client.sizeBuffer
    ensures client.Valid() && client.sizeBuffer == old(client.sizeBuffer) && !client.loop.Awaiting?
    ensures HasRun(client, states', actions + made') && made' <= script
    ensures client.loop.Running? ==> Follows(client.cipher, client.State(), made', rest, script)
  {
    ghost var next := [ReadHeader(t.header)] + (BodyScript(t) + rest);
    assert ScriptOf(t) + rest == t.before + next;
    states', made' := LetOutside(client, t.before, states, actions, made, next, script);
    states', made' := ReadTurn(client, t, states', actions, made', rest, script);
  }

  /** The header read of a turn, and what follows from it. */
  method ReadTurn(client: Client, t: Turn, ghost states: seq<State>, ghost actions: seq<Action>,
                  ghost made: seq<Action>, ghost rest: seq<Action>, ghost script: seq<Action>)
      returns (ghost states': seq<State>, ghost made': seq<Action>)
    requires client.Valid() && Lawful(client.cipher) && HasRun(client, states, actions + made)
    requires AllOutside(t.between) && client.loop.Running?
    requires Follows(client.cipher, client.State(), made, [ReadHeader(t.header)] + (BodyScript(t) + rest), script)
    modifies client, client.sizeBuffer
    ensures client.Valid() && client.sizeBuffer == old(client.sizeBuffer) && !client.loop.Awaiting?
    ensures HasRun(client, states', actions + made') && made' <= script
    ensures client.loop.Running? ==> Follows(client.cipher, client.State(), made', rest, script)
  {
    states' := FollowScript(client, ReadHeader(t.header), states, actions, made, BodyScript(t) + rest, script);
    made' := made + [ReadHeader(t.header)];
    if client.loop.Awaiting? {
      states', made' := AwaitBody(client, t, states', actions, made', rest, script);
    } else if client.loop.Running? {
      assert BodyScript(t) + rest == rest;
    }
  }

  /** The wait for the body, and its read. */
  method AwaitBody(client: Client, t: Turn, ghost states: seq<State>, ghost actions: seq<Action>,
                   ghost made: seq<Action>, ghost rest: seq<Action>, ghost script: seq<Action>)
      returns (ghost states': seq<State>, ghost made': seq<Action>)
    requires client.Valid() && Lawful(client.cipher) && HasRun(client, states, actions + made)
    requires AllOutside(t.between) && client.loop.Awaiting?
    requires Follows(client.cipher, client.State(), made, t.between + [ReadBody(t.body)] + rest, script)
    modifies client, client.sizeBuffer
    ensures client.Valid() && client.sizeBuffer == old(client.sizeBuffer) && !client.loop.Awaiting?
    ensures HasRun(client, states', actions + made') && Follows(client.cipher, client.State(), made', rest, script)
  {
    assert t.between + [ReadBody(t.body)] + rest == t.between + ([ReadBody(t.body)] + rest);
    states', made' := LetOutside(client, t.between, states, actions, made, [ReadBody(t.body)] + rest, script);
    states', made' := ReadDue(client, t.body, states', actions, made', rest, script);
  }

  method ReadDue(client: Client, r: ReadResult, ghost states: seq<State>, ghost actions: seq<Action>,
                 ghost made: seq<Action>, ghost rest: seq<Action>, ghost script: seq<Action>)
      returns (ghost states': seq<State>, ghost made': seq<Action>)
    requires client.Valid() && Lawful(client.cipher) && HasRun(client, states, actions + made)
    requires client.loop.Awaiting? && Follows(client.cipher, client.State(), made, [ReadBody(r)] + rest, script)
    modifies client, client.sizeBuffer
    ensures client.Valid() && client.sizeBuffer == old(client.sizeBuffer) && !client.loop.Awaiting?
    ensures HasRun(client, states', actions + made') && Follows(client.cipher, client.State(), made', rest, script)
  {
    states' := FollowScript(client, ReadBody(r), states, actions, made, rest, script);
    made' := made + [ReadBody(r)];
  }

  /** The receive loop, through as many of the given turns as it takes before it
      returns: what it and the others have done in the meantime extends the run. */
  method Handle(client: Client, turns: seq<Turn>, ghost states: seq<State>, ghost actions: seq<Action>)
      returns (ghost states': seq<State>, ghost made: seq<Action>)
    requires client.Valid() && Lawful(client.cipher) && HasRun(client, states, actions) && client.loop.Running?
    requires forall i | 0 <= i < |turns| :: AllOutside(turns[i].before) && AllOutside(turns[i].between)
    requires Possible(client.cipher, client.State(), Script(turns))
    modifies client, client.sizeBuffer
    ensures client.Valid() && HasRun(client, states', actions + made) && made <= Script(turns)
    ensures made == Script(turns) || !client.connected || !client.loop.Running?
  {
    ghost var script := Script(turns);
    states', made := states, [];
    assert actions + [] == actions && [] + script == script && turns[0..] == turns;
    var taken := 0;
    while client.connected && client.loop.Running? && taken < |turns|
      invariant client.Valid() && client.sizeBuffer == old(client.sizeBuffer) && taken <= |turns|
      invariant HasRun(client, states', actions + made) && made <= script && !client.loop.Awaiting?
      invariant client.loop.Running? ==>
                  Follows(client.cipher, client.State(), made, Script(turns[taken..]), script)
      decreases |turns| - taken
    {
      assert turns[taken..][1..] == turns[taken + 1..];
      states', made := TakeTurn(client, turns[taken], states', actions, made, Script(turns[taken + 1..]), script);
      taken := taken + 1;
    }
  }
}
