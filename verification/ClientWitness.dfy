/** Particular runs of a client: one that sends after a refused key exchange, and a
    conversation with a server that meets all that is asked of conversations. */
module ClientWitness {
  import opened Defs
  import opened Wire
  import opened Crypto
  import opened Links
  import opened Mails
  import opened Handshakes
  import opened ClientSpec
  import ServerSpec
  import ServerEvents
  import Outboxes
  import opened Delivery
  import opened ServerWitness

  /** The server hangs up before it greets. */
  function Snubbed(d: Draw): Action {
    Connect(true, d, [], true, Digits(0, LENSIZE), Eof, Eof, false)
  }

  lemma {:induction false} SnubbedStep(c: Cipher, d: Draw, buffer: Bytes, data: Bytes, nonce: Bytes)
      returns (s1: State, s2: State)
    requires ProperDraw(d) && |buffer| == LENSIZE
    ensures var s0 := Fresh(buffer); Enabled(c, s0, Snubbed(d)) && s1 == Next(c, s0, Snubbed(d)) && s1.connected
    ensures Enabled(c, s1, Send(data, nonce, SendError)) && s2 == Next(c, s1, Send(data, nonce, SendError))
    ensures s2.loop.Fallen?
  {
    s1 := Next(c, Fresh(buffer), Snubbed(d));
    s2 := Next(c, s1, Send(data, nonce, SendError));
  }

  /** A client whose key exchange is refused stays connected, and falls when it
      sends. */
  lemma {:induction false} RefusedThenFalls(c: Cipher, d: Draw, buffer: Bytes, data: Bytes, nonce: Bytes)
      returns (states: seq<State>, actions: seq<Action>)
    requires ProperDraw(d) && |buffer| == LENSIZE
    ensures IsRun(c, states, actions) && actions == [Snubbed(d)] + [Send(data, nonce, SendError)]
    ensures states[1].connected && states[1].key.None? && states[2].loop.Fallen?
  {
    var s1, s2 := SnubbedStep(c, d, buffer, data, nonce);
    RunOneMore(c, [Fresh(buffer)], [], Snubbed(d), s1);
    RunOneMore(c, [Fresh(buffer)] + [s1], [] + [Snubbed(d)], Send(data, nonce, SendError), s2);
    states, actions := [Fresh(buffer)] + [s1] + [s2], [Snubbed(d)] + [Send(data, nonce, SendError)];
    assert [] + [Snubbed(d)] == [Snubbed(d)];
  }

  // A conversation.

  /** The client of a case connects to its server. */
  function Dial(k: Case): Action {
    Connect(true, k.d, Frame(k.pair.public), false, Digits(0, LENSIZE), Data(LENSIZE), Data(|k.pair.public|), true)
  }

  function Post(c: Cipher, k: Case): Action {
    Send(k.message, k.nonce, Sent(|Frame(Body(c, k))|))
  }

  /** The client's stream once it has read the greeting and written the given bytes. */
  function Talking(k: Case, outbox: Bytes): Link {
    Link(Frame(k.pair.public), [], false, outbox, [k.pair.public], [], true)
  }

  ghost predicate Greetable(c: Cipher, k: Case) {
    Proper(c, k) && 0 < |k.pair.public| <= INT_MAX
  }

  lemma {:induction false} DialAgrees(c: Cipher, k: Case)
    requires Greetable(c, k)
    ensures Exchangeable(Dial(k)) && Exchanged(c, Dial(k)) == Agreed(Talking(k, Frame(Hello(c, k))), k.d.key)
  {
    var public := k.pair.public;
    var l := Opened(Frame(public), false);
    FrameParts(public, []);
    assert Frame(public) + [] == Frame(public);
    assert HeaderBuffer(l, Digits(0, LENSIZE), LENSIZE) == Digits(|public|, LENSIZE);
    HeaderRoundTrip(|public|);
    assert TakeHeader(l, LENSIZE).inbox == public;
    assert [] + [public] == [public] && public[|public|..] == [];
    assert [] + Frame(Hello(c, k)) == Frame(Hello(c, k));
  }

  /** The client's state once it has connected and written the given bytes. */
  function At(k: Case, buffer: Bytes, outbox: Bytes): State {
    State(true, false, Some(k.d.key), buffer, Talking(k, outbox), Running, Some(k.d), [], 0, 0)
  }

  lemma {:induction false} PostStep(c: Cipher, k: Case, buffer: Bytes) returns (s: State)
    requires Greetable(c, k) && |buffer| == LENSIZE
    ensures Enabled(c, At(k, buffer, Frame(Hello(c, k))), Post(c, k))
    ensures s == Next(c, At(k, buffer, Frame(Hello(c, k))), Post(c, k)) == At(k, buffer, Output(c, k))
  {
    s := Next(c, At(k, buffer, Frame(Hello(c, k))), Post(c, k));
  }

  /** For every cipher, key pair and message, a client connects and sends it. */
  lemma {:induction false} ClientSends(c: Cipher, k: Case, buffer: Bytes)
      returns (states: seq<State>, actions: seq<Action>)
    requires Greetable(c, k) && |buffer| == LENSIZE
    ensures IsRun(c, states, actions) && actions == [Dial(k)] + [Post(c, k)]
    ensures states[0] == Fresh(buffer) && states[1] == At(k, buffer, Frame(Hello(c, k)))
    ensures states[2] == At(k, buffer, Output(c, k))
  {
    DialAgrees(c, k);
    var s0, s1 := Fresh(buffer), At(k, buffer, Frame(Hello(c, k)));
    var s2 := PostStep(c, k, buffer);
    RunOneMore(c, [s0], [], Dial(k), s1);
    RunOneMore(c, [s0] + [s1], [] + [Dial(k)], Post(c, k), s2);
    states, actions := [s0] + [s1] + [s2], [Dial(k)] + [Post(c, k)];
    assert [] + [Dial(k)] == [Dial(k)];
  }

  lemma {:induction false} NoSendsNoMail(c: Cipher, states: seq<ServerSpec.State>, actions: seq<ServerSpec.Action>,
                                         n: nat, fd: nat)
    requires ServerSpec.IsRun(c, states, actions) && n <= |actions|
    requires forall i | 0 <= i < |actions| :: !actions[i].Send? && !actions[i].SendAll?
    ensures Outboxes.MailTo(c, states, actions, n, fd) == []
  {
    if n > 0 { NoSendsNoMail(c, states, actions, n - 1, fd); }
  }

  lemma {:induction false} ClientMail(c: Cipher, k: Case, states: seq<State>, actions: seq<Action>)
    requires Greetable(c, k) && |states| == 3 && actions == [Dial(k)] + [Post(c, k)]
    requires states[1].connected && states[1].key == Some(k.d.key)
    ensures MailFrom(states, actions, 2) == [Mail(k.nonce, k.message, |Frame(Body(c, k))|)]
  {
    assert MailFrom(states, actions, 1) == MailFrom(states, actions, 0) + [] == [];
    assert [] + [Mail(k.nonce, k.message, |Frame(Body(c, k))|)] == [Mail(k.nonce, k.message, |Frame(Body(c, k))|)];
  }

  /** All that is asked of a conversation can be met: for every cipher, key pair and
      message there are runs of a server and of a client that are joined and
      undisturbed, and in which the message arrives. */
  lemma {:induction false} ConversationHappens(c: Cipher, k: Case, buffer: Bytes)
      returns (states: seq<ServerSpec.State>, actions: seq<ServerSpec.Action>, e: Side)
    requires Greetable(c, k) && |buffer| == LENSIZE
    ensures ServerSpec.IsRun(c, states, actions) && |actions| == 5 && Joined(c, states[5], 0, e)
    ensures Undisturbed(c, states, actions, 5, 0, e)
    ensures ServerEvents.TextsOf(states[5].history, 0) == [k.message] == DatasIn(MailHere(c, e))
  {
    states, actions := MessageIsReceived(c, k, buffer);
    var cs, ca := ClientSends(c, k, buffer);
    e := Side(cs, ca, 2);
    ClientMail(c, k, cs, ca);
    ClientIsUndisturbed(c, k, buffer, cs, ca);
    ServerIsUndisturbed(c, k, states, actions);
    CaseIsJoined(c, k, buffer, states[5], e);
    MailIsProper(c, k);
    HistoryTexts(k.message);
  }

  lemma {:induction false} CaseIsJoined(c: Cipher, k: Case, buffer: Bytes, s: ServerSpec.State, e: Side)
    requires Greetable(c, k) && Serves(c, k, s) && IsRun(c, e.states, e.actions) && e.at <= |e.actions|
    requires e.states[e.at] == At(k, buffer, Output(c, k)) && GreetedWhole(c, e.states, e.actions, e.at)
    ensures Joined(c, s, 0, e) && KeyHere(c, e) == k.d.key
  {
  }

  lemma {:induction false} HistoryTexts(text: Bytes)
    ensures ServerEvents.TextsOf([ServerSpec.Connected(0), ServerSpec.Received(0, text)], 0) == [text]
  {
    ServerEvents.Append([], ServerSpec.Connected(0), 0);
    ServerEvents.Append([ServerSpec.Connected(0)], ServerSpec.Received(0, text), 0);
    assert [] + [ServerSpec.Connected(0)] == [ServerSpec.Connected(0)];
    assert [ServerSpec.Connected(0)] + [ServerSpec.Received(0, text)] ==
           [ServerSpec.Connected(0), ServerSpec.Received(0, text)];
  }

  lemma {:induction false} ClientIsUndisturbed(c: Cipher, k: Case, buffer: Bytes, cs: seq<State>, ca: seq<Action>)
    requires Greetable(c, k) && IsRun(c, cs, ca) && |ca| == 2 && cs[2] == At(k, buffer, Output(c, k))
    ensures ClientSpec.WholeUntil(c, cs, ca, 2) && GreetedWhole(c, cs, ca, 2)
  {
    ClientSpec.IntactIffWholeHeaders(c, cs, ca, 2);
    WholeMeansGreeted(c, cs, ca, 2);
  }

  lemma {:induction false} WholeMeansGreeted(c: Cipher, states: seq<State>, actions: seq<Action>, n: nat)
    requires n <= |actions| < |states| && ClientSpec.WholeUntil(c, states, actions, n)
    ensures GreetedWhole(c, states, actions, n)
  {
  }

  lemma {:induction false} MailIsProper(c: Cipher, k: Case)
    requires Proper(c, k)
    ensures var mails := [Mail(k.nonce, k.message, |Frame(Body(c, k))|)];
            && AllWhole(c, k.d.key, mails) && Sendings(c, k.d.key, mails) && DatasIn(mails) == [k.message]
  {
  }

  lemma {:induction false} ServerIsUndisturbed(c: Cipher, k: Case, states: seq<ServerSpec.State>,
                                               actions: seq<ServerSpec.Action>)
    requires Greetable(c, k) && ServerSpec.IsRun(c, states, actions) && |actions| == 5
    requires actions == Opening(c, k) + [ServerSpec.ReadHeader(Data(LENSIZE))]
                        + [ServerSpec.ReadBody(Data(|Body(c, k)|))]
    requires Serves(c, k, states[5])
    ensures Delivery.WholeUntil(states, actions, 5, states[5].book.roster[0].fd)
    ensures MailFor(c, states, actions, 5, 0) == []
    ensures AllWhole(c, k.d.key, []) && Sendings(c, k.d.key, [])
  {
    Delivery.IntactIffWholeHeaders(c, states, actions, 5, states[5].book.roster[0].fd);
    NoSendsNoMail(c, states, actions, 5, states[5].book.roster[0].fd);
  }

  // Receiving.

  /** A client in its receive loop, between frames. */
  function Listening(k: Case, buffer: Bytes, l: Link, texts: seq<Bytes>): State {
    State(true, false, Some(k.d.key), buffer, l, Running, Some(k.d), texts, 0, 0)
  }

  ghost predicate Idle(k: Case, s: State) {
    && s == Listening(k, s.sizeBuffer, s.link, s.texts) && |s.sizeBuffer| == LENSIZE
    && s.link.inbox == [] && !s.link.hangup
  }

  /** A sealed message from the server, as it comes in. */
  function Sealing(c: Cipher, k: Case, nonce: Bytes, message: Bytes): Bytes {
    AesSeal(c, k.d.key, nonce, message)
  }

  lemma {:induction false} LetterComes(c: Cipher, k: Case, s: State, body: Bytes) returns (s1: State, s2: State)
    requires Idle(k, s) && 1 <= |body| <= INT_MAX
    ensures Enabled(c, s, Arrive(Frame(body))) && s1 == Next(c, s, Arrive(Frame(body)))
    ensures Enabled(c, s1, ReadHeader(Data(LENSIZE))) && s2 == Next(c, s1, ReadHeader(Data(LENSIZE)))
    ensures s2.loop == Awaiting(|body|) && s2.link.inbox == body && |s2.sizeBuffer| == LENSIZE && !s2.link.hangup
    ensures s2 == Listening(k, s2.sizeBuffer, s2.link, s.texts).(loop := s2.loop)
  {
    s1 := Next(c, s, Arrive(Frame(body)));
    assert s1.link.inbox == [] + Frame(body) == Frame(body);
    FrameParts(body, []);
    assert Frame(body) + [] == Frame(body);
    s2 := Next(c, s1, ReadHeader(Data(LENSIZE)));
    HeaderRoundTrip(|body|);
    assert HeaderBuffer(s1.link, s1.sizeBuffer, LENSIZE) == Digits(|body|, LENSIZE);
  }

  lemma {:induction false} LetterOpens(c: Cipher, k: Case, s: State, body: Bytes, message: Bytes) returns (s': State)
    requires s == Listening(k, s.sizeBuffer, s.link, s.texts).(loop := s.loop) && |s.sizeBuffer| == LENSIZE
    requires s.loop == Awaiting(|body|) && s.link.inbox == body && !s.link.hangup && 1 <= |body| <= INT_MAX
    requires AesOpen(c, k.d.key, body) == Some(message)
    ensures Enabled(c, s, ReadBody(Data(|body|))) && s' == Next(c, s, ReadBody(Data(|body|)))
    ensures Idle(k, s') && s'.texts == s.texts + [message]
  {
    assert body[..|body|] == body;
    s' := Next(c, s, ReadBody(Data(|body|)));
  }

  /** The three actions that receive a message. */
  function Receipt(body: Bytes): seq<Action> {
    [Arrive(Frame(body))] + [ReadHeader(Data(LENSIZE))] + [ReadBody(Data(|body|))]
  }

  /** A client between frames receives what comes in. */
  lemma {:induction false} ReceiveOne(c: Cipher, k: Case, states: seq<State>, actions: seq<Action>,
                                      nonce: Bytes, message: Bytes) returns (states': seq<State>, actions': seq<Action>)
    requires Proper(c, k) && |nonce| == NONCE_SIZE && Encryptable(|message|)
    requires IsRun(c, states, actions) && Idle(k, states[|actions|])
    ensures IsRun(c, states', actions') && actions' == actions + Receipt(Sealing(c, k, nonce, message))
    ensures Idle(k, states'[|actions'|]) && states'[|actions'|].texts == states[|actions|].texts + [message]
  {
    var body := Sealing(c, k, nonce, message);
    AesRoundTrip(c, k.d.key, nonce, message);
    var s1, s2 := LetterComes(c, k, states[|actions|], body);
    var s3 := LetterOpens(c, k, s2, body, message);
    states', actions' := RunThreeMore(c, states, actions, Arrive(Frame(body)), s1, ReadHeader(Data(LENSIZE)), s2,
                                      ReadBody(Data(|body|)), s3);
  }

  lemma {:induction false} RunThreeMore(c: Cipher, states: seq<State>, actions: seq<Action>, a: Action, s1: State,
                                        b: Action, s2: State, d: Action, s3: State)
      returns (states': seq<State>, actions': seq<Action>)
    requires IsRun(c, states, actions) && Enabled(c, states[|actions|], a) && s1 == Next(c, states[|actions|], a)
    requires Enabled(c, s1, b) && s2 == Next(c, s1, b) && Enabled(c, s2, d) && s3 == Next(c, s2, d)
    ensures IsRun(c, states', actions') && actions' == actions + ([a] + [b] + [d]) && states'[|actions'|] == s3
  {
    RunOneMore(c, states, actions, a, s1);
    RunOneMore(c, states + [s1], actions + [a], b, s2);
    RunOneMore(c, states + [s1] + [s2], actions + [a] + [b], d, s3);
    states', actions' := states + [s1] + [s2] + [s3], actions + [a] + [b] + [d];
  }

  lemma {:induction false} PollIdles(c: Cipher, k: Case, states: seq<State>, actions: seq<Action>)
      returns (states': seq<State>, actions': seq<Action>)
    requires IsRun(c, states, actions) && Idle(k, states[|actions|])
    ensures IsRun(c, states', actions') && actions' == actions + [ReadHeader(WouldBlock)]
    ensures states'[|actions'|] == states[|actions|]
  {
    RunOneMore(c, states, actions, ReadHeader(WouldBlock), states[|actions|]);
    states', actions' := states + [states[|actions|]], actions + [ReadHeader(WouldBlock)];
  }

  lemma {:induction false} ClientConnects(c: Cipher, k: Case, buffer: Bytes)
      returns (states: seq<State>, actions: seq<Action>)
    requires Greetable(c, k) && |buffer| == LENSIZE
    ensures IsRun(c, states, actions) && actions == [Dial(k)] && Idle(k, states[1]) && states[1].texts == []
  {
    DialAgrees(c, k);
    var s1 := At(k, buffer, Frame(Hello(c, k)));
    RunOneMore(c, [Fresh(buffer)], [], Dial(k), s1);
    states, actions := [Fresh(buffer)] + [s1], [] + [Dial(k)];
    assert [] + [Dial(k)] == [Dial(k)];
  }

  /** For every cipher, key pair and two messages there is a run of a client that
      receives both, with a poll in between that finds nothing. */
  lemma {:induction false} TwoMessagesAreHeard(c: Cipher, k: Case, buffer: Bytes, nonce: Bytes, first: Bytes,
                                               second: Bytes) returns (states: seq<State>, actions: seq<Action>)
    requires Greetable(c, k) && |buffer| == LENSIZE && |nonce| == NONCE_SIZE
    requires Encryptable(|first|) && Encryptable(|second|)
    ensures IsRun(c, states, actions)
    ensures actions == [Dial(k)] + Receipt(Sealing(c, k, nonce, first)) + [ReadHeader(WouldBlock)]
                       + Receipt(Sealing(c, k, nonce, second))
    ensures states[|actions|].texts == [first, second] && states[|actions|].loop.Running?
  {
    states, actions := ClientConnects(c, k, buffer);
    states, actions := ReceiveOne(c, k, states, actions, nonce, first);
    states, actions := PollIdles(c, k, states, actions);
    states, actions := ReceiveOne(c, k, states, actions, nonce, second);
    assert [] + [first] + [second] == [first, second];
  }
}
