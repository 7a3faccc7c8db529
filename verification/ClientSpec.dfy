/** The client as a state machine: its receive loop, read by read, and the calls
    that other threads make in between. A step is what the model takes to be
    atomic: one call of the public interface, one read with whatever the loop does
    about its result. */
module ClientSpec {
  import opened Defs
  import opened Wire
  import opened Crypto
  import opened Links
  import opened Mails
  import opened Handshakes

  /** Whether the receive loop is about to read a header, or a body of the given
      size, or has returned; or the program has fallen: over a public key that did
      not parse, a text that did not decrypt, or a key that was never set. */
  datatype Loop = Running | Awaiting(size: nat) | Ended | Fallen

  /** draw: what was drawn for the exchange, once it has agreed; texts: what on_recv
      was started with; farewells: how often on_disconnected was; closings: how
      often the socket was closed. */
  datatype State = State(
    connected: bool, done: bool, key: Option<Bytes>, sizeBuffer: Bytes, link: Link, loop: Loop,
    draw: Option<Draw>, texts: seq<Bytes>, farewells: nat, closings: nat)

  /** A connect carries all that the key exchange meets: what is drawn, what has
      come in, what the reads report, and whether the answer went out. */
  datatype Action =
    | Connect(reached: bool, d: Draw, arrived: Bytes, hangup: bool, buffer: Bytes,
              header: ReadResult, body: ReadResult, sent: bool)
    | ReadHeader(r: ReadResult)
    | ReadBody(r: ReadResult)
    | Send(data: Bytes, nonce: Bytes, result: SendResult)
    | Disconnect
    | Arrive(bytes: Bytes)
    | HangUp

  /** The link of a connection as the client opens it. */
  function Opened(arrived: Bytes, hangup: bool): Link {
    Link(arrived, arrived, hangup, [], [], [], true)
  }

  /** A client before it connects. */
  function Fresh(sizeBuffer: Bytes): State {
    State(false, false, None, sizeBuffer, Opened([], false), Ended, None, [], 0, 0)
  }

  predicate Exchangeable(a: Action)
    requires a.Connect?
  {
    |a.buffer| == LENSIZE && AllowsReceive(Opened(a.arrived, a.hangup), a.buffer, a.header, a.body)
  }

  /** The kernel's part in a step, and the program's still being there. */
  ghost predicate Enabled(c: Cipher, s: State, a: Action) {
    && s.loop != Fallen
    && |s.sizeBuffer| == LENSIZE
    && match a
       case Connect(_, d, _, _, _, _, _, _) => Exchangeable(a) && ProperDraw(d)
       case ReadHeader(r) => s.loop.Running? && (s.connected ==> Allows(s.link, true, LENSIZE, r))
       case ReadBody(r) => s.loop.Awaiting? && Allows(s.link, s.connected, s.loop.size, r)
       case Send(data, nonce, result) =>
         s.key.Some? && result.Sent? ==> result.n <= |Frame(AesSeal(c, s.key.value, nonce, data))|
       case Disconnect => true
       case Arrive(_) => s.connected && !s.link.hangup
       case HangUp => s.connected
  }

  function Exchanged(c: Cipher, a: Action): Outcome
    requires a.Connect? && Exchangeable(a)
  {
    ClientExchange(c, a.d, Opened(a.arrived, a.hangup), a.buffer, a.header, a.body, a.sent)
  }

  /** This connect goes through to the key exchange. */
  predicate Dials(s: State, a: Action) {
    a.Connect? && Exchangeable(a) && !s.done && !s.connected && a.reached
  }

  /** A client connects once in its life, if the server is reached; if the exchange
      then fails it stays connected, without a key or a receive loop. */
  function AfterConnect(c: Cipher, s: State, a: Action): State
    requires a.Connect? && Exchangeable(a)
  {
    if !Dials(s, a) then s
    else
      match Exchanged(c, a)
      case Agreed(link, key) =>
        s.(connected := true, key := Some(key), draw := Some(a.d), link := link, loop := Running)
      case Refused => s.(connected := true, loop := Ended)
      case Faulted => s.(connected := true, loop := Fallen)
  }

  function Disconnected(s: State): State {
    if s.connected then s.(connected := false, done := true, closings := s.closings + 1) else s
  }

  /** The loop itself disconnects when the server has closed. */
  function Farewell(s: State): State {
    Disconnected(s).(farewells := s.farewells + 1, loop := Ended)
  }

  /** If the user has disconnected by the time the read returns, its result is not
      looked at. */
  function AfterHeader(s: State, r: ReadResult): State
    requires |s.sizeBuffer| == LENSIZE
    requires s.connected && r.Data? ==> r.n <= LENSIZE && r.n <= |s.link.inbox|
  {
    if !s.connected then s.(loop := Ended)
    else
      match r
      case Eof => Farewell(s)
      case WouldBlock => s
      case BadFd => s.(loop := Ended)
      case OtherError => s.(loop := Ended)
      case Data(n) =>
        var buffer := HeaderBuffer(s.link, s.sizeBuffer, n);
        s.(sizeBuffer := buffer, link := TakeHeader(s.link, n), loop := Awaiting(Value(buffer)))
  }

  /** The key of a connected client is that of its exchange. */
  function TextOf(c: Cipher, s: State, body: Bytes): Option<Bytes> {
    if s.key.Some? then AesOpen(c, s.key.value, body) else None
  }

  function AfterBody(c: Cipher, s: State, r: ReadResult): State
    requires s.loop.Awaiting? && (r.Data? ==> r.n <= |s.link.inbox|)
  {
    match r
    case Eof => Farewell(s)
    case WouldBlock => s.(loop := Ended)
    case BadFd => s.(loop := Ended)
    case OtherError => s.(loop := Ended)
    case Data(n) =>
      var l := s.link;
      var text := TextOf(c, s, l.inbox[..n]);
      if n != s.loop.size then s.(link := TakeBody(l, n, s.loop.size), loop := Ended)
      else if text.None? then s.(link := TakeBody(l, n, n + 1), loop := Fallen)
      else s.(link := TakeBody(l, n, n), texts := s.texts + [text.value], loop := Running)
  }

  /** A client whose key exchange has failed has no key to send with. */
  function AfterSend(c: Cipher, s: State, data: Bytes, nonce: Bytes, result: SendResult): State {
    if !s.connected then s
    else if s.key.None? || !Keyed(s.key.value) then s.(loop := Fallen)
    else if result.SendError? then s
    else
      var l := s.link;
      s.(link := l.(outbox := l.outbox + Part(Frame(AesSeal(c, s.key.value, nonce, data)), result.n)))
  }

  ghost function Next(c: Cipher, s: State, a: Action): State
    requires Enabled(c, s, a)
  {
    match a
    case Connect(_, _, _, _, _, _, _, _) => AfterConnect(c, s, a)
    case ReadHeader(r) => AfterHeader(s, r)
    case ReadBody(r) => AfterBody(c, s, r)
    case Send(data, nonce, result) => AfterSend(c, s, data, nonce, result)
    case Disconnect => Disconnected(s)
    case Arrive(bytes) => s.(link := WithArrival(s.link, bytes))
    case HangUp => s.(link := s.link.(hangup := true))
  }

  /** states[i] is the state before actions[i], from a client that has done nothing. */
  ghost predicate IsRun(c: Cipher, states: seq<State>, actions: seq<Action>) {
    && |states| == |actions| + 1
    && (forall i {:trigger actions[i]} | 0 <= i < |actions| ::
          Enabled(c, states[i], actions[i]) && states[i + 1] == Next(c, states[i], actions[i]))
    && exists buffer: Bytes :: |buffer| == LENSIZE && states[0] == Fresh(buffer)
  }

  lemma {:induction false} RunOneMore(c: Cipher, states: seq<State>, actions: seq<Action>, a: Action, s': State)
    requires IsRun(c, states, actions)
    requires Enabled(c, states[|actions|], a) && s' == Next(c, states[|actions|], a)
    ensures IsRun(c, states + [s'], actions + [a])
  {
    var ss, aa := states + [s'], actions + [a];
    forall i | 0 <= i < |aa| ensures Enabled(c, ss[i], aa[i]) && ss[i + 1] == Next(c, ss[i], aa[i]) {
      assert ss[i] == states[i];
      assert aa[i] == if i < |actions| then actions[i] else a;
    }
  }

  lemma {:induction false} StartsFresh(c: Cipher, states: seq<State>, actions: seq<Action>)
    requires IsRun(c, states, actions)
    ensures states[0].draw.None? && states[0].link.intact && Safe(c, states[0])
  {
  }

  // What every step keeps.

  predicate Looping(l: Loop) {
    l.Running? || l.Awaiting?
  }

  /** What the loop is in the middle of reading. */
  ghost predicate Reading(l: Loop, link: Link) {
    match l
    case Running => link.partial == []
    case Awaiting(size) => BodyDue(link, size)
    case _ => true
  }

  /** The frames read since the greeting are the texts received. */
  ghost predicate Flows(c: Cipher, key: Bytes, l: Link, texts: seq<Bytes>) {
    Accounted(l) && |l.frames| >= 1 && Opens(c, key, l.frames[1..], texts)
  }

  /** The key is the one drawn for the exchange, and there is none before. */
  predicate Drawn(s: State) {
    && s.key == (if s.draw.Some? then Some(s.draw.value.key) else None)
    && (s.draw.Some? ==> ProperDraw(s.draw.value))
  }

  predicate Counted(s: State) {
    && s.closings == (if s.done then 1 else 0) && (s.done ==> !s.connected)
    && (s.draw.Some? ==> s.connected || s.done)
    && s.farewells <= s.closings && (s.farewells > 0 ==> s.loop.Ended?)
  }

  ghost predicate Safe(c: Cipher, s: State) {
    && |s.sizeBuffer| == LENSIZE && Drawn(s) && Counted(s)
    && (s.draw.Some? ==> Flows(c, s.draw.value.key, s.link, s.texts) && Reading(s.loop, s.link))
    && (s.draw.None? ==> !Looping(s.loop) && s.texts == [])
  }

  lemma {:induction false} AgreedFlows(c: Cipher, a: Action, l: Link, key: Bytes)
    requires a.Connect? && Exchangeable(a) && Exchanged(c, a) == Agreed(l, key)
    ensures Flows(c, key, l, []) && l.partial == [] && key == a.d.key && l.arrived == a.arrived
    ensures |l.frames| == 1 && l.outbox == Frame(RsaSeal(c, l.frames[0], a.d.session, a.d.nonce, a.d.key))
    ensures a.header.Data? && (l.intact <==> a.header.n == LENSIZE)
  {
    assert Frames([]) == [];
    var l0 := Opened(a.arrived, a.hangup);
    ReceiveIsAccounted(l0, a.buffer, a.header, a.body);
    var r := Receive(l0, a.buffer, a.header, a.body).value;
    LinkOutbox(r, l, Frame(RsaSeal(c, l.frames[0], a.d.session, a.d.nonce, a.d.key)));
  }

  /** What is written to a peer has no part in reading from it. */
  lemma {:induction false} LinkOutbox(r: Link, l: Link, answer: Bytes)
    requires r.outbox == [] && l == r.(outbox := r.outbox + answer)
    ensures l.outbox == answer && (Accounted(r) ==> Accounted(l))
  {
    assert [] + answer == answer;
  }

  lemma {:induction false} ConnectIsSafe(c: Cipher, s: State, a: Action, s': State)
    requires Safe(c, s) && s.loop != Fallen && a.Connect? && Exchangeable(a) && ProperDraw(a.d)
    requires s' == AfterConnect(c, s, a)
    ensures Safe(c, s')
  {
    if Dials(s, a) && Exchanged(c, a).Agreed? {
      AgreedFlows(c, a, Exchanged(c, a).link, Exchanged(c, a).key);
    }
  }

  lemma {:induction false} HeaderIsSafe(c: Cipher, s: State, r: ReadResult, s': State)
    requires Safe(c, s) && s.loop.Running? && (s.connected ==> Allows(s.link, true, LENSIZE, r))
    requires s' == AfterHeader(s, r)
    ensures Safe(c, s')
  {
    if s.connected && r.Data? { HeaderIsAccounted(s.link, s.sizeBuffer, r.n); }
  }

  lemma {:induction false} BodyFlows(c: Cipher, key: Bytes, l: Link, texts: seq<Bytes>, n: nat, text: Bytes)
    requires Flows(c, key, l, texts) && BodyDue(l, n) && n <= |l.inbox| && AesOpen(c, key, l.inbox[..n]) == Some(text)
    ensures Flows(c, key, TakeBody(l, n, n), texts + [text]) && TakeBody(l, n, n).partial == []
  {
    BodyIsAccounted(l, n, n);
    var frames := l.frames + [l.inbox[..n]];
    assert frames[1..] == l.frames[1..] + [l.inbox[..n]];
  }

  lemma {:induction false} BodyIsSafe(c: Cipher, s: State, r: ReadResult, s': State)
    requires Safe(c, s) && s.loop.Awaiting? && Allows(s.link, s.connected, s.loop.size, r)
    requires s' == AfterBody(c, s, r)
    ensures Safe(c, s')
  {
    if r.Data? {
      BodyIsAccounted(s.link, r.n, s.loop.size);
      SpoiltIsAccounted(s.link, r.n);
      if s'.loop.Running? { BodyFlows(c, s.draw.value.key, s.link, s.texts, r.n, s'.texts[|s.texts|]); }
    }
  }

  lemma {:induction false} ArriveIsSafe(c: Cipher, s: State, bytes: Bytes)
    requires Safe(c, s)
    ensures Safe(c, s.(link := WithArrival(s.link, bytes)))
  {
    if s.draw.Some? { ArrivalIsAccounted(s.link, bytes, if s.loop.Awaiting? then s.loop.size else 0); }
  }

  lemma {:induction false} SendIsSafe(c: Cipher, s: State, data: Bytes, nonce: Bytes, result: SendResult)
    requires Safe(c, s) && s.loop != Fallen
    ensures Safe(c, AfterSend(c, s, data, nonce, result))
  {
  }

  lemma {:induction false} StepIsSafe(c: Cipher, s: State, a: Action, s': State)
    requires Safe(c, s) && Enabled(c, s, a) && s' == Next(c, s, a)
    ensures Safe(c, s')
  {
    match a
    case Connect(_, _, _, _, _, _, _, _) => ConnectIsSafe(c, s, a, s');
    case ReadHeader(r) => HeaderIsSafe(c, s, r, s');
    case ReadBody(r) => BodyIsSafe(c, s, r, s');
    case Send(data, nonce, result) => SendIsSafe(c, s, data, nonce, result);
    case Disconnect =>
    case Arrive(bytes) => ArriveIsSafe(c, s, bytes);
    case HangUp =>
  }

  /** However the server, the network and the user behave, the receive loop
      delivers the texts of the frames it has read, in order; closes the socket
      at most once; and says farewell at most once, and then ends. */
  lemma {:induction false} RunsAreSafe(c: Cipher, states: seq<State>, actions: seq<Action>, n: nat)
    requires IsRun(c, states, actions) && n <= |actions|
    ensures Safe(c, states[n])
  {
    if n == 0 {
      StartsFresh(c, states, actions);
    } else {
      RunsAreSafe(c, states, actions, n - 1);
      StepIsSafe(c, states[n - 1], actions[n - 1], states[n]);
    }
  }

  // Whole headers.

  /** This connect agrees on a key. */
  predicate Agrees(c: Cipher, s: State, a: Action) {
    Dials(s, a) && Exchanged(c, a).Agreed?
  }

  /** The action cuts no header short. */
  predicate WholeHeader(c: Cipher, s: State, a: Action) {
    match a
    case Connect(_, _, _, _, _, header, _, _) => Agrees(c, s, a) ==> header == Data(LENSIZE)
    case ReadHeader(r) => s.connected && r.Data? ==> r.n == LENSIZE
    case _ => true
  }

  ghost predicate WholeUntil(c: Cipher, states: seq<State>, actions: seq<Action>, n: nat)
    requires n <= |actions| < |states|
  {
    forall i {:trigger actions[i]} | 0 <= i < n :: WholeHeader(c, states[i], actions[i])
  }

  lemma {:induction false} WholeOneMore(c: Cipher, states: seq<State>, actions: seq<Action>, n: nat)
    requires n < |actions| < |states|
    ensures WholeUntil(c, states, actions, n + 1) <==>
            WholeUntil(c, states, actions, n) && WholeHeader(c, states[n], actions[n])
  {
  }

  lemma {:induction false} StepIsIntact(c: Cipher, s: State, a: Action, s': State)
    requires Safe(c, s) && Enabled(c, s, a) && s' == Next(c, s, a) && (s.draw.None? ==> s.link.intact)
    ensures s'.link.intact <==> s.link.intact && WholeHeader(c, s, a)
    ensures s'.draw.None? ==> s'.link.intact
  {
    if Agrees(c, s, a) { AgreedFlows(c, a, Exchanged(c, a).link, Exchanged(c, a).key); }
  }

  /** In every run, the stream is intact if and only if every header was read whole. */
  lemma {:induction false} IntactIffWholeHeaders(c: Cipher, states: seq<State>, actions: seq<Action>, n: nat)
    requires IsRun(c, states, actions) && n <= |actions|
    ensures states[n].link.intact <==> WholeUntil(c, states, actions, n)
    ensures states[n].draw.None? ==> states[n].link.intact
  {
    if n == 0 {
      StartsFresh(c, states, actions);
    } else {
      IntactIffWholeHeaders(c, states, actions, n - 1);
      WholeOneMore(c, states, actions, n - 1);
      RunsAreSafe(c, states, actions, n - 1);
      StepIsIntact(c, states[n - 1], actions[n - 1], states[n]);
    }
  }

  /** In every run of a client that has agreed on a key, if all of a list of frames
      has come in and been read, it is what the client has read if and only if
      every header was read whole. */
  lemma {:induction false} ReadsExactly(c: Cipher, states: seq<State>, actions: seq<Action>, n: nat, sent: seq<Bytes>)
    requires IsRun(c, states, actions) && n <= |actions| && states[n].draw.Some?
    requires Framable(sent) && states[n].link.arrived == Frames(sent)
    requires states[n].link.inbox == [] && states[n].link.partial == []
    ensures states[n].link.frames == sent <==> WholeUntil(c, states, actions, n)
  {
    RunsAreSafe(c, states, actions, n);
    IntactIffWholeHeaders(c, states, actions, n);
    InStepIffIntact(states[n].link, sent);
  }

  /** What the server sends after its public key is what the client receives. */
  lemma {:induction false} ServerIsHeard(c: Cipher, s: State, public: Bytes, nonces: seq<Bytes>, messages: seq<Bytes>)
    requires Lawful(c) && Safe(c, s) && s.draw.Some? && s.link.intact
    requires Sending(c, s.draw.value.key, nonces, messages) && |public| < HEADER_LIMIT
    requires s.link.arrived <= Frames([public] + Sealed(c, s.draw.value.key, nonces, messages))
    ensures s.texts <= messages
    ensures (&& s.link.arrived == Frames([public] + Sealed(c, s.draw.value.key, nonces, messages))
             && s.link.inbox == [] && s.link.partial == []) ==> s.texts == messages
  {
    var key := s.draw.value.key;
    var bodies := Sealed(c, key, nonces, messages);
    SealedIsFramable(c, key, nonces, messages);
    ReadIsPrefixOfSent(s.link, [public] + bodies);
    assert ([public] + bodies)[1..] == bodies;
    assert s.link.frames[1..] <= bodies;
    OpenedArePrefix(c, key, nonces, messages, s.link.frames[1..], s.texts);
  }

  // What the client sends.

  /** What one action puts in the mail to the server. */
  function StepMail(s: State, a: Action): seq<Mail> {
    if a.Send? && s.connected && s.key.Some? && Keyed(s.key.value) && a.result.Sent?
    then [Mail(a.nonce, a.data, a.result.n)] else []
  }

  /** All the mail of the first n actions of a run: the sends made while connected. */
  function MailFrom(states: seq<State>, actions: seq<Action>, n: nat): seq<Mail>
    requires n <= |actions| < |states|
  {
    if n == 0 then [] else MailFrom(states, actions, n - 1) + StepMail(states[n - 1], actions[n - 1])
  }

  /** The client's answer to the greeting it has read. */
  function Answer(c: Cipher, s: State): Bytes
    requires s.draw.Some? && |s.link.frames| >= 1
  {
    var d := s.draw.value;
    RsaSeal(c, s.link.frames[0], d.session, d.nonce, d.key)
  }

  /** What the client has written, no send taking more of a message than there is. */
  ghost predicate HoldsMail(c: Cipher, s: State, mails: seq<Mail>) {
    if s.draw.None? then mails == []
    else
      && |s.link.frames| >= 1 && s.link.outbox == Frame(Answer(c, s)) + Posted(c, s.draw.value.key, mails)
      && AllFit(c, s.draw.value.key, mails)
  }

  lemma {:induction false} SendHoldsMail(c: Cipher, s: State, a: Action, s': State, mails: seq<Mail>)
    requires Drawn(s) && a.Send? && Enabled(c, s, a) && s' == Next(c, s, a) && HoldsMail(c, s, mails)
    ensures HoldsMail(c, s', mails + StepMail(s, a))
  {
    if StepMail(s, a) == [] {
      assert mails + [] == mails;
    } else {
      var key, m := s.draw.value.key, Mail(a.nonce, a.data, a.result.n);
      PostedOneMore(c, key, mails, m);
      Associate(Frame(Answer(c, s)), Posted(c, key, mails), Letter(c, key, m));
    }
  }

  /** The greeting stays the first frame, and what was written stays written. */
  lemma {:induction false} OthersWriteNothing(c: Cipher, s: State, a: Action, s': State)
    requires Enabled(c, s, a) && s' == Next(c, s, a) && !a.Send? && !Agrees(c, s, a)
    ensures s'.draw == s.draw && s'.link.outbox == s.link.outbox && s.link.frames <= s'.link.frames
  {
  }

  lemma {:induction false} StepHoldsMail(c: Cipher, s: State, a: Action, s': State, mails: seq<Mail>)
    requires Safe(c, s) && Enabled(c, s, a) && s' == Next(c, s, a) && HoldsMail(c, s, mails)
    ensures HoldsMail(c, s', mails + StepMail(s, a))
  {
    if a.Send? {
      SendHoldsMail(c, s, a, s', mails);
    } else {
      assert mails + [] == mails;
      if Agrees(c, s, a) {
        AgreedFlows(c, a, s'.link, s'.key.value);
        assert Frame(Answer(c, s')) + [] == Frame(Answer(c, s'));
      } else {
        OthersWriteNothing(c, s, a, s');
      }
    }
  }

  /** In every run, what the client has written is its answer to the greeting, once
      it has agreed on a key, and then, in order, what the kernel took of the
      message of each send made while connected. */
  lemma {:induction false} OutboxHoldsMail(c: Cipher, states: seq<State>, actions: seq<Action>, n: nat)
    requires IsRun(c, states, actions) && n <= |actions|
    ensures HoldsMail(c, states[n], MailFrom(states, actions, n))
  {
    if n == 0 {
      FreshHoldsNone(c, states, actions);
    } else {
      var m := n - 1;
      OutboxHoldsMail(c, states, actions, m);
      RunHoldsMore(c, states, actions, m);
    }
  }

  lemma {:induction false} FreshHoldsNone(c: Cipher, states: seq<State>, actions: seq<Action>)
    requires IsRun(c, states, actions)
    ensures HoldsMail(c, states[0], MailFrom(states, actions, 0))
  {
  }

  lemma {:induction false} RunHoldsMore(c: Cipher, states: seq<State>, actions: seq<Action>, n: nat)
    requires IsRun(c, states, actions) && n < |actions| && HoldsMail(c, states[n], MailFrom(states, actions, n))
    ensures HoldsMail(c, states[n + 1], MailFrom(states, actions, n + 1))
  {
    RunsAreSafe(c, states, actions, n);
    StepHoldsMail(c, states[n], actions[n], states[n + 1], MailFrom(states, actions, n));
  }

  /** In every run of a client that has agreed on a key, what it has written is its
      answer and the sealed data of its mail, in frames, if and only if every send
      made while connected went out whole. */
  lemma {:induction false} OutboxIffWhole(c: Cipher, states: seq<State>, actions: seq<Action>, n: nat)
    requires IsRun(c, states, actions) && n <= |actions| && states[n].draw.Some?
    ensures var s, mails := states[n], MailFrom(states, actions, n);
            var key := s.draw.value.key;
            && |s.link.frames| >= 1
            && (s.link.outbox == Frames([Answer(c, s)] + BodiesIn(c, key, mails)) <==> AllWhole(c, key, mails))
  {
    OutboxHoldsMail(c, states, actions, n);
    StreamIffWhole(c, states[n].draw.value.key, Answer(c, states[n]), MailFrom(states, actions, n));
  }

  // Whom the client talks to.

  lemma {:induction false} AgreedWithServer(c: Cipher, s: State, a: Action, public: Bytes, stream: Bytes)
    requires Agrees(c, s, a) && a.header == Data(LENSIZE)
    requires Sendable(public) && Frame(public) <= stream && a.arrived <= stream
    ensures Exchanged(c, a).link.frames == [public]
  {
    var l := Opened(a.arrived, a.hangup);
    var queued := FirstFrame(a.arrived, stream, public, a.buffer, l, a.body.n);
    ReceiveTakesOneFrame(l, a.buffer, a.header, a.body, public, queued);
  }

  lemma {:induction false} ArrivedGrows(c: Cipher, s: State, a: Action, s': State)
    requires Safe(c, s) && Enabled(c, s, a) && s' == Next(c, s, a) && s.draw.Some?
    ensures s'.draw == s.draw && s.link.arrived <= s'.link.arrived && s.link.frames <= s'.link.frames
    ensures !Agrees(c, s, a)
  {
  }

  /** The header of the greeting was read whole. */
  ghost predicate GreetedWhole(c: Cipher, states: seq<State>, actions: seq<Action>, n: nat)
    requires n <= |actions| < |states|
  {
    forall i {:trigger actions[i]} | 0 <= i < n && Agrees(c, states[i], actions[i]) ::
      actions[i].header == Data(LENSIZE)
  }

  /** In every run, if what has come in is how a server's output begins, and the
      greeting's header was not cut short, the answer went to that server. */
  lemma {:induction false} AnswersServer(c: Cipher, states: seq<State>, actions: seq<Action>, n: nat,
                                         public: Bytes, stream: Bytes)
    requires IsRun(c, states, actions) && n <= |actions| && states[n].draw.Some?
    requires Sendable(public) && Frame(public) <= stream && states[n].link.arrived <= stream
    requires GreetedWhole(c, states, actions, n)
    ensures |states[n].link.frames| >= 1 && states[n].link.frames[0] == public
  {
    var s, a := states[n - 1], actions[n - 1];
    RunsAreSafe(c, states, actions, n - 1);
    if s.draw.Some? {
      ArrivedGrows(c, s, a, states[n]);
      AnswersServer(c, states, actions, n - 1, public, stream);
    } else {
      NewlyDrawn(c, s, a, states[n]);
      AgreedFlows(c, a, states[n].link, states[n].key.value);
      AgreedWithServer(c, s, a, public, stream);
    }
  }

  /** Only a connect that agrees gives a client its key. */
  lemma {:induction false} NewlyDrawn(c: Cipher, s: State, a: Action, s': State)
    requires Enabled(c, s, a) && s' == Next(c, s, a) && s.draw.None?
    ensures s'.draw.Some? <==> Agrees(c, s, a)
    ensures Agrees(c, s, a) ==> Exchanged(c, a) == Agreed(s'.link, s'.key.value)
  {
  }

  // When the program falls.

  /** Exactly when a step brings the client down: the greeting does not parse as a
      public key, a whole body does not decrypt, or a send finds no key. */
  lemma {:induction false} FallsIff(c: Cipher, s: State, a: Action, s': State)
    requires Safe(c, s) && Enabled(c, s, a) && s' == Next(c, s, a)
    ensures s'.loop.Fallen? <==>
            || (Dials(s, a) && Exchanged(c, a).Faulted?)
            || (a.ReadBody? && a.r.Data? && a.r.n == s.loop.size
                && AesOpen(c, s.draw.value.key, s.link.inbox[..a.r.n]).None?)
            || (a.Send? && s.connected && s.draw.None?)
  {
  }

  /** Whether one of the first n actions of a run is a connect that agrees. */
  ghost predicate HasAgreed(c: Cipher, states: seq<State>, actions: seq<Action>, n: nat)
    requires n <= |actions| < |states|
  {
    exists i {:trigger actions[i]} :: 0 <= i < n && Agrees(c, states[i], actions[i])
  }

  lemma {:induction false} AgreedOneMore(c: Cipher, states: seq<State>, actions: seq<Action>, n: nat)
    requires n < |actions| < |states|
    ensures HasAgreed(c, states, actions, n + 1) <==>
            HasAgreed(c, states, actions, n) || Agrees(c, states[n], actions[n])
  {
    if Agrees(c, states[n], actions[n]) { assert actions[n] == actions[n]; }
  }

  lemma {:induction false} KeyIffAgreed(c: Cipher, states: seq<State>, actions: seq<Action>, n: nat)
    requires IsRun(c, states, actions) && n <= |actions|
    ensures states[n].draw.Some? <==> HasAgreed(c, states, actions, n)
  {
    if n == 0 {
      StartsFresh(c, states, actions);
    } else {
      var s, a := states[n - 1], actions[n - 1];
      KeyIffAgreed(c, states, actions, n - 1);
      AgreedOneMore(c, states, actions, n - 1);
      if s.draw.Some? {
        RunsAreSafe(c, states, actions, n - 1);
        ArrivedGrows(c, s, a, states[n]);
      } else {
        NewlyDrawn(c, s, a, states[n]);
      }
    }
  }

  /** In every run, a send made while connected brings the client down if and only
      if no key exchange has agreed. */
  lemma {:induction false} SendFallsIffNotAgreed(c: Cipher, states: seq<State>, actions: seq<Action>, n: nat)
    requires IsRun(c, states, actions) && n < |actions| && actions[n].Send? && states[n].connected
    ensures states[n + 1].loop.Fallen? <==> !HasAgreed(c, states, actions, n)
  {
    RunsAreSafe(c, states, actions, n);
    FallsIff(c, states[n], actions[n], states[n + 1]);
    KeyIffAgreed(c, states, actions, n);
  }
}
