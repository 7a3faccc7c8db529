/** What each step of the client does: when it gets a key, when its receive loop goes
    on, when it says farewell and closes, what it receives, and that nothing else
    changes. */
module ClientEffects {
  import opened Defs
  import opened Wire
  import opened Crypto
  import opened Links
  import opened Mails
  import opened Handshakes
  import opened ClientSpec

  // Connecting.

  /** The greeting came in: its header and its body were read, and the body is as long
      as the size buffer then says. */
  predicate CameIn(a: Action)
    requires a.Connect?
  {
    && a.header.Data? && a.body.Data?
    && a.header.n <= |a.buffer| && a.header.n + a.body.n <= |a.arrived|
    && a.body.n == Value(a.arrived[..a.header.n] + a.buffer[a.header.n..])
  }

  /** What came in as the server's public key. */
  function Greeting(a: Action): Bytes
    requires a.Connect? && CameIn(a)
  {
    a.arrived[a.header.n..a.header.n + a.body.n]
  }

  /** The greeting came in and parses, and the answer went out. */
  predicate Shaken(c: Cipher, a: Action)
    requires a.Connect?
  {
    CameIn(a) && c.parses(Greeting(a)) && a.sent
  }

  /** The client's stream once it has read the greeting and sent its answer. */
  function StreamAfter(c: Cipher, a: Action): Link
    requires a.Connect? && CameIn(a)
  {
    Link(a.arrived, a.arrived[a.header.n + a.body.n..], a.hangup,
         Frame(RsaSeal(c, Greeting(a), a.d.session, a.d.nonce, a.d.key)), [Greeting(a)], [], a.header.n == LENSIZE)
  }

  lemma {:induction false} NothingBefore(bytes: Bytes)
    ensures [] + bytes == bytes
  {
  }

  lemma {:induction false} ExchangeAgreesIff(c: Cipher, a: Action)
    requires a.Connect? && Exchangeable(a)
    ensures Exchanged(c, a).Agreed? <==> Shaken(c, a)
    ensures Exchanged(c, a).Faulted? <==> CameIn(a) && !c.parses(Greeting(a))
    ensures Exchanged(c, a).Agreed? ==> Exchanged(c, a) == Agreed(StreamAfter(c, a), a.d.key)
  {
    if a.header.Data? && a.body.Data? { CutTwice(a.arrived, a.header.n, a.body.n); }
    if Shaken(c, a) {
      NothingBefore(Frame(RsaSeal(c, Greeting(a), a.d.session, a.d.nonce, a.d.key)));
      assert [] + [Greeting(a)] == [Greeting(a)];
    }
  }

  /** Only a client that has never connected, and reaches the server, connects. It
      gets its key, and a running loop, if and only if the greeting came in whole
      and parses and the answer went out; it falls if and only if the greeting came
      in and does not parse; and else it stays connected, without key or loop. */
  lemma {:induction false} ConnectAgreesIff(c: Cipher, s: State, a: Action, s': State)
    requires Safe(c, s) && Enabled(c, s, a) && s' == Next(c, s, a) && a.Connect?
    ensures s.done || s.connected || !a.reached ==> s' == s
    ensures !s.done && !s.connected && a.reached ==>
              if Shaken(c, a)
              then s' == s.(connected := true, key := Some(a.d.key), draw := Some(a.d), loop := Running,
                            link := StreamAfter(c, a))
              else s' == s.(connected := true,
                            loop := if CameIn(a) && !c.parses(Greeting(a)) then Fallen else Ended)
    ensures s.key.None? && s'.key.Some? <==> !s.done && !s.connected && a.reached && Shaken(c, a)
  {
    ExchangeAgreesIff(c, a);
  }

  /** This connect went through, greeting, answer and all. */
  predicate Through(c: Cipher, s: State, a: Action) {
    a.Connect? && !s.done && !s.connected && a.reached && Shaken(c, a)
  }

  lemma {:induction false} OnlyConnectsDraw(c: Cipher, s: State, a: Action, s': State)
    requires Safe(c, s) && Enabled(c, s, a) && s' == Next(c, s, a)
    ensures if Through(c, s, a) then s'.draw == Some(a.d) else s'.draw == s.draw
  {
    if a.Connect? { ConnectAgreesIff(c, s, a, s'); }
  }

  /** In every run, a client has a key if and only if a connect of its went through,
      and then the key is the one drawn for it. */
  lemma {:induction false} KeyIsFromConnect(c: Cipher, states: seq<State>, actions: seq<Action>, n: nat)
      returns (i: nat)
    requires IsRun(c, states, actions) && n <= |actions|
    ensures states[n].key.Some? ==>
              i < n && Through(c, states[i], actions[i]) && states[n].key == Some(actions[i].d.key)
    ensures states[n].key.None? ==> forall k {:trigger actions[k]} | 0 <= k < n :: !Through(c, states[k], actions[k])
  {
    i := 0;
    RunsAreSafe(c, states, actions, n);
    if n > 0 {
      var m := n - 1;
      i := KeyIsFromConnect(c, states, actions, m);
      RunsAreSafe(c, states, actions, m);
      OnlyConnectsDraw(c, states[m], actions[m], states[n]);
      if Through(c, states[m], actions[m]) { i := m; }
    } else {
      StartsFresh(c, states, actions);
    }
  }

  // The receive loop.

  /** Exactly when the loop returns: it finds the client disconnected, the server has
      gone, or a read fails or is short. */
  predicate EndsLoop(s: State, a: Action) {
    || (a.ReadHeader? && (!s.connected || a.r.Eof? || a.r.BadFd? || a.r.OtherError?))
    || (a.ReadBody? && (!a.r.Data? || (s.loop.Awaiting? && a.r.n != s.loop.size)))
  }

  /** What a body, read whole, opens to. */
  ghost predicate Delivers(c: Cipher, s: State, a: Action, text: Bytes) {
    && a.ReadBody? && s.loop.Awaiting? && a.r.Data? && a.r.n == s.loop.size && a.r.n <= |s.link.inbox|
    && s.key.Some? && AesOpen(c, s.key.value, s.link.inbox[..a.r.n]) == Some(text)
  }

  lemma {:induction false} LoopEndsIff(c: Cipher, s: State, a: Action, s': State)
    requires Safe(c, s) && Enabled(c, s, a) && s' == Next(c, s, a) && Looping(s.loop)
    ensures s'.loop.Ended? <==> EndsLoop(s, a)
    ensures s'.loop.Awaiting? && s'.loop != s.loop <==> a.ReadHeader? && s.connected && a.r.Data?
    ensures s'.loop.Running? <==>
            || (s.loop.Running? && (a.ReadHeader? ==> s.connected && a.r.WouldBlock?))
            || exists text :: Delivers(c, s, a, text)
  {
    if a.Connect? { ConnectAgreesIff(c, s, a, s'); }
    if a.ReadBody? && a.r.Data? {
      var text := AesOpen(c, s.key.value, s.link.inbox[..a.r.n]);
      assert text.Some? && a.r.n == s.loop.size ==> Delivers(c, s, a, text.value);
    }
  }

  /** A poll of an idle socket changes nothing. */
  lemma {:induction false} IdlePollIsNothing(c: Cipher, s: State, s': State)
    requires Enabled(c, s, ReadHeader(WouldBlock)) && s.connected && s' == Next(c, s, ReadHeader(WouldBlock))
    ensures s' == s
  {
  }

  /** A text is received if and only if a body, read whole, opens to it. */
  lemma {:induction false} ReceivesIff(c: Cipher, s: State, a: Action, s': State, text: Bytes)
    requires Safe(c, s) && Enabled(c, s, a) && s' == Next(c, s, a)
    ensures s'.texts == s.texts + [text] <==> Delivers(c, s, a, text)
    ensures s'.texts == s.texts || exists t :: s'.texts == s.texts + [t]
  {
    if a.Connect? { ConnectAgreesIff(c, s, a, s'); }
    if a.ReadBody? && a.r.Data? && s.key.Some? {
      var plain := AesOpen(c, s.key.value, s.link.inbox[..a.r.n]);
      OtherLast(s.texts, text, if plain.Some? then plain.value else []);
    } else {
      OtherLast(s.texts, text, text);
    }
  }

  /** The server is found to have gone. */
  predicate FindsGone(s: State, a: Action) {
    (a.ReadHeader? && s.connected && a.r.Eof?) || (a.ReadBody? && a.r.Eof?)
  }

  /** A farewell is said if and only if a read finds the server gone; the socket is
      closed if and only if that happens, or the user disconnects, on a client that
      is connected; and then it is done for good. */
  lemma {:induction false} ClosesIff(c: Cipher, s: State, a: Action, s': State)
    requires Safe(c, s) && Enabled(c, s, a) && s' == Next(c, s, a)
    ensures s'.farewells == s.farewells + if FindsGone(s, a) then 1 else 0
    ensures s'.closings == s.closings + if s.connected && (FindsGone(s, a) || a.Disconnect?) then 1 else 0
    ensures s.connected && (FindsGone(s, a) || a.Disconnect?) ==> !s'.connected && s'.done
    ensures !(s.connected && (FindsGone(s, a) || a.Disconnect?)) ==>
              s'.done == s.done && (s.connected ==> s'.connected)
  {
    if a.Connect? { ConnectAgreesIff(c, s, a, s'); }
  }

  /** A user's disconnection does only that, and nothing if there is no connection. */
  lemma {:induction false} DisconnectOnlyCloses(c: Cipher, s: State, s': State)
    requires Enabled(c, s, Disconnect) && s' == Next(c, s, Disconnect)
    ensures s' == if s.connected then s.(connected := false, done := true, closings := s.closings + 1) else s
  {
  }

  /** A read that delivers n bytes takes exactly these off the stream, and a header
      read leaves them in the buffer; a read that delivers none takes none. */
  lemma {:induction false} ReadConsumes(c: Cipher, s: State, a: Action, s': State)
    requires Safe(c, s) && Enabled(c, s, a) && s' == Next(c, s, a) && (a.ReadHeader? || a.ReadBody?)
    ensures var took := a.r.Data? && (a.ReadHeader? ==> s.connected);
            && (!took ==> s'.link == s.link && s'.sizeBuffer == s.sizeBuffer)
            && (took ==>
                  && a.r.n <= |s.link.inbox| && s'.link.inbox == s.link.inbox[a.r.n..]
                  && s'.link.arrived == s.link.arrived && s'.link.hangup == s.link.hangup
                  && s'.link.outbox == s.link.outbox
                  && (a.ReadBody? ==> s'.sizeBuffer == s.sizeBuffer)
                  && (a.ReadHeader? ==>
                        && a.r.n <= LENSIZE && s'.sizeBuffer == s.link.inbox[..a.r.n] + s.sizeBuffer[a.r.n..]
                        && s'.loop == Awaiting(Value(s'.sizeBuffer))))
    ensures s'.key == s.key && s'.draw == s.draw
  {
  }

  /** A send changes nothing but what is written; the mail says what that is. It
      brings the client down if and only if it is connected and has no key. */
  lemma {:induction false} SendOnlyWrites(c: Cipher, s: State, a: Action, s': State)
    requires Safe(c, s) && Enabled(c, s, a) && s' == Next(c, s, a) && a.Send?
    ensures s' == s.(link := s.link.(outbox := s'.link.outbox), loop := s'.loop)
    ensures s'.loop == if s.connected && s.key.None? then Fallen else s.loop
  {
  }

  /** What comes in is queued behind what came in before; a hangup is only that. */
  lemma {:induction false} KernelOnlyDelivers(c: Cipher, s: State, a: Action, s': State)
    requires Enabled(c, s, a) && s' == Next(c, s, a) && (a.Arrive? || a.HangUp?)
    ensures s' == s.(link := if a.HangUp? then s.link.(hangup := true)
                             else s.link.(arrived := s.link.arrived + a.bytes, inbox := s.link.inbox + a.bytes))
  {
  }
}
