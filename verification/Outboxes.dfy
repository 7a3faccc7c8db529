/** What the server sends: in every run, what has been written to a client is the
    server's public key and then the messages of the calls that reached it. */
module Outboxes {
  import opened Defs
  import opened Wire
  import opened Crypto
  import opened Links
  import opened Mails
  import opened ServerSpec
  import opened ServerBook
  import opened ServerSafety
  import opened ServerSteps

  function MailOf(s: State, id: SizeT, data: Bytes, nonce: Bytes, result: SendResult, fd: nat): seq<Mail> {
    if s.phase.Crashed? || !s.serving || id !in s.book.clients || result.SendError? then []
    else if s.book.clients[id].fd != fd || !Keyed(s.book.clients[id].key) then []
    else [Mail(nonce, data, result.n)]
  }

  function MailsOf(c: Cipher, s: State, a: Action, n: nat, fd: nat): seq<Mail>
    requires a.SendAll? && |a.order| == |a.nonces| == |a.results| && n <= |a.order|
  {
    if n == 0 then []
    else
      MailsOf(c, s, a, n - 1, fd)
      + MailOf(AfterSends(c, s, a, n - 1), a.order[n - 1].id, a.data, a.nonces[n - 1], a.results[n - 1], fd)
  }

  /** What one action puts in the mail to one descriptor. */
  ghost function StepMail(c: Cipher, s: State, a: Action, fd: nat): seq<Mail>
    requires Enabled(c, s, a)
  {
    match a
    case Send(id, data, nonce, result) => MailOf(s, id, data, nonce, result, fd)
    case SendAll(order, _, _, _) => MailsOf(c, s, a, |order|, fd)
    case _ => []
  }

  /** All the mail of the first n actions of a run. */
  ghost function MailTo(c: Cipher, states: seq<State>, actions: seq<Action>, n: nat, fd: nat): seq<Mail>
    requires IsRun(c, states, actions) && n <= |actions|
  {
    if n == 0 then []
    else MailTo(c, states, actions, n - 1, fd) + StepMail(c, states[n - 1], actions[n - 1], fd)
  }

  // One step.

  lemma {:induction false} SendsKeepBook(c: Cipher, s: State, a: Action, n: nat)
    requires a.SendAll? && |a.order| == |a.nonces| == |a.results| && n <= |a.order|
    ensures var s' := AfterSends(c, s, a, n); s' == s.(links := s'.links, phase := s'.phase)
    ensures s.links.Keys <= AfterSends(c, s, a, n).links.Keys
  {
    if n > 0 { SendsKeepBook(c, s, a, n - 1); }
  }

  /** Only a client with this key has this descriptor. */
  ghost predicate KeyOf(b: Book, fd: nat, key: Bytes) {
    forall id | id in b.clients && b.clients[id].fd == fd :: b.clients[id].key == key
  }

  lemma {:induction false} SendPosts(c: Cipher, s: State, id: SizeT, data: Bytes, nonce: Bytes, result: SendResult,
                                     fd: nat, key: Bytes)
    requires KeyOf(s.book, fd, key)
    ensures LinkOf(AfterSend(c, s, id, data, nonce, result), fd).outbox ==
            LinkOf(s, fd).outbox + Posted(c, key, MailOf(s, id, data, nonce, result, fd))
  {
    if MailOf(s, id, data, nonce, result, fd) != [] {
      PostedOneMore(c, key, [], Mail(nonce, data, result.n));
      assert [] + [Mail(nonce, data, result.n)] == [Mail(nonce, data, result.n)];
    }
  }

  lemma {:induction false} SendsPost(c: Cipher, s: State, a: Action, n: nat, fd: nat, key: Bytes)
    requires a.SendAll? && |a.order| == |a.nonces| == |a.results| && n <= |a.order| && KeyOf(s.book, fd, key)
    ensures LinkOf(AfterSends(c, s, a, n), fd).outbox ==
            LinkOf(s, fd).outbox + Posted(c, key, MailsOf(c, s, a, n, fd))
  {
    if n > 0 {
      SendsPost(c, s, a, n - 1, fd, key);
      SendsKeepBook(c, s, a, n - 1);
      OneMorePosts(c, AfterSends(c, s, a, n - 1), a.order[n - 1].id, a.data, a.nonces[n - 1], a.results[n - 1], fd, key,
                   LinkOf(s, fd).outbox, MailsOf(c, s, a, n - 1, fd));
    }
  }

  lemma {:induction false} OneMorePosts(c: Cipher, s: State, id: SizeT, data: Bytes, nonce: Bytes, result: SendResult,
                                        fd: nat, key: Bytes, outbox: Bytes, mails: seq<Mail>)
    requires KeyOf(s.book, fd, key) && LinkOf(s, fd).outbox == outbox + Posted(c, key, mails)
    ensures LinkOf(AfterSend(c, s, id, data, nonce, result), fd).outbox ==
            outbox + Posted(c, key, mails + MailOf(s, id, data, nonce, result, fd))
  {
    var last := MailOf(s, id, data, nonce, result, fd);
    SendPosts(c, s, id, data, nonce, result, fd, key);
    PostedAppend(c, key, mails, last);
    Associate(outbox, Posted(c, key, mails), Posted(c, key, last));
  }

  lemma {:induction false} OwnKey(b: Book, id: SizeT)
    requires Rostered(b) && id in b.roster
    ensures KeyOf(b, b.roster[id].fd, b.roster[id].key)
  {
  }

  /** What is known of a descriptor stays known, and these bytes are added to
      what has been written on it. */
  ghost predicate Wrote(s: State, s': State, fd: nat, bytes: Bytes)
    requires fd in s.links
  {
    && fd in s'.links && s'.links[fd].outbox == s.links[fd].outbox + bytes
    && (fd in s.keyPairs ==> fd in s'.keyPairs && s'.keyPairs[fd] == s.keyPairs[fd])
  }

  lemma {:induction false} AcceptWrites(c: Cipher, s: State, a: Action, fd: nat)
    requires a.AcceptClient? && Exchangeable(a) && s.nextId < SIZE_MAX && a.fd !in s.links && fd in s.links
    ensures Wrote(s, AfterAccept(c, s, a), fd, [])
  {
  }

  lemma {:induction false} HeaderWrites(s: State, r: ReadResult, fd: nat)
    requires fd in s.links && InScan(s.phase) && |s.sizeBuffer| == LENSIZE
    requires r.Data? ==> r.n <= LENSIZE && r.n <= |LinkOf(s, Current(s.phase).sock.fd).inbox|
    ensures Wrote(s, AfterHeader(s, r), fd, [])
  {
  }

  lemma {:induction false} BodyWrites(c: Cipher, s: State, r: ReadResult, fd: nat)
    requires fd in s.links && s.phase.Awaiting? && InScan(s.phase)
    requires r.Data? ==> r.n <= |LinkOf(s, Current(s.phase).sock.fd).inbox|
    ensures Wrote(s, AfterBody(c, s, r), fd, [])
  {
  }

  lemma {:induction false} SendWrites(c: Cipher, s: State, a: Action, fd: nat, key: Bytes)
    requires Enabled(c, s, a) && (a.Send? || a.SendAll?) && fd in s.links && KeyOf(s.book, fd, key)
    ensures Wrote(s, Next(c, s, a), fd, Posted(c, key, StepMail(c, s, a, fd)))
  {
    if a.Send? {
      SendPosts(c, s, a.id, a.data, a.nonce, a.result, fd, key);
    } else {
      SendsPost(c, s, a, |a.order|, fd, key);
      SendsKeepBook(c, s, a, |a.order|);
    }
  }

  /** A step adds to a stream exactly what it puts in the mail. */
  lemma {:induction false} StepWrites(c: Cipher, s: State, a: Action, s': State, fd: nat, key: Bytes)
    requires Enabled(c, s, a) && s' == Next(c, s, a) && fd in s.links && KeyOf(s.book, fd, key)
    ensures Wrote(s, s', fd, Posted(c, key, StepMail(c, s, a, fd)))
  {
    match a
    case AcceptClient(_, _, _, _, _, _, _, _) => if s.serving { AcceptWrites(c, s, a, fd); }
    case ReadHeader(r) => HeaderWrites(s, r, fd);
    case ReadBody(r) => BodyWrites(c, s, r, fd);
    case Send(_, _, _, _) => SendWrites(c, s, a, fd, key);
    case SendAll(_, _, _, _) => SendWrites(c, s, a, fd, key);
    case _ =>
  }

  /** The step adds a client to the roster. */
  ghost predicate Enrols(c: Cipher, s: State, a: Action) {
    a.AcceptClient? && Exchangeable(a) && s.serving && Exchanged(c, a).Agreed?
  }

  lemma {:induction false} DropKeepsRoster(s: State, id: SizeT)
    ensures DropIfPresent(s, id).book.roster == s.book.roster
  {
  }

  lemma {:induction false} BodyKeepsRoster(c: Cipher, s: State, r: ReadResult, s': State)
    requires s.phase.Awaiting? && InScan(s.phase)
    requires r.Data? ==> r.n <= |LinkOf(s, Current(s.phase).sock.fd).inbox|
    requires s' == AfterBody(c, s, r)
    ensures s'.book.roster == s.book.roster
  {
    if r.Data? {
      var _, _, _ := BodyCases(c, s, r.n);
    } else {
      DropKeepsRoster(s, Current(s.phase).id);
    }
  }

  lemma {:induction false} HeaderKeepsRoster(s: State, r: ReadResult, s': State)
    requires InScan(s.phase) && |s.sizeBuffer| == LENSIZE
    requires r.Data? ==> r.n <= LENSIZE && r.n <= |LinkOf(s, Current(s.phase).sock.fd).inbox|
    requires s' == AfterHeader(s, r)
    ensures s'.book.roster == s.book.roster
  {
    DropKeepsRoster(s, Current(s.phase).id);
  }

  lemma {:induction false} StepKeepsRoster(c: Cipher, s: State, a: Action, s': State)
    requires Enabled(c, s, a) && s' == Next(c, s, a) && !Enrols(c, s, a)
    ensures s'.book.roster == s.book.roster
  {
    match a
    case ReadHeader(r) => HeaderKeepsRoster(s, r, s');
    case ReadBody(r) => BodyKeepsRoster(c, s, r, s');
    case SendAll(order, _, _, _) => SendsKeepBook(c, s, a, |order|);
    case Stop(order, failAt) => DepartFirstLeaves(s.book, order, if failAt.Some? then failAt.value else |order|);
    case _ =>
  }

  // Runs.

  lemma {:induction false} SendsMissStrangers(c: Cipher, s: State, a: Action, n: nat, fd: nat)
    requires a.SendAll? && |a.order| == |a.nonces| == |a.results| && n <= |a.order|
    requires forall id | id in s.book.clients :: s.book.clients[id].fd != fd
    ensures MailsOf(c, s, a, n, fd) == []
  {
    if n > 0 {
      SendsMissStrangers(c, s, a, n - 1, fd);
      SendsKeepBook(c, s, a, n - 1);
    }
  }

  lemma {:induction false} NoStepMailToStrangers(c: Cipher, s: State, a: Action, fd: nat)
    requires Registered(s) && Enabled(c, s, a) && fd !in s.links
    ensures StepMail(c, s, a, fd) == []
  {
    forall id | id in s.book.clients ensures s.book.clients[id].fd != fd {
      assert s.book.roster[id].fd in s.links.Keys;
    }
    if a.SendAll? { SendsMissStrangers(c, s, a, |a.order|, fd); }
  }

  lemma {:induction false} LinkStays(c: Cipher, s: State, a: Action, s': State, fd: nat)
    requires Enabled(c, s, a) && s' == Next(c, s, a) && fd in s.links
    ensures fd in s'.links
  {
    match a
    case ReadHeader(r) => HeaderWrites(s, r, fd);
    case ReadBody(r) => BodyWrites(c, s, r, fd);
    case SendAll(order, _, _, _) => SendsKeepBook(c, s, a, |order|);
    case _ =>
  }

  /** Nothing is sent on a descriptor before it is a client's. */
  lemma {:induction false} NoMailToStrangers(c: Cipher, states: seq<State>, actions: seq<Action>, n: nat, fd: nat)
    requires IsRun(c, states, actions) && n <= |actions| && fd !in states[n].links
    ensures MailTo(c, states, actions, n, fd) == []
  {
    if n > 0 {
      var s, a := states[n - 1], actions[n - 1];
      if fd in s.links { LinkStays(c, s, a, states[n], fd); }
      NoMailToStrangers(c, states, actions, n - 1, fd);
      RunsAreSafe(c, states, actions, n - 1);
      NoStepMailToStrangers(c, s, a, fd);
    }
  }

  lemma {:induction false} FitAppend(c: Cipher, key: Bytes, xs: seq<Mail>, ys: seq<Mail>)
    requires AllFit(c, key, xs) && AllFit(c, key, ys)
    ensures AllFit(c, key, xs + ys)
  {
  }

  lemma {:induction false} MailOfFits(c: Cipher, s: State, id: SizeT, data: Bytes, nonce: Bytes, result: SendResult,
                                      fd: nat, key: Bytes)
    requires id in s.book.clients && (s.book.clients[id].fd == fd ==> s.book.clients[id].key == key)
    requires result.Sent? ==> result.n <= |MessageFor(c, s.book.clients[id], nonce, data)|
    ensures AllFit(c, key, MailOf(s, id, data, nonce, result, fd))
  {
  }

  /** What the kernel reports of the send to client i is no more than its message. */
  ghost predicate ResultFits(c: Cipher, a: Action, i: nat)
    requires a.SendAll? && |a.order| == |a.nonces| == |a.results| && i < |a.order|
  {
    a.results[i].Sent? ==> a.results[i].n <= |MessageFor(c, a.order[i].sock, a.nonces[i], a.data)|
  }

  lemma {:induction false} MailsFit(c: Cipher, s: State, a: Action, n: nat, fd: nat, key: Bytes)
    requires a.SendAll? && |a.order| == |a.nonces| == |a.results| && n <= |a.order| && KeyOf(s.book, fd, key)
    requires forall i | 0 <= i < |a.order| ::
               && a.order[i].id in s.book.clients && s.book.clients[a.order[i].id] == a.order[i].sock
               && ResultFits(c, a, i)
    ensures AllFit(c, key, MailsOf(c, s, a, n, fd))
  {
    if n > 0 {
      MailsFit(c, s, a, n - 1, fd, key);
      SendsKeepBook(c, s, a, n - 1);
      assert ResultFits(c, a, n - 1);
      var t, e := AfterSends(c, s, a, n - 1), a.order[n - 1];
      MailOfFits(c, t, e.id, a.data, a.nonces[n - 1], a.results[n - 1], fd, key);
      FitAppend(c, key, MailsOf(c, s, a, n - 1, fd), MailOf(t, e.id, a.data, a.nonces[n - 1], a.results[n - 1], fd));
    }
  }

  lemma {:induction false} StepMailFits(c: Cipher, s: State, a: Action, fd: nat, key: Bytes)
    requires Enabled(c, s, a) && KeyOf(s.book, fd, key)
    ensures AllFit(c, key, StepMail(c, s, a, fd))
  {
    if a.SendAll? {
      forall i | 0 <= i < |a.order| ensures ResultFits(c, a, i) {}
      MailsFit(c, s, a, |a.order|, fd, key);
    }
  }

  /** What the server has written to one client, no send taking more of a message
      than there is. */
  ghost predicate HoldsMail(c: Cipher, s: State, id: SizeT, mails: seq<Mail>) {
    && id in s.book.roster
    && var sock := s.book.roster[id];
       && sock.fd in s.links && sock.fd in s.keyPairs
       && s.links[sock.fd].outbox == Frame(s.keyPairs[sock.fd].public) + Posted(c, sock.key, mails)
       && AllFit(c, sock.key, mails)
  }

  lemma {:induction false} HoldsMore(c: Cipher, s: State, s': State, id: SizeT, mails: seq<Mail>, more: seq<Mail>)
    requires HoldsMail(c, s, id, mails) && id in s'.book.roster && s'.book.roster[id] == s.book.roster[id]
    requires Wrote(s, s', s.book.roster[id].fd, Posted(c, s.book.roster[id].key, more))
    requires AllFit(c, s.book.roster[id].key, more)
    ensures HoldsMail(c, s', id, mails + more)
  {
    var sock := s.book.roster[id];
    PostedAppend(c, sock.key, mails, more);
    FitAppend(c, sock.key, mails, more);
    Associate(Frame(s.keyPairs[sock.fd].public), Posted(c, sock.key, mails), Posted(c, sock.key, more));
  }

  lemma {:induction false} StepHoldsMail(c: Cipher, s: State, a: Action, s': State, id: SizeT, mails: seq<Mail>)
    requires Registered(s) && Numbered(s) && Enabled(c, s, a) && s' == Next(c, s, a) && HoldsMail(c, s, id, mails)
    ensures id in s'.book.roster && s'.book.roster[id] == s.book.roster[id]
    ensures HoldsMail(c, s', id, mails + StepMail(c, s, a, s.book.roster[id].fd))
  {
    var sock := s.book.roster[id];
    if Enrols(c, s, a) {
      NewIdIsUnused(s, a.fd);
    } else {
      StepKeepsRoster(c, s, a, s');
    }
    OwnKey(s.book, id);
    StepWrites(c, s, a, s', sock.fd, sock.key);
    StepMailFits(c, s, a, sock.fd, sock.key);
    HoldsMore(c, s, s', id, mails, StepMail(c, s, a, sock.fd));
  }

  /** A client new on the roster has been sent the public key, and no mail. */
  lemma {:induction false} NewcomerIsGreeted(c: Cipher, s: State, a: Action, s': State, id: SizeT)
    requires Enabled(c, s, a) && s' == Next(c, s, a) && id !in s.book.roster && id in s'.book.roster
    ensures s'.book.roster[id].fd !in s.links && StepMail(c, s, a, s'.book.roster[id].fd) == []
    ensures HoldsMail(c, s', id, [])
  {
    if Enrols(c, s, a) {
      assert Frame(a.pair.public) + [] == Frame(a.pair.public);
    } else {
      StepKeepsRoster(c, s, a, s');
    }
  }

  /** In every run, what has been written to a client is the server's public key
      and then, in order, what the kernel took of the message of each send or
      broadcast that reached it, and nothing else. */
  lemma {:induction false} OutboxHoldsMail(c: Cipher, states: seq<State>, actions: seq<Action>, n: nat, id: SizeT)
    requires IsRun(c, states, actions) && n <= |actions| && id in states[n].book.roster
    ensures HoldsMail(c, states[n], id, MailTo(c, states, actions, n, states[n].book.roster[id].fd))
  {
    var s, a := states[n - 1], actions[n - 1];
    if id in s.book.roster {
      OutboxHoldsMail(c, states, actions, n - 1, id);
      RunIsRegistered(c, states, actions, n - 1);
      StepHoldsMail(c, s, a, states[n], id, MailTo(c, states, actions, n - 1, s.book.roster[id].fd));
    } else {
      NewcomerIsGreeted(c, s, a, states[n], id);
      NoMailToStrangers(c, states, actions, n - 1, states[n].book.roster[id].fd);
    }
  }

  lemma {:induction false} RunIsRegistered(c: Cipher, states: seq<State>, actions: seq<Action>, n: nat)
    requires IsRun(c, states, actions) && n <= |actions|
    ensures Registered(states[n]) && Numbered(states[n])
  {
    RunsAreSafe(c, states, actions, n);
  }

  /** In every run, what has been written to a client is the server's public key and
      the sealed data of its mail, in frames, if and only if every send that
      reached it went out whole. */
  lemma {:induction false} OutboxIffWhole(c: Cipher, states: seq<State>, actions: seq<Action>, n: nat, id: SizeT)
    requires IsRun(c, states, actions) && n <= |actions| && id in states[n].book.roster
    ensures var s, sock := states[n], states[n].book.roster[id];
            var mails := MailTo(c, states, actions, n, sock.fd);
            && sock.fd in s.links && sock.fd in s.keyPairs
            && (s.links[sock.fd].outbox == Frames([s.keyPairs[sock.fd].public] + BodiesIn(c, sock.key, mails)) <==>
                AllWhole(c, sock.key, mails))
  {
    var sock := states[n].book.roster[id];
    OutboxHoldsMail(c, states, actions, n, id);
    StreamIffWhole(c, sock.key, states[n].keyPairs[sock.fd].public, MailTo(c, states, actions, n, sock.fd));
  }
}
