/** The client on the heap. Each method does one call of the public interface or
    one read of the receive loop, and is proved to do exactly what the state
    machine says. */
module Clients {
  import opened Defs
  import opened Wire
  import opened Crypto
  import opened CryptoDatas
  import opened Links
  import opened Mails
  import opened Handshakes
  import opened Exchanges
  import opened ClientSpec

  class Client {
    const cipher: Cipher

    var connected: bool
    var done: bool
    var key: Option<Bytes>

    // The receive thread: where it is, and its buffer for message sizes.
    var loop: Loop
    var sizeBuffer: array<Byte>

    // The kernel's link.
    var link: Link

    // The record of the past.
    ghost var draw: Option<Draw>
    ghost var texts: seq<Bytes>
    ghost var farewells: nat
    ghost var closings: nat

    ghost predicate Valid()
      reads this
    {
      && sizeBuffer.Length == LENSIZE && (key.Some? ==> Keyed(key.value))
      && (loop.Awaiting? ==> loop.size < HEADER_LIMIT)
    }

    ghost function State(): State
      reads this, sizeBuffer
    {
      ClientSpec.State(connected, done, key, sizeBuffer[..], link, loop, draw, texts, farewells, closings)
    }

    constructor (cipher: Cipher)
      ensures Valid() && fresh(sizeBuffer) && this.cipher == cipher && State() == Fresh(sizeBuffer[..])
    {
      this.cipher := cipher;
      connected, done, key := false, false, None;
      sizeBuffer := new Byte[LENSIZE];
      link := Opened([], false);
      loop, draw, texts, farewells, closings := Ended, None, [], 0, 0;
    }

    // The public interface.

    /** Connect, and exchange keys through the given buffer. */
    method Connect(a: Action, buffer: array<Byte>)
      requires Valid() && Lawful(cipher) && a.Connect? && Exchangeable(a) && ProperDraw(a.d)
      requires buffer != sizeBuffer && a.buffer == buffer[..]
      modifies this, buffer
      ensures Valid() && sizeBuffer == old(sizeBuffer) && State() == AfterConnect(cipher, old(State()), a)
    {
      if done { return; }
      if connected { return; }
      if !a.reached { return; }
      connected := true;
      var outcome := ClientExchangeKeys(cipher, a.d, Opened(a.arrived, a.hangup), buffer, a.header, a.body, a.sent);
      Settle(outcome, a.d);
    }

    /** After a successful exchange the receive loop starts. */
    method Settle(outcome: Outcome, ghost d: Draw)
      requires Valid() && (outcome.Agreed? ==> Keyed(outcome.key))
      modifies this`link, this`key, this`loop, this`draw
      ensures Valid()
      ensures State() == match outcome
                         case Agreed(l, k) => old(State()).(link := l, key := Some(k), draw := Some(d), loop := Running)
                         case Refused => old(State()).(loop := Ended)
                         case Faulted => old(State()).(loop := Fallen)
    {
      match outcome {
        case Agreed(l, k) =>
          link := l;
          key := Some(k);
          draw := Some(d);
          loop := Running;
        case Refused => loop := Ended;
        case Faulted => loop := Fallen;
      }
    }

    method Disconnect()
      requires Valid()
      modifies this`connected, this`done, this`closings
      ensures Valid() && State() == Disconnected(old(State()))
    {
      if !connected { return; }
      connected := false;
      done := true;
      closings := closings + 1;
    }

    /** What one send call takes of a message. */
    method Send(data: array<Byte>, random: Bytes, result: SendResult)
      requires Valid() && Lawful(cipher) && |random| == AES_KEY_SIZE && Encryptable(data.Length)
      modifies this`link, this`loop
      ensures Valid() && State() == AfterSend(cipher, old(State()), data[..], random[..NONCE_SIZE], result)
    {
      if !connected { return; }
      if key == None {
        loop := Fallen;
        return;
      }
      var message := SealMessage(cipher, key.value, random, data);
      if result.SendError? { return; }
      link := link.(outbox := link.outbox + Part(message[..], result.n));
    }

    // What the kernel does by itself.

    method Arrive(bytes: Bytes)
      requires Valid()
      modifies this`link
      ensures Valid() && State() == old(State()).(link := WithArrival(old(link), bytes))
    {
      link := WithArrival(link, bytes);
    }

    method HangUp()
      requires Valid()
      modifies this`link
      ensures Valid() && State() == old(State()).(link := old(link).(hangup := true))
    {
      link := link.(hangup := true);
    }

    // The receive loop.

    method SayFarewell()
      requires Valid()
      modifies this`connected, this`done, this`closings, this`farewells, this`loop
      ensures Valid() && State() == Farewell(old(State()))
    {
      Disconnect();
      farewells := farewells + 1;
      loop := Ended;
    }

    method ReadHeader(r: ReadResult)
      requires Valid() && loop.Running? && (connected && r.Data? ==> r.n <= LENSIZE && r.n <= |link.inbox|)
      modifies this, sizeBuffer
      ensures Valid() && sizeBuffer == old(sizeBuffer) && State() == AfterHeader(old(State()), r)
    {
      if !connected {
        loop := Ended;
        return;
      }
      match r {
        case Eof => SayFarewell();
        case WouldBlock =>
        case BadFd => loop := Ended;
        case OtherError => loop := Ended;
        case Data(n) => TakeSize(n);
      }
    }

    method TakeSize(n: nat)
      requires Valid() && connected && n <= LENSIZE && n <= |link.inbox|
      modifies this`link, this`loop, sizeBuffer
      ensures Valid() && State() == AfterHeader(old(State()), Data(n))
    {
      ReadInto(sizeBuffer, link, n);
      assert sizeBuffer[..LENSIZE] == sizeBuffer[..];
      var size := DecodeMessageSize(sizeBuffer);
      link := TakeHeader(link, n);
      loop := Awaiting(size);
    }

    method ReadBody(r: ReadResult)
      requires Valid() && Lawful(cipher) && loop.Awaiting?
      requires r.Data? ==> r.n <= |link.inbox| && r.n <= loop.size
      modifies this
      ensures Valid() && sizeBuffer == old(sizeBuffer) && State() == AfterBody(cipher, old(State()), r)
    {
      match r {
        case Eof => SayFarewell();
        case WouldBlock => loop := Ended;
        case BadFd => loop := Ended;
        case OtherError => loop := Ended;
        case Data(n) => TakeText(n);
      }
    }

    method TakeText(n: nat)
      requires Valid() && Lawful(cipher) && loop.Awaiting? && n <= |link.inbox| && n <= loop.size
      modifies this`link, this`loop, this`texts
      ensures Valid() && State() == AfterBody(cipher, old(State()), Data(n))
    {
      if n != loop.size {
        link := TakeBody(link, n, loop.size);
        loop := Ended;
        return;
      }
      var text := TextFor(link.inbox[..n]);
      if text == None {
        link := TakeBody(link, n, n + 1);
        loop := Fallen;
        return;
      }
      link := TakeBody(link, n, n);
      texts := texts + [text.value];
      loop := Running;
    }

    /** on_recv: the key opens the body. */
    method TextFor(body: Bytes) returns (text: Option<Bytes>)
      requires Valid() && Lawful(cipher) && |body| <= SIZE_MAX
      ensures text == TextOf(cipher, State(), body)
    {
      if key == None { return None; }
      var buffer := FromBytes(body);
      text := AesDecrypt(cipher, key.value, buffer);
    }
  }
}
