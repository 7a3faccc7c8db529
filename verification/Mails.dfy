/** What is sent with calls that may take only part of a message: each side's mail
    to the other, and the bytes it amounts to. */
module Mails {
  import opened Defs
  import opened Wire
  import opened Crypto
  import opened Links

  /** What a send call reports: on a socket that does not block, the kernel may
      take only part of a message, and the program does not look. */
  datatype SendResult = Sent(n: nat) | SendError

  /** The part of a message that one send call takes. */
  function Part(message: Bytes, n: nat): Bytes {
    if n <= |message| then message[..n] else message
  }

  /** One send that reached the peer: how much of its message the kernel took. */
  datatype Mail = Mail(nonce: Bytes, data: Bytes, taken: nat)

  /** The bytes of one send that went out. */
  function Letter(c: Cipher, key: Bytes, m: Mail): Bytes {
    Part(Frame(AesSeal(c, key, m.nonce, m.data)), m.taken)
  }

  /** The bytes on the wire. */
  function Posted(c: Cipher, key: Bytes, mails: seq<Mail>): Bytes {
    if mails == [] then [] else Posted(c, key, mails[..|mails| - 1]) + Letter(c, key, mails[|mails| - 1])
  }

  lemma {:induction false} PostedOneMore(c: Cipher, key: Bytes, mails: seq<Mail>, m: Mail)
    ensures Posted(c, key, mails + [m]) == Posted(c, key, mails) + Letter(c, key, m)
  {
    assert (mails + [m])[..|mails|] == mails;
  }

  lemma {:induction false} Associate(x: Bytes, y: Bytes, z: Bytes)
    ensures x + y + z == x + (y + z)
  {
  }

  lemma {:induction false} LastOff(xs: seq<Mail>, ys: seq<Mail>)
    requires ys != []
    ensures xs + ys == xs + ys[..|ys| - 1] + [ys[|ys| - 1]]
  {
  }

  lemma {:induction false} PostedAppend(c: Cipher, key: Bytes, xs: seq<Mail>, ys: seq<Mail>)
    ensures Posted(c, key, xs + ys) == Posted(c, key, xs) + Posted(c, key, ys)
  {
    if ys == [] {
      assert xs + ys == xs;
    } else {
      var zs, m := ys[..|ys| - 1], ys[|ys| - 1];
      PostedAppend(c, key, xs, zs);
      LastOff(xs, ys);
      PostedOneMore(c, key, xs + zs, m);
      Associate(Posted(c, key, xs), Posted(c, key, zs), Letter(c, key, m));
    }
  }

  // Whole sends.

  function NoncesIn(mails: seq<Mail>): (nonces: seq<Bytes>)
    ensures |nonces| == |mails|
  {
    seq(|mails|, i requires 0 <= i < |mails| => mails[i].nonce)
  }

  function DatasIn(mails: seq<Mail>): (datas: seq<Bytes>)
    ensures |datas| == |mails|
  {
    seq(|mails|, i requires 0 <= i < |mails| => mails[i].data)
  }

  /** The message of one send. */
  function Whole(c: Cipher, key: Bytes, m: Mail): Bytes {
    Frame(AesSeal(c, key, m.nonce, m.data))
  }

  ghost predicate AllWhole(c: Cipher, key: Bytes, mails: seq<Mail>) {
    forall i | 0 <= i < |mails| :: mails[i].taken == |Whole(c, key, mails[i])|
  }

  /** No send took more than there was. */
  ghost predicate AllFit(c: Cipher, key: Bytes, mails: seq<Mail>) {
    forall i | 0 <= i < |mails| :: mails[i].taken <= |Whole(c, key, mails[i])|
  }

  /** The sealed data of all the mail, as it was meant to go out. */
  function BodiesIn(c: Cipher, key: Bytes, mails: seq<Mail>): (bodies: seq<Bytes>)
    ensures |bodies| == |mails|
  {
    Sealed(c, key, NoncesIn(mails), DatasIn(mails))
  }

  lemma {:induction false} BodiesOneMore(c: Cipher, key: Bytes, mails: seq<Mail>, m: Mail)
    ensures BodiesIn(c, key, mails + [m]) == BodiesIn(c, key, mails) + [AesSeal(c, key, m.nonce, m.data)]
    ensures Frames(BodiesIn(c, key, mails + [m])) == Frames(BodiesIn(c, key, mails)) + Whole(c, key, m)
  {
    assert BodiesIn(c, key, mails + [m]) == BodiesIn(c, key, mails) + [AesSeal(c, key, m.nonce, m.data)];
    FramesAppend(BodiesIn(c, key, mails), AesSeal(c, key, m.nonce, m.data));
  }

  lemma {:induction false} WholeMailIsFrames(c: Cipher, key: Bytes, mails: seq<Mail>)
    requires AllWhole(c, key, mails)
    ensures Posted(c, key, mails) == Frames(BodiesIn(c, key, mails))
  {
    if mails != [] {
      var ms, m := mails[..|mails| - 1], mails[|mails| - 1];
      assert mails == ms + [m];
      WholeMailIsFrames(c, key, ms);
      BodiesOneMore(c, key, ms, m);
      PostedOneMore(c, key, ms, m);
      assert Letter(c, key, m) == Whole(c, key, m);
    }
  }

  /** Short sends make a shorter stream. */
  lemma {:induction false} ShortMailIsShorter(c: Cipher, key: Bytes, mails: seq<Mail>)
    requires AllFit(c, key, mails)
    ensures |Posted(c, key, mails)| <= |Frames(BodiesIn(c, key, mails))|
    ensures |Posted(c, key, mails)| == |Frames(BodiesIn(c, key, mails))| ==> AllWhole(c, key, mails)
  {
    if mails != [] {
      var ms, m := mails[..|mails| - 1], mails[|mails| - 1];
      assert mails == ms + [m];
      ShortMailIsShorter(c, key, ms);
      BodiesOneMore(c, key, ms, m);
      PostedOneMore(c, key, ms, m);
    }
  }

  /** The bytes on the wire are the frames of the mail if and only if every send
      went out whole. */
  lemma {:induction false} FramesIffWhole(c: Cipher, key: Bytes, mails: seq<Mail>)
    requires AllFit(c, key, mails)
    ensures Posted(c, key, mails) == Frames(BodiesIn(c, key, mails)) <==> AllWhole(c, key, mails)
  {
    ShortMailIsShorter(c, key, mails);
    if AllWhole(c, key, mails) { WholeMailIsFrames(c, key, mails); }
  }

  /** A first frame, and then the mail. */
  lemma {:induction false} StreamIffWhole(c: Cipher, key: Bytes, first: Bytes, mails: seq<Mail>)
    requires AllFit(c, key, mails)
    ensures Frame(first) + Posted(c, key, mails) == Frames([first] + BodiesIn(c, key, mails)) <==>
            AllWhole(c, key, mails)
  {
    var bodies := BodiesIn(c, key, mails);
    assert ([first] + bodies)[1..] == bodies;
    FramesIffWhole(c, key, mails);
    SamePrefix(Frame(first), Posted(c, key, mails), Frames(bodies));
  }

  lemma {:induction false} MailIsFramable(c: Cipher, key: Bytes, first: Bytes, mails: seq<Mail>)
    requires Lawful(c) && Sending(c, key, NoncesIn(mails), DatasIn(mails)) && |first| < HEADER_LIMIT
    ensures Framable([first] + BodiesIn(c, key, mails))
  {
    SealedIsFramable(c, key, NoncesIn(mails), DatasIn(mails));
  }

  /** A peer that has read all of a first frame and the mail, on whole headers, has
      read that frame and the sealed data of the mail if and only if every send
      went out whole. */
  lemma {:induction false} ReadIffWhole(c: Cipher, key: Bytes, first: Bytes, mails: seq<Mail>, l: Link)
    requires Lawful(c) && Sending(c, key, NoncesIn(mails), DatasIn(mails)) && |first| < HEADER_LIMIT
    requires AllFit(c, key, mails) && Accounted(l) && l.intact
    requires l.arrived == Frame(first) + Posted(c, key, mails) && l.inbox == [] && l.partial == []
    ensures l.frames == [first] + BodiesIn(c, key, mails) <==> AllWhole(c, key, mails)
  {
    var bodies := [first] + BodiesIn(c, key, mails);
    MailIsFramable(c, key, first, mails);
    StreamIffWhole(c, key, first, mails);
    InStepIffIntact(l, bodies);
    FramesAreInjective(l.frames, bodies);
    assert Frames(l.frames) + [] == Frames(l.frames);
  }

  lemma {:induction false} SamePrefix(x: Bytes, y: Bytes, z: Bytes)
    ensures x + y == x + z <==> y == z
  {
    if x + y == x + z { assert (x + y)[|x|..] == y && (x + z)[|x|..] == z; }
  }
}
