/** The five-byte length header, message frames, and streams of frames. */
module Wire {
  import opened Defs

  const LENSIZE: nat := 5
  // One more than the longest length a header can carry.
  const HEADER_LIMIT: nat := 0x100_0000_0000

  // Big-endian digits and their value.

  function Digits(n: nat, k: nat): (b: Bytes)
    ensures |b| == k
  {
    if k == 0 then [] else Digits(n / 256, k - 1) + [n % 256]
  }

  function Value(b: Bytes): nat {
    if b == [] then 0 else Value(b[..|b| - 1]) * 256 + b[|b| - 1]
  }

  function Pow256(k: nat): (p: nat)
    ensures p >= 1
  {
    if k == 0 then 1 else 256 * Pow256(k - 1)
  }

  lemma {:induction false} HeaderLimitIsPower()
    ensures Pow256(LENSIZE) == HEADER_LIMIT
  {
    assert Pow256(1) == 256 && Pow256(2) == 0x1_0000 && Pow256(3) == 0x100_0000;
  }

  lemma {:induction false} DigitsOfValue(b: Bytes)
    ensures Value(b) < Pow256(|b|)
    ensures Digits(Value(b), |b|) == b
  {
    if b != [] { DigitsOfValue(b[..|b| - 1]); }
  }

  lemma {:induction false} DigitStep(n: nat, p: nat)
    requires p >= 1
    ensures n % (256 * p) == (n / 256) % p * 256 + n % 256
  {
    var q, r := n / 256, n % 256;
    var a, s := q / p, q % p;
    assert q == p * a + s;
    assert n == (256 * p) * a + (256 * s + r) by {
      assert n == 256 * (p * a + s) + r;
      assert 256 * (p * a) == (256 * p) * a;
    }
    assert 256 * s + r < 256 * p;
    ModIs(n, 256 * p, a, 256 * s + r);
  }

  lemma {:induction false} MulKeepsOrder(d: nat, x: int, y: int)
    requires x <= y
    ensures d * x <= d * y
  {
    assert d * (y - x) >= 0;
  }

  lemma {:induction false} ModIs(n: nat, d: nat, a: nat, r: nat)
    requires d > 0 && n == d * a + r && r < d
    ensures n % d == r
  {
    var b := n / d;
    if a < b { MulKeepsOrder(d, a + 1, b); }
    if b < a { MulKeepsOrder(d, b + 1, a); }
  }

  lemma {:induction false} ValueOfDigits(n: nat, k: nat)
    ensures Value(Digits(n, k)) == n % Pow256(k)
  {
    if k > 0 {
      ValueOfDigits(n / 256, k - 1);
      var b := Digits(n, k);
      assert b[..k - 1] == Digits(n / 256, k - 1) && b[k - 1] == n % 256;
      DigitStep(n, Pow256(k - 1));
    }
  }

  /** Decoding an encoded length gives it back modulo 2^40, so exactly the
      lengths below 2^40 survive the header. */
  lemma {:induction false} HeaderRoundTrip(n: nat)
    ensures Value(Digits(n, LENSIZE)) == n % HEADER_LIMIT
    ensures Value(Digits(n, LENSIZE)) == n <==> n < HEADER_LIMIT
  {
    HeaderLimitIsPower();
    ValueOfDigits(n, LENSIZE);
  }

  /** Every five bytes are the header of exactly one length below 2^40. */
  lemma {:induction false} HeaderIsOnto(b: Bytes)
    requires |b| == LENSIZE
    ensures Value(b) < HEADER_LIMIT && Digits(Value(b), LENSIZE) == b
  {
    HeaderLimitIsPower();
    DigitsOfValue(b);
  }

  ghost predicate DiffersAt(a: Bytes, b: Bytes, i: nat)
    requires |a| == |b|
  {
    i < |a| && a[..i] == b[..i] && a[i] < b[i]
  }

  /** Dictionary order on byte strings of one length. */
  ghost predicate LexLess(a: Bytes, b: Bytes)
    requires |a| == |b|
  {
    exists i: nat :: DiffersAt(a, b, i)
  }

  lemma {:induction false} ValueIsOrdered(a: Bytes, b: Bytes)
    requires |a| == |b|
    ensures LexLess(a, b) <==> Value(a) < Value(b)
  {
    if a != [] {
      var n := |a| - 1;
      var x, y := a[..n], b[..n];
      ValueIsOrdered(x, y);
      if i: nat :| DiffersAt(a, b, i) {
        if i < n {
          assert x[..i] == a[..i] && y[..i] == b[..i];
          assert DiffersAt(x, y, i);
        }
      }
      if i: nat :| DiffersAt(x, y, i) {
        assert x[..i] == a[..i] && y[..i] == b[..i];
        assert DiffersAt(a, b, i);
      }
      if Value(a) < Value(b) && Value(x) == Value(y) {
        DigitsOfValue(x);
        DigitsOfValue(y);
        assert DiffersAt(a, b, n);
      }
    }
  }

  /** The header keeps the order of lengths. */
  lemma {:induction false} HeaderKeepsOrder(m: nat, n: nat)
    requires m < HEADER_LIMIT && n < HEADER_LIMIT
    ensures LexLess(Digits(m, LENSIZE), Digits(n, LENSIZE)) <==> m < n
  {
    HeaderRoundTrip(m);
    HeaderRoundTrip(n);
    ValueIsOrdered(Digits(m, LENSIZE), Digits(n, LENSIZE));
  }

  // The codec as the program computes it, by shifting.

  method EncodeMessageSize(messageSize: SizeT) returns (encoded: array<Byte>)
    ensures fresh(encoded) && encoded[..] == Digits(messageSize, LENSIZE)
  {
    encoded := new Byte[LENSIZE];
    var size := messageSize;
    var i: int := LENSIZE - 1;
    while i >= 0
      invariant -1 <= i < LENSIZE
      invariant Digits(messageSize, LENSIZE) == Digits(size, i + 1) + encoded[i + 1..]
    {
      encoded[i] := size % 256;
      assert encoded[i..] == [size % 256] + encoded[i + 1..];
      size := size / 256;
      i := i - 1;
    }
  }

  method DecodeMessageSize(encoded: array<Byte>) returns (size: SizeT)
    requires encoded.Length >= LENSIZE
    ensures size == Value(encoded[..LENSIZE]) < HEADER_LIMIT
  {
    HeaderLimitIsPower();
    size := 0;
    for i := 0 to LENSIZE
      invariant size == Value(encoded[..i]) && size < Pow256(i)
    {
      assert encoded[..i + 1][..i] == encoded[..i];
      DigitsOfValue(encoded[..i + 1]);
      PowIsBelow(i + 1);
      size := size * 256;
      size := size + encoded[i];
    }
  }

  lemma {:induction false} PowIsBelow(k: nat)
    requires k <= LENSIZE
    ensures Pow256(k) <= HEADER_LIMIT
  {
    HeaderLimitIsPower();
    assert Pow256(5) == 256 * Pow256(4) && Pow256(4) == 256 * Pow256(3) && Pow256(3) == 256 * Pow256(2);
    assert Pow256(2) == 256 * Pow256(1) && Pow256(1) == 256 * Pow256(0);
  }

  // Frames.

  function Frame(body: Bytes): (f: Bytes)
    ensures |f| == LENSIZE + |body|
  {
    Digits(|body|, LENSIZE) + body
  }

  method ConstructMessage(data: array<Byte>) returns (message: array<Byte>)
    requires LENSIZE + data.Length <= SIZE_MAX
    ensures fresh(message) && message[..] == Frame(data[..])
  {
    message := new Byte[LENSIZE + data.Length];
    var size := EncodeMessageSize(data.Length);
    for i := 0 to LENSIZE
      invariant size[..] == Digits(data.Length, LENSIZE) && message[..i] == size[..i]
    {
      message[i] := size[i];
    }
    for i := 0 to data.Length
      invariant message[..LENSIZE] == Digits(data.Length, LENSIZE)
      invariant message[LENSIZE..LENSIZE + i] == data[..i]
    {
      message[LENSIZE + i] := data[i];
    }
    assert message[..] == message[..LENSIZE] + message[LENSIZE..LENSIZE + data.Length];
  }

  /** Takes the body out of a message whose header counts no byte it lacks. */
  method DeconstructMessage(message: array<Byte>) returns (data: array<Byte>, dataSize: SizeT)
    requires message.Length >= LENSIZE
    requires message.Length >= LENSIZE + Value(message[..LENSIZE])
    ensures fresh(data) && dataSize == data.Length && LENSIZE + dataSize <= message.Length
    ensures Frame(data[..]) == message[..LENSIZE + dataSize]
  {
    dataSize := DecodeMessageSize(message);
    HeaderIsOnto(message[..LENSIZE]);
    data := new Byte[dataSize];
    for i := 0 to dataSize
      invariant data[..i] == message[LENSIZE..LENSIZE + i]
    {
      data[i] := message[i + LENSIZE];
    }
    assert message[..LENSIZE + dataSize] == message[..LENSIZE] + message[LENSIZE..LENSIZE + dataSize];
  }

  // Streams.

  function Frames(bodies: seq<Bytes>): Bytes {
    if bodies == [] then [] else Frame(bodies[0]) + Frames(bodies[1..])
  }

  lemma {:induction false} FramesAppend(bodies: seq<Bytes>, body: Bytes)
    ensures Frames(bodies + [body]) == Frames(bodies) + Frame(body)
  {
    if bodies == [] {
      assert bodies + [body] == [body];
      assert Frames([body][1..]) == [];
    } else {
      FramesAppend(bodies[1..], body);
      assert (bodies + [body])[1..] == bodies[1..] + [body];
    }
  }

  /** What one header-then-body read takes off the front of a stream, if both
      parts are there and the body is not empty: a read of no bytes means that
      the peer has closed. */
  function ReadOne(stream: Bytes): Option<Bytes> {
    if |stream| < LENSIZE then None else
      var size := Value(stream[..LENSIZE]);
      if size == 0 || |stream| < LENSIZE + size then None
      else Some(stream[LENSIZE..LENSIZE + size])
  }

  /** All that repeated reads deliver, and what they leave. */
  function ReadAll(stream: Bytes): (seq<Bytes>, Bytes)
    decreases |stream|
  {
    match ReadOne(stream)
    case None => ([], stream)
    case Some(body) =>
      var (bodies, rest) := ReadAll(stream[LENSIZE + |body|..]);
      ([body] + bodies, rest)
  }

  predicate Sendable(body: Bytes) {
    0 < |body| < HEADER_LIMIT
  }

  lemma {:induction false} Parts(a: Bytes, b: Bytes, c: Bytes)
    ensures (a + b + c)[..|a|] == a
    ensures (a + b + c)[|a|..] == b + c
    ensures (a + b + c)[|a| + |b|..] == c
    ensures (a + b + c)[|a|..|a| + |b|] == b
  {
  }

  /** Bytes taken off in two goes. */
  lemma {:induction false} CutTwice(bytes: Bytes, i: nat, n: nat)
    requires i + n <= |bytes|
    ensures bytes[i..][..n] == bytes[i..i + n] && bytes[i..][n..] == bytes[i + n..]
  {
  }

  lemma {:induction false} FrameParts(body: Bytes, rest: Bytes)
    ensures (Frame(body) + rest)[..LENSIZE] == Digits(|body|, LENSIZE)
    ensures (Frame(body) + rest)[LENSIZE..] == body + rest
    ensures (Frame(body) + rest)[LENSIZE + |body|..] == rest
    ensures (Frame(body) + rest)[LENSIZE..LENSIZE + |body|] == body
  {
    Parts(Digits(|body|, LENSIZE), body, rest);
  }

  lemma {:induction false} ReadOneFrame(body: Bytes, rest: Bytes)
    ensures ReadOne(Frame(body) + rest) == Some(body) <==> Sendable(body)
  {
    HeaderRoundTrip(|body|);
    FrameParts(body, rest);
  }

  /** The reading loop gets a list of messages back out of the concatenation of
      their frames exactly when every body is non-empty and below 2^40 bytes. */
  lemma {:induction false} ReadAllFrames(bodies: seq<Bytes>)
    ensures ReadAll(Frames(bodies)) == (bodies, []) <==> forall i | 0 <= i < |bodies| :: Sendable(bodies[i])
  {
    if bodies != [] {
      var first, others := bodies[0], bodies[1..];
      ReadAllFrames(others);
      ReadOneFrame(first, Frames(others));
      FrameParts(first, Frames(others));
      var (got, rest) := ReadAll(Frames(bodies));
      if Sendable(first) {
        assert got == [first] + ReadAll(Frames(others)).0;
        assert bodies == [first] + others;
      } else {
        assert got == [] || got[0] != first;
      }
    }
  }

  predicate Framable(bodies: seq<Bytes>) {
    forall i | 0 <= i < |bodies| :: |bodies[i]| < HEADER_LIMIT
  }

  /** Unique parsing: if the frames of xs are how a stream of frames of ys
      begins, then xs is how ys begins. */
  lemma {:induction false} FramesPrefix(xs: seq<Bytes>, ys: seq<Bytes>)
    requires Framable(xs) && Framable(ys)
    requires Frames(xs) <= Frames(ys)
    ensures xs <= ys
  {
    if xs != [] {
      assert ys != [];
      var a, b := Frames(xs[1..]), Frames(ys[1..]);
      FrameParts(xs[0], a);
      FrameParts(ys[0], b);
      assert Frames(ys)[..LENSIZE] == Frames(xs)[..LENSIZE];
      HeaderRoundTrip(|xs[0]|);
      HeaderRoundTrip(|ys[0]|);
      assert xs[0] == ys[0];
      assert a <= b;
      FramesPrefix(xs[1..], ys[1..]);
    }
  }

  /** Different lists never share a stream. */
  lemma {:induction false} FramesAreInjective(xs: seq<Bytes>, ys: seq<Bytes>)
    requires Framable(xs) && Framable(ys)
    ensures Frames(xs) == Frames(ys) <==> xs == ys
  {
    if Frames(xs) == Frames(ys) {
      FramesPrefix(xs, ys);
      FramesPrefix(ys, xs);
    }
  }
}
