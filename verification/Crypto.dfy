/** Padding and the byte layouts around the ciphers. The ciphers themselves are
    parameters with stated laws. */
module Crypto {
  import opened Defs
  import opened Wire

  const BLOCK_SIZE: nat := 16
  const NONCE_SIZE: nat := 16
  const AES_KEY_SIZE: nat := 32
  // A session key wrapped by a 2048-bit RSA key.
  const WRAPPED_SIZE: nat := 2048 / 8

  /** The library functions the program calls: AES-256 in CBC mode by key, nonce
      and text; the wrapping of a session key by an RSA key; and whether given
      bytes parse as a public key at all. */
  datatype Cipher = Cipher(
    encrypt: (Bytes, Bytes, Bytes) -> Bytes,
    decrypt: (Bytes, Bytes, Bytes) -> Option<Bytes>,
    wrap: (Bytes, Bytes) -> Bytes,
    unwrap: (Bytes, Bytes) -> Option<Bytes>,
    parses: Bytes -> bool)

  /** The cipher reads as many bytes of its key as it needs, however long the key
      is: it takes a longer one, and reads outside a shorter one. */
  predicate Keyed(key: Bytes) {
    |key| >= AES_KEY_SIZE
  }

  /** The length of a CBC ciphertext (section 6.2 of NIST SP 800-38A) with block
      padding (section 6.3 of RFC 5652): always at least one byte of padding. */
  function CiphertextLength(n: nat): nat {
    BLOCK_SIZE * (n / BLOCK_SIZE + 1)
  }

  ghost predicate Lawful(c: Cipher) {
    && (forall key: Bytes, nonce: Bytes, y: Bytes ::
          c.decrypt(key, nonce, y).Some? ==> |c.decrypt(key, nonce, y).value| <= |y|)
    && (forall public: Bytes, session: Bytes | c.parses(public) && |session| == AES_KEY_SIZE ::
          |c.wrap(public, session)| == WRAPPED_SIZE)
    && forall key: Bytes, nonce: Bytes, x: Bytes | Keyed(key) && |nonce| == NONCE_SIZE ::
         && |c.encrypt(key, nonce, x)| == CiphertextLength(|x|)
         && c.decrypt(key, nonce, c.encrypt(key, nonce, x)) == Some(x)
  }

  /** A public and a private RSA key that belong together. */
  ghost predicate Paired(c: Cipher, public: Bytes, private: Bytes) {
    c.parses(public) && forall session: Bytes | |session| == AES_KEY_SIZE ::
      c.unwrap(private, c.wrap(public, session)) == Some(session)
  }

  // A cipher that meets the laws, so that they are not vacuous: it pads like
  // CBC and hides nothing.

  function BlockPad(x: Bytes): (y: Bytes)
    ensures |y| == CiphertextLength(|x|)
  {
    x + seq(BLOCK_SIZE - |x| % BLOCK_SIZE, _ => BLOCK_SIZE - |x| % BLOCK_SIZE)
  }

  function BlockUnpad(y: Bytes): Option<Bytes> {
    if y == [] || y[|y| - 1] > |y| then None else Some(y[..|y| - y[|y| - 1]])
  }

  const PlainCipher := Cipher(
    (key: Bytes, nonce: Bytes, x: Bytes) => BlockPad(x),
    (key: Bytes, nonce: Bytes, y: Bytes) => BlockUnpad(y),
    (public: Bytes, session: Bytes) => session + seq(WRAPPED_SIZE - AES_KEY_SIZE, _ => 0),
    (private: Bytes, wrapped: Bytes) => if |wrapped| < AES_KEY_SIZE then None else Some(wrapped[..AES_KEY_SIZE]),
    (public: Bytes) => public != [])

  lemma {:induction false} BlockPadRoundTrip(x: Bytes)
    ensures BlockUnpad(BlockPad(x)) == Some(x)
  {
    var y := BlockPad(x);
    assert y[|y| - 1] == BLOCK_SIZE - |x| % BLOCK_SIZE;
    assert y[..|x|] == x;
  }

  lemma {:induction false} LawsHaveAModel(public: Bytes, private: Bytes)
    requires public != []
    ensures Lawful(PlainCipher) && Paired(PlainCipher, public, private)
  {
    forall x: Bytes ensures BlockUnpad(BlockPad(x)) == Some(x) { BlockPadRoundTrip(x); }
  }

  // Padding.

  function Pad(x: Bytes): Bytes {
    if (|x| + 1) % 16 == 0 then [1, 255] + x else [0] + x
  }

  predicate Unpaddable(y: Bytes) {
    y != [] && (y[0] == 1 ==> |y| >= 2)
  }

  function Unpad(y: Bytes): Bytes
    requires Unpaddable(y)
  {
    if y[0] == 1 then y[2..] else y[1..]
  }

  /** The padding is one zero byte, unless that would make a whole number of blocks;
      then it is a one and a 255. Unpadding goes by the first byte alone. */
  lemma {:induction false} PadsWith(x: Bytes, y: Bytes)
    ensures y == Pad(x) <==> y == (if |[0] + x| % BLOCK_SIZE != 0 then [0] else [1, 255]) + x
    ensures Unpaddable(y) ==> y == y[..|y| - |Unpad(y)|] + Unpad(y)
    ensures Unpaddable(y) ==> |y| - |Unpad(y)| == if y[0] == 1 then 2 else 1
  {
  }

  lemma {:induction false} PadRoundTrip(x: Bytes)
    ensures Unpaddable(Pad(x)) && Unpad(Pad(x)) == x
  {
  }

  /** The buffer the program allocates for a ciphertext holds it exactly when
      the text is not a whole number of blocks. */
  lemma {:induction false} BufferFits(n: nat)
    ensures CiphertextLength(n) <= n + BLOCK_SIZE - 1 <==> n % BLOCK_SIZE != 0
  {
  }

  /** ... which is what the padding sees to, whatever the plaintext. */
  lemma {:induction false} PaddedTextFits(x: Bytes)
    ensures |Pad(x)| % BLOCK_SIZE != 0
    ensures CiphertextLength(|Pad(x)|) <= |Pad(x)| + BLOCK_SIZE - 1
  {
    var q, r := |x| / 16, |x| % 16;
    assert |x| == 16 * q + r;
    BufferFits(|Pad(x)|);
  }

  // The symmetric layer.

  function AesSeal(c: Cipher, key: Bytes, nonce: Bytes, x: Bytes): Bytes {
    nonce + c.encrypt(key, nonce, Pad(x))
  }

  function OpenText(c: Cipher, key: Bytes, nonce: Bytes, text: Bytes): Option<Bytes> {
    match c.decrypt(key, nonce, text)
    case None => None
    case Some(y) => if Unpaddable(y) then Some(Unpad(y)) else None
  }

  /** None where the program fails or reads outside what it was given. */
  function AesOpen(c: Cipher, key: Bytes, b: Bytes): Option<Bytes> {
    if !Keyed(key) || |b| < NONCE_SIZE then None else OpenText(c, key, b[..NONCE_SIZE], b[NONCE_SIZE..])
  }

  /** Bytes open to a text if and only if the key is long enough, there is a nonce, and
      what is behind it decrypts to that text, padded somehow. */
  lemma {:induction false} OpensIff(c: Cipher, key: Bytes, nonce: Bytes, text: Bytes, x: Bytes)
    requires |nonce| == NONCE_SIZE
    ensures AesOpen(c, key, nonce + text) == Some(x) <==>
            Keyed(key) && exists y :: c.decrypt(key, nonce, text) == Some(y) && Unpaddable(y) && Unpad(y) == x
    ensures forall b: Bytes | |b| < NONCE_SIZE :: AesOpen(c, key, b).None?
  {
    assert (nonce + text)[..NONCE_SIZE] == nonce && (nonce + text)[NONCE_SIZE..] == text;
  }

  /** Every length the program computes for a text of n bytes is an int. */
  predicate Encryptable(n: nat) {
    NONCE_SIZE + CiphertextLength(n + 2) <= INT_MAX
  }

  /** Opening a sealed message gives it back, and a sealed message, even an
      empty one, is a frame body of at least two blocks. */
  lemma {:induction false} AesRoundTrip(c: Cipher, key: Bytes, nonce: Bytes, x: Bytes)
    requires Lawful(c) && Keyed(key) && |nonce| == NONCE_SIZE
    ensures AesOpen(c, key, AesSeal(c, key, nonce, x)) == Some(x)
    ensures |AesSeal(c, key, nonce, x)| >= 2 * BLOCK_SIZE
    ensures Encryptable(|x|) ==> |AesSeal(c, key, nonce, x)| <= INT_MAX && Sendable(AesSeal(c, key, nonce, x))
  {
    PadRoundTrip(x);
    var e := c.encrypt(key, nonce, Pad(x));
    assert (nonce + e)[..NONCE_SIZE] == nonce && (nonce + e)[NONCE_SIZE..] == e;
    assert |e| == CiphertextLength(|Pad(x)|);
  }

  // The envelope around a session key.

  /** The conversion of a size_t to an int. */
  function ToInt(n: nat): int {
    var w := n % 0x1_0000_0000;
    if w <= INT_MAX then w else w - 0x1_0000_0000
  }

  datatype Envelope = Envelope(wrapped: Bytes, nonce: Bytes, text: Bytes)

  function Join(e: Envelope): Bytes {
    Digits(|e.wrapped|, LENSIZE) + e.wrapped + e.nonce + e.text
  }

  /** None where the lengths in b point outside it. */
  function Split(b: Bytes): Option<Envelope> {
    if |b| < LENSIZE then None else
      var n := ToInt(Value(b[..LENSIZE]));
      if n < 0 || |b| < LENSIZE + n + NONCE_SIZE then None
      else Some(Envelope(b[LENSIZE..LENSIZE + n], b[LENSIZE + n..LENSIZE + n + NONCE_SIZE],
                         b[LENSIZE + n + NONCE_SIZE..]))
  }

  lemma {:induction false} FourParts(a: Bytes, b: Bytes, c: Bytes, d: Bytes)
    ensures var s := a + b + c + d; var i, j, k := |a|, |a| + |b|, |a| + |b| + |c|;
            s[..i] == a && s[i..j] == b && s[j..k] == c && s[k..] == d
  {
  }

  /** The offsets of the decrypting side find the three fields exactly when the
      length of the wrapped key is a non-negative int. */
  lemma {:induction false} EnvelopeRoundTrip(e: Envelope)
    requires |e.nonce| == NONCE_SIZE
    ensures Split(Join(e)) == Some(e) <==> |e.wrapped| <= INT_MAX
  {
    var d := Digits(|e.wrapped|, LENSIZE);
    FourParts(d, e.wrapped, e.nonce, e.text);
    HeaderRoundTrip(|e.wrapped|);
    assert Join(e)[..LENSIZE] == d;
  }

  function RsaSeal(c: Cipher, public: Bytes, session: Bytes, nonce: Bytes, x: Bytes): Bytes {
    Join(Envelope(c.wrap(public, session), nonce, c.encrypt(session, nonce, Pad(x))))
  }

  function RsaOpen(c: Cipher, private: Bytes, b: Bytes): Option<Bytes> {
    match Split(b)
    case None => None
    case Some(e) =>
      match c.unwrap(private, e.wrapped)
      case None => None
      case Some(session) => OpenText(c, session, e.nonce, e.text)
  }

  /** What is sealed with a public key opens with its private key. */
  lemma {:induction false} RsaRoundTrip(c: Cipher, public: Bytes, private: Bytes, session: Bytes,
                                        nonce: Bytes, x: Bytes)
    requires Lawful(c) && Paired(c, public, private)
    requires |session| == AES_KEY_SIZE && |nonce| == NONCE_SIZE
    ensures RsaOpen(c, private, RsaSeal(c, public, session, nonce, x)) == Some(x)
  {
    PadRoundTrip(x);
    EnvelopeRoundTrip(Envelope(c.wrap(public, session), nonce, c.encrypt(session, nonce, Pad(x))));
  }
}
