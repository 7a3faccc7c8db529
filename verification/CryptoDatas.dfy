/** The padding and encryption calls as the program makes them, filling buffers
    at running offsets. Every buffer index is checked against its allocation. */
module CryptoDatas {
  import opened Defs
  import opened Wire
  import opened Crypto

  class CryptoData {
    var data: array<Byte>
    var dataSize: SizeT

    ghost predicate Valid()
      reads this
    {
      dataSize == data.Length
    }

    /** A private copy of some bytes. */
    constructor (source: array<Byte>)
      requires source.Length <= SIZE_MAX
      ensures Valid() && fresh(data) && data[..] == source[..]
    {
      data := new Byte[source.Length];
      dataSize := source.Length;
      new;
      forall i | 0 <= i < source.Length { data[i] := source[i]; }
    }

    method PadData()
      requires Valid() && dataSize + 2 <= SIZE_MAX
      modifies this
      ensures Valid() && fresh(data) && data[..] == Pad(old(data[..]))
    {
      var padded: array<Byte>;
      if (dataSize + 1) % 16 == 0 {
        padded := new Byte[dataSize + 2];
        padded[0] := 1;
        padded[1] := 255;
        forall i | 0 <= i < dataSize { padded[i + 2] := data[i]; }
        dataSize := dataSize + 2;
        assert padded[..] == [1, 255] + data[..];
      } else {
        padded := new Byte[dataSize + 1];
        padded[0] := 0;
        forall i | 0 <= i < dataSize { padded[i + 1] := data[i]; }
        dataSize := dataSize + 1;
        assert padded[..] == [0] + data[..];
      }
      data := padded;
    }

    method UnpadData()
      requires Valid() && Unpaddable(data[..])
      modifies this
      ensures Valid() && fresh(data) && data[..] == Unpad(old(data[..]))
    {
      var skip := if data[0] == 1 then 2 else 1;
      var unpadded := new Byte[dataSize - skip];
      forall i | 0 <= i < dataSize - skip { unpadded[i] := data[i + skip]; }
      assert unpadded[..] == data[skip..];
      dataSize := dataSize - skip;
      data := unpadded;
    }
  }

  /** Copy src[from..from + n] to dst[to..to + n]. */
  method Copy(dst: array<Byte>, to: nat, src: array<Byte>, from: nat, n: nat)
    requires dst != src && to + n <= dst.Length && from + n <= src.Length
    modifies dst
    ensures dst[..to + n] == old(dst[..to]) + src[from..from + n]
  {
    forall i | 0 <= i < n { dst[to + i] := src[from + i]; }
    assert dst[..to + n] == dst[..to] + dst[to..to + n];
  }

  /** A fresh copy of src[from..from + n]. */
  method Cut(src: array<Byte>, from: nat, n: nat) returns (dst: array<Byte>)
    requires from + n <= src.Length
    ensures fresh(dst) && dst[..] == src[from..from + n]
  {
    dst := new Byte[n];
    forall i | 0 <= i < n { dst[i] := src[from + i]; }
  }

  method FromBytes(b: Bytes) returns (a: array<Byte>)
    ensures fresh(a) && a[..] == b
  {
    a := new Byte[|b|](i requires 0 <= i < |b| => b[i]);
  }

  /** The library's update call: it writes the whole blocks of the text. */
  method EncryptUpdate(c: Cipher, key: Bytes, nonce: Bytes, text: Bytes, out: array<Byte>) returns (len: nat)
    requires Lawful(c) && Keyed(key) && |nonce| == NONCE_SIZE
    requires out.Length >= |text| - |text| % BLOCK_SIZE
    modifies out
    ensures len == |text| - |text| % BLOCK_SIZE
    ensures out[..len] == c.encrypt(key, nonce, text)[..len]
  {
    len := |text| - |text| % BLOCK_SIZE;
    var e := c.encrypt(key, nonce, text);
    assert |e| == CiphertextLength(|text|);
    forall i | 0 <= i < len { out[i] := e[i]; }
  }

  /** The library's final call: it writes one last block from an offset on. */
  method EncryptFinal(c: Cipher, key: Bytes, nonce: Bytes, text: Bytes, out: array<Byte>, offset: nat)
      returns (len: nat)
    requires Lawful(c) && Keyed(key) && |nonce| == NONCE_SIZE
    requires offset == |text| - |text| % BLOCK_SIZE
    requires offset + BLOCK_SIZE <= out.Length
    modifies out
    ensures len == BLOCK_SIZE && out[..offset] == old(out[..offset])
    ensures out[offset..offset + len] == c.encrypt(key, nonce, text)[offset..]
  {
    len := BLOCK_SIZE;
    var e := c.encrypt(key, nonce, text);
    assert |e| == CiphertextLength(|text|) == offset + len;
    forall i | 0 <= i < len { out[offset + i] := e[offset + i]; }
  }

  /** Both calls into the buffer the program allocates, then cut to length. That
      the buffer, one byte short of a block more than the text, is long enough
      rests on the padding. */
  method EncryptPadded(c: Cipher, key: Bytes, nonce: Bytes, x: Bytes, text: Bytes) returns (ciphertext: array<Byte>)
    requires Lawful(c) && Keyed(key) && |nonce| == NONCE_SIZE && text == Pad(x)
    ensures fresh(ciphertext) && ciphertext[..] == c.encrypt(key, nonce, text)
  {
    PaddedTextFits(x);
    var buffer := new Byte[|text| + BLOCK_SIZE - 1];
    var len := EncryptUpdate(c, key, nonce, text, buffer);
    var ciphertextLen := len;
    var last := EncryptFinal(c, key, nonce, text, buffer, len);
    ciphertextLen := ciphertextLen + last;
    ghost var e := c.encrypt(key, nonce, text);
    assert |e| == CiphertextLength(|text|) == ciphertextLen;
    assert buffer[..ciphertextLen] == buffer[..len] + buffer[len..ciphertextLen];
    assert e == e[..len] + e[len..];
    ciphertext := FromBytes(buffer[..ciphertextLen]);
  }

  /** The nonce is the first half of the random bytes drawn for it. */
  method AesEncrypt(c: Cipher, key: Bytes, random: Bytes, plaintext: array<Byte>) returns (sealed: array<Byte>)
    requires Lawful(c) && Keyed(key) && |random| == AES_KEY_SIZE
    requires Encryptable(plaintext.Length)
    ensures fresh(sealed) && sealed[..] == AesSeal(c, key, random[..NONCE_SIZE], plaintext[..])
  {
    var nonce := FromBytes(random[..NONCE_SIZE]);
    var padded := new CryptoData(plaintext);
    padded.PadData();
    var ciphertext := EncryptPadded(c, key, random[..NONCE_SIZE], plaintext[..], padded.data[..]);
    sealed := JoinTwo(nonce, ciphertext);
  }

  /** A random draw that begins with the nonce. */
  function DrawFor(nonce: Bytes): (random: Bytes)
    requires |nonce| == NONCE_SIZE
    ensures |random| == AES_KEY_SIZE && random[..NONCE_SIZE] == nonce
  {
    nonce + Digits(0, AES_KEY_SIZE - NONCE_SIZE)
  }

  method JoinTwo(nonce: array<Byte>, ciphertext: array<Byte>) returns (all: array<Byte>)
    ensures fresh(all) && all[..] == nonce[..] + ciphertext[..]
  {
    all := new Byte[nonce.Length + ciphertext.Length];
    Copy(all, 0, nonce, 0, nonce.Length);
    Copy(all, nonce.Length, ciphertext, 0, ciphertext.Length);
    assert all[..] == all[..nonce.Length + ciphertext.Length];
  }

  method AesDecrypt(c: Cipher, key: Bytes, ciphertext: array<Byte>) returns (plaintext: Option<Bytes>)
    requires Lawful(c) && ciphertext.Length <= SIZE_MAX
    ensures plaintext == AesOpen(c, key, ciphertext[..])
  {
    if !Keyed(key) || ciphertext.Length < NONCE_SIZE { return None; }
    var data := Cut(ciphertext, NONCE_SIZE, ciphertext.Length - NONCE_SIZE);
    var nonce := ciphertext[..NONCE_SIZE];
    assert data[..] == ciphertext[..][NONCE_SIZE..] && nonce == ciphertext[..][..NONCE_SIZE];
    plaintext := DecryptPadded(c, key, nonce, data[..]);
  }

  /** Decrypt into a buffer as long as the ciphertext, and unpad. */
  method DecryptPadded(c: Cipher, key: Bytes, nonce: Bytes, data: Bytes) returns (plaintext: Option<Bytes>)
    requires Lawful(c) && |data| <= SIZE_MAX
    ensures plaintext == OpenText(c, key, nonce, data)
  {
    match c.decrypt(key, nonce, data) {
      case None => return None;
      case Some(y) =>
        var buffer := new Byte[|data|];
        forall i | 0 <= i < |y| { buffer[i] := y[i]; }
        assert buffer[..|y|] == y;
        var text := FromBytes(buffer[..|y|]);
        var unpadded := new CryptoData(text);
        if !Unpaddable(y) { return None; }
        unpadded.UnpadData();
        return Some(unpadded.data[..]);
    }
  }

  /** Copy all of src to dst, from an offset on. */
  method CopyWhole(dst: array<Byte>, to: nat, src: array<Byte>)
    requires dst != src && to + src.Length <= dst.Length
    modifies dst
    ensures dst[..to + src.Length] == old(dst[..to]) + src[..]
  {
    Copy(dst, to, src, 0, src.Length);
    assert src[0..src.Length] == src[..];
  }

  /** The envelope: length, wrapped session key, nonce, ciphertext. */
  method JoinFour(wrapped: array<Byte>, nonce: array<Byte>, ciphertext: array<Byte>) returns (all: array<Byte>)
    requires LENSIZE + wrapped.Length + nonce.Length + ciphertext.Length <= INT_MAX
    ensures fresh(all) && all[..] == Join(Envelope(wrapped[..], nonce[..], ciphertext[..]))
  {
    all := new Byte[LENSIZE + wrapped.Length + nonce.Length + ciphertext.Length];
    var encodedLen := EncodeMessageSize(wrapped.Length);
    CopyWhole(all, 0, encodedLen);
    CopyWhole(all, LENSIZE, wrapped);
    CopyWhole(all, LENSIZE + wrapped.Length, nonce);
    CopyWhole(all, LENSIZE + wrapped.Length + nonce.Length, ciphertext);
    assert all[..] == all[..all.Length];
  }

  method RsaEncrypt(c: Cipher, public: Bytes, session: Bytes, nonce: Bytes, plaintext: array<Byte>)
      returns (all: array<Byte>)
    requires Lawful(c) && c.parses(public) && |session| == AES_KEY_SIZE && |nonce| == NONCE_SIZE
    requires LENSIZE + |c.wrap(public, session)| + NONCE_SIZE + CiphertextLength(plaintext.Length + 2) <= INT_MAX
    ensures fresh(all) && all[..] == RsaSeal(c, public, session, nonce, plaintext[..])
  {
    var padded := new CryptoData(plaintext);
    padded.PadData();
    var ciphertext := EncryptPadded(c, session, nonce, plaintext[..], padded.data[..]);
    var wrapped := FromBytes(c.wrap(public, session));
    var nonceBytes := FromBytes(nonce);
    assert ciphertext.Length == |ciphertext[..]| == CiphertextLength(|Pad(plaintext[..])|);
    all := JoinFour(wrapped, nonceBytes, ciphertext);
  }

  /** The envelope taken apart at the offsets its first five bytes give. */
  method RsaDecrypt(c: Cipher, private: Bytes, ciphertext: array<Byte>) returns (plaintext: Option<Bytes>)
    requires Lawful(c) && ciphertext.Length <= SIZE_MAX
    ensures plaintext == RsaOpen(c, private, ciphertext[..])
  {
    if ciphertext.Length < LENSIZE { return None; }
    ghost var b := ciphertext[..];
    var encodedLen := Cut(ciphertext, 0, LENSIZE);
    assert encodedLen[..LENSIZE] == b[..LENSIZE];
    var size := DecodeMessageSize(encodedLen);
    var wrappedLen := ToInt(size);
    if wrappedLen < 0 || ciphertext.Length < LENSIZE + wrappedLen + NONCE_SIZE { return None; }
    var i, j := LENSIZE + wrappedLen, LENSIZE + wrappedLen + NONCE_SIZE;
    var wrapped := ciphertext[LENSIZE..i];
    var nonce := ciphertext[i..j];
    var text := Cut(ciphertext, j, ciphertext.Length - j);
    assert wrapped == b[LENSIZE..i] && nonce == b[i..j] && text[..] == b[j..];
    match c.unwrap(private, wrapped) {
      case None => return None;
      case Some(session) => plaintext := DecryptPadded(c, session, nonce, text[..]);
    }
  }
}
