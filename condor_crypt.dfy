/** Condor_Crypt_Base and Condor_Crypto_State: the padded ciphertext size,
    the hex rendering of a random key and the choice of cipher when the
    crypto state is reset. OpenSSL itself (contexts, RAND_bytes, HKDF, MD5)
    stays outside; the random bytes are an input. */
module CondorCrypt {
  import opened Text

  /** C's `a % b` on int: the remainder truncates toward zero, so it takes
      the sign of a (Dafny's % never goes negative). */
  function CRem(a: int, b: int): (r: int)
    requires b != 0
    ensures a >= 0 && b > 0 ==> r == a % b
    ensures a < 0 ==> r <= 0
  {
    var m := if b > 0 then b else -b;
    if a >= 0 then a % m else -((-a) % m)
  }

  const Int32Max: int := 0x7FFF_FFFF

  /** Condor_Crypt_Base::encryptedSize: the input length rounded up to the
      next multiple of the block size, always adding at least one byte of
      padding (a whole block when the input is already aligned). */
  function EncryptedSize(inputLength: int, blockSize: int): (r: int)
    requires blockSize != 0
    ensures inputLength >= 0 && blockSize > 0 ==> r == (inputLength / blockSize + 1) * blockSize
  {
    var size := CRem(inputLength, blockSize);
    inputLength + (if size == 0 then blockSize else blockSize - size)
  }

  /** For a non-negative length and a positive block size the padded size is
      a multiple of the block, larger than the input by 1 to blockSize bytes
      (a whole block exactly when the input is aligned), and it fits in a C
      int whenever input + blockSize does. */
  lemma EncryptedSizeBounds(inputLength: int, blockSize: int)
    requires inputLength >= 0 && blockSize > 0
    ensures var r := EncryptedSize(inputLength, blockSize);
      && r % blockSize == 0
      && inputLength < r <= inputLength + blockSize
      && (r == inputLength + blockSize <==> inputLength % blockSize == 0)
      && (inputLength <= Int32Max - blockSize ==> r <= Int32Max)
  {
    var q := inputLength / blockSize;
    var r := EncryptedSize(inputLength, blockSize);
    assert inputLength == q * blockSize + inputLength % blockSize;
    assert r == q * blockSize + blockSize;
    MultipleMod(q + 1, blockSize);
  }

  lemma MultipleMod(k: int, b: int)
    requires b > 0
    ensures (k * b) % b == 0
  {
    var m := (k * b) % b;
    var e := k - (k * b) / b;
    assert e * b == m by {
      assert k * b == ((k * b) / b) * b + m;
    }
    if e >= 1 {
      MulAtLeast(e, b);
    } else if e <= -1 {
      MulAtLeast(-e, b);
    }
  }

  lemma MulAtLeast(e: int, b: int)
    requires e >= 1 && b > 0
    ensures e * b >= b
  {
  }

  /** EncryptedSize is the least multiple of the block size that is
      strictly greater than the input length. */
  lemma EncryptedSizeIsLeastPaddedLength(inputLength: int, blockSize: int, m: int)
    requires inputLength >= 0 && blockSize > 0
    requires m > inputLength && m % blockSize == 0
    ensures EncryptedSize(inputLength, blockSize) <= m
  {
    var q := inputLength / blockSize;
    var p := m / blockSize;
    assert m == p * blockSize;
    assert q * blockSize <= inputLength;
    if p <= q {
      MulMonotone(p, q, blockSize);
      assert false;
    }
    MulMonotone(q + 1, p, blockSize);
  }

  lemma MulMonotone(x: int, y: int, b: int)
    requires x <= y && b > 0
    ensures x * b <= y * b
  {
    assert y * b - x * b == (y - x) * b;
  }

  // ---------------------------------------------------------------------
  // randomHexKey

  /** printf("%02x", b): two lower-case hex digits, high nibble first. */
  function Hex2(b: byte): (s: string)
    ensures |s| == 2
  {
    [HexDigit(b / 16, false), HexDigit(b % 16, false)]
  }

  /** The text randomHexKey produces for the given key bytes, without its
      terminator. */
  function HexKey(bytes: seq<byte>): (s: string)
    ensures |s| == 2 * |bytes|
  {
    if bytes == [] then "" else HexKey(bytes[..|bytes| - 1]) + Hex2(bytes[|bytes| - 1])
  }

  function HexValue(c: char): (n: int)
    ensures 0 <= n < 16
  {
    if '0' <= c <= '9' then c as int - '0' as int
    else if 'a' <= c <= 'f' then c as int - 'a' as int + 10
    else 0
  }

  /** Reading the digits back (the inverse of HexKey), two at a time from
      the end; a lone leading character is ignored. */
  function ParseHexKey(s: string): (bytes: seq<byte>)
    ensures 2 * |bytes| <= |s| < 2 * |bytes| + 2
  {
    if |s| < 2 then [] else ParseHexKey(s[..|s| - 2]) + [16 * HexValue(s[|s| - 2]) + HexValue(s[|s| - 1])]
  }

  /** A digit reads back as its value. */
  lemma DigitValue(n: int)
    requires 0 <= n < 16
    ensures HexValue(HexDigit(n, false)) == n
  {
  }

  /** Parsing a pair of digits more appends the byte they spell. */
  lemma ParseLastPair(s: string, pair: string)
    requires |pair| == 2
    ensures ParseHexKey(s + pair) == ParseHexKey(s) + [16 * HexValue(pair[0]) + HexValue(pair[1])]
  {
    var t := s + pair;
    assert t[..|t| - 2] == s;
  }

  /** The two digits of a byte spell the byte. */
  lemma PairValue(b: byte)
    ensures 16 * HexValue(Hex2(b)[0]) + HexValue(Hex2(b)[1]) == b
  {
    DigitValue(b / 16);
    DigitValue(b % 16);
  }

  /** One more byte: its two digits parse back to it. */
  lemma HexKeySnoc(init: seq<byte>, last: byte)
    requires ParseHexKey(HexKey(init)) == init
    ensures ParseHexKey(HexKey(init + [last])) == init + [last]
  {
    var bytes := init + [last];
    assert bytes[..|bytes| - 1] == init;
    ParseLastPair(HexKey(init), Hex2(last));
    PairValue(last);
  }

  /** HexKey loses nothing: the digits give the bytes back. */
  lemma {:induction false} HexKeyRoundTrip(bytes: seq<byte>)
    ensures ParseHexKey(HexKey(bytes)) == bytes
  {
    if bytes != [] {
      var init := bytes[..|bytes| - 1];
      HexKeyRoundTrip(init);
      HexKeySnoc(init, bytes[|bytes| - 1]);
      assert bytes == init + [bytes[|bytes| - 1]];
    }
  }

  /** Every character of HexKey(bytes) is a lower-case hex digit, and its
      characters 2i and 2i+1 render bytes[i]. */
  lemma {:induction false} HexKeyAt(bytes: seq<byte>, i: nat)
    requires i < |bytes|
    ensures HexKey(bytes)[2 * i] == HexDigit(bytes[i] / 16, false)
    ensures HexKey(bytes)[2 * i + 1] == HexDigit(bytes[i] % 16, false)
  {
    if i < |bytes| - 1 {
      HexKeyAt(bytes[..|bytes| - 1], i);
    }
  }

  /** Condor_Crypt_Base::randomHexKey over the bytes randomKey returned: a
      buffer of 2*length+1 characters, filled two digits at a time by
      sprintf, whose last sprintf leaves the terminating NUL. With length 0
      nothing is written and the one character of the buffer is whatever
      malloc left there, so the contract says nothing about it. */
  method RandomHexKey(bytes: seq<byte>) returns (hex: array<char>)
    ensures fresh(hex)
    ensures hex.Length == 2 * |bytes| + 1
    ensures hex[..2 * |bytes|] == HexKey(bytes)
    ensures |bytes| > 0 ==> hex[2 * |bytes|] == '\0'
  {
    var n := |bytes|;
    hex := new char[2 * n + 1];
    var i := 0;
    while i < n
      invariant 0 <= i <= n
      invariant hex[..2 * i] == HexKey(bytes[..i])
      invariant i > 0 ==> hex[2 * i] == '\0'
    {
      var digits := Hex2(bytes[i]);
      hex[2 * i] := digits[0];
      hex[2 * i + 1] := digits[1];
      hex[2 * i + 2] := '\0';
      assert bytes[..i + 1][..i] == bytes[..i];
      assert hex[..2 * (i + 1)] == hex[..2 * i] + digits;
      i := i + 1;
    }
    assert bytes[..n] == bytes;
  }

  // ---------------------------------------------------------------------
  // Condor_Crypto_State::reset

  datatype Protocol = Blowfish | Des3 | AesGcm | UnknownProtocol(code: int)

  datatype Cipher = BfCfb64 | DesEde3Cfb64

  /** The cipher reset() initialises for a protocol: none for AES-GCM, which
      keeps its own stream state, and none for an unknown protocol. */
  function CipherFor(p: Protocol): (c: Option<Cipher>)
    ensures c == Some(DesEde3Cfb64) <==> p == Des3
    ensures c == Some(BfCfb64) <==> p == Blowfish
    ensures c.None? <==> p == AesGcm || p.UnknownProtocol?
  {
    match p
    case Des3 => Some(DesEde3Cfb64)
    case Blowfish => Some(BfCfb64)
    case AesGcm => None
    case UnknownProtocol(_) => None
  }

  /** KeyInfo: the protocol and key bytes the state was made for. */
  datatype KeyInfo = KeyInfo(protocol: Protocol, keyData: seq<byte>)

  /** An EVP_CIPHER_CTX initialised for one direction, with a zero IV. */
  class CipherContext {
    const cipher: Cipher
    const keyLength: nat
    const key: seq<byte>
    const iv: seq<byte>
    const decrypting: bool

    constructor (cipher: Cipher, key: seq<byte>, decrypting: bool)
      ensures this.cipher == cipher && this.key == key && keyLength == |key|
      ensures iv == [0, 0, 0, 0, 0, 0, 0, 0] && this.decrypting == decrypting
    {
      this.cipher := cipher;
      this.key := key;
      this.keyLength := |key|;
      this.iv := [0, 0, 0, 0, 0, 0, 0, 0];
      this.decrypting := decrypting;
    }
  }

  class CryptoState {
    const keyInfo: KeyInfo
    /** Whether the AES-GCM stream state was initialised by the constructor. */
    const streamStateInitialised: bool
    var encCtx: CipherContext?
    var decCtx: CipherContext?

    /** Both contexts hold the cipher of the key's protocol, for its key. */
    predicate ContextsMatchKey()
      reads this, encCtx, decCtx
    {
      && CipherFor(keyInfo.protocol).Some?
      && encCtx != null && decCtx != null && encCtx != decCtx
      && encCtx.cipher == CipherFor(keyInfo.protocol).value && !encCtx.decrypting && encCtx.key == keyInfo.keyData
      && decCtx.cipher == CipherFor(keyInfo.protocol).value && decCtx.decrypting && decCtx.key == keyInfo.keyData
    }

    /** The constructor: both contexts start null, the AES-GCM stream state
        is set up when the protocol argument is AES-GCM, then reset(). */
    constructor (proto: Protocol, key: KeyInfo)
      ensures keyInfo == key && streamStateInitialised == (proto == AesGcm)
      ensures CipherFor(key.protocol).Some? ==> ContextsMatchKey() && fresh(encCtx) && fresh(decCtx)
      ensures CipherFor(key.protocol).None? ==> encCtx == null && decCtx == null
    {
      keyInfo := key;
      streamStateInitialised := proto == AesGcm;
      encCtx := null;
      decCtx := null;
      new;
      Reset();
    }

    /** reset(): for 3DES and Blowfish, replace both contexts by new ones
        for the key; for AES-GCM and unknown protocols, leave them as they
        are. */
    method Reset()
      modifies this`encCtx, this`decCtx
      ensures CipherFor(keyInfo.protocol).Some? ==> ContextsMatchKey() && fresh(encCtx) && fresh(decCtx)
      ensures CipherFor(keyInfo.protocol).None? ==> encCtx == old(encCtx) && decCtx == old(decCtx)
    {
      var cipherType := CipherFor(keyInfo.protocol);
      if cipherType.Some? {
        encCtx := new CipherContext(cipherType.value, keyInfo.keyData, false);
        decCtx := new CipherContext(cipherType.value, keyInfo.keyData, true);
      }
    }
  }
}
