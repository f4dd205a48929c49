/** Encrypted configuration files: base64 of salt, iv, CBC ciphertext and a keyed tag. */
module Encryption {
  import opened Base64
  import opened Wrappers

  const KEY_SIZE := 32
  const IV_SIZE := 16
  const BLOCK_SIZE := 16
  const MAC_SIZE := 32

  type Bytes = seq<byte>

  /** The primitives, of which only lengths and block inversion are assumed: password
      policy, key derivation, the block cipher under a key, and the keyed tag. */
  datatype Primitives = Primitives(
    accepts: string -> bool,
    derive: (string, Bytes) -> Bytes,
    seal: (Bytes, Bytes) -> Bytes,
    open: (Bytes, Bytes) -> Bytes,
    tag: (Bytes, Bytes) -> Bytes)
  {
    ghost predicate Sound() {
      && (forall p, s :: |derive(p, s)| == 2 * KEY_SIZE)
      && (forall k, b :: |b| == BLOCK_SIZE ==> |seal(k, b)| == BLOCK_SIZE && open(k, seal(k, b)) == b)
      && (forall k, b :: |b| == BLOCK_SIZE ==> |open(k, b)| == BLOCK_SIZE)
      && (forall k, d :: |tag(k, d)| == MAC_SIZE)
    }
  }

  /** Go code can also stop with a run-time panic. */
  datatype Outcome = Done(bytes: Bytes) | Failed | Panicked

  predicate AllZero(s: Bytes) {
    forall b | b in s :: b == 0
  }

  datatype Keys = Keys(key: Bytes, mac: Bytes)

  /** Derivation itself; the all-zero key is refused. */
  function Derive(c: Primitives, pass: string, salt: Bytes): Option<Keys>
    requires c.Sound()
  {
    if !c.accepts(pass) then None
    else
      var keys := c.derive(pass, salt);
      if AllZero(keys) then None else Some(Keys(keys[..KEY_SIZE], keys[KEY_SIZE..]))
  }

  /** With a known salt, its length and value are checked first; a freshly drawn one is not. */
  function DeriveKnown(c: Primitives, pass: string, salt: Bytes): Option<Keys>
    requires c.Sound()
  {
    if !c.accepts(pass) || |salt| != KEY_SIZE || AllZero(salt) then None else Derive(c, pass, salt)
  }

  // ---------------------------------------------------------------------------
  // Cipher block chaining (section 6.2 of NIST SP 800-38A)
  // ---------------------------------------------------------------------------

  /** Exclusive or of the low `bits` bits. */
  function XorBits(a: nat, b: nat, bits: nat): nat {
    if bits == 0 then 0 else XorBits(a / 2, b / 2, bits - 1) * 2 + (a + b) % 2
  }

  function Pow2(bits: nat): nat {
    if bits == 0 then 1 else 2 * Pow2(bits - 1)
  }

  lemma {:induction false} XorBound(a: nat, b: nat, bits: nat)
    ensures XorBits(a, b, bits) < Pow2(bits)
  {
    if bits > 0 {
      XorBound(a / 2, b / 2, bits - 1);
    }
  }

  lemma LowBit(a: nat, b: nat, q: nat)
    ensures var x := q * 2 + (a + b) % 2; x / 2 == q && (x + b) % 2 == a % 2
  {
  }

  lemma {:induction false} XorCancels(a: nat, b: nat, bits: nat)
    requires a < Pow2(bits)
    ensures XorBits(XorBits(a, b, bits), b, bits) == a
  {
    if bits > 0 {
      XorCancels(a / 2, b / 2, bits - 1);
      var q := XorBits(a / 2, b / 2, bits - 1);
      LowBit(a, b, q);
      assert XorBits(a, b, bits) == q * 2 + (a + b) % 2;
    }
  }

  lemma EightBits()
    ensures Pow2(8) == 256
  {
    assert Pow2(2) == 4;
    assert Pow2(4) == 16;
    assert Pow2(6) == 64;
  }

  /** Bit i of a number, counted from the lowest. */
  function Bit(x: nat, i: nat): nat {
    if i == 0 then x % 2 else Bit(x / 2, i - 1)
  }

  lemma {:induction false} BitOfXor(a: nat, b: nat, bits: nat, i: nat)
    requires i < bits
    ensures Bit(XorBits(a, b, bits), i) == (Bit(a, i) + Bit(b, i)) % 2
  {
    var q := XorBits(a / 2, b / 2, bits - 1);
    LowBit(a, b, q);
    assert XorBits(a, b, bits) == q * 2 + (a + b) % 2;
    if i > 0 {
      BitOfXor(a / 2, b / 2, bits - 1, i - 1);
    }
  }

  function XorByte(a: byte, b: byte): byte {
    XorBound(a, b, 8);
    EightBits();
    XorBits(a, b, 8)
  }

  function Xor(a: Bytes, b: Bytes): (r: Bytes)
    requires |a| == |b|
    ensures |r| == |a|
  {
    seq(|a|, i requires 0 <= i < |a| => XorByte(a[i], b[i]))
  }

  lemma XorTwice(a: Bytes, b: Bytes)
    requires |a| == |b|
    ensures Xor(Xor(a, b), b) == a
  {
    forall i | 0 <= i < |a| ensures Xor(Xor(a, b), b)[i] == a[i] {
      EightBits();
      XorCancels(a[i], b[i], 8);
    }
  }

  /** Every bit of the result is the sum modulo 2 of the two bits. */
  lemma XorIsBitwise(a: Bytes, b: Bytes)
    requires |a| == |b|
    ensures forall i, j | 0 <= i < |a| && 0 <= j < 8 :: Bit(Xor(a, b)[i], j) == (Bit(a[i], j) + Bit(b[i], j)) % 2
  {
    forall i, j | 0 <= i < |a| && 0 <= j < 8
      ensures Bit(Xor(a, b)[i], j) == (Bit(a[i], j) + Bit(b[i], j)) % 2
    {
      BitOfXor(a[i], b[i], 8, j);
    }
  }

  function CbcSeal(c: Primitives, key: Bytes, iv: Bytes, text: Bytes): (r: Bytes)
    requires c.Sound() && |iv| == BLOCK_SIZE && |text| % BLOCK_SIZE == 0
    ensures |r| == |text|
    decreases |text|
  {
    if text == [] then []
    else
      var block := c.seal(key, Xor(text[..BLOCK_SIZE], iv));
      block + CbcSeal(c, key, block, text[BLOCK_SIZE..])
  }

  function CbcOpen(c: Primitives, key: Bytes, iv: Bytes, text: Bytes): (r: Bytes)
    requires c.Sound() && |iv| == BLOCK_SIZE && |text| % BLOCK_SIZE == 0
    ensures |r| == |text|
    decreases |text|
  {
    if text == [] then []
    else Xor(c.open(key, text[..BLOCK_SIZE]), iv) + CbcOpen(c, key, text[..BLOCK_SIZE], text[BLOCK_SIZE..])
  }

  lemma {:induction false} CbcInverts(c: Primitives, key: Bytes, iv: Bytes, text: Bytes)
    requires c.Sound() && |iv| == BLOCK_SIZE && |text| % BLOCK_SIZE == 0
    ensures CbcOpen(c, key, iv, CbcSeal(c, key, iv, text)) == text
    decreases |text|
  {
    if text != [] {
      var block := c.seal(key, Xor(text[..BLOCK_SIZE], iv));
      var sealed := CbcSeal(c, key, iv, text);
      CbcInverts(c, key, block, text[BLOCK_SIZE..]);
      XorTwice(text[..BLOCK_SIZE], iv);
      hide Xor, XorByte;
      assert sealed[..BLOCK_SIZE] == block && sealed[BLOCK_SIZE..] == CbcSeal(c, key, block, text[BLOCK_SIZE..]);
      assert text == text[..BLOCK_SIZE] + text[BLOCK_SIZE..];
    }
  }

  /** Block i of a text of whole blocks. */
  function Block(s: Bytes, i: nat): (r: Bytes)
    requires 16 * i + 16 <= |s|
    ensures |r| == 16
  {
    s[16 * i..16 * i + 16]
  }

  /** What block i is chained to: the block before it in the sealed text, or the iv. */
  function Chain(iv: Bytes, sealed: Bytes, i: nat): (r: Bytes)
    requires |iv| == 16 && 16 * i <= |sealed|
    ensures |r| == 16
  {
    if i == 0 then iv else Block(sealed, i - 1)
  }

  /** Every sealed block is the cipher of the text block and the block it is chained to. */
  ghost predicate Chained(c: Primitives, key: Bytes, iv: Bytes, text: Bytes, sealed: Bytes)
    requires |iv| == 16
  {
    && |sealed| == |text| && |text| % 16 == 0
    && forall i: nat | 16 * i + 16 <= |text| ::
         Block(sealed, i) == c.seal(key, Xor(Block(text, i), Chain(iv, sealed, i)))
  }

  /** Every text block is the deciphered block and the block it is chained to. */
  ghost predicate Unchained(c: Primitives, key: Bytes, iv: Bytes, sealed: Bytes, text: Bytes)
    requires c.Sound() && |iv| == 16
  {
    && |text| == |sealed| && |sealed| % 16 == 0
    && forall i: nat | 16 * i + 16 <= |sealed| ::
         Block(text, i) == Xor(c.open(key, Block(sealed, i)), Chain(iv, sealed, i))
  }

  /** Where the blocks of a text lie once its first block is taken off. */
  lemma LaterBlock(first: Bytes, rest: Bytes, i: nat)
    requires |first| == 16 && i > 0 && 16 * i + 16 <= |first + rest|
    ensures Block(first + rest, i) == Block(rest, i - 1)
  {
  }

  lemma FirstBlock(first: Bytes, rest: Bytes)
    requires |first| == 16
    ensures Block(first + rest, 0) == first
  {
  }

  lemma FirstChain(iv: Bytes, sealed: Bytes)
    requires |iv| == 16
    ensures Chain(iv, sealed, 0) == iv
  {
  }

  lemma LaterChain(iv: Bytes, first: Bytes, rest: Bytes, i: nat)
    requires |iv| == 16 && |first| == 16 && i > 0 && 16 * i <= |first + rest|
    ensures Chain(iv, first + rest, i) == Chain(first, rest, i - 1)
  {
  }

  lemma {:induction false} SealIsChained(c: Primitives, key: Bytes, iv: Bytes, text: Bytes)
    requires c.Sound() && |iv| == BLOCK_SIZE && |text| % BLOCK_SIZE == 0
    ensures Chained(c, key, iv, text, CbcSeal(c, key, iv, text))
    decreases |text|
  {
    hide Xor, Block, Chain;
    if text != [] {
      var head, tail := text[..16], text[16..];
      var block := c.seal(key, Xor(head, iv));
      var more := CbcSeal(c, key, block, tail);
      SealIsChained(c, key, block, tail);
      assert text == head + tail && CbcSeal(c, key, iv, text) == block + more;
      FirstBlock(head, tail);
      FirstBlock(block, more);
      FirstChain(iv, block + more);
      forall i: nat | i > 0 && 16 * i + 16 <= |text|
        ensures Block(block + more, i) == c.seal(key, Xor(Block(head + tail, i), Chain(iv, block + more, i)))
      {
        LaterBlock(head, tail, i);
        LaterBlock(block, more, i);
        LaterChain(iv, block, more, i);
        assert 16 * (i - 1) + 16 <= |tail|;
      }
    }
  }

  lemma {:induction false} OpenIsUnchained(c: Primitives, key: Bytes, iv: Bytes, sealed: Bytes)
    requires c.Sound() && |iv| == BLOCK_SIZE && |sealed| % BLOCK_SIZE == 0
    ensures Unchained(c, key, iv, sealed, CbcOpen(c, key, iv, sealed))
    decreases |sealed|
  {
    hide Xor, Block, Chain;
    if sealed != [] {
      var head, tail := sealed[..16], sealed[16..];
      var block := Xor(c.open(key, head), iv);
      var more := CbcOpen(c, key, head, tail);
      OpenIsUnchained(c, key, head, tail);
      assert sealed == head + tail && CbcOpen(c, key, iv, sealed) == block + more;
      FirstBlock(head, tail);
      FirstBlock(block, more);
      FirstChain(iv, head + tail);
      forall i: nat | i > 0 && 16 * i + 16 <= |sealed|
        ensures Block(block + more, i) == Xor(c.open(key, Block(head + tail, i)), Chain(iv, head + tail, i))
      {
        LaterBlock(head, tail, i);
        LaterBlock(block, more, i);
        LaterChain(iv, head, tail, i);
        assert 16 * (i - 1) + 16 <= |tail|;
      }
    }
  }

  lemma {:induction false} EqualBlocks(s: Bytes, t: Bytes)
    requires |s| == |t| && |s| % 16 == 0
    requires forall i: nat | 16 * i + 16 <= |s| :: Block(s, i) == Block(t, i)
    ensures s == t
  {
    forall k | 0 <= k < |s| ensures s[k] == t[k] {
      var i := k / 16;
      assert s[k] == Block(s, i)[k - 16 * i] && t[k] == Block(t, i)[k - 16 * i];
    }
  }

  lemma WholeBlocksOnly(c: Primitives, key: Bytes, iv: Bytes, sealed: Bytes)
    requires c.Sound() && |iv| == BLOCK_SIZE && |sealed| % BLOCK_SIZE != 0
    ensures forall text :: !Unchained(c, key, iv, sealed, text)
  {
  }

  /** The text is determined by its blocks. */
  lemma UnchainedIsOpen(c: Primitives, key: Bytes, iv: Bytes, sealed: Bytes, text: Bytes)
    requires c.Sound() && |iv| == BLOCK_SIZE && |sealed| % BLOCK_SIZE == 0
    ensures Unchained(c, key, iv, sealed, text) <==> text == CbcOpen(c, key, iv, sealed)
  {
    OpenIsUnchained(c, key, iv, sealed);
    hide Xor, Block, Chain;
    if Unchained(c, key, iv, sealed, text) {
      EqualBlocks(text, CbcOpen(c, key, iv, sealed));
    }
  }

  // ---------------------------------------------------------------------------
  // encrypt and decrypt
  // ---------------------------------------------------------------------------

  /** Between 1 and 16 bytes, each holding their number (section 6.3 of RFC 5652). */
  function Padding(n: nat): (r: Bytes)
    ensures 1 <= |r| <= 16 && (n + |r|) % 16 == 0
    ensures forall b | b in r :: b == |r|
  {
    seq(BLOCK_SIZE - n % BLOCK_SIZE, _ => BLOCK_SIZE - n % BLOCK_SIZE)
  }

  function Body(c: Primitives, keys: Keys, salt: Bytes, iv: Bytes, plain: Bytes): Bytes
    requires c.Sound() && |iv| == IV_SIZE
  {
    salt + iv + CbcSeal(c, keys.key, iv, plain + Padding(|plain|))
  }

  /** The file, given the salt and iv that were drawn. */
  function Encrypted(c: Primitives, plain: Bytes, pass: string, salt: Bytes, iv: Bytes): Outcome
    requires c.Sound() && |salt| == KEY_SIZE && |iv| == IV_SIZE
  {
    if plain == [] then Failed
    else
      match Derive(c, pass, salt)
      case None => Failed
      case Some(keys) =>
        var body := Body(c, keys, salt, iv, plain);
        Done(Encode(body + c.tag(keys.mac, body)))
  }

  method Encrypt(c: Primitives, plain: Bytes, pass: string, salt: Bytes, iv: Bytes) returns (r: Outcome)
    requires c.Sound() && |salt| == KEY_SIZE && |iv| == IV_SIZE
    ensures r == Encrypted(c, plain, pass, salt, iv)
  {
    if |plain| == 0 {
      return Failed;
    }
    var keys := Derive(c, pass, salt);
    if keys.None? {
      return Failed;
    }
    var padLen := BLOCK_SIZE - |plain| % BLOCK_SIZE;
    var padded := plain + seq(padLen, _ => padLen);
    assert seq(padLen, _ => padLen) == Padding(|plain|);
    var buf := salt + iv + CbcSeal(c, keys.value.key, iv, padded);
    return Done(Encode(buf + c.tag(keys.value.mac, buf)));
  }

  /** Everything up to the last non-zero byte. */
  function Trimmed(s: Bytes): (r: Bytes)
    ensures r <= s && (r != [] ==> r[|r| - 1] != 0)
    ensures AllZero(s[|r|..])
  {
    if s != [] && s[|s| - 1] == 0 then
      var r := Trimmed(s[..|s| - 1]);
      assert s[|r|..] == s[..|s| - 1][|r|..] + [0];
      r
    else s
  }

  function Zeros(n: nat): (r: Bytes)
    ensures |r| == n && AllZero(r)
  {
    seq(n, _ => 0)
  }

  /** The decode buffer: the decoded bytes, then the room the decoder did not use. */
  function Buffer(encoded: Bytes, raw: Bytes): (r: Bytes)
    requires |raw| <= DecodedLen(|encoded|)
    ensures |r| == DecodedLen(|encoded|)
  {
    raw + Zeros(DecodedLen(|encoded|) - |raw|)
  }

  /** What remains once the padding is taken off, or an error. */
  function Unpadded(text: Bytes): Outcome {
    if text == [] then Failed
    else
      var padLen := text[|text| - 1];
      if padLen <= 0 || padLen > BLOCK_SIZE || padLen > |text| then Failed else Done(text[..|text| - padLen])
  }

  /** Authenticate and open. `buffer` is the whole decode buffer, n the length left of it
      after trimming; slicing beyond n but inside the buffer is allowed. */
  function Opened(c: Primitives, pass: string, buffer: Bytes, n: nat): Outcome
    requires c.Sound() && n <= |buffer| && |buffer| > 2 * KEY_SIZE + IV_SIZE
  {
    match DeriveKnown(c, pass, buffer[..KEY_SIZE])
    case None => Failed
    case Some(keys) =>
      if n < MAC_SIZE then Panicked
      else if buffer[n - MAC_SIZE..n] != c.tag(keys.mac, buffer[..n - MAC_SIZE]) then Failed
      else if n - MAC_SIZE < KEY_SIZE + IV_SIZE then Panicked
      else
        var sealed := buffer[KEY_SIZE + IV_SIZE..n - MAC_SIZE];
        if |sealed| % BLOCK_SIZE != 0 then Panicked
        else Unpadded(CbcOpen(c, keys.key, buffer[KEY_SIZE..KEY_SIZE + IV_SIZE], sealed))
  }

  function Decrypted(c: Primitives, encoded: Bytes, pass: string): Outcome
    requires c.Sound()
  {
    match Decode(StripBreaks(encoded))
    case None => Failed
    case Some(raw) =>
      DecodedFits(encoded);
      var buffer := Buffer(encoded, raw);
      var n := |Trimmed(buffer)|;
      if n == 0 then Panicked
      else if |raw| <= 2 * KEY_SIZE + IV_SIZE then Failed
      else Opened(c, pass, buffer, n)
  }

  lemma DecodedFits(encoded: Bytes)
    ensures var raw := Decode(StripBreaks(encoded)); raw.Some? ==> |raw.value| <= DecodedLen(|encoded|)
  {
  }

  lemma TrimStep(s: Bytes, n: nat)
    requires n <= |s|
    ensures n > 0 && s[n - 1] == 0 ==> Trimmed(s[..n]) == Trimmed(s[..n - 1])
    ensures n == 0 || s[n - 1] != 0 ==> |Trimmed(s[..n])| == n
  {
    if n > 0 {
      assert s[..n][..n - 1] == s[..n - 1];
    }
  }

  method Decrypt(c: Primitives, encodedFile: Bytes, pass: string) returns (r: Outcome)
    requires c.Sound()
    ensures r == Decrypted(c, encodedFile, pass)
  {
    hide Opened, Decode, StripBreaks, Buffer, DecodedLen, Trimmed;
    var raw := Decode(StripBreaks(encodedFile));
    if raw.None? {
      return Failed;
    }
    DecodedFits(encodedFile);
    var buffer := Buffer(encodedFile, raw.value);
    var n := |buffer|;
    assert buffer[..n] == buffer;
    while n > 0 && buffer[n - 1] == 0
      invariant 0 <= n <= |buffer|
      invariant Trimmed(buffer) == Trimmed(buffer[..n])
    {
      TrimStep(buffer, n);
      n := n - 1;
    }
    TrimStep(buffer, n);
    if n == 0 {
      return Panicked; // the loop reads the last byte of an empty slice
    }
    if |raw.value| <= 2 * KEY_SIZE + IV_SIZE {
      return Failed;
    }
    r := Open(c, pass, buffer, n);
  }

  method Open(c: Primitives, pass: string, buffer: Bytes, n: nat) returns (r: Outcome)
    requires c.Sound() && n <= |buffer| && |buffer| > 2 * KEY_SIZE + IV_SIZE
    ensures r == Opened(c, pass, buffer, n)
  {
    hide CbcOpen, DeriveKnown;
    var keys := DeriveKnown(c, pass, buffer[..KEY_SIZE]);
    if keys.None? {
      return Failed;
    }
    if n < MAC_SIZE {
      return Panicked; // negative slice bound
    }
    if buffer[n - MAC_SIZE..n] != c.tag(keys.value.mac, buffer[..n - MAC_SIZE]) {
      return Failed;
    }
    if n - MAC_SIZE < KEY_SIZE + IV_SIZE {
      return Panicked; // negative length
    }
    var sealed := buffer[KEY_SIZE + IV_SIZE..n - MAC_SIZE];
    if |sealed| % BLOCK_SIZE != 0 {
      return Panicked; // the cipher takes whole blocks only
    }
    var text := CbcOpen(c, keys.value.key, buffer[KEY_SIZE..KEY_SIZE + IV_SIZE], sealed);
    if |text| == 0 {
      return Failed;
    }
    var padLen := text[|text| - 1];
    if padLen <= 0 || padLen > BLOCK_SIZE || padLen > |text| {
      return Failed;
    }
    return Done(text[..|text| - padLen]);
  }

  // ---------------------------------------------------------------------------
  // Round trip
  // ---------------------------------------------------------------------------

  lemma ZeroFrom(s: Bytes, n: nat)
    requires n <= |s| && AllZero(s[n..])
    ensures forall i | n <= i < |s| :: s[i] == 0
  {
    forall i | n <= i < |s| ensures s[i] == 0 {
      assert s[n..][i - n] in s[n..];
    }
  }

  lemma TrimmedUnique(s: Bytes, n: nat)
    requires n <= |s| && AllZero(s[n..]) && (n > 0 ==> s[n - 1] != 0)
    ensures |Trimmed(s)| == n
  {
    ZeroFrom(s, n);
    ZeroFrom(s, |Trimmed(s)|);
  }

  /** A final zero byte is trimmed, and with it at least one byte of the data. */
  lemma TrimmedLoses(s: Bytes, n: nat)
    requires 0 < n <= |s| && AllZero(s[n - 1..])
    ensures |Trimmed(s)| < n
  {
    ZeroFrom(s, n - 1);
    ZeroFrom(s, |Trimmed(s)|);
  }

  lemma PaddingComesOff(plain: Bytes)
    ensures var padded := plain + Padding(|plain|);
      |padded| % BLOCK_SIZE == 0 && |plain| < |padded| <= |plain| + BLOCK_SIZE && Unpadded(padded) == Done(plain)
  {
    var padded := plain + Padding(|plain|);
    assert padded[..|plain|] == plain;
  }

  /** What encryption wrote, as the decryption of any file that holds it sees it. */
  lemma BufferShape(c: Primitives, plain: Bytes, pass: string, salt: Bytes, iv: Bytes, file: Bytes)
    requires c.Sound() && |salt| == KEY_SIZE && |iv| == IV_SIZE
    requires Encrypted(c, plain, pass, salt, iv).Done? && StripBreaks(file) == Encrypted(c, plain, pass, salt, iv).bytes
    ensures var keys := Derive(c, pass, salt).value;
      var raw := Body(c, keys, salt, iv, plain) + c.tag(keys.mac, Body(c, keys, salt, iv, plain));
      && Decode(StripBreaks(file)) == Some(raw)
      && |raw| <= DecodedLen(|file|)
      && |raw| == KEY_SIZE + IV_SIZE + |plain + Padding(|plain|)| + MAC_SIZE
  {
    var keys := Derive(c, pass, salt).value;
    PaddingComesOff(plain);
    DecodedFits(file);
    hide CbcSeal, Padding;
    RoundTrip(Body(c, keys, salt, iv, plain) + c.tag(keys.mac, Body(c, keys, salt, iv, plain)));
  }

  /** Opening the full buffer gives the plaintext back. */
  lemma OpensToPlain(c: Primitives, plain: Bytes, pass: string, salt: Bytes, iv: Bytes, keys: Keys, rest: Bytes)
    requires c.Sound() && |salt| == KEY_SIZE && |iv| == IV_SIZE && plain != []
    requires DeriveKnown(c, pass, salt) == Some(keys)
    ensures var body := Body(c, keys, salt, iv, plain);
      var raw := body + c.tag(keys.mac, body);
      |raw + rest| > 2 * KEY_SIZE + IV_SIZE && Opened(c, pass, raw + rest, |raw|) == Done(plain)
  {
    hide CbcOpen, CbcSeal, Padding, DeriveKnown, Unpadded;
    var padded := plain + Padding(|plain|);
    PaddingComesOff(plain);
    CbcInverts(c, keys.key, iv, padded);
    var sealed := CbcSeal(c, keys.key, iv, padded);
    var body := salt + iv + sealed;
    FramesApart(salt, iv, sealed, c.tag(keys.mac, body), rest);
  }

  /** Where the parts of a file lie in any buffer that begins with it. */
  lemma FramesApart(salt: Bytes, iv: Bytes, sealed: Bytes, tag: Bytes, rest: Bytes)
    requires |salt| == KEY_SIZE && |iv| == IV_SIZE && |tag| == MAC_SIZE
    ensures var body := salt + iv + sealed;
      var buffer, n := body + tag + rest, |body + tag|;
      && buffer[..KEY_SIZE] == salt && buffer[KEY_SIZE..KEY_SIZE + IV_SIZE] == iv
      && buffer[n - MAC_SIZE..n] == tag && buffer[..n - MAC_SIZE] == body
      && buffer[KEY_SIZE + IV_SIZE..n - MAC_SIZE] == sealed
  {
  }

  /** Whatever a shorter view of the buffer opens to, it is shorter than the plaintext. */
  lemma ShorterOpensShorter(c: Primitives, pass: string, buffer: Bytes, n: nat, padded: nat)
    requires c.Sound() && n <= |buffer| && |buffer| > 2 * KEY_SIZE + IV_SIZE
    requires padded % BLOCK_SIZE == 0 && n < KEY_SIZE + IV_SIZE + padded + MAC_SIZE
    ensures var r := Opened(c, pass, buffer, n); r.Done? ==> |r.bytes| + BLOCK_SIZE < padded
  {
    hide CbcOpen, DeriveKnown;
  }

  /** Decrypting what was encrypted, with line breaks added or not, gives the plaintext back
      exactly when the drawn salt was not all zero and the tag does not end in a zero byte;
      the trailing-zero loop eats such a tag. */
  lemma DecryptInvertsEncrypt(c: Primitives, plain: Bytes, pass: string, salt: Bytes, iv: Bytes, file: Bytes)
    requires c.Sound() && |salt| == KEY_SIZE && |iv| == IV_SIZE
    requires Encrypted(c, plain, pass, salt, iv).Done? && StripBreaks(file) == Encrypted(c, plain, pass, salt, iv).bytes
    ensures var keys := Derive(c, pass, salt).value;
      var tag := c.tag(keys.mac, Body(c, keys, salt, iv, plain));
      Decrypted(c, file, pass) == Done(plain) <==> !AllZero(salt) && tag[MAC_SIZE - 1] != 0
  {
    hide Opened, Encrypted, StripBreaks, Decode, Body, Padding, Derive, AllZero;
    PlainIsNotEmpty(c, plain, pass, salt, iv);
    var keys := Derive(c, pass, salt).value;
    var body := Body(c, keys, salt, iv, plain);
    var raw := body + c.tag(keys.mac, body);
    BufferShape(c, plain, pass, salt, iv, file);
    PaddingComesOff(plain);
    var buffer := Buffer(file, raw);
    assert raw[|raw| - 1] == c.tag(keys.mac, body)[MAC_SIZE - 1];
    if raw[|raw| - 1] != 0 {
      WholeTagOpens(c, plain, pass, salt, iv, keys, buffer, DecodedLen(|file|) - |raw|);
    } else {
      CutTagLoses(c, plain, pass, raw, buffer, DecodedLen(|file|) - |raw|);
    }
  }

  lemma PlainIsNotEmpty(c: Primitives, plain: Bytes, pass: string, salt: Bytes, iv: Bytes)
    requires c.Sound() && |salt| == KEY_SIZE && |iv| == IV_SIZE
    requires Encrypted(c, plain, pass, salt, iv).Done?
    ensures plain != [] && Derive(c, pass, salt).Some?
  {
  }

  /** A tag that does not end in a zero byte is all there after trimming. */
  lemma WholeTagOpens(c: Primitives, plain: Bytes, pass: string, salt: Bytes, iv: Bytes, keys: Keys, buffer: Bytes,
                      spare: nat)
    requires c.Sound() && |salt| == KEY_SIZE && |iv| == IV_SIZE && plain != []
    requires Derive(c, pass, salt) == Some(keys)
    requires var raw := Body(c, keys, salt, iv, plain) + c.tag(keys.mac, Body(c, keys, salt, iv, plain));
      buffer == raw + Zeros(spare) && |raw| > 2 * KEY_SIZE + IV_SIZE && raw[|raw| - 1] != 0
    ensures Trimmed(buffer) != []
    ensures Opened(c, pass, buffer, |Trimmed(buffer)|) == Done(plain) <==> !AllZero(salt)
  {
    var body := Body(c, keys, salt, iv, plain);
    var tag := c.tag(keys.mac, body);
    hide Opened, Body, Derive, AllZero;
    assert buffer[|body + tag|..] == Zeros(spare);
    TrimmedUnique(buffer, |body + tag|);
    SaltIsFirst(c, keys, salt, iv, plain, tag + Zeros(spare));
    assert buffer == body + (tag + Zeros(spare));
    if !AllZero(salt) {
      KnownSaltDerives(c, pass, salt);
      OpensToPlain(c, plain, pass, salt, iv, keys, Zeros(spare));
    } else {
      ZeroSaltFails(c, pass, buffer, |body + tag|);
    }
  }

  lemma KnownSaltDerives(c: Primitives, pass: string, salt: Bytes)
    requires c.Sound() && |salt| == KEY_SIZE && !AllZero(salt) && Derive(c, pass, salt).Some?
    ensures DeriveKnown(c, pass, salt) == Derive(c, pass, salt)
  {
  }

  /** A tag that does is cut, and what is left is too short for the plaintext. */
  lemma CutTagLoses(c: Primitives, plain: Bytes, pass: string, raw: Bytes, buffer: Bytes, spare: nat)
    requires c.Sound() && buffer == raw + Zeros(spare) && |raw| > 2 * KEY_SIZE + IV_SIZE && raw[|raw| - 1] == 0
    requires |raw| == KEY_SIZE + IV_SIZE + |plain + Padding(|plain|)| + MAC_SIZE
    ensures Opened(c, pass, buffer, |Trimmed(buffer)|) != Done(plain)
  {
    hide Opened, Padding;
    PaddingComesOff(plain);
    assert buffer[|raw| - 1..] == [0] + Zeros(spare);
    TrimmedLoses(buffer, |raw|);
    ShorterOpensShorter(c, pass, buffer, |Trimmed(buffer)|, |plain + Padding(|plain|)|);
  }

  lemma SaltIsFirst(c: Primitives, keys: Keys, salt: Bytes, iv: Bytes, plain: Bytes, rest: Bytes)
    requires c.Sound() && |salt| == KEY_SIZE && |iv| == IV_SIZE
    ensures |Body(c, keys, salt, iv, plain)| >= KEY_SIZE && (Body(c, keys, salt, iv, plain) + rest)[..KEY_SIZE] == salt
  {
    hide CbcSeal, Padding;
  }

  lemma ZeroSaltFails(c: Primitives, pass: string, buffer: Bytes, n: nat)
    requires c.Sound() && n <= |buffer| && |buffer| > 2 * KEY_SIZE + IV_SIZE && AllZero(buffer[..KEY_SIZE])
    ensures Opened(c, pass, buffer, n) == Failed
  {
    hide CbcOpen;
  }

  /** The bytes of an encrypted file: the salt, the iv, the padded text block by block under
      the first half of the derived bytes, and the tag of all that under the second half. */
  ghost predicate LaidOut(c: Primitives, raw: Bytes, plain: Bytes, pass: string, salt: Bytes, iv: Bytes)
    requires c.Sound() && |iv| == 16
  {
    var keys, padded, n := c.derive(pass, salt), plain + Padding(|plain|), |raw| - 32;
    && n == 32 + 16 + |padded|
    && raw[..32] == salt && raw[32..48] == iv
    && Chained(c, keys[..32], iv, padded, raw[48..n])
    && raw[n..] == c.tag(keys[32..], raw[..n])
  }

  /** What encryption writes, and when it writes anything. */
  lemma FileIsLaidOut(c: Primitives, plain: Bytes, pass: string, salt: Bytes, iv: Bytes)
    requires c.Sound() && |salt| == KEY_SIZE && |iv| == IV_SIZE
    ensures var r := Encrypted(c, plain, pass, salt, iv);
      && !r.Panicked?
      && (r.Done? <==> plain != [] && c.accepts(pass) && !AllZero(c.derive(pass, salt)))
      && (r.Done? ==> exists raw :: Decode(r.bytes) == Some(raw) && LaidOut(c, raw, plain, pass, salt, iv))
  {
    hide AllZero, Decode, Encode, Chained, Padding, CbcSeal;
    var r := Encrypted(c, plain, pass, salt, iv);
    if r.Done? {
      var keys := Derive(c, pass, salt).value;
      var padded := plain + Padding(|plain|);
      PaddingComesOff(plain);
      SealIsChained(c, keys.key, iv, padded);
      var sealed := CbcSeal(c, keys.key, iv, padded);
      var body := salt + iv + sealed;
      var tag := c.tag(keys.mac, body);
      FramesApart(salt, iv, sealed, tag, []);
      assert body + tag + [] == body + tag;
      RoundTrip(body + tag);
      assert LaidOut(c, body + tag, plain, pass, salt, iv);
    }
  }

  /** The decoded bytes open to the text: trimmed, they are a non-zero salt, an iv, whole
      blocks and the right tag, and the blocks unchained end in 1 to 16 bytes of padding, told
      by the last of them, after the text. */
  ghost predicate OpensTo(c: Primitives, raw: Bytes, pass: string, plain: Bytes)
    requires c.Sound()
  {
    var t := Trimmed(raw);
    && |raw| > 80 && |t| >= 80
    && c.accepts(pass) && !AllZero(t[..32])
    && var keys, n := c.derive(pass, t[..32]), |t| - 32;
    && !AllZero(keys)
    && t[n..] == c.tag(keys[32..], t[..n])
    && exists text :: Unchained(c, keys[..32], t[32..48], t[48..n], text) && Unpads(text, plain)
  }

  ghost predicate Unpads(text: Bytes, plain: Bytes) {
    && plain < text && text[|text| - 1] == |text| - |plain| <= 16
  }

  lemma UnpaddedExactly(text: Bytes, plain: Bytes)
    ensures Unpadded(text) == Done(plain) <==> Unpads(text, plain)
  {
  }

  /** Decryption returns a text for exactly these files. */
  lemma OpensExactly(c: Primitives, file: Bytes, pass: string, plain: Bytes)
    requires c.Sound()
    ensures Decrypted(c, file, pass) == Done(plain) <==>
      var raw := Decode(StripBreaks(file)); raw.Some? && OpensTo(c, raw.value, pass, plain)
  {
    hide Decode, StripBreaks, Opened, OpensTo;
    var decoded := Decode(StripBreaks(file));
    if decoded.Some? {
      var raw := decoded.value;
      DecodedFits(file);
      BufferTrims(file, raw);
      var t := Trimmed(raw);
      assert raw[..|t|] == t;
      if |raw| > 80 && t != [] {
        OpenedExactly(c, pass, raw, Buffer(file, raw), plain);
      } else {
        ShortDoesNotOpen(c, raw, pass, plain);
      }
    }
  }

  lemma ShortDoesNotOpen(c: Primitives, raw: Bytes, pass: string, plain: Bytes)
    requires c.Sound() && (|raw| <= 80 || |Trimmed(raw)| < 80)
    ensures !OpensTo(c, raw, pass, plain)
  {
  }

  lemma OpenedExactly(c: Primitives, pass: string, raw: Bytes, buffer: Bytes, plain: Bytes)
    requires c.Sound() && |raw| > 80 && raw <= buffer
    ensures Opened(c, pass, buffer, |Trimmed(raw)|) == Done(plain) <==> OpensTo(c, raw, pass, plain)
  {
    hide CbcOpen, Unchained, AllZero, Trimmed, Unpadded, Unpads;
    var t := Trimmed(raw);
    if |t| >= 80 {
      var n := |t| - 32;
      assert buffer[..32] == t[..32] && buffer[32..48] == t[32..48] && buffer[48..n] == t[48..n];
      assert buffer[n..|t|] == t[n..] && buffer[..n] == t[..n];
      var key, iv, sealed := c.derive(pass, t[..32])[..32], t[32..48], t[48..n];
      if |sealed| % 16 == 0 {
        var text := CbcOpen(c, key, iv, sealed);
        UnchainedIsOpen(c, key, iv, sealed, text);
        UnpaddedExactly(text, plain);
        if other :| Unchained(c, key, iv, sealed, other) && Unpads(other, plain) {
          UnchainedIsOpen(c, key, iv, sealed, other);
        }
      } else {
        WholeBlocksOnly(c, key, iv, sealed);
      }
    }
  }

  /** Whether the decoded bytes, t being what trimming leaves of them, stop the program: an
      empty t; or one that is too short for a tag although the keys derive; or one whose tag
      is right but which does not hold salt, iv and whole blocks before it. */
  ghost predicate Panics(c: Primitives, raw: Bytes, t: Bytes, pass: string)
    requires c.Sound()
  {
    || t == []
    || (|raw| > 2 * KEY_SIZE + IV_SIZE
        && var keys := DeriveKnown(c, pass, raw[..KEY_SIZE]);
        keys.Some? && (|t| < MAC_SIZE || (Tagged(c, keys.value, t) && !Framed(t))))
  }

  /** t ends in the tag of what is before it. */
  ghost predicate Tagged(c: Primitives, keys: Keys, t: Bytes)
    requires |t| >= MAC_SIZE
  {
    t[|t| - MAC_SIZE..] == c.tag(keys.mac, t[..|t| - MAC_SIZE])
  }

  /** There is room for salt, iv and tag, and whole blocks between them. */
  ghost predicate Framed(t: Bytes) {
    |t| >= KEY_SIZE + IV_SIZE + MAC_SIZE && (|t| - KEY_SIZE - IV_SIZE - MAC_SIZE) % BLOCK_SIZE == 0
  }

  lemma OpenedPanics(c: Primitives, pass: string, raw: Bytes, buffer: Bytes, n: nat)
    requires c.Sound() && n <= |buffer| && |buffer| >= |raw| > 2 * KEY_SIZE + IV_SIZE && raw <= buffer && n <= |raw|
    ensures var keys := DeriveKnown(c, pass, raw[..KEY_SIZE]);
      Opened(c, pass, buffer, n).Panicked? <==>
        keys.Some? && (n < MAC_SIZE || (Tagged(c, keys.value, raw[..n]) && !Framed(raw[..n])))
  {
    hide CbcOpen, DeriveKnown;
    assert buffer[..KEY_SIZE] == raw[..KEY_SIZE];
    if n >= MAC_SIZE {
      assert buffer[n - MAC_SIZE..n] == raw[..n][n - MAC_SIZE..] && buffer[..n - MAC_SIZE] == raw[..n][..n - MAC_SIZE];
    }
  }

  /** Decryption stops with a panic, instead of an error, for exactly these files. */
  lemma PanicsExactly(c: Primitives, file: Bytes, pass: string)
    requires c.Sound()
    ensures Decrypted(c, file, pass).Panicked? <==>
      var raw := Decode(StripBreaks(file)); raw.Some? && Panics(c, raw.value, Trimmed(raw.value), pass)
  {
    hide Decode, StripBreaks, Opened, Tagged, Framed, DeriveKnown;
    var decoded := Decode(StripBreaks(file));
    if decoded.Some? {
      var raw := decoded.value;
      DecodedFits(file);
      BufferTrims(file, raw);
      var t := Trimmed(raw);
      assert raw[..|t|] == t;
      if |raw| > 2 * KEY_SIZE + IV_SIZE {
        OpenedPanics(c, pass, raw, Buffer(file, raw), |t|);
      }
    }
  }

  /** A second family besides files of zero bytes: a password that derives keys, and too few
      bytes before the zeros. */
  lemma ShortFilePanics(c: Primitives, data: Bytes, zeros: nat, file: Bytes, pass: string)
    requires c.Sound() && c.accepts(pass)
    requires 0 < |data| < MAC_SIZE && data[|data| - 1] != 0 && |data| + zeros > 2 * KEY_SIZE + IV_SIZE
    requires StripBreaks(file) == Encode(data + Zeros(zeros))
          && Derive(c, pass, (data + Zeros(zeros))[..KEY_SIZE]).Some?
    ensures Decrypted(c, file, pass).Panicked?
  {
    hide Decode, Encode, StripBreaks, Decrypted, Derive;
    var raw := data + Zeros(zeros);
    RoundTrip(raw);
    assert raw[|data|..] == Zeros(zeros);
    TrimmedUnique(raw, |data|);
    assert raw[..KEY_SIZE][|data| - 1] in raw[..KEY_SIZE];
    KnownSaltDerives(c, pass, raw[..KEY_SIZE]);
    PanicsExactly(c, file, pass);
  }

  /** A file with nothing in it but zero bytes, an empty one included, stops the program
      with a panic instead of an error. */
  lemma ZeroFilePanics(c: Primitives, zeros: Bytes, pass: string)
    requires c.Sound() && AllZero(zeros)
    ensures forall file | StripBreaks(file) == Encode(zeros) :: Decrypted(c, file, pass) == Panicked
  {
    RoundTrip(zeros);
    forall file | StripBreaks(file) == Encode(zeros) ensures Decrypted(c, file, pass) == Panicked {
      DecodedFits(file);
      hide Opened, Encode, Decode, StripBreaks;
      TrimmedUnique(Buffer(file, zeros), 0);
    }
  }

  /** Only files that end in the right tag open: with an accepted password, the decoded file
      without its trailing zero bytes is a body, led by a non-zero salt, and the body's tag
      under the keys of that password and salt. */
  lemma OnlyTaggedFilesOpen(c: Primitives, file: Bytes, pass: string) returns (body: Bytes, keys: Keys)
    requires c.Sound() && Decrypted(c, file, pass).Done?
    ensures Decode(StripBreaks(file)).Some? && Trimmed(Decode(StripBreaks(file)).value) == body + c.tag(keys.mac, body)
    ensures |body| >= KEY_SIZE + IV_SIZE && !AllZero(body[..KEY_SIZE])
    ensures c.accepts(pass) && Derive(c, pass, body[..KEY_SIZE]) == Some(keys)
  {
    hide Decode, StripBreaks, Opened, Trimmed, Buffer, AllZero, Derive;
    var raw := Decode(StripBreaks(file)).value;
    DecodedFits(file);
    var buffer := Buffer(file, raw);
    body, keys := OpenedIsTagged(c, pass, buffer, |Trimmed(buffer)|);
    BufferTrims(file, raw);
    assert buffer[..|Trimmed(buffer)|] == Trimmed(buffer);
  }

  lemma BufferTrims(file: Bytes, raw: Bytes)
    requires |raw| <= DecodedLen(|file|)
    ensures Trimmed(Buffer(file, raw)) == Trimmed(raw)
  {
    SpareIsTrimmed(raw, DecodedLen(|file|) - |raw|);
  }

  lemma OpenedIsTagged(c: Primitives, pass: string, buffer: Bytes, n: nat) returns (body: Bytes, keys: Keys)
    requires c.Sound() && n <= |buffer| && |buffer| > 2 * KEY_SIZE + IV_SIZE && Opened(c, pass, buffer, n).Done?
    ensures buffer[..n] == body + c.tag(keys.mac, body)
    ensures |body| >= KEY_SIZE + IV_SIZE && !AllZero(body[..KEY_SIZE])
    ensures c.accepts(pass) && Derive(c, pass, body[..KEY_SIZE]) == Some(keys)
  {
    hide CbcOpen, Unpadded, Derive, AllZero;
    keys := DeriveKnown(c, pass, buffer[..KEY_SIZE]).value;
    body := buffer[..n - MAC_SIZE];
    assert buffer[..n] == body + buffer[n - MAC_SIZE..n];
    assert body[..KEY_SIZE] == buffer[..KEY_SIZE];
  }

  lemma {:induction false} SpareIsTrimmed(raw: Bytes, spare: nat)
    ensures Trimmed(raw + Zeros(spare)) == Trimmed(raw)
  {
    var s := raw + Zeros(spare);
    if spare > 0 {
      assert s[..|s| - 1] == raw + Zeros(spare - 1);
      SpareIsTrimmed(raw, spare - 1);
    } else {
      assert s == raw;
    }
  }
}
