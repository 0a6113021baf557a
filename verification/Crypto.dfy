/** Hybrid encryption: RSA-OAEP of a session key, AES-GCM of the payload, one frame around both. */
module Crypto {
  import opened Base

  datatype PublicKey = PublicKey(modulus: nat, exponent: nat)

  /** A valid key pair: `secret` is an exponent that inverts `publicKey`. */
  datatype PrivateKey = PrivateKey(publicKey: PublicKey, secret: nat)

  /** The library calls, by contract only; `None` is a returned error. */
  datatype Primitives = Primitives(
    encryptOAEP: (PublicKey, Bytes, Bytes, string) -> Option<Bytes>,
    decryptOAEP: (PrivateKey, Bytes, string) -> Option<Bytes>,
    sealGCM: (Bytes, Bytes, Bytes) -> Bytes,
    openGCM: (Bytes, Bytes, Bytes) -> Option<Bytes>,
    encode64: Bytes -> string,
    decode64: string -> Option<Bytes>,
    fingerprint: PublicKey -> Option<string>)

  const SESSION_KEY_BYTES := 32
  const NONCE_SIZE := 12
  const ZERO_NONCE: Bytes := seq(NONCE_SIZE, i => 0 as byte)
  const LENGTH_LIMIT := 65536

  type SessionKey = b: Bytes | |b| == SESSION_KEY_BYTES witness seq(SESSION_KEY_BYTES, i => 0 as byte)

  /** What one encryption draws from the random source. */
  datatype Coins = Coins(sessionKey: SessionKey, seed: Bytes)

  /** A random source: its n-th draw, or a read error. */
  type Random = nat -> Option<Coins>

  datatype DecryptError = TooShort | OAEPFailed | BadKeySize | AuthenticationFailed

  // ---- Assumptions about the primitives -----------------------------------------------------

  /** RFC 8017, sections 7.1.1 and 7.1.2: decryption inverts encryption under the same label. */
  ghost predicate OAEPInverts(c: Primitives) {
    forall sk: PrivateKey, seed, m, l :: c.encryptOAEP(sk.publicKey, seed, m, l).Some? ==>
      c.decryptOAEP(sk, c.encryptOAEP(sk.publicKey, seed, m, l).value, l) == Some(m)
  }

  /** An OAEP ciphertext opens under no other key and no other label. */
  ghost predicate OAEPBinds(c: Primitives) {
    forall pk, seed, m, l, sk: PrivateKey, l' ::
      c.encryptOAEP(pk, seed, m, l).Some? &&
      c.decryptOAEP(sk, c.encryptOAEP(pk, seed, m, l).value, l').Some? ==>
        sk.publicKey == pk && l' == l
  }

  /** An OAEP ciphertext is as long as the modulus, and its length fits the 16-bit field. */
  ghost predicate OAEPFits(c: Primitives) {
    forall pk, seed, m, l :: c.encryptOAEP(pk, seed, m, l).Some? ==>
      |c.encryptOAEP(pk, seed, m, l).value| < LENGTH_LIMIT
  }

  /** NIST SP 800-38D, sections 7.1 and 7.2. */
  ghost predicate GCMInverts(c: Primitives) {
    forall key, nonce, p :: c.openGCM(key, nonce, c.sealGCM(key, nonce, p)) == Some(p)
  }

  /** RFC 4648, section 4. */
  ghost predicate Base64Inverts(c: Primitives) {
    forall b :: c.decode64(c.encode64(b)) == Some(b)
  }

  ghost predicate FingerprintsSeparate(c: Primitives) {
    forall p, q :: c.fingerprint(p).Some? && c.fingerprint(p) == c.fingerprint(q) ==> p == q
  }

  ghost predicate Sound(c: Primitives) {
    && OAEPInverts(c) && OAEPBinds(c) && OAEPFits(c)
    && GCMInverts(c) && Base64Inverts(c) && FingerprintsSeparate(c)
  }

  // ---- The frame ----------------------------------------------------------------------------

  /** Two big-endian bytes; the cast to 16 bits drops everything above. */
  function PutUint16(n: nat): Bytes {
    var w := n % LENGTH_LIMIT;
    [(w / 256) as byte, (w % 256) as byte]
  }

  function Uint16(b: Bytes): nat
    requires |b| >= 2
  {
    b[0] as int * 256 + b[1] as int
  }

  function Frame(rsa: Bytes, aes: Bytes): Bytes {
    PutUint16(|rsa|) + rsa + aes
  }

  /** The two slices a decryption takes, or nothing when the text is too short. */
  function Split(text: Bytes): Option<(Bytes, Bytes)> {
    if |text| < 2 then None
    else
      var rsaLen := Uint16(text);
      if |text| < rsaLen + 2 then None
      else Some((text[2..rsaLen + 2], text[rsaLen + 2..]))
  }

  lemma PutOfUint16(b: Bytes)
    requires |b| == 2
    ensures PutUint16(Uint16(b)) == b
  {
  }

  /** On the wire: two bytes of length, the more significant one first and cut to 16 bits, then the two parts. */
  lemma FrameLayout(rsa: Bytes, aes: Bytes)
    ensures var text := Frame(rsa, aes);
      && |text| == 2 + |rsa| + |aes| && text[2..] == rsa + aes
      && text[0] as int * 256 + text[1] as int == |rsa| % 0x1_0000
  {
  }

  /** The frame parses back to its parts exactly when the RSA part fits the length field. */
  lemma FrameSplits(rsa: Bytes, aes: Bytes)
    ensures Split(Frame(rsa, aes)) == Some((rsa, aes)) <==> |rsa| < LENGTH_LIMIT
  {
  }

  /** Every byte string is rejected, or is the frame of the two parts it is split into. */
  lemma SplitFrames(text: Bytes)
    ensures Split(text).None? <==> |text| < 2 || |text| - 2 < Uint16(text)
    ensures Split(text).Some? ==>
              && Frame(Split(text).value.0, Split(text).value.1) == text
              && |Split(text).value.0| < LENGTH_LIMIT
  {
    if Split(text).Some? {
      var (rsa, aes) := Split(text).value;
      PutOfUint16(text[..2]);
      assert Uint16(text) == Uint16(text[..2]) == |rsa|;
      assert PutUint16(|rsa|) == text[..2];
      assert text == text[..2] + rsa + aes;
    }
  }

  // ---- Encryption ---------------------------------------------------------------------------

  /** The hybrid ciphertext made with these coins, if RSA takes the session key. */
  ghost predicate IsHybridWith(
    c: Primitives, pubKey: PublicKey, coins: Coins, plaintext: Bytes, lbl: string, text: Bytes)
  {
    var rsa := c.encryptOAEP(pubKey, coins.seed, coins.sessionKey, lbl);
    rsa.Some? && text == Frame(rsa.value, c.sealGCM(coins.sessionKey, ZERO_NONCE, plaintext))
  }

  /** `text` is a hybrid ciphertext of `plaintext` for `pubKey` under `lbl`. */
  ghost predicate IsHybrid(c: Primitives, pubKey: PublicKey, plaintext: Bytes, lbl: string, text: Bytes) {
    exists coins: Coins :: IsHybridWith(c, pubKey, coins, plaintext, lbl, text)
  }

  method HybridEncrypt(c: Primitives, draw: Option<Coins>, pubKey: PublicKey, plaintext: Bytes, lbl: string)
    returns (r: Option<Bytes>)
    ensures r.Some? ==> draw.Some? && IsHybridWith(c, pubKey, draw.value, plaintext, lbl, r.value)
    ensures r.Some? ==> IsHybrid(c, pubKey, plaintext, lbl, r.value)
    ensures r.None? <==> draw.None? || c.encryptOAEP(pubKey, draw.value.seed, draw.value.sessionKey, lbl).None?
  {
    if draw.None? {
      return None;
    }
    var coins := draw.value;
    var rsaCiphertext := c.encryptOAEP(pubKey, coins.seed, coins.sessionKey, lbl);
    if rsaCiphertext.None? {
      return None;
    }
    var header := new byte[2];
    var length := |rsaCiphertext.value| % LENGTH_LIMIT;
    header[0] := (length / 256) as byte;
    header[1] := (length % 256) as byte;
    var ciphertext := header[..];
    ciphertext := ciphertext + rsaCiphertext.value;
    ciphertext := ciphertext + c.sealGCM(coins.sessionKey, ZERO_NONCE, plaintext);
    assert IsHybridWith(c, pubKey, coins, plaintext, lbl, ciphertext);
    return Some(ciphertext);
  }

  // ---- Decryption ---------------------------------------------------------------------------

  /** `aes.NewCipher` accepts AES-128, AES-192 and AES-256 keys. */
  predicate IsAESKeySize(n: nat) {
    n == 16 || n == 24 || n == 32
  }

  function SingleDecrypt(c: Primitives, privKey: PrivateKey, text: Bytes, lbl: string): Result<Bytes, DecryptError> {
    match Split(text)
    case None => Err(TooShort)
    case Some((rsa, aes)) =>
      match c.decryptOAEP(privKey, rsa, lbl)
      case None => Err(OAEPFailed)
      case Some(sessionKey) =>
        if !IsAESKeySize(|sessionKey|) then Err(BadKeySize)
        else
          match c.openGCM(sessionKey, ZERO_NONCE, aes)
          case None => Err(AuthenticationFailed)
          case Some(plaintext) => Ok(plaintext)
  }

  /**
   * A text opens under a key exactly when the bytes its length field counts decrypt to a key of 16, 24 or 32 bytes
   * under which the rest, with a nonce of twelve zero bytes, authenticates.
   */
  lemma SingleDecryptOpensIff(c: Primitives, privKey: PrivateKey, text: Bytes, lbl: string, plaintext: Bytes)
    ensures SingleDecrypt(c, privKey, text, lbl) == Ok(plaintext) <==>
            && |text| >= 2
            && var n := text[0] as int * 256 + text[1] as int;
            && |text| >= 2 + n
            && var key := c.decryptOAEP(privKey, text[2..2 + n], lbl);
            && key.Some? && |key.value| in {16, 24, 32}
            && c.openGCM(key.value, seq(12, i => 0 as byte), text[2 + n..]) == Some(plaintext)
  {
    assert ZERO_NONCE == seq(12, i => 0 as byte);
  }

  type KeyRing = map<string, PrivateKey>

  ghost predicate Opens(c: Primitives, keys: KeyRing, text: Bytes, lbl: string, plaintext: Bytes) {
    exists f :: f in keys && SingleDecrypt(c, keys[f], text, lbl) == Ok(plaintext)
  }

  ghost predicate Closed(c: Primitives, keys: KeyRing, text: Bytes, lbl: string) {
    forall f :: f in keys ==> SingleDecrypt(c, keys[f], text, lbl).Err?
  }

  /** What a decryption may return: a plaintext some key opens, or nothing if none does. */
  ghost predicate MayReturn(c: Primitives, keys: KeyRing, text: Bytes, lbl: string, r: Option<Bytes>) {
    match r
    case Some(plaintext) => Opens(c, keys, text, lbl, plaintext)
    case None => Closed(c, keys, text, lbl)
  }

  /** Tries the keys in an arbitrary order and stops at the first that opens the text. */
  method HybridDecrypt(c: Primitives, privKeys: KeyRing, text: Bytes, lbl: string) returns (r: Option<Bytes>)
    ensures MayReturn(c, privKeys, text, lbl, r)
  {
    var remaining := privKeys.Keys;
    while remaining != {}
      invariant remaining <= privKeys.Keys
      invariant forall f :: f in privKeys && f !in remaining ==> SingleDecrypt(c, privKeys[f], text, lbl).Err?
      decreases |remaining|
    {
      var f :| f in remaining;
      var secret := SingleDecrypt(c, privKeys[f], text, lbl);
      if secret.Ok? {
        return Some(secret.value);
      }
      remaining := remaining - {f};
    }
    return None;
  }

  // ---- What encryption and decryption promise each other -------------------------------------

  ghost predicate HoldsKeyFor(keys: KeyRing, pubKey: PublicKey) {
    exists f :: f in keys && keys[f].publicKey == pubKey
  }

  lemma SingleDecryptInverts(c: Primitives, privKey: PrivateKey, plaintext: Bytes, lbl: string, text: Bytes)
    requires Sound(c) && IsHybrid(c, privKey.publicKey, plaintext, lbl, text)
    ensures SingleDecrypt(c, privKey, text, lbl) == Ok(plaintext)
  {
  }

  /** A hybrid ciphertext opens only with its own key and label, and then to its own plaintext. */
  lemma OnlyOwnKeyOpens(
    c: Primitives, pubKey: PublicKey, plaintext: Bytes, lbl: string, text: Bytes,
    privKey: PrivateKey, lbl': string)
    requires Sound(c) && IsHybrid(c, pubKey, plaintext, lbl, text)
    requires SingleDecrypt(c, privKey, text, lbl').Ok?
    ensures privKey.publicKey == pubKey && lbl' == lbl
    ensures SingleDecrypt(c, privKey, text, lbl') == Ok(plaintext)
  {
  }

  /** A key ring opens a hybrid ciphertext, and only to its plaintext, iff it holds the key and the label matches. */
  lemma RingOpensHybrid(
    c: Primitives, pubKey: PublicKey, plaintext: Bytes, lbl: string, text: Bytes,
    keys: KeyRing, lbl': string)
    requires Sound(c) && IsHybrid(c, pubKey, plaintext, lbl, text)
    ensures forall p :: Opens(c, keys, text, lbl', p) <==> p == plaintext && lbl' == lbl && HoldsKeyFor(keys, pubKey)
    ensures Closed(c, keys, text, lbl') <==> !(lbl' == lbl && HoldsKeyFor(keys, pubKey))
  {
    forall f | f in keys && SingleDecrypt(c, keys[f], text, lbl').Ok?
      ensures keys[f].publicKey == pubKey && lbl' == lbl && SingleDecrypt(c, keys[f], text, lbl') == Ok(plaintext)
    {
      OnlyOwnKeyOpens(c, pubKey, plaintext, lbl, text, keys[f], lbl');
    }
    if lbl' == lbl && HoldsKeyFor(keys, pubKey) {
      var f :| f in keys && keys[f].publicKey == pubKey;
      SingleDecryptInverts(c, keys[f], plaintext, lbl, text);
    }
  }

  /** More keys never take a decryption away. */
  lemma OpensIsMonotone(c: Primitives, keys: KeyRing, more: KeyRing, text: Bytes, lbl: string, plaintext: Bytes)
    requires Opens(c, keys, text, lbl, plaintext)
    requires forall f :: f in keys ==> exists g :: g in more && more[g] == keys[f]
    ensures Opens(c, more, text, lbl, plaintext)
  {
  }

  /**
   * Two decryptions of one hybrid ciphertext, whatever their rings, labels and key orders, return the same exactly
   * when both may open it or neither may.
   */
  lemma DecryptionsAgreeIff(
    c: Primitives, pubKey: PublicKey, plaintext: Bytes, lbl: string, text: Bytes,
    keys: KeyRing, l: string, r: Option<Bytes>, keys': KeyRing, l': string, r': Option<Bytes>)
    requires Sound(c) && IsHybrid(c, pubKey, plaintext, lbl, text)
    requires MayReturn(c, keys, text, l, r) && MayReturn(c, keys', text, l', r')
    ensures r == r' <==> ((l == lbl && HoldsKeyFor(keys, pubKey)) <==> (l' == lbl && HoldsKeyFor(keys', pubKey)))
  {
    RingOpensHybrid(c, pubKey, plaintext, lbl, text, keys, l);
    RingOpensHybrid(c, pubKey, plaintext, lbl, text, keys', l');
  }
}
