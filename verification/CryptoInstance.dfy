/** A toy set of primitives, to show that the assumptions in `Crypto.Sound` can be met together. */
module CryptoInstance {
  import opened Base
  import opened Crypto

  function Unary(n: nat): Bytes {
    seq(n, i => 1 as byte) + [0]
  }

  function PackLabel(lbl: string): Bytes {
    if lbl == "" then [0] else [1] + Unary(lbl[0] as int) + PackLabel(lbl[1..])
  }

  /** A transparent "ciphertext": key, label and message, written so that each can be read back. */
  function Pack(pk: PublicKey, m: Bytes, lbl: string): Bytes {
    Unary(pk.modulus) + (Unary(pk.exponent) + (PackLabel(lbl) + m))
  }

  function ToyEncrypt(pk: PublicKey, seed: Bytes, m: Bytes, lbl: string): Option<Bytes> {
    var text := Pack(pk, m, lbl);
    if |text| < LENGTH_LIMIT then Some(text) else None
  }

  ghost function ToyDecrypt(sk: PrivateKey, text: Bytes, lbl: string): Option<Bytes> {
    if exists m :: text == Pack(sk.publicKey, m, lbl) then
      var m :| text == Pack(sk.publicKey, m, lbl);
      Some(m)
    else None
  }

  function ToyEncode64(b: Bytes): string {
    seq(|b|, i requires 0 <= i < |b| => b[i] as int as char)
  }

  function ToyDecode64(s: string): Option<Bytes> {
    if forall i :: 0 <= i < |s| ==> s[i] as int < 256 then
      Some(seq(|s|, i requires 0 <= i < |s| && s[i] as int < 256 => s[i] as int as byte))
    else None
  }

  function ToyFingerprint(pk: PublicKey): Option<string> {
    Some(ToyEncode64(Unary(pk.modulus) + Unary(pk.exponent)))
  }

  ghost function Toy(): Primitives {
    Primitives(
      ToyEncrypt,
      (sk, text, lbl) => ToyDecrypt(sk, text, lbl),
      (key, nonce, p) => p,
      (key, nonce, text) => Some(text),
      ToyEncode64,
      ToyDecode64,
      ToyFingerprint)
  }

  lemma UnaryShape(n: nat, x: Bytes)
    ensures var s := Unary(n) + x;
      |s| > n && (forall i :: 0 <= i < n ==> s[i] == 1) && s[n] == 0 && s[n + 1..] == x
  {
  }

  lemma UnaryIsPrefixFree(a: nat, b: nat, x: Bytes, y: Bytes)
    requires Unary(a) + x == Unary(b) + y
    ensures a == b && x == y
  {
    UnaryShape(a, x);
    UnaryShape(b, y);
  }

  lemma {:induction false} PackLabelIsPrefixFree(l: string, l': string, x: Bytes, y: Bytes)
    requires PackLabel(l) + x == PackLabel(l') + y
    ensures l == l' && x == y
  {
    var s, t := PackLabel(l) + x, PackLabel(l') + y;
    assert s[0] == (if l == "" then 0 else 1) && t[0] == (if l' == "" then 0 else 1);
    if l == "" {
      assert x == s[1..] && y == t[1..];
    } else {
      assert s[1..] == Unary(l[0] as int) + (PackLabel(l[1..]) + x);
      assert t[1..] == Unary(l'[0] as int) + (PackLabel(l'[1..]) + y);
      UnaryIsPrefixFree(l[0] as int, l'[0] as int, PackLabel(l[1..]) + x, PackLabel(l'[1..]) + y);
      PackLabelIsPrefixFree(l[1..], l'[1..], x, y);
      assert l == [l[0]] + l[1..] && l' == [l'[0]] + l'[1..];
    }
  }

  lemma PackIsInjective(pk: PublicKey, m: Bytes, l: string, pk': PublicKey, m': Bytes, l': string)
    requires Pack(pk, m, l) == Pack(pk', m', l')
    ensures pk == pk' && m == m' && l == l'
  {
    UnaryIsPrefixFree(pk.modulus, pk'.modulus,
      Unary(pk.exponent) + (PackLabel(l) + m), Unary(pk'.exponent) + (PackLabel(l') + m'));
    UnaryIsPrefixFree(pk.exponent, pk'.exponent, PackLabel(l) + m, PackLabel(l') + m');
    PackLabelIsPrefixFree(l, l', m, m');
  }

  lemma ToyDecryptsPack(sk: PrivateKey, m: Bytes, l: string)
    ensures ToyDecrypt(sk, Pack(sk.publicKey, m, l), l) == Some(m)
  {
    var text := Pack(sk.publicKey, m, l);
    var m' :| text == Pack(sk.publicKey, m', l) && ToyDecrypt(sk, text, l) == Some(m');
    PackIsInjective(sk.publicKey, m, l, sk.publicKey, m', l);
  }

  lemma ToyFingerprintIsInjective(p: PublicKey, q: PublicKey)
    requires ToyFingerprint(p) == ToyFingerprint(q)
    ensures p == q
  {
    var a, b := Unary(p.modulus) + Unary(p.exponent), Unary(q.modulus) + Unary(q.exponent);
    ToyBase64Inverts(a);
    ToyBase64Inverts(b);
    UnaryIsPrefixFree(p.modulus, q.modulus, Unary(p.exponent), Unary(q.exponent));
    assert Unary(p.exponent) + [] == Unary(q.exponent) + [];
    UnaryIsPrefixFree(p.exponent, q.exponent, [], []);
  }

  lemma ToyBase64Inverts(b: Bytes)
    ensures ToyDecode64(ToyEncode64(b)) == Some(b)
  {
    var s := ToyEncode64(b);
    assert forall i :: 0 <= i < |s| ==> s[i] as int == b[i] as int;
    assert ToyDecode64(s).value == b;
  }

  /** The assumptions are consistent, and met by primitives that do encrypt. */
  lemma ToyIsSound()
    ensures Sound(Toy())
    ensures exists pk, seed, m, l :: Toy().encryptOAEP(pk, seed, m, l).Some?
  {
    var c := Toy();
    forall sk: PrivateKey, seed, m, l | c.encryptOAEP(sk.publicKey, seed, m, l).Some?
      ensures c.decryptOAEP(sk, c.encryptOAEP(sk.publicKey, seed, m, l).value, l) == Some(m)
    {
      ToyDecryptsPack(sk, m, l);
    }
    forall pk, seed, m, l, sk: PrivateKey, l' |
      && c.encryptOAEP(pk, seed, m, l).Some?
      && c.decryptOAEP(sk, c.encryptOAEP(pk, seed, m, l).value, l').Some?
      ensures sk.publicKey == pk && l' == l
    {
      var m' :| Pack(pk, m, l) == Pack(sk.publicKey, m', l');
      PackIsInjective(pk, m, l, sk.publicKey, m', l');
    }
    forall b ensures c.decode64(c.encode64(b)) == Some(b) {
      ToyBase64Inverts(b);
    }
    forall p, q | c.fingerprint(p) == c.fingerprint(q) ensures p == q {
      ToyFingerprintIsInjective(p, q);
    }
    assert GCMInverts(c);
    assert c.encryptOAEP(PublicKey(0, 0), [], [], "").Some?;
  }

  // ---- A text that no encryption made ---------------------------------------------------------

  /** Sixteen bytes that depend on the key. */
  function Residue(sk: PrivateKey): Bytes {
    seq(16, i => (sk.publicKey.modulus % 2) as byte)
  }

  /** Like the toy, but one string that is no ciphertext decrypts to a different session key under different keys. */
  ghost function LenientDecrypt(sk: PrivateKey, text: Bytes, lbl: string): Option<Bytes> {
    if text == [2] then Some(Residue(sk)) else ToyDecrypt(sk, text, lbl)
  }

  function LenientOpen(key: Bytes, nonce: Bytes, text: Bytes): Option<Bytes> {
    if text != [] && text[0] == 0 then Some(text[1..]) else Some(key)
  }

  ghost function Lenient(toy: Primitives): Primitives {
    toy.(decryptOAEP := (sk, text, lbl) => LenientDecrypt(sk, text, lbl),
         sealGCM := (key, nonce, p) => [0] + p,
         openGCM := LenientOpen)
  }

  lemma PackIsNotTheString(pk: PublicKey, m: Bytes, l: string)
    ensures Pack(pk, m, l) != [2]
  {
    UnaryShape(pk.modulus, Unary(pk.exponent) + (PackLabel(l) + m));
    assert Pack(pk, m, l)[0] != 2;
  }

  lemma LenientIsSound()
    ensures Sound(Lenient(Toy()))
  {
    ToyIsSound();
    var c := Lenient(Toy());
    forall pk, seed, m, l, sk: PrivateKey, l' | c.encryptOAEP(pk, seed, m, l).Some?
      ensures c.decryptOAEP(sk, c.encryptOAEP(pk, seed, m, l).value, l')
              == Toy().decryptOAEP(sk, Toy().encryptOAEP(pk, seed, m, l).value, l')
    {
      PackIsNotTheString(pk, m, l);
    }
    assert OAEPInverts(c) && OAEPBinds(c) && OAEPFits(c);
    forall key: Bytes, nonce: Bytes, p: Bytes ensures c.openGCM(key, nonce, c.sealGCM(key, nonce, p)) == Some(p) {
      assert ([0 as byte] + p)[1..] == p;
    }
  }

  /** The order of keys can show on a text that no encryption made, even with sound primitives. */
  lemma OrderShowsOnOtherTexts(lbl: string)
    returns (c: Primitives, keys: KeyRing, text: Bytes, r: Option<Bytes>, r': Option<Bytes>)
    ensures Sound(c) && MayReturn(c, keys, text, lbl, r) && MayReturn(c, keys, text, lbl, r') && r != r'
  {
    LenientIsSound();
    var a, b := PrivateKey(PublicKey(0, 0), 0), PrivateKey(PublicKey(1, 0), 0);
    c, keys, text := Lenient(Toy()), map["a" := a, "b" := b], Frame([2], [1]);
    r, r' := Some(Residue(a)), Some(Residue(b));
    FrameSplits([2], [1]);
    assert SingleDecrypt(c, a, text, lbl) == Ok(Residue(a)) && SingleDecrypt(c, b, text, lbl) == Ok(Residue(b));
    assert "a"[0] != "b"[0];
    assert keys["a"] == a && keys["b"] == b;
    assert Residue(a)[0] == 0 && Residue(b)[0] == 1;
  }
}
