/** Unsealing with the registry's keys, and re-sealing with the most recent one. */
module Rotation {
  import opened Base
  import opened Types
  import opened Crypto
  import opened Scope
  import opened Sealing
  import opened SealingLaws
  import opened Registry

  datatype RotateError = CannotUnseal(cause: UnsealError) | CannotSeal(reason: SealError)

  /** The range loop collecting the registry's private keys. */
  method PrivateKeys(keys: map<string, Key>) returns (ring: KeyRing)
    ensures ring == Ring(keys)
  {
    ring := map[];
    var remaining := keys.Keys;
    while remaining != {}
      invariant remaining <= keys.Keys
      invariant ring == Ring(keys - remaining)
      decreases |remaining|
    {
      var k :| k in remaining;
      VisitOne(map[], keys, remaining, k);
      ring := ring[k := keys[k].privateKey];
      remaining := remaining - {k};
    }
    assert keys - remaining == keys;
  }

  method AttemptUnseal(c: Primitives, t: TemplateEngine, ss: SealedSecret, registry: KeyRegistry)
    returns (r: Result<Secret, UnsealError>)
    requires registry.Valid()
    ensures Unsealed(c, t, ss, Ring(registry.keys), r)
  {
    var privateKeys := PrivateKeys(registry.keys);
    r := Unseal(c, t, ss, privateKeys);
  }

  /** The object's own metadata takes the place of the template's. */
  function Aligned(ss: SealedSecret): SealedSecret {
    ss.(spec := ss.spec.(template := ss.spec.template.(meta := ss.meta)))
  }

  ghost predicate RotatedTo(
    c: Primitives, t: TemplateEngine, ss: SealedSecret, keys: KeyRing, latest: PublicKey, rotated: SealedSecret)
  {
    exists secret ::
      Unsealed(c, t, Aligned(ss), keys, Ok(secret)) && SealedFrom(c, latest, secret, rotated)
  }

  /** Always re-seals, even when the input already uses the most recent key. */
  method Rotate(c: Primitives, t: TemplateEngine, rnd: Random, ss: SealedSecret, registry: KeyRegistry)
    returns (r: Result<SealedSecret, RotateError>)
    requires registry.Valid() && registry.history != []
    ensures Elect(registry.history).Some?
    ensures r.Ok? ==>
              RotatedTo(c, t, ss, Ring(registry.keys), Elect(registry.history).value.privateKey.publicKey, r.value)
    ensures r.Err? && r.error.CannotUnseal? ==>
              Unsealed(c, t, Aligned(ss), Ring(registry.keys), Err(r.error.cause))
    ensures r.Err? && r.error.CannotSeal? ==> exists secret ::
              && Unsealed(c, t, Aligned(ss), Ring(registry.keys), Ok(secret))
              && (r.error.reason == MissingNamespace <==> !Namespaced(secret))
              && !(Namespaced(secret) && NeverFails(
                     c, rnd, Elect(registry.history).value.privateKey.publicKey, LabelFor(secret.meta)))
  {
    ElectIsFirstMaximum(registry.history);
    var s := ss;
    if s.meta != s.spec.template.meta {
      s := s.(spec := s.spec.(template := s.spec.template.(meta := s.meta)));
    }
    assert s == Aligned(ss);
    var secret := AttemptUnseal(c, t, s, registry);
    if secret.Err? {
      return Err(CannotUnseal(secret.error));
    }
    var latest := registry.LatestPrivateKey();
    var resealed, draws := NewSealedSecret(c, rnd, latest.publicKey, secret.value);
    if resealed.Err? {
      return Err(CannotSeal(resealed.error));
    }
    return Ok(resealed.value);
  }

  /** Data, type, immutability, name, namespace and scope: what a Secret means to its users. */
  ghost predicate SameMeaning(a: Secret, b: Secret) {
    && a.data == b.data && a.secretType == b.secretType && a.immutable == b.immutable
    && a.meta.name == b.meta.name && a.meta.namespace == b.meta.namespace
  }

  lemma AlignedAssemblesAlike(t: TemplateEngine, ss: SealedSecret, o: Outcomes)
    requires Assemble(t, Aligned(ss), o).Ok?
    ensures Assemble(t, ss, o).Ok?
    ensures var a, b := Assemble(t, Aligned(ss), o).value, Assemble(t, ss, o).value;
      SameMeaning(a, b) && a.stringData == map[]
      && a.meta.annotations == ss.meta.annotations && a.meta.labels == ss.meta.labels
  {
  }

  /** Aligning the metadata changes neither label nor data. */
  lemma AlignedUnsealsAlike(c: Primitives, t: TemplateEngine, ss: SealedSecret, keys: KeyRing, secret: Secret)
    returns (original: Secret)
    requires ss.spec.data == None && Unsealed(c, t, Aligned(ss), keys, Ok(secret))
    ensures Unsealed(c, t, ss, keys, Ok(original)) && SameMeaning(secret, original)
    ensures secret.meta.annotations == ss.meta.annotations && secret.meta.labels == ss.meta.labels
    ensures secret.stringData == map[]
    ensures LabelFor(secret.meta) == LabelFor(ss.meta)
  {
    var lbl, enc := LabelFor(ss.meta), ss.spec.encryptedData;
    var o :| AreOutcomes(c, keys, lbl, enc, o) && Ok(secret) == Assemble(t, Aligned(ss), o);
    AlignedAssemblesAlike(t, ss, o);
    original := Assemble(t, ss, o).value;
  }

  /** The re-sealed Secret comes back with its meaning and its scope. */
  lemma ResealedMeansTheSame(
    c: Primitives, t: TemplateEngine, latest: PublicKey, secret: Secret, rotated: SealedSecret,
    deployed: SealedSecret, keys: KeyRing, r: Result<Secret, UnsealError>)
    requires Sound(c) && SealedFrom(c, latest, secret, rotated) && secret.stringData == map[]
    requires DeployedAs(rotated, deployed) && HoldsKeyFor(keys, latest) && Unsealed(c, t, deployed, keys, r)
    ensures r.Ok? && SameMeaning(r.value, secret)
    ensures SecretScope(r.value.meta.annotations) == SecretScope(secret.meta.annotations)
    ensures r.value.meta.labels == secret.meta.labels && r.value.meta.annotations == Stripped(secret.meta.annotations)
  {
    RoundTrip(c, t, latest, secret, rotated, deployed, keys, r);
    RoundTrippedMeansTheSame(secret, deployed);
  }

  lemma RoundTrippedMeansTheSame(secret: Secret, deployed: SealedSecret)
    requires secret.stringData == map[]
    ensures SameMeaning(RoundTripped(secret, deployed), secret)
  {
  }

  /**
   * A rotated sealed secret unseals, with nothing but the most recent key, to what the input unsealed to:
   * same data (rendered templates included), type, immutability, name, namespace and scope.
   */
  lemma RotationPreservesMeaning(
    c: Primitives, t: TemplateEngine, ss: SealedSecret, keys: KeyRing, latest: PublicKey,
    rotated: SealedSecret, deployed: SealedSecret, keys': KeyRing, r: Result<Secret, UnsealError>)
    returns (original: Secret)
    requires Sound(c) && ss.spec.data == None && RotatedTo(c, t, ss, keys, latest, rotated)
    requires DeployedAs(rotated, deployed) && HoldsKeyFor(keys', latest) && Unsealed(c, t, deployed, keys', r)
    ensures Unsealed(c, t, ss, keys, Ok(original))
    ensures r.Ok? && SameMeaning(r.value, original)
    ensures SecretScope(r.value.meta.annotations) == SecretScope(ss.meta.annotations)
    ensures LabelFor(deployed.meta) == LabelFor(ss.meta)
    ensures r.value.meta.labels == ss.meta.labels
    ensures forall k :: Lookup(r.value.meta.annotations, k) ==
              if k in {LAST_APPLIED_KUBECTL, LAST_APPLIED_KUBECFG} then None else Lookup(ss.meta.annotations, k)
  {
    var secret :| Unsealed(c, t, Aligned(ss), keys, Ok(secret)) && SealedFrom(c, latest, secret, rotated);
    original := AlignedUnsealsAlike(c, t, ss, keys, secret);
    SealedKeepsLabel(c, latest, secret, rotated, deployed);
    ResealedMeansTheSame(c, t, latest, secret, rotated, deployed, keys', r);
  }

  /** For an honestly sealed input the meaning kept is its plaintext, with its templates rendered. */
  lemma RotationKeepsPlaintext(
    c: Primitives, t: TemplateEngine, ss: SealedSecret, keys: KeyRing, plain: map<string, Bytes>, latest: PublicKey,
    rotated: SealedSecret, deployed: SealedSecret, keys': KeyRing, r: Result<Secret, UnsealError>)
    requires Sound(c) && ss.spec.data == None && RotatedTo(c, t, ss, keys, latest, rotated)
    requires Holds(c, keys, LabelFor(ss.meta), plain, ss.spec.encryptedData)
    requires DeployedAs(rotated, deployed) && HoldsKeyFor(keys', latest) && Unsealed(c, t, deployed, keys', r)
    ensures r.Ok? && r.value.data == plain + Rendered(t, ss.spec.template.data, plain)
  {
    var original := RotationPreservesMeaning(c, t, ss, keys, latest, rotated, deployed, keys', r);
    UnsealHeld(c, t, ss, keys, plain, Ok(original));
  }

  /** Every registered key carries the fingerprint of its public key, as `RegisterNewKey` computes it. */
  ghost predicate Fingerprinted(c: Primitives, h: seq<Key>) {
    forall k :: k in h ==> c.fingerprint(k.privateKey.publicKey) == Some(k.fingerprint)
  }

  /** So what `Rotate` returns unseals again with the registry as it is, or with any later one. */
  lemma RotatedUnsealsWithRegistry(
    c: Primitives, t: TemplateEngine, ss: SealedSecret, h: seq<Key>, later: seq<Key>,
    rotated: SealedSecret, deployed: SealedSecret, r: Result<Secret, UnsealError>)
    returns (original: Secret)
    requires Sound(c) && ss.spec.data == None && h != [] && Fingerprinted(c, h + later) && Elect(h).Some?
    requires RotatedTo(c, t, ss, Ring(ByFingerprint(h)), Elect(h).value.privateKey.publicKey, rotated)
    requires DeployedAs(rotated, deployed) && Unsealed(c, t, deployed, Ring(ByFingerprint(h + later)), r)
    ensures Unsealed(c, t, ss, Ring(ByFingerprint(h)), Ok(original))
    ensures r.Ok? && SameMeaning(r.value, original)
  {
    LaterRingHolds(c, h, later);
    original := RotationPreservesMeaning(
      c, t, ss, Ring(ByFingerprint(h)), Elect(h).value.privateKey.publicKey,
      rotated, deployed, Ring(ByFingerprint(h + later)), r);
  }

  lemma LaterRingHolds(c: Primitives, h: seq<Key>, later: seq<Key>)
    requires Sound(c) && h != [] && Fingerprinted(c, h + later) && Elect(h).Some?
    ensures HoldsKeyFor(Ring(ByFingerprint(h + later)), Elect(h).value.privateKey.publicKey)
  {
    ElectIsFirstMaximum(h);
    KeysAreKnown(h + later);
    var e := Elect(h).value;
    assert e in h + later;
    assert Known(h + later, e.fingerprint);
    var k := ByFingerprint(h + later)[e.fingerprint];
    assert c.fingerprint(k.privateKey.publicKey) == c.fingerprint(e.privateKey.publicKey);
    assert Ring(ByFingerprint(h + later))[e.fingerprint].publicKey == e.privateKey.publicKey;
  }
}
