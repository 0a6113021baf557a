/** The premises of round trip and rotation can be met together: one Secret, sealed with the toy primitives. */
module Witness {
  import opened Base
  import opened Types
  import opened Crypto
  import opened CryptoInstance
  import opened Scope
  import opened Sealing
  import opened SealingLaws
  import opened Rotation

  function Meta(): ObjectMeta {
    ObjectMeta("n", "m", "", 0, map[], map[CLUSTER_WIDE := "true"], [])
  }

  function Sample(): Secret {
    Secret(Meta(), map["k" := []], map[], "Opaque", None)
  }

  const PUBLIC := PublicKey(0, 0)

  function SampleRing(): KeyRing {
    map["f" := PrivateKey(PUBLIC, 0)]
  }

  function Cipher(coins: Coins): Bytes {
    Frame(Pack(PUBLIC, coins.sessionKey, ""), [])
  }

  function SealedSample(secret: Secret, coins: Coins): SealedSecret {
    SealedSecret(
      "", "", ObjectMeta(secret.meta.name, secret.meta.namespace, "", 0, map[], WithScope(map[], ClusterWideScope), []),
      Spec(TemplateOf(secret), None, map["k" := ToyEncode64(Cipher(coins))]), NO_STATUS)
  }

  /** Any cluster-wide Secret with the one empty item is sealed by the sample. */
  lemma SampleIsSealed(secret: Secret, coins: Coins)
    requires SecretScope(secret.meta.annotations) == ClusterWideScope && Items(secret) == map["k" := []]
    ensures SealedFrom(Toy(), PUBLIC, secret, SealedSample(secret, coins))
  {
    assert Toy().encryptOAEP(PUBLIC, coins.seed, coins.sessionKey, "") == Some(Pack(PUBLIC, coins.sessionKey, ""));
    assert IsHybridWith(Toy(), PUBLIC, coins, [], "", Cipher(coins));
    assert SealedItem(Toy(), PUBLIC, "", [], ToyEncode64(Cipher(coins)));
  }

  /** Sealing the sample is never refused. */
  lemma SealingIsNotRefused(coins: Coins)
    ensures NeverFails(Toy(), n => Some(coins), PUBLIC, LabelFor(Sample().meta)) && Namespaced(Sample())
  {
    assert LabelFor(Sample().meta) == "";
    forall seed: Bytes, m: SessionKey ensures Toy().encryptOAEP(PUBLIC, seed, m, "").Some? {
      assert |Pack(PUBLIC, m, "")| == 3 + |m|;
    }
  }

  /** The premises of the round trip hold of a Secret that has an item. */
  lemma RoundTripIsNotVacuous(t: TemplateEngine, coins: Coins)
    ensures exists c: Primitives, pubKey: PublicKey, secret: Secret, ss: SealedSecret, keys: KeyRing,
                   r: Result<Secret, UnsealError> ::
              && Sound(c) && SealedFrom(c, pubKey, secret, ss) && DeployedAs(ss, ss) && HoldsKeyFor(keys, pubKey)
              && Unsealed(c, t, ss, keys, r) && Items(secret) != map[]
  {
    ToyIsSound();
    assert Items(Sample()) == map["k" := []];
    SampleIsSealed(Sample(), coins);
    assert SampleRing()["f"].publicKey == PUBLIC;
    var c, ss := Toy(), SealedSample(Sample(), coins);
    var r := AnyResult(c, t, ss, SampleRing());
    assert "k" in Items(Sample());
    assert Sound(c) && SealedFrom(c, PUBLIC, Sample(), ss) && DeployedAs(ss, ss) && HoldsKeyFor(SampleRing(), PUBLIC)
      && Unsealed(c, t, ss, SampleRing(), r) && Items(Sample()) != map[];
  }

  /** What the sample unseals to after its metadata was aligned: sealable again. */
  lemma AlignedSampleUnseals(t: TemplateEngine, coins: Coins) returns (secret: Secret)
    ensures Unsealed(Toy(), t, Aligned(SealedSample(Sample(), coins)), SampleRing(), Ok(secret))
    ensures SecretScope(secret.meta.annotations) == ClusterWideScope && Items(secret) == map["k" := []]
  {
    var c, ss := Toy(), Aligned(SealedSample(Sample(), coins));
    ToyIsSound();
    assert Items(Sample()) == map["k" := []];
    SampleIsSealed(Sample(), coins);
    assert SampleRing()["f"].publicKey == PUBLIC;
    SealedIsHeld(c, PUBLIC, SampleRing(), "", map["k" := []], ss.spec.encryptedData);
    ScopeWrittenIsScopeRead(map[], ClusterWideScope);
    var r := AnyResult(c, t, ss, SampleRing());
    UnsealHeld(c, t, ss, SampleRing(), map["k" := []], r);
    OpenedWithoutTemplates(t, ss, map["k" := []]);
    secret := r.value;
  }

  lemma SampleRotates(t: TemplateEngine, coins: Coins) returns (rotated: SealedSecret)
    ensures RotatedTo(Toy(), t, SealedSample(Sample(), coins), SampleRing(), PUBLIC, rotated)
  {
    var secret := AlignedSampleUnseals(t, coins);
    SampleIsSealed(secret, coins);
    rotated := SealedSample(secret, coins);
  }

  /** The premises of rotation hold of the sample. */
  lemma RotationIsNotVacuous(t: TemplateEngine, coins: Coins)
    returns (c: Primitives, ss: SealedSecret, keys: KeyRing, latest: PublicKey, rotated: SealedSecret)
    ensures Sound(c) && ss.spec.data == None && ss.spec.encryptedData != map[]
    ensures HoldsKeyFor(keys, latest) && RotatedTo(c, t, ss, keys, latest, rotated)
  {
    ToyIsSound();
    c, ss, keys, latest := Toy(), SealedSample(Sample(), coins), SampleRing(), PUBLIC;
    rotated := SampleRotates(t, coins);
    assert keys["f"].publicKey == latest;
    assert "k" in ss.spec.encryptedData;
  }
}
