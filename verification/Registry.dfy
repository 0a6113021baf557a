/** The key registry: every key ever registered, and the one new Secrets are sealed with. */
module Registry {
  import opened Base
  import opened Crypto
  import opened KeyStore

  datatype Key = Key(privateKey: PrivateKey, cert: Certificate, fingerprint: string, orderingTime: int)

  datatype RegistryError = NoKeys | CannotGenerate | CannotWrite | CannotFingerprint | CannotList | CannotGet

  // ---- What a history of registrations amounts to --------------------------------------------

  /** The last registration of each fingerprint. */
  function ByFingerprint(h: seq<Key>): map<string, Key> {
    if h == [] then map[] else ByFingerprint(h[..|h| - 1])[h[|h| - 1].fingerprint := h[|h| - 1]]
  }

  /** The registration that was never overtaken. */
  function Elect(h: seq<Key>): Option<Key> {
    if h == [] then None
    else
      var best, last := Elect(h[..|h| - 1]), h[|h| - 1];
      if best.None? || best.value.orderingTime < last.orderingTime then Some(last) else best
  }

  function Ring(keys: map<string, Key>): KeyRing {
    map f | f in keys :: keys[f].privateKey
  }

  class KeyRegistry {
    var keys: map<string, Key>
    var mostRecentKey: Option<Key>
    ghost var history: seq<Key>

    ghost predicate Valid()
      reads this
    {
      keys == ByFingerprint(history) && mostRecentKey == Elect(history)
    }

    constructor ()
      ensures Valid() && history == []
    {
      keys, mostRecentKey, history := map[], None, [];
    }

    method RegisterNewKey(c: Primitives, privateKey: PrivateKey, cert: Certificate, orderingTime: int)
      returns (r: Result<(), RegistryError>)
      requires Valid()
      modifies this
      ensures Valid()
      ensures r.Ok? <==> c.fingerprint(privateKey.publicKey).Some?
      ensures r.Ok? ==>
                history == old(history)
                  + [Key(privateKey, cert, c.fingerprint(privateKey.publicKey).value, orderingTime)]
      ensures r.Err? ==> history == old(history)
    {
      var fingerprint := c.fingerprint(privateKey.publicKey);
      if fingerprint.None? {
        return Err(CannotFingerprint);
      }
      var k := Key(privateKey, cert, fingerprint.value, orderingTime);
      keys := keys[k.fingerprint := k];
      if mostRecentKey.None? || mostRecentKey.value.orderingTime < orderingTime {
        mostRecentKey := Some(k);
      }
      history := history + [k];
      assert history[..|history| - 1] == old(history);
      return Ok(());
    }

    /** Writes the key to the cluster first, and registers it only if that worked. */
    method GenerateKey(
      c: Primitives, store: SecretStore, generated: Option<(PrivateKey, Certificate)>, krLabel: string,
      extraAnnotations: seq<(string, string)>, extraLabels: seq<(string, string)>, answer: CreateAnswer, now: int)
      returns (r: Result<string, RegistryError>)
      requires Valid()
      modifies this, store
      ensures Valid()
      ensures r.Ok? <==> generated.Some? && answer.Created? && c.fingerprint(generated.value.0.publicKey).Some?
      ensures generated.None? || answer.Refused? ==> store.secrets == old(store.secrets)
      ensures generated.Some? && !answer.Refused? ==>
                store.secrets == old(store.secrets)
                  + [NewKeySecret(generated.value.0, [generated.value.1], krLabel, extraAnnotations, extraLabels,
                                  answer.name, answer.at)]
      ensures generated.Some? ==>
                StoresKey(old(store.secrets), store.secrets, answer, generated.value.0, [generated.value.1],
                          krLabel, extraAnnotations, extraLabels)
      ensures r.Err? ==> history == old(history)
      ensures r.Ok? ==>
                history == old(history)
                  + [Key(generated.value.0, generated.value.1, c.fingerprint(generated.value.0.publicKey).value, now)]
    {
      if generated.None? {
        return Err(CannotGenerate);
      }
      var (key, cert) := generated.value;
      var name := WriteKey(store, key, [cert], krLabel, extraAnnotations, extraLabels, answer);
      if name.None? {
        return Err(CannotWrite);
      }
      var registered := RegisterNewKey(c, key, cert, now);
      if registered.Err? {
        return Err(registered.error);
      }
      return Ok(name.value);
    }

    method LatestPrivateKey() returns (k: PrivateKey)
      requires Valid() && mostRecentKey.Some?
      ensures Elect(history).Some? && k == Elect(history).value.privateKey
    {
      k := mostRecentKey.value.privateKey;
    }

    method GetCert() returns (r: Result<Certificate, RegistryError>)
      requires Valid()
      ensures r.Ok? ==> history != [] && r.value == Elect(history).value.cert
      ensures r.Err? <==> history == []
    {
      if mostRecentKey.None? {
        ElectIsFirstMaximum(history);
        return Err(NoKeys);
      }
      return Ok(mostRecentKey.value.cert);
    }
  }

  // ---- Election -----------------------------------------------------------------------------

  ghost predicate FirstMaximum(h: seq<Key>, i: int) {
    && 0 <= i < |h|
    && (forall j :: 0 <= j < i ==> h[j].orderingTime < h[i].orderingTime)
    && (forall j :: i <= j < |h| ==> h[j].orderingTime <= h[i].orderingTime)
  }

  lemma FirstMaximumIsUnique(h: seq<Key>, i: int, j: int)
    requires FirstMaximum(h, i) && FirstMaximum(h, j)
    ensures i == j
  {
    var a, b := h[i].orderingTime, h[j].orderingTime;
    assert i < j ==> a < b;
    assert j < i ==> b < a;
  }

  /** The elected key is the first registration with the largest ordering time of the whole history. */
  lemma {:induction false} ElectIsFirstMaximum(h: seq<Key>)
    ensures Elect(h).None? <==> h == []
    ensures h != [] ==> exists i :: FirstMaximum(h, i) && Elect(h) == Some(h[i])
    ensures forall k :: k in h ==> k.orderingTime <= Elect(h).value.orderingTime
    ensures Elect(h).Some? ==> Elect(h).value in h
  {
    if h != [] {
      var n := |h| - 1;
      var front := h[..n];
      ElectIsFirstMaximum(front);
      if Elect(front).None? || Elect(front).value.orderingTime < h[n].orderingTime {
        assert forall j :: 0 <= j < n ==> h[j] in front;
        assert FirstMaximum(h, n);
      } else {
        var i :| FirstMaximum(front, i) && Elect(front) == Some(front[i]);
        assert FirstMaximum(h, i);
      }
    }
  }

  /** `f` has been registered in `h`. */
  ghost predicate Known(h: seq<Key>, f: string) {
    exists k :: k in h && k.fingerprint == f
  }

  lemma KnownInLonger(h: seq<Key>, f: string)
    requires h != []
    ensures Known(h, f) <==> Known(h[..|h| - 1], f) || h[|h| - 1].fingerprint == f
  {
  }

  /** The key map holds exactly the fingerprints ever registered. */
  lemma {:induction false} KeysAreKnown(h: seq<Key>)
    ensures forall f :: f in ByFingerprint(h) <==> Known(h, f)
    ensures forall f :: f in ByFingerprint(h) ==> ByFingerprint(h)[f] in h && ByFingerprint(h)[f].fingerprint == f
  {
    if h != [] {
      var front := h[..|h| - 1];
      KeysAreKnown(front);
      forall f ensures f in ByFingerprint(h) <==> Known(h, f) {
        KnownInLonger(h, f);
      }
    }
  }

  /** And keeps, for each, its last registration. */
  lemma {:induction false} LastRegistrationWins(h: seq<Key>, i: nat)
    requires i < |h| && forall j :: i < j < |h| ==> h[j].fingerprint != h[i].fingerprint
    ensures Lookup(ByFingerprint(h), h[i].fingerprint) == Some(h[i])
    ensures Lookup(Ring(ByFingerprint(h)), h[i].fingerprint) == Some(h[i].privateKey)
  {
    if i < |h| - 1 {
      LastRegistrationWins(h[..|h| - 1], i);
    }
  }

  /**
   * Over any sequence of registrations: the sealing key is the one first registration with the maximal
   * ordering time, its key is in the map, and the map holds all fingerprints ever registered.
   */
  lemma Election(h: seq<Key>)
    requires h != []
    ensures exists i :: FirstMaximum(h, i) && Elect(h) == Some(h[i])
    ensures forall i :: FirstMaximum(h, i) ==> Elect(h) == Some(h[i])
    ensures Elect(h).value.fingerprint in ByFingerprint(h)
    ensures forall f :: f in ByFingerprint(h) <==> Known(h, f)
  {
    ElectIsFirstMaximum(h);
    KeysAreKnown(h);
    var e :| FirstMaximum(h, e) && Elect(h) == Some(h[e]);
    forall i | FirstMaximum(h, i) ensures Elect(h) == Some(h[i]) {
      FirstMaximumIsUnique(h, e, i);
    }
    assert Known(h, h[e].fingerprint);
  }

  /** Registering an already known key again with an older time replaces its entry, not the sealing key. */
  lemma OlderReRegistration(h: seq<Key>, k: Key)
    requires Known(h, k.fingerprint) && k.orderingTime <= Elect(h).value.orderingTime
    ensures Elect(h + [k]) == Elect(h)
    ensures ByFingerprint(h + [k]).Keys == ByFingerprint(h).Keys
    ensures ByFingerprint(h + [k])[k.fingerprint] == k
  {
    ElectIsFirstMaximum(h);
    assert (h + [k])[..|h|] == h;
    KeysAreKnown(h);
  }

  /** Registering the same keys in another order elects the same time over the same key set. */
  lemma ElectionIgnoresOrder(h: seq<Key>, h': seq<Key>)
    requires h != [] && forall k :: k in h <==> k in h'
    ensures h' != [] && Elect(h).value.orderingTime == Elect(h').value.orderingTime
    ensures ByFingerprint(h).Keys == ByFingerprint(h').Keys
  {
    assert h[0] in h';
    ElectIsFirstMaximum(h);
    ElectIsFirstMaximum(h');
    KeysAreKnown(h);
    KeysAreKnown(h');
    assert forall f :: Known(h, f) <==> Known(h', f);
  }

  /** Ordering times may move inside a key's own interval without changing who is elected. */
  lemma DisjointIntervalsFixElection(h: seq<Key>, h': seq<Key>, from: string -> int, to: string -> int)
    requires h != [] && h' != []
    requires forall f :: Known(h, f) <==> Known(h', f)
    requires forall k :: k in h || k in h' ==> from(k.fingerprint) <= k.orderingTime <= to(k.fingerprint)
    requires forall f, g :: Known(h, f) && Known(h, g) && f != g ==> to(f) < from(g) || to(g) < from(f)
    ensures Elect(h).value.fingerprint == Elect(h').value.fingerprint
  {
    ElectIsFirstMaximum(h);
    ElectIsFirstMaximum(h');
    var e, e' := Elect(h).value, Elect(h').value;
    assert Known(h, e.fingerprint) && Known(h', e'.fingerprint);
    var k :| k in h && k.fingerprint == e'.fingerprint;
    var k' :| k' in h' && k'.fingerprint == e.fingerprint;
  }
}
