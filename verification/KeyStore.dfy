/** The store side of the key registry: key pairs kept as labelled Secrets of the cluster. */
module KeyStore {
  import opened Base
  import opened Crypto

  const KEY_LABEL := "sealedsecrets.bitnami.com/sealed-secrets-key"
  const ACTIVE := "active"

  /** `notBefore` is in the clock's unit, as are all times of the model. */
  datatype Certificate = Certificate(publicKey: PublicKey, notBefore: int)

  /** A stored key Secret, its PEM fields already decoded. */
  datatype KeySecret = KeySecret(
    name: string,
    labels: map<string, string>,
    annotations: map<string, string>,
    creationTimestamp: int,
    privateKey: PrivateKey,
    certs: seq<Certificate>)

  /** The API server on a create: refused, stored, or stored with the answer lost. */
  datatype CreateAnswer = Refused | Created(name: string, at: int) | CreatedButLost(name: string, at: int)

  predicate Active(ks: KeySecret) {
    GetOr(ks.labels, KEY_LABEL, "") == ACTIVE
  }

  /** The `k=v` pairs in order, the last one for a key winning. */
  function FromPairs(base: map<string, string>, pairs: seq<(string, string)>): map<string, string> {
    if pairs == [] then base
    else FromPairs(base, pairs[..|pairs| - 1])[pairs[|pairs| - 1].0 := pairs[|pairs| - 1].1]
  }

  /** The same, but never over `fixedKey`. */
  function FromPairsExcept(
    base: map<string, string>, pairs: seq<(string, string)>, fixedKey: string): map<string, string>
  {
    if pairs == [] then base
    else
      var rest, last := FromPairsExcept(base, pairs[..|pairs| - 1], fixedKey), pairs[|pairs| - 1];
      if last.0 != fixedKey then rest[last.0 := last.1] else rest
  }

  /** Whatever extra labels are asked for, a written key stays findable and gets the others. */
  lemma {:induction false} ExtrasNeverHideTheKey(
    base: map<string, string>, pairs: seq<(string, string)>, fixedKey: string, i: nat)
    requires fixedKey in base && i < |pairs|
    ensures Lookup(FromPairsExcept(base, pairs, fixedKey), fixedKey) == Some(base[fixedKey])
    ensures (pairs[i].0 != fixedKey && forall j :: i < j < |pairs| ==> pairs[j].0 != pairs[i].0)
            ==> Lookup(FromPairsExcept(base, pairs, fixedKey), pairs[i].0) == Some(pairs[i].1)
  {
    var front := pairs[..|pairs| - 1];
    if i < |front| {
      ExtrasNeverHideTheKey(base, front, fixedKey, i);
    } else if |front| > 0 {
      ExtrasNeverHideTheKey(base, front, fixedKey, 0);
    }
  }

  /** Of several values for an annotation the last one is kept. */
  lemma {:induction false} LastPairWins(base: map<string, string>, pairs: seq<(string, string)>, i: nat)
    requires i < |pairs| && forall j :: i < j < |pairs| ==> pairs[j].0 != pairs[i].0
    ensures Lookup(FromPairs(base, pairs), pairs[i].0) == Some(pairs[i].1)
  {
    if i < |pairs| - 1 {
      LastPairWins(base, pairs[..|pairs| - 1], i);
    }
  }

  /** Position `i` is the last one at which `k` is asked for. */
  predicate IsLastOf(pairs: seq<(string, string)>, k: string, i: nat) {
    i < |pairs| && pairs[i].0 == k && forall j :: i < j < |pairs| ==> pairs[j].0 != k
  }

  /** `k` has the last value asked for, or is not there if none was. */
  ghost predicate HasLastValue(m: map<string, string>, pairs: seq<(string, string)>, k: string) {
    && (forall i: nat :: IsLastOf(pairs, k, i) ==> Lookup(m, k) == Some(pairs[i].1))
    && ((forall i :: 0 <= i < |pairs| ==> pairs[i].0 != k) ==> Lookup(m, k) == None)
  }

  lemma {:induction false} UnaskedIsAbsent(pairs: seq<(string, string)>, k: string)
    requires forall i :: 0 <= i < |pairs| ==> pairs[i].0 != k
    ensures k !in FromPairs(map[], pairs)
    ensures forall base: map<string, string>, fixedKey :: k !in base ==> k !in FromPairsExcept(base, pairs, fixedKey)
  {
    if pairs != [] {
      UnaskedIsAbsent(pairs[..|pairs| - 1], k);
    }
  }

  lemma PairsGiveLastValues(pairs: seq<(string, string)>, k: string)
    ensures HasLastValue(FromPairs(map[], pairs), pairs, k)
  {
    forall i: nat | IsLastOf(pairs, k, i) ensures Lookup(FromPairs(map[], pairs), k) == Some(pairs[i].1) {
      LastPairWins(map[], pairs, i);
    }
    if forall i :: 0 <= i < |pairs| ==> pairs[i].0 != k {
      UnaskedIsAbsent(pairs, k);
    }
  }

  lemma ExtrasGiveLastValues(base: map<string, string>, pairs: seq<(string, string)>, fixedKey: string, k: string)
    requires base.Keys == {fixedKey} && k != fixedKey
    ensures HasLastValue(FromPairsExcept(base, pairs, fixedKey), pairs, k)
  {
    forall i: nat | IsLastOf(pairs, k, i)
      ensures Lookup(FromPairsExcept(base, pairs, fixedKey), k) == Some(pairs[i].1)
    {
      ExtrasNeverHideTheKey(base, pairs, fixedKey, i);
    }
    if forall i :: 0 <= i < |pairs| ==> pairs[i].0 != k {
      UnaskedIsAbsent(pairs, k);
    }
  }

  class SecretStore {
    var secrets: seq<KeySecret>

    constructor ()
      ensures secrets == []
    {
      secrets := [];
    }

    method Create(secret: KeySecret, answer: CreateAnswer) returns (name: Option<string>)
      modifies this
      ensures answer.Refused? ==> name == None && secrets == old(secrets)
      ensures !answer.Refused? ==>
                secrets == old(secrets) + [secret.(name := answer.name, creationTimestamp := answer.at)]
      ensures name == if answer.Created? then Some(answer.name) else None
    {
      if !answer.Refused? {
        secrets := secrets + [secret.(name := answer.name, creationTimestamp := answer.at)];
      }
      return if answer.Created? then Some(answer.name) else None;
    }

    /** The Secrets a label-selected list returns. */
    method ListActive() returns (items: seq<KeySecret>)
      ensures items == Filtered(secrets)
    {
      items := [];
      for i := 0 to |secrets|
        invariant items == Filtered(secrets[..i])
      {
        assert secrets[..i + 1][..i] == secrets[..i];
        if Active(secrets[i]) {
          items := items + [secrets[i]];
        }
      }
      assert secrets[..|secrets|] == secrets;
    }

    method Get(name: string) returns (r: Option<KeySecret>)
      ensures r.Some? ==> r.value in secrets && r.value.name == name
      ensures r.None? ==> forall ks :: ks in secrets ==> ks.name != name
    {
      for i := 0 to |secrets|
        invariant forall j :: 0 <= j < i ==> secrets[j].name != name
      {
        if secrets[i].name == name {
          return Some(secrets[i]);
        }
      }
      return None;
    }
  }

  function Filtered(items: seq<KeySecret>): seq<KeySecret> {
    if items == [] then []
    else
      var rest, last := Filtered(items[..|items| - 1]), items[|items| - 1];
      if Active(last) then rest + [last] else rest
  }

  lemma {:induction false} FilteredKeepsActive(items: seq<KeySecret>)
    ensures forall ks :: ks in Filtered(items) <==> ks in items && Active(ks)
  {
    if items != [] {
      FilteredKeepsActive(items[..|items| - 1]);
      assert items == items[..|items| - 1] + [items[|items| - 1]];
    }
  }

  /** The Secret `WriteKey` asks the API server to create; name and time are the server's. */
  function NewKeySecret(
    key: PrivateKey, certs: seq<Certificate>, krLabel: string,
    extraAnnotations: seq<(string, string)>, extraLabels: seq<(string, string)>, name: string, at: int): KeySecret
  {
    KeySecret(
      name, FromPairsExcept(map[krLabel := ACTIVE], extraLabels, krLabel), FromPairs(map[], extraAnnotations),
      at, key, certs)
  }

  /** What writing a key stores: the pair itself, under a label that says it is active, and whatever was asked for. */
  ghost predicate IsWritten(
    ks: KeySecret, key: PrivateKey, certs: seq<Certificate>, krLabel: string,
    extraAnnotations: seq<(string, string)>, extraLabels: seq<(string, string)>)
  {
    && ks.privateKey == key && ks.certs == certs
    && krLabel in ks.labels && ks.labels[krLabel] == "active"
    && (forall k :: k != krLabel ==> HasLastValue(ks.labels, extraLabels, k))
    && (forall k :: HasLastValue(ks.annotations, extraAnnotations, k))
  }

  lemma NewKeySecretIsWritten(
    key: PrivateKey, certs: seq<Certificate>, krLabel: string,
    extraAnnotations: seq<(string, string)>, extraLabels: seq<(string, string)>, name: string, at: int)
    ensures var ks := NewKeySecret(key, certs, krLabel, extraAnnotations, extraLabels, name, at);
      ks.name == name && ks.creationTimestamp == at
      && IsWritten(ks, key, certs, krLabel, extraAnnotations, extraLabels)
  {
    var ks := NewKeySecret(key, certs, krLabel, extraAnnotations, extraLabels, name, at);
    if extraLabels != [] {
      ExtrasNeverHideTheKey(map[krLabel := ACTIVE], extraLabels, krLabel, 0);
    }
    forall k | k != krLabel ensures HasLastValue(ks.labels, extraLabels, k) {
      ExtrasGiveLastValues(map[krLabel := ACTIVE], extraLabels, krLabel, k);
    }
    forall k ensures HasLastValue(ks.annotations, extraAnnotations, k) {
      PairsGiveLastValues(extraAnnotations, k);
    }
  }

  /** One Secret more, named and dated by the server, with the key in it. */
  ghost predicate StoresKey(
    before: seq<KeySecret>, after: seq<KeySecret>, answer: CreateAnswer, key: PrivateKey, certs: seq<Certificate>,
    krLabel: string, extraAnnotations: seq<(string, string)>, extraLabels: seq<(string, string)>)
  {
    if answer.Refused? then after == before
    else
      && |after| == |before| + 1 && after[..|before|] == before
      && after[|before|].name == answer.name && after[|before|].creationTimestamp == answer.at
      && IsWritten(after[|before|], key, certs, krLabel, extraAnnotations, extraLabels)
  }

  method WriteKey(
    store: SecretStore, key: PrivateKey, certs: seq<Certificate>, krLabel: string,
    extraAnnotations: seq<(string, string)>, extraLabels: seq<(string, string)>, answer: CreateAnswer)
    returns (name: Option<string>)
    modifies store
    ensures StoresKey(
              old(store.secrets), store.secrets, answer, key, certs, krLabel, extraAnnotations, extraLabels)
    ensures answer.Refused? ==> store.secrets == old(store.secrets)
    ensures !answer.Refused? ==>
              store.secrets == old(store.secrets)
                + [NewKeySecret(key, certs, krLabel, extraAnnotations, extraLabels, answer.name, answer.at)]
    ensures name == if answer.Created? then Some(answer.name) else None
  {
    var certbytes: seq<Certificate> := [];
    for i := 0 to |certs|
      invariant certbytes == certs[..i]
    {
      certbytes := certbytes + [certs[i]];
    }
    var labels := map[krLabel := ACTIVE];
    for i := 0 to |extraLabels|
      invariant labels == FromPairsExcept(map[krLabel := ACTIVE], extraLabels[..i], krLabel)
    {
      assert extraLabels[..i + 1][..i] == extraLabels[..i];
      if extraLabels[i].0 != krLabel {
        labels := labels[extraLabels[i].0 := extraLabels[i].1];
      }
    }
    var annotations := map[];
    for i := 0 to |extraAnnotations|
      invariant annotations == FromPairs(map[], extraAnnotations[..i])
    {
      assert extraAnnotations[..i + 1][..i] == extraAnnotations[..i];
      annotations := annotations[extraAnnotations[i].0 := extraAnnotations[i].1];
    }
    assert certs[..|certs|] == certs && extraLabels[..|extraLabels|] == extraLabels;
    assert extraAnnotations[..|extraAnnotations|] == extraAnnotations;
    name := store.Create(KeySecret("", labels, annotations, 0, key, certbytes), answer);
    if !answer.Refused? {
      NewKeySecretIsWritten(key, certs, krLabel, extraAnnotations, extraLabels, answer.name, answer.at);
    }
  }
}
