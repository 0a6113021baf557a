/** Start-up of the controller: loading the key registry and arranging key renewal. */
module Startup {
  import opened Base
  import opened Crypto
  import opened KeyStore
  import opened Registry

  const CERT_NOT_BEFORE := "CertNotBefore"
  const SECRET_CREATION_TIMESTAMP := "SecretCreationTimestamp"

  /** Any priority but the creation timestamp means the certificate's NotBefore. */
  function GetKeyOrderPriority(priority: string, cert: Certificate, ks: KeySecret): int {
    if priority == CERT_NOT_BEFORE then cert.notBefore
    else if priority == SECRET_CREATION_TIMESTAMP then ks.creationTimestamp
    else cert.notBefore
  }

  /** A key Secret whose registration cannot fail. */
  predicate Registrable(c: Primitives, ks: KeySecret) {
    ks.certs != [] && c.fingerprint(ks.privateKey.publicKey).Some?
  }

  function KeyAt(c: Primitives, ks: KeySecret, orderingTime: int): Key
    requires Registrable(c, ks)
  {
    Key(ks.privateKey, ks.certs[0], c.fingerprint(ks.privateKey.publicKey).value, orderingTime)
  }

  function LoadedKey(c: Primitives, ks: KeySecret, priority: string): Key
    requires Registrable(c, ks)
  {
    KeyAt(c, ks, GetKeyOrderPriority(priority, ks.certs[0], ks))
  }

  /** `k` is what the stored pair is read as: its own key and first certificate, ordered by what was configured. */
  predicate ReadsAs(c: Primitives, ks: KeySecret, priority: string, k: Key) {
    && ks.certs != [] && k.privateKey == ks.privateKey && k.cert == ks.certs[0]
    && c.fingerprint(ks.privateKey.publicKey) == Some(k.fingerprint)
    && k.orderingTime == if priority == "SecretCreationTimestamp" then ks.creationTimestamp else ks.certs[0].notBefore
  }

  method RegistryNewKeyWithSecret(c: Primitives, ks: KeySecret, registry: KeyRegistry, priority: string)
    returns (r: Result<(), RegistryError>)
    requires registry.Valid() && ks.certs != []
    modifies registry
    ensures registry.Valid()
    ensures r.Ok? <==> Registrable(c, ks)
    ensures r.Ok? ==> registry.history == old(registry.history) + [LoadedKey(c, ks, priority)]
    ensures r.Ok? ==> ReadsAs(c, ks, priority, registry.history[|registry.history| - 1])
    ensures r.Err? ==> registry.history == old(registry.history)
  {
    var orderingTime := GetKeyOrderPriority(priority, ks.certs[0], ks);
    r := registry.RegisterNewKey(c, ks.privateKey, ks.certs[0], orderingTime);
  }

  // ---- Loading ------------------------------------------------------------------------------

  predicate CreationSorted(items: seq<KeySecret>) {
    forall i, j :: 0 <= i < j < |items| ==> items[i].creationTimestamp <= items[j].creationTimestamp
  }

  /** Where `ks` goes in a sorted sequence: behind everything created no later. */
  function Insert(sorted: seq<KeySecret>, ks: KeySecret): seq<KeySecret> {
    if sorted == [] || sorted[|sorted| - 1].creationTimestamp <= ks.creationTimestamp then sorted + [ks]
    else Insert(sorted[..|sorted| - 1], ks) + [sorted[|sorted| - 1]]
  }

  lemma {:induction false} InsertPermutes(sorted: seq<KeySecret>, ks: KeySecret)
    ensures multiset(Insert(sorted, ks)) == multiset(sorted) + multiset{ks}
  {
    if sorted != [] {
      InsertPermutes(sorted[..|sorted| - 1], ks);
      assert sorted == sorted[..|sorted| - 1] + [sorted[|sorted| - 1]];
    }
  }

  lemma {:induction false} InsertSorts(sorted: seq<KeySecret>, ks: KeySecret)
    requires CreationSorted(sorted)
    ensures CreationSorted(Insert(sorted, ks))
  {
    if sorted != [] && sorted[|sorted| - 1].creationTimestamp > ks.creationTimestamp {
      var front, last := sorted[..|sorted| - 1], sorted[|sorted| - 1];
      InsertSorts(front, ks);
      InsertPermutes(front, ks);
      forall x | x in Insert(front, ks) ensures x.creationTimestamp <= last.creationTimestamp {
        assert x in multiset(Insert(front, ks));
        assert x == ks || x in front;
      }
    }
  }

  /** Stands for the library sort: callers learn only that the result is a sorted permutation. */
  method SortByCreationTimestamp(items: seq<KeySecret>) returns (sorted: seq<KeySecret>)
    ensures CreationSorted(sorted) && multiset(sorted) == multiset(items)
  {
    sorted := [];
    for i := 0 to |items|
      invariant CreationSorted(sorted) && multiset(sorted) == multiset(items[..i])
    {
      assert items[..i + 1] == items[..i] + [items[i]];
      InsertSorts(sorted, items[i]);
      InsertPermutes(sorted, items[i]);
      sorted := Insert(sorted, items[i]);
    }
    assert items[..|items|] == items;
  }

  predicate Loads(ks: KeySecret, prefix: string) {
    Active(ks) || ks.name == prefix
  }

  predicate UniqueNames(secrets: seq<KeySecret>) {
    forall a, b :: a in secrets && b in secrets && a.name == b.name ==> a == b
  }

  /** What the look-up of the legacy key, named by the prefix, may answer. */
  predicate IsLegacy(secrets: seq<KeySecret>, prefix: string, legacy: Option<KeySecret>) {
    match legacy
    case None => forall ks :: ks in secrets ==> ks.name != prefix
    case Some(l) => l in secrets && l.name == prefix
  }

  /** The active key Secrets as listed, and the legacy one behind them, even if it is listed as well. */
  function Picked(secrets: seq<KeySecret>, legacy: Option<KeySecret>): seq<KeySecret> {
    Filtered(secrets) + if legacy.Some? then [legacy.value] else []
  }

  /** What start-up sorts and registers, in some order. */
  ghost predicate Selects(secrets: seq<KeySecret>, prefix: string, items: seq<KeySecret>) {
    exists legacy :: IsLegacy(secrets, prefix, legacy) && multiset(items) == multiset(Picked(secrets, legacy))
  }

  /** Only loadable Secrets are picked, all active ones are, and with unique names all loadable ones. */
  lemma SelectsMembers(secrets: seq<KeySecret>, prefix: string, items: seq<KeySecret>)
    requires Selects(secrets, prefix, items)
    ensures forall ks :: ks in items ==> ks in secrets && Loads(ks, prefix)
    ensures forall ks :: ks in secrets && Active(ks) ==> ks in items
    ensures UniqueNames(secrets) ==> forall ks :: ks in secrets && Loads(ks, prefix) ==> ks in items
  {
    FilteredKeepsActive(secrets);
    var legacy :| IsLegacy(secrets, prefix, legacy) && multiset(items) == multiset(Picked(secrets, legacy));
    SameMembers(items, Picked(secrets, legacy));
    assert forall ks :: ks in Filtered(secrets) ==> ks in Picked(secrets, legacy);
    assert legacy.Some? ==> legacy.value in Picked(secrets, legacy);
  }

  lemma SameMembers<T>(a: seq<T>, b: seq<T>)
    requires multiset(a) == multiset(b)
    ensures forall x :: x in a <==> x in b
  {
    forall x ensures x in a <==> x in b {
      assert x in a <==> x in multiset(a);
      assert x in b <==> x in multiset(b);
    }
  }

  ghost predicate RegistersAll(c: Primitives, items: seq<KeySecret>, priority: string, h: seq<Key>) {
    && |h| == |items|
    && forall i :: 0 <= i < |items| ==> Registrable(c, items[i]) && h[i] == LoadedKey(c, items[i], priority)
  }

  /** A registry history that start-up may produce from the stored Secrets. */
  ghost predicate LoadedFrom(c: Primitives, secrets: seq<KeySecret>, prefix: string, priority: string, h: seq<Key>) {
    exists items :: CreationSorted(items) && Selects(secrets, prefix, items) && RegistersAll(c, items, priority, h)
  }

  method RegisterAll(c: Primitives, items: seq<KeySecret>, registry: KeyRegistry, priority: string)
    returns (r: Result<(), RegistryError>)
    requires registry.Valid() && registry.history == []
    requires forall ks :: ks in items ==> ks.certs != []
    modifies registry
    ensures registry.Valid()
    ensures r.Ok? ==> RegistersAll(c, items, priority, registry.history)
    ensures (forall ks :: ks in items ==> Registrable(c, ks)) ==> r.Ok?
  {
    for i := 0 to |items|
      invariant registry.Valid()
      invariant |registry.history| == i
      invariant forall j :: 0 <= j < i ==>
                  Registrable(c, items[j]) && registry.history[j] == LoadedKey(c, items[j], priority)
    {
      assert items[i] in items;
      var registered := RegistryNewKeyWithSecret(c, items[i], registry, priority);
      if registered.Err? {
        return Err(registered.error);
      }
    }
    return Ok(());
  }

  method InitKeyRegistry(
    c: Primitives, store: SecretStore, listFails: bool, getFails: bool, prefix: string, priority: string)
    returns (r: Result<KeyRegistry, RegistryError>)
    requires forall ks :: ks in store.secrets && Loads(ks, prefix) ==> ks.certs != []
    ensures r.Ok? ==> fresh(r.value) && r.value.Valid()
    ensures r.Ok? ==> LoadedFrom(c, store.secrets, prefix, priority, r.value.history)
    ensures r.Ok? ==> HoldsStored(c, store.secrets, prefix, priority, r.value.history)
    ensures listFails || getFails ==> r.Err?
    ensures !listFails && !getFails && (forall ks :: ks in store.secrets && Loads(ks, prefix) ==> Registrable(c, ks))
            ==> r.Ok?
    ensures store.secrets == old(store.secrets)
  {
    if listFails {
      return Err(CannotList);
    }
    var items := store.ListActive();
    if getFails {
      return Err(CannotGet);
    }
    var legacy := store.Get(prefix);
    if legacy.Some? {
      items := items + [legacy.value];
    }
    assert IsLegacy(store.secrets, prefix, legacy) && items == Picked(store.secrets, legacy);
    var registry := new KeyRegistry();
    var sorted := SortByCreationTimestamp(items);
    SelectsMembers(store.secrets, prefix, sorted);
    var registered := RegisterAll(c, sorted, registry, priority);
    if registered.Err? {
      return Err(registered.error);
    }
    LoadHoldsStored(c, store.secrets, prefix, priority, registry.history);
    return Ok(registry);
  }

  /** Every active stored key is registered, and with unique names every loadable one. */
  lemma LoadedHasEveryKey(
    c: Primitives, secrets: seq<KeySecret>, prefix: string, priority: string, h: seq<Key>, ks: KeySecret)
    requires LoadedFrom(c, secrets, prefix, priority, h) && ks in secrets
    requires Active(ks) || (UniqueNames(secrets) && Loads(ks, prefix))
    ensures Registrable(c, ks) && LoadedKey(c, ks, priority) in h
  {
    var items :| CreationSorted(items) && Selects(secrets, prefix, items) && RegistersAll(c, items, priority, h);
    SelectsMembers(secrets, prefix, items);
  }

  lemma LoadedComesFromStore(
    c: Primitives, secrets: seq<KeySecret>, prefix: string, priority: string, h: seq<Key>, k: Key)
    returns (ks: KeySecret)
    requires LoadedFrom(c, secrets, prefix, priority, h) && k in h
    ensures ks in secrets && Loads(ks, prefix) && Registrable(c, ks) && k == LoadedKey(c, ks, priority)
  {
    var items :| CreationSorted(items) && Selects(secrets, prefix, items) && RegistersAll(c, items, priority, h);
    SelectsMembers(secrets, prefix, items);
    var i :| 0 <= i < |h| && h[i] == k;
    ks := items[i];
  }

  predicate LabelledAsKey(ks: KeySecret) {
    KEY_LABEL in ks.labels && ks.labels[KEY_LABEL] == "active"
  }

  ghost predicate ReadFrom(c: Primitives, secrets: seq<KeySecret>, prefix: string, priority: string, k: Key) {
    exists ks :: ks in secrets && (LabelledAsKey(ks) || ks.name == prefix) && ReadsAs(c, ks, priority, k)
  }

  ghost predicate ReadInto(c: Primitives, ks: KeySecret, priority: string, h: seq<Key>) {
    exists k :: k in h && ReadsAs(c, ks, priority, k)
  }

  /** The registered keys are read from the labelled Secrets and the one named by the prefix, and all of these are. */
  ghost predicate HoldsStored(c: Primitives, secrets: seq<KeySecret>, prefix: string, priority: string, h: seq<Key>) {
    && (forall k :: k in h ==> ReadFrom(c, secrets, prefix, priority, k))
    && (forall ks :: ks in secrets && LabelledAsKey(ks) ==> ReadInto(c, ks, priority, h))
    && (UniqueNames(secrets) ==> forall ks :: ks in secrets && ks.name == prefix ==> ReadInto(c, ks, priority, h))
  }

  lemma LoadHoldsStored(c: Primitives, secrets: seq<KeySecret>, prefix: string, priority: string, h: seq<Key>)
    requires LoadedFrom(c, secrets, prefix, priority, h)
    ensures HoldsStored(c, secrets, prefix, priority, h)
  {
    forall k | k in h ensures ReadFrom(c, secrets, prefix, priority, k) {
      var ks := LoadedComesFromStore(c, secrets, prefix, priority, h, k);
      assert ReadsAs(c, ks, priority, k);
    }
    forall ks | ks in secrets && (LabelledAsKey(ks) || (UniqueNames(secrets) && ks.name == prefix))
      ensures ReadInto(c, ks, priority, h)
    {
      LoadedHasEveryKey(c, secrets, prefix, priority, h, ks);
      assert ReadsAs(c, ks, priority, LoadedKey(c, ks, priority));
    }
  }

  /** What a key generation stored, a later start-up registers again: the private key and the certificate. */
  lemma WrittenKeyReloads(
    c: Primitives, secrets: seq<KeySecret>, prefix: string, priority: string, h: seq<Key>, ks: KeySecret,
    key: PrivateKey, cert: Certificate, annotations: seq<(string, string)>, labels: seq<(string, string)>)
    returns (k: Key)
    requires IsWritten(ks, key, [cert], KEY_LABEL, annotations, labels) && ks in secrets
    requires LoadedFrom(c, secrets, prefix, priority, h)
    ensures k in h && k.privateKey == key && k.cert == cert && c.fingerprint(key.publicKey) == Some(k.fingerprint)
  {
    LoadHoldsStored(c, secrets, prefix, priority, h);
    k :| k in h && ReadsAs(c, ks, priority, k);
  }

  // ---- Who seals after loading ---------------------------------------------------------------

  /** The time that decides between stored keys. */
  function PriorityTime(priority: string, ks: KeySecret): int
    requires ks.certs != []
  {
    if priority == SECRET_CREATION_TIMESTAMP then ks.creationTimestamp else ks.certs[0].notBefore
  }

  /** `x` cannot be elected over `ks`: it is older, or equally old and not created before `ks`. */
  predicate NotAhead(priority: string, x: KeySecret, ks: KeySecret)
    requires x.certs != [] && ks.certs != []
  {
    || PriorityTime(priority, x) < PriorityTime(priority, ks)
    || (PriorityTime(priority, x) == PriorityTime(priority, ks) && ks.creationTimestamp <= x.creationTimestamp)
  }

  predicate AllRegistrable(c: Primitives, secrets: seq<KeySecret>, prefix: string) {
    forall ks :: ks in secrets && Loads(ks, prefix) ==> Registrable(c, ks)
  }

  /** A stored key Secret that no loadable one is ahead of. */
  predicate Newest(c: Primitives, secrets: seq<KeySecret>, prefix: string, priority: string, ks: KeySecret)
    requires AllRegistrable(c, secrets, prefix)
  {
    && ks in secrets && Loads(ks, prefix)
    && forall x :: x in secrets && Loads(x, prefix) ==> NotAhead(priority, x, ks)
  }

  /** In a load, what the election picks is what no item is ahead of. */
  lemma FirstMaximumIsNewest(c: Primitives, items: seq<KeySecret>, priority: string, h: seq<Key>, i: int)
    requires CreationSorted(items) && RegistersAll(c, items, priority, h) && FirstMaximum(h, i)
    ensures forall j :: 0 <= j < |items| ==> items[j].certs != [] && NotAhead(priority, items[j], items[i])
  {
    forall j | 0 <= j < |items| ensures items[j].certs != [] && NotAhead(priority, items[j], items[i]) {
      assert h[j].orderingTime <= h[i].orderingTime;
      assert j < i ==> h[j].orderingTime < h[i].orderingTime;
      assert i < j ==> items[i].creationTimestamp <= items[j].creationTimestamp;
    }
  }

  /** And what no item is ahead of is picked, if it leads the items created at the same time. */
  lemma NewestIsFirstMaximum(c: Primitives, items: seq<KeySecret>, priority: string, h: seq<Key>, i: int)
    requires RegistersAll(c, items, priority, h) && 0 <= i < |items|
    requires forall j :: 0 <= j < i ==> items[j].creationTimestamp < items[i].creationTimestamp
    requires forall j :: 0 <= j < |items| ==> items[j].certs != [] && NotAhead(priority, items[j], items[i])
    ensures FirstMaximum(h, i)
  {
    forall j | 0 <= j < |items|
      ensures h[j].orderingTime <= h[i].orderingTime && (j < i ==> h[j].orderingTime < h[i].orderingTime)
    {
      assert NotAhead(priority, items[j], items[i]);
    }
  }

  /** After loading, the sealing key is a stored one that no active key is ahead of by the chosen priority. */
  lemma LoadedElectsNewest(c: Primitives, secrets: seq<KeySecret>, prefix: string, priority: string, h: seq<Key>)
    returns (newest: KeySecret)
    requires LoadedFrom(c, secrets, prefix, priority, h) && h != []
    ensures newest in secrets && Loads(newest, prefix) && Registrable(c, newest)
    ensures Elect(h) == Some(LoadedKey(c, newest, priority))
    ensures forall ks :: ks in secrets && Active(ks) ==> ks.certs != [] && NotAhead(priority, ks, newest)
    ensures UniqueNames(secrets) && AllRegistrable(c, secrets, prefix) ==> Newest(c, secrets, prefix, priority, newest)
  {
    var items :| CreationSorted(items) && Selects(secrets, prefix, items) && RegistersAll(c, items, priority, h);
    SelectsMembers(secrets, prefix, items);
    ElectIsFirstMaximum(h);
    var i :| FirstMaximum(h, i) && Elect(h) == Some(h[i]);
    FirstMaximumIsNewest(c, items, priority, h, i);
    newest := items[i];
  }

  /** `ks` is at `i` and comes before every other Secret created at the same time. */
  predicate LeadsAt(sorted: seq<KeySecret>, ks: KeySecret, i: int) {
    && 0 <= i < |sorted| && sorted[i] == ks
    && forall j :: 0 <= j < i ==> sorted[j].creationTimestamp < ks.creationTimestamp
  }

  ghost predicate LeadsTies(sorted: seq<KeySecret>, ks: KeySecret) {
    exists i :: LeadsAt(sorted, ks, i)
  }

  lemma InsertBeforeLead(front: seq<KeySecret>, x: KeySecret, ks: KeySecret)
    requires x.creationTimestamp < ks.creationTimestamp
    requires forall y :: y in front ==> y.creationTimestamp < ks.creationTimestamp
    ensures LeadsTies(Insert(front, x) + [ks], ks)
  {
    var items := Insert(front, x);
    InsertPermutes(front, x);
    SameMembers(items, front + [x]);
    assert forall j :: 0 <= j < |items| ==> items[j] in items;
    assert LeadsAt(items + [ks], ks, |items|);
  }

  lemma {:induction false} InsertKeepsLead(sorted: seq<KeySecret>, x: KeySecret, ks: KeySecret)
    requires CreationSorted(sorted) && LeadsTies(sorted, ks)
    ensures LeadsTies(Insert(sorted, x), ks)
  {
    var n := |sorted| - 1;
    var i :| LeadsAt(sorted, ks, i);
    if sorted[n].creationTimestamp <= x.creationTimestamp {
      assert LeadsAt(Insert(sorted, x), ks, i);
    } else if i < n {
      var front := sorted[..n];
      assert LeadsAt(front, ks, i);
      InsertKeepsLead(front, x, ks);
      var i' :| LeadsAt(Insert(front, x), ks, i');
      assert LeadsAt(Insert(sorted, x), ks, i');
    } else {
      InsertBeforeLead(sorted[..n], x, ks);
    }
  }

  /** Some sorted permutation of `[ks] + rest` lets `ks` lead its ties. */
  lemma {:induction false} SortedLedBy(ks: KeySecret, rest: seq<KeySecret>) returns (sorted: seq<KeySecret>)
    ensures CreationSorted(sorted) && LeadsTies(sorted, ks)
    ensures multiset(sorted) == multiset{ks} + multiset(rest)
  {
    if rest == [] {
      sorted := [ks];
      assert LeadsAt(sorted, ks, 0);
    } else {
      var n := |rest| - 1;
      var front := SortedLedBy(ks, rest[..n]);
      InsertSorts(front, rest[n]);
      InsertPermutes(front, rest[n]);
      InsertKeepsLead(front, rest[n], ks);
      assert rest == rest[..n] + [rest[n]];
      sorted := Insert(front, rest[n]);
    }
  }

  lemma TakeOut<T>(items: seq<T>, x: T) returns (rest: seq<T>)
    requires x in items
    ensures multiset(items) == multiset{x} + multiset(rest)
  {
    var i :| 0 <= i < |items| && items[i] == x;
    assert items == items[..i] + [x] + items[i + 1..];
    rest := items[..i] + items[i + 1..];
  }

  lemma AnySelection(secrets: seq<KeySecret>, prefix: string) returns (items: seq<KeySecret>)
    ensures Selects(secrets, prefix, items)
  {
    var legacy: Option<KeySecret> := None;
    if l :| l in secrets && l.name == prefix {
      legacy := Some(l);
    }
    assert IsLegacy(secrets, prefix, legacy);
    items := Picked(secrets, legacy);
  }

  /** A sort may put any loadable Secret before all others created at the same time. */
  lemma LoadLedBy(secrets: seq<KeySecret>, prefix: string, ks: KeySecret) returns (items: seq<KeySecret>)
    requires UniqueNames(secrets) && ks in secrets && Loads(ks, prefix)
    ensures Selects(secrets, prefix, items) && CreationSorted(items) && LeadsTies(items, ks)
  {
    var picked := AnySelection(secrets, prefix);
    SelectsMembers(secrets, prefix, picked);
    var rest := TakeOut(picked, ks);
    items := SortedLedBy(ks, rest);
    assert multiset(items) == multiset(picked);
  }

  lemma LoadItems(c: Primitives, items: seq<KeySecret>, priority: string, ks: KeySecret) returns (h: seq<Key>)
    requires LeadsTies(items, ks) && ks.certs != []
    requires forall x :: x in items ==> Registrable(c, x) && NotAhead(priority, x, ks)
    ensures RegistersAll(c, items, priority, h) && Elect(h) == Some(LoadedKey(c, ks, priority))
  {
    assert forall j :: 0 <= j < |items| ==> items[j] in items;
    h := seq(|items|, j requires 0 <= j < |items| => LoadedKey(c, items[j], priority));
    var i :| LeadsAt(items, ks, i);
    NewestIsFirstMaximum(c, items, priority, h, i);
    Election(h);
  }

  /** Each newest stored key is the sealing key after some load. */
  lemma NewestMayBeElected(c: Primitives, secrets: seq<KeySecret>, prefix: string, priority: string, ks: KeySecret)
    returns (h: seq<Key>)
    requires UniqueNames(secrets) && AllRegistrable(c, secrets, prefix) && Newest(c, secrets, prefix, priority, ks)
    ensures LoadedFrom(c, secrets, prefix, priority, h) && Elect(h) == Some(LoadedKey(c, ks, priority))
  {
    var items := LoadLedBy(secrets, prefix, ks);
    SelectsMembers(secrets, prefix, items);
    h := LoadItems(c, items, priority, ks);
  }

  /** The private key of `f` is stored in a Secret that no loadable one is ahead of. */
  ghost predicate NewestOf(c: Primitives, secrets: seq<KeySecret>, prefix: string, priority: string, f: string)
    requires AllRegistrable(c, secrets, prefix)
  {
    exists ks :: Newest(c, secrets, prefix, priority, ks) && c.fingerprint(ks.privateKey.publicKey) == Some(f)
  }

  ghost predicate MayElect(c: Primitives, secrets: seq<KeySecret>, prefix: string, priority: string, f: string) {
    exists h :: LoadedFrom(c, secrets, prefix, priority, h) && Elect(h).Some? && Elect(h).value.fingerprint == f
  }

  /** Exactly the newest stored keys can come out of a load as the sealing key; ties are for the sort to decide. */
  lemma LoadElectsExactlyNewest(c: Primitives, secrets: seq<KeySecret>, prefix: string, priority: string, f: string)
    requires UniqueNames(secrets) && AllRegistrable(c, secrets, prefix)
    ensures MayElect(c, secrets, prefix, priority, f) <==> NewestOf(c, secrets, prefix, priority, f)
  {
    if MayElect(c, secrets, prefix, priority, f) {
      var h :| LoadedFrom(c, secrets, prefix, priority, h) && Elect(h).Some? && Elect(h).value.fingerprint == f;
      ElectIsFirstMaximum(h);
      var newest := LoadedElectsNewest(c, secrets, prefix, priority, h);
      assert Newest(c, secrets, prefix, priority, newest);
    }
    if NewestOf(c, secrets, prefix, priority, f) {
      var ks :| Newest(c, secrets, prefix, priority, ks) && c.fingerprint(ks.privateKey.publicKey) == Some(f);
      var h := NewestMayBeElected(c, secrets, prefix, priority, ks);
    }
  }

  // ---- Renewal ------------------------------------------------------------------------------

  /** The time left until the sealing key, ordered at `t`, is one period old; never negative. */
  function DelayUntilStale(period: int, now: int, t: int): int {
    if period - (now - t) < 0 then 0 else period - (now - t)
  }

  /** Some key was ordered at the cutoff or later. */
  ghost predicate HasKeySince(h: seq<Key>, cutoff: int) {
    exists k :: k in h && cutoff <= k.orderingTime
  }

  /** Generates a key if there is none, or none newer than the cutoff. */
  method EnsureKey(
    c: Primitives, registry: KeyRegistry, store: SecretStore, cutoff: int,
    generated: Option<(PrivateKey, Certificate)>, krLabel: string,
    extraAnnotations: seq<(string, string)>, extraLabels: seq<(string, string)>, answer: CreateAnswer, now: int)
    returns (r: Result<(), RegistryError>)
    requires registry.Valid()
    modifies registry, store
    ensures registry.Valid()
    ensures HasKeySince(old(registry.history), cutoff) ==>
              r.Ok? && registry.history == old(registry.history) && store.secrets == old(store.secrets)
    ensures !HasKeySince(old(registry.history), cutoff) ==>
              (r.Ok? <==> generated.Some? && answer.Created? && c.fingerprint(generated.value.0.publicKey).Some?)
    ensures !HasKeySince(old(registry.history), cutoff) && generated.Some? ==>
              StoresKey(old(store.secrets), store.secrets, answer, generated.value.0, [generated.value.1],
                        krLabel, extraAnnotations, extraLabels)
    ensures !HasKeySince(old(registry.history), cutoff) && r.Ok? ==>
              registry.history == old(registry.history)
                + [Key(generated.value.0, generated.value.1, c.fingerprint(generated.value.0.publicKey).value, now)]
    ensures r.Ok? ==> registry.history != []
  {
    EmptyRegistry(registry.history);
    ElectIsFirstMaximum(registry.history);
    if |registry.keys| == 0 || registry.mostRecentKey.value.orderingTime < cutoff {
      var name := registry.GenerateKey(c, store, generated, krLabel, extraAnnotations, extraLabels, answer, now);
      if name.Err? {
        return Err(name.error);
      }
    }
    return Ok(());
  }

  lemma EmptyRegistry(h: seq<Key>)
    ensures |ByFingerprint(h)| == 0 <==> h == []
    ensures h != [] ==> Elect(h).Some?
  {
  }

  /** Makes sure there is a key, and says how long to wait for the first scheduled renewal, if any. */
  method InitKeyRenewal(
    c: Primitives, registry: KeyRegistry, store: SecretStore, period: int, cutoff: int,
    generated: Option<(PrivateKey, Certificate)>, krLabel: string,
    extraAnnotations: seq<(string, string)>, extraLabels: seq<(string, string)>, answer: CreateAnswer, now: int)
    returns (r: Result<Option<int>, RegistryError>)
    requires registry.Valid()
    modifies registry, store
    ensures registry.Valid()
    ensures r.Ok? <==> HasKeySince(old(registry.history), cutoff)
                       || (generated.Some? && answer.Created? && c.fingerprint(generated.value.0.publicKey).Some?)
    ensures HasKeySince(old(registry.history), cutoff) ==>
              registry.history == old(registry.history) && store.secrets == old(store.secrets)
    ensures !HasKeySince(old(registry.history), cutoff) && generated.Some? ==>
              StoresKey(old(store.secrets), store.secrets, answer, generated.value.0, [generated.value.1],
                        krLabel, extraAnnotations, extraLabels)
    ensures r.Ok? && !HasKeySince(old(registry.history), cutoff) ==>
              registry.history == old(registry.history)
                + [Key(generated.value.0, generated.value.1, c.fingerprint(generated.value.0.publicKey).value, now)]
    ensures r.Ok? ==> Elect(registry.history).Some? && (r.value.None? <==> period == 0)
    ensures r.Ok? && r.value.Some? ==>
              var stale := Elect(registry.history).value.orderingTime + period;
              && 0 <= r.value.value && stale <= now + r.value.value
              && (r.value.value == 0 || now + r.value.value == stale)
              && r.value.value == DelayUntilStale(period, now, stale - period)
  {
    var ready := EnsureKey(
      c, registry, store, cutoff, generated, krLabel, extraAnnotations, extraLabels, answer, now);
    if ready.Err? {
      return Err(ready.error);
    }
    EmptyRegistry(registry.history);
    if period == 0 {
      return Ok(None);
    }
    var mostRecentKeyAge := now - registry.mostRecentKey.value.orderingTime;
    var initialDelay := period - mostRecentKeyAge;
    if initialDelay < 0 {
      initialDelay := 0;
    }
    return Ok(Some(initialDelay));
  }
}
