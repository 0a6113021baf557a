/**
 * What start-up makes of a store in which every loadable key Secret is trustworthy: which keys come back, and
 * which of them can be the sealing key, compared with a registry that has been running.
 */
module Reload {
  import opened Base
  import opened Crypto
  import opened KeyStore
  import opened Registry
  import opened Startup

  datatype Config = Config(c: Primitives, prefix: string, priority: string)

  /** A key Secret whose first certificate belongs to its private key. */
  predicate Trustworthy(c: Primitives, ks: KeySecret) {
    Registrable(c, ks) && ks.certs[0].publicKey == ks.privateKey.publicKey
  }

  predicate StoreOk(cfg: Config, store: seq<KeySecret>) {
    UniqueNames(store) && forall ks :: ks in store && Loads(ks, cfg.prefix) ==> Trustworthy(cfg.c, ks)
  }

  /** The stored Secret a registered key came from. */
  predicate Backs(cfg: Config, ks: KeySecret, k: Key) {
    && Loads(ks, cfg.prefix) && Trustworthy(cfg.c, ks)
    && k == KeyAt(cfg.c, ks, k.orderingTime)
  }

  ghost predicate Backed(cfg: Config, store: seq<KeySecret>, k: Key) {
    exists ks :: ks in store && Backs(cfg, ks, k)
  }

  ghost predicate AllBacked(cfg: Config, store: seq<KeySecret>, h: seq<Key>) {
    forall k :: k in h ==> Backed(cfg, store, k)
  }

  ghost predicate Reloads(cfg: Config, store: seq<KeySecret>, h: seq<Key>) {
    LoadedFrom(cfg.c, store, cfg.prefix, cfg.priority, h)
  }

  ghost predicate NotEarly(h: seq<Key>) {
    forall k :: k in h ==> k.cert.notBefore <= k.orderingTime
  }

  /** A reload brings back every loadable key, and only such keys. */
  lemma ReloadsAll(cfg: Config, store: seq<KeySecret>, h: seq<Key>)
    requires StoreOk(cfg, store) && Reloads(cfg, store, h)
    ensures forall ks :: ks in store && Loads(ks, cfg.prefix) ==> LoadedKey(cfg.c, ks, cfg.priority) in h
    ensures AllBacked(cfg, store, h)
    ensures cfg.priority == CERT_NOT_BEFORE ==> forall k :: k in h ==> k.orderingTime == k.cert.notBefore
  {
    forall ks | ks in store && Loads(ks, cfg.prefix) ensures LoadedKey(cfg.c, ks, cfg.priority) in h {
      LoadedHasEveryKey(cfg.c, store, cfg.prefix, cfg.priority, h, ks);
    }
    forall k | k in h
      ensures Backed(cfg, store, k) && (cfg.priority == CERT_NOT_BEFORE ==> k.orderingTime == k.cert.notBefore)
    {
      var ks := LoadedComesFromStore(cfg.c, store, cfg.prefix, cfg.priority, h, k);
      assert Backs(cfg, ks, k);
    }
  }

  // ---- Which key a reload elects ---------------------------------------------------------------

  /** Every reload elects `f`. */
  ghost predicate ReloadsElect(cfg: Config, store: seq<KeySecret>, f: string) {
    forall h :: Reloads(cfg, store, h) ==> Elect(h).Some? && Elect(h).value.fingerprint == f
  }

  lemma ReloadsElectIff(cfg: Config, store: seq<KeySecret>, f: string)
    requires StoreOk(cfg, store) && exists ks :: ks in store && Loads(ks, cfg.prefix)
    ensures ReloadsElect(cfg, store, f) <==>
              forall ks :: Newest(cfg.c, store, cfg.prefix, cfg.priority, ks) ==>
                cfg.c.fingerprint(ks.privateKey.publicKey) == Some(f)
  {
    if ReloadsElect(cfg, store, f) {
      forall ks | Newest(cfg.c, store, cfg.prefix, cfg.priority, ks)
        ensures cfg.c.fingerprint(ks.privateKey.publicKey) == Some(f)
      {
        var h := NewestMayBeElected(cfg.c, store, cfg.prefix, cfg.priority, ks);
        assert Reloads(cfg, store, h);
      }
    } else {
      var h :| Reloads(cfg, store, h) && !(Elect(h).Some? && Elect(h).value.fingerprint == f);
      ReloadIsNotEmpty(cfg, store, h);
      var ks := LoadedElectsNewest(cfg.c, store, cfg.prefix, cfg.priority, h);
      assert Newest(cfg.c, store, cfg.prefix, cfg.priority, ks);
    }
  }

  lemma ReloadIsNotEmpty(cfg: Config, store: seq<KeySecret>, h: seq<Key>)
    requires StoreOk(cfg, store) && Reloads(cfg, store, h)
    requires exists ks :: ks in store && Loads(ks, cfg.prefix)
    ensures h != [] && Elect(h).Some?
  {
    var ks :| ks in store && Loads(ks, cfg.prefix);
    LoadedHasEveryKey(cfg.c, store, cfg.prefix, cfg.priority, h, ks);
    ElectIsFirstMaximum(h);
  }

  // ---- Against a running registry ----------------------------------------------------------------

  /** Every loadable key Secret has entered the live registry with its present certificate. */
  ghost predicate AllRegistered(cfg: Config, store: seq<KeySecret>, h: seq<Key>) {
    forall ks :: ks in store && Loads(ks, cfg.prefix) ==> exists k :: k in h && Backs(cfg, ks, k)
  }

  /** `from` gives each stored key pair a time no later than the NotBefore of any of its certificates. */
  ghost predicate NotBeforeOf(cfg: Config, store: seq<KeySecret>, from: string -> int) {
    forall ks :: ks in store && Loads(ks, cfg.prefix) && Registrable(cfg.c, ks) ==>
      from(cfg.c.fingerprint(ks.privateKey.publicKey).value) <= ks.certs[0].notBefore
  }

  /** `from` gives each stored key pair its one NotBefore, and no two pairs the same. */
  ghost predicate DistinctNotBefore(cfg: Config, store: seq<KeySecret>, from: string -> int) {
    && (forall ks :: ks in store && Loads(ks, cfg.prefix) && Registrable(cfg.c, ks) ==>
          from(cfg.c.fingerprint(ks.privateKey.publicKey).value) == ks.certs[0].notBefore)
    && (forall a, b :: a in store && b in store && Loads(a, cfg.prefix) && Loads(b, cfg.prefix) ==>
          Registrable(cfg.c, a) && Registrable(cfg.c, b) && a.certs[0].notBefore == b.certs[0].notBefore ==>
            cfg.c.fingerprint(a.privateKey.publicKey) == cfg.c.fingerprint(b.privateKey.publicKey))
  }

  /** The largest ordering time `f` carries in `h`. */
  ghost function LatestOf(h: seq<Key>, f: string): (t: int)
    ensures forall k :: k in h && k.fingerprint == f ==> k.orderingTime <= t
    ensures Known(h, f) ==> exists k :: k in h && k.fingerprint == f && k.orderingTime == t
  {
    if h == [] then 0
    else
      var front, last := h[..|h| - 1], h[|h| - 1];
      assert h == front + [last];
      if last.fingerprint != f then LatestOf(front, f)
      else if !Known(front, f) then last.orderingTime
      else Later(last.orderingTime, LatestOf(front, f))
  }

  ghost function Latest(h: seq<Key>): string -> int {
    f => LatestOf(h, f)
  }

  ghost predicate Disjoint(h: seq<Key>, from: string -> int, to: string -> int) {
    forall f, g :: Known(h, f) && Known(h, g) && f != g ==> to(f) < from(g) || to(g) < from(f)
  }

  /** No key was ordered in the live registry between another one's NotBefore and its last ordering time. */
  ghost predicate IntervalsDisjoint(h: seq<Key>, from: string -> int) {
    Disjoint(h, from, Latest(h))
  }

  /** `k` is known and not ordered later than before, or its pair's time comes after everything ordered so far. */
  ghost predicate InOrder(h: seq<Key>, k: Key, from: string -> int) {
    || (Known(h, k.fingerprint) && k.orderingTime <= LatestOf(h, k.fingerprint))
    || (forall l :: l in h ==> l.orderingTime < from(k.fingerprint))
  }

  lemma LatestAfter(h: seq<Key>, k: Key, f: string)
    ensures Known(h + [k], f) <==> Known(h, f) || f == k.fingerprint
    ensures f != k.fingerprint ==> LatestOf(h + [k], f) == LatestOf(h, f)
    ensures f == k.fingerprint && Known(h, f) ==> LatestOf(h + [k], f) == Later(k.orderingTime, LatestOf(h, f))
  {
    assert (h + [k])[..|h|] == h;
    KnownInLonger(h + [k], f);
  }

  /** Registrations in order keep the intervals disjoint. */
  lemma InOrderKeepsDisjoint(h: seq<Key>, k: Key, from: string -> int)
    requires IntervalsDisjoint(h, from) && InOrder(h, k, from)
    ensures IntervalsDisjoint(h + [k], from)
  {
    var h' := h + [k];
    forall f, g | Known(h', f) && Known(h', g) && f != g
      ensures LatestOf(h', f) < from(g) || LatestOf(h', g) < from(f)
    {
      LatestAfter(h, k, f);
      LatestAfter(h, k, g);
      if f != k.fingerprint && g != k.fingerprint {
        assert Latest(h)(f) < from(g) || Latest(h)(g) < from(f);
      } else {
        NewIsDisjoint(h, k, from, if f == k.fingerprint then g else f);
      }
    }
  }

  lemma NewIsDisjoint(h: seq<Key>, k: Key, from: string -> int, g: string)
    requires IntervalsDisjoint(h, from) && InOrder(h, k, from) && Known(h, g) && g != k.fingerprint
    ensures LatestOf(h + [k], k.fingerprint) < from(g) || LatestOf(h, g) < from(k.fingerprint)
  {
    LatestAfter(h, k, k.fingerprint);
    if forall l :: l in h ==> l.orderingTime < from(k.fingerprint) {
      var l :| l in h && l.fingerprint == g && l.orderingTime == LatestOf(h, g);
    } else {
      assert Latest(h)(k.fingerprint) < from(g) || Latest(h)(g) < from(k.fingerprint);
    }
  }

  /** Two histories over the store know the same keys if the second holds, for each key of the first, its Secret's. */
  lemma KnownIn(cfg: Config, store: seq<KeySecret>, h: seq<Key>, h': seq<Key>, f: string)
    requires AllBacked(cfg, store, h) && AllRegistered(cfg, store, h') && Known(h, f)
    ensures Known(h', f)
  {
    var k :| k in h && k.fingerprint == f;
    var ks :| ks in store && Backs(cfg, ks, k);
    var k' :| k' in h' && Backs(cfg, ks, k');
  }

  lemma ReloadRegistersAll(cfg: Config, store: seq<KeySecret>, h: seq<Key>)
    requires StoreOk(cfg, store) && Reloads(cfg, store, h)
    ensures AllRegistered(cfg, store, h)
  {
    ReloadsAll(cfg, store, h);
    forall ks | ks in store && Loads(ks, cfg.prefix) ensures exists k :: k in h && Backs(cfg, ks, k) {
      assert Backs(cfg, ks, LoadedKey(cfg.c, ks, cfg.priority));
    }
  }

  lemma ReloadAgrees(cfg: Config, store: seq<KeySecret>, h: seq<Key>, h': seq<Key>)
    requires StoreOk(cfg, store) && AllBacked(cfg, store, h) && AllRegistered(cfg, store, h) && Reloads(cfg, store, h')
    ensures forall f :: Known(h, f) <==> Known(h', f)
  {
    ReloadsAll(cfg, store, h');
    ReloadRegistersAll(cfg, store, h');
    forall f ensures Known(h, f) <==> Known(h', f) {
      if Known(h, f) {
        KnownIn(cfg, store, h, h', f);
      }
      if Known(h', f) {
        KnownIn(cfg, store, h', h, f);
      }
    }
  }

  /** A key ordered no earlier than its NotBefore is ordered after `from`. */
  lemma OrderedAfterFrom(cfg: Config, store: seq<KeySecret>, from: string -> int, k: Key)
    requires NotBeforeOf(cfg, store, from) && Backed(cfg, store, k) && k.cert.notBefore <= k.orderingTime
    ensures from(k.fingerprint) <= k.orderingTime
  {
    var ks :| ks in store && Backs(cfg, ks, k);
  }

  /** A reloaded key is ordered no later than it was in the registry. */
  lemma OrderedBeforeLatest(cfg: Config, store: seq<KeySecret>, h: seq<Key>, k': Key)
    requires AllRegistered(cfg, store, h) && NotEarly(h)
    requires Backed(cfg, store, k') && k'.orderingTime == k'.cert.notBefore
    ensures k'.orderingTime <= LatestOf(h, k'.fingerprint)
  {
    var ks :| ks in store && Backs(cfg, ks, k');
    var k :| k in h && Backs(cfg, ks, k);
    assert k.fingerprint == k'.fingerprint && k.cert == k'.cert;
  }

  ghost predicate Within(h: seq<Key>, from: string -> int, to: string -> int) {
    forall k :: k in h ==> from(k.fingerprint) <= k.orderingTime <= to(k.fingerprint)
  }

  lemma RunningWithin(cfg: Config, store: seq<KeySecret>, h: seq<Key>, from: string -> int)
    requires AllBacked(cfg, store, h) && NotEarly(h) && NotBeforeOf(cfg, store, from)
    ensures Within(h, from, Latest(h))
  {
    forall k | k in h ensures from(k.fingerprint) <= k.orderingTime {
      OrderedAfterFrom(cfg, store, from, k);
    }
  }

  lemma ReloadedWithin(cfg: Config, store: seq<KeySecret>, h: seq<Key>, h': seq<Key>, from: string -> int)
    requires AllBacked(cfg, store, h') && forall k :: k in h' ==> k.orderingTime == k.cert.notBefore
    requires NotEarly(h) && AllRegistered(cfg, store, h) && NotBeforeOf(cfg, store, from)
    ensures Within(h', from, Latest(h))
  {
    forall k | k in h' ensures from(k.fingerprint) <= k.orderingTime <= LatestOf(h, k.fingerprint) {
      OrderedAfterFrom(cfg, store, from, k);
      OrderedBeforeLatest(cfg, store, h, k);
    }
  }

  lemma DisjointElectSame(h: seq<Key>, h': seq<Key>, from: string -> int, to: string -> int)
    requires h != [] && Disjoint(h, from, to) && forall f :: Known(h, f) <==> Known(h', f)
    requires Within(h, from, to) && Within(h', from, to)
    ensures Elect(h').Some? && Elect(h).Some? && Elect(h').value.fingerprint == Elect(h).value.fingerprint
  {
    assert Known(h, h[0].fingerprint);
    ElectIsFirstMaximum(h);
    ElectIsFirstMaximum(h');
    DisjointIntervalsFixElection(h, h', from, to);
  }

  lemma DisjointReloadElects(cfg: Config, store: seq<KeySecret>, h: seq<Key>, h': seq<Key>, from: string -> int)
    requires StoreOk(cfg, store) && cfg.priority == CERT_NOT_BEFORE && h != [] && Reloads(cfg, store, h')
    requires AllBacked(cfg, store, h) && NotEarly(h) && AllRegistered(cfg, store, h)
    requires NotBeforeOf(cfg, store, from) && IntervalsDisjoint(h, from)
    ensures Elect(h').Some? && Elect(h).Some? && Elect(h').value.fingerprint == Elect(h).value.fingerprint
  {
    ReloadAgrees(cfg, store, h, h');
    ReloadsAll(cfg, store, h');
    RunningWithin(cfg, store, h, from);
    ReloadedWithin(cfg, store, h, h', from);
    DisjointElectSame(h, h', from, Latest(h));
  }

  /** Of a reload, with one NotBefore a pair and no ties. */
  lemma ReloadedTimes(cfg: Config, store: seq<KeySecret>, h': seq<Key>, from: string -> int)
    requires StoreOk(cfg, store) && cfg.priority == CERT_NOT_BEFORE && DistinctNotBefore(cfg, store, from)
    requires Reloads(cfg, store, h')
    ensures forall k :: k in h' ==> k.orderingTime == from(k.fingerprint)
    ensures forall k, l :: k in h' && l in h' && k.orderingTime == l.orderingTime ==> k.fingerprint == l.fingerprint
  {
    ReloadsAll(cfg, store, h');
    forall k | k in h' ensures k.orderingTime == from(k.fingerprint) {
      var a :| a in store && Backs(cfg, a, k);
    }
    forall k, l | k in h' && l in h' && k.orderingTime == l.orderingTime ensures k.fingerprint == l.fingerprint {
      var a :| a in store && Backs(cfg, a, k);
      var b :| b in store && Backs(cfg, b, l);
    }
  }

  lemma ReloadedIsInOrder(cfg: Config, store: seq<KeySecret>, h: seq<Key>, from: string -> int)
    requires StoreOk(cfg, store) && cfg.priority == CERT_NOT_BEFORE && DistinctNotBefore(cfg, store, from)
    requires Reloads(cfg, store, h)
    ensures NotBeforeOf(cfg, store, from) && AllRegistered(cfg, store, h) && IntervalsDisjoint(h, from)
  {
    ReloadRegistersAll(cfg, store, h);
    ReloadedTimes(cfg, store, h, from);
    forall f, g | Known(h, f) && Known(h, g) && f != g
      ensures LatestOf(h, f) < from(g) || LatestOf(h, g) < from(f)
    {
      var k :| k in h && k.fingerprint == f && k.orderingTime == LatestOf(h, f);
      var l :| l in h && l.fingerprint == g && l.orderingTime == LatestOf(h, g);
    }
  }

  lemma ReloadElectsLatest(cfg: Config, store: seq<KeySecret>, h: seq<Key>, h': seq<Key>, from: string -> int)
    requires StoreOk(cfg, store) && cfg.priority == CERT_NOT_BEFORE && DistinctNotBefore(cfg, store, from) && h != []
    requires AllBacked(cfg, store, h) && AllRegistered(cfg, store, h) && Reloads(cfg, store, h')
    ensures Elect(h').Some? && Elect(h).Some?
    ensures Elect(h').value.fingerprint == Elect(h).value.fingerprint <==>
            forall g :: Known(h, g) ==> from(g) <= from(Elect(h).value.fingerprint)
  {
    ReloadAgrees(cfg, store, h, h');
    ReloadedTimes(cfg, store, h', from);
    LatestIsElected(h, h', from);
  }

  lemma LatestIsElected(h: seq<Key>, h': seq<Key>, from: string -> int)
    requires h != [] && forall f :: Known(h, f) <==> Known(h', f)
    requires forall k :: k in h' ==> k.orderingTime == from(k.fingerprint)
    requires forall k, l :: k in h' && l in h' && k.orderingTime == l.orderingTime ==> k.fingerprint == l.fingerprint
    ensures Elect(h').Some? && Elect(h).Some?
    ensures Elect(h').value.fingerprint == Elect(h).value.fingerprint <==>
            forall g :: Known(h, g) ==> from(g) <= from(Elect(h).value.fingerprint)
  {
    assert Known(h, h[0].fingerprint);
    ElectIsFirstMaximum(h);
    ElectIsFirstMaximum(h');
    var e, e' := Elect(h).value, Elect(h').value;
    assert Known(h, e.fingerprint) && Known(h', e'.fingerprint);
    var l :| l in h' && l.fingerprint == e.fingerprint;
    forall g | Known(h, g) ensures from(g) <= from(e'.fingerprint) {
      assert Known(h', g);
      var k :| k in h' && k.fingerprint == g;
    }
  }

  lemma OnlyKeyWins(cfg: Config, b: KeySecret) returns (h: seq<Key>)
    requires Trustworthy(cfg.c, b) && Loads(b, cfg.prefix)
    ensures StoreOk(cfg, [b]) && Reloads(cfg, [b], h) && Elect(h) == Some(LoadedKey(cfg.c, b, cfg.priority))
  {
    h := NewestMayBeElected(cfg.c, [b], cfg.prefix, cfg.priority, b);
  }

  lemma LaterIsNewest(cfg: Config, a: KeySecret, b: KeySecret)
    requires cfg.priority == CERT_NOT_BEFORE && Trustworthy(cfg.c, a) && Trustworthy(cfg.c, b)
    requires Loads(b, cfg.prefix) && a.name != b.name && a.certs[0].notBefore < b.certs[0].notBefore
    ensures StoreOk(cfg, [b, a]) && AllRegistrable(cfg.c, [b, a], cfg.prefix)
    ensures forall ks :: Newest(cfg.c, [b, a], cfg.prefix, cfg.priority, ks) <==> ks == b
  {
    assert b in [b, a];
  }

  /** Of two stored keys every reload elects the one with the later NotBefore. */
  lemma LaterNotBeforeWins(cfg: Config, a: KeySecret, b: KeySecret) returns (h': seq<Key>)
    requires cfg.priority == CERT_NOT_BEFORE && Trustworthy(cfg.c, a) && Trustworthy(cfg.c, b)
    requires Loads(b, cfg.prefix) && a.name != b.name && a.certs[0].notBefore < b.certs[0].notBefore
    ensures Reloads(cfg, [b, a], h')
    ensures forall h :: Reloads(cfg, [b, a], h) ==> Elect(h) == Some(LoadedKey(cfg.c, b, cfg.priority))
  {
    var store := [b, a];
    LaterIsNewest(cfg, a, b);
    h' := NewestMayBeElected(cfg.c, store, cfg.prefix, cfg.priority, b);
    assert b in store;
    forall h | Reloads(cfg, store, h) ensures Elect(h) == Some(LoadedKey(cfg.c, b, cfg.priority)) {
      ReloadIsNotEmpty(cfg, store, h);
      var ks := LoadedElectsNewest(cfg.c, store, cfg.prefix, cfg.priority, h);
      assert Newest(cfg.c, store, cfg.prefix, cfg.priority, ks);
    }
  }
}
