/**
 * Runs of the key life cycle: generation, arrival, registration, crash and restart over a store from
 * which nothing is deleted. What was sealed once stays readable, and a restart keeps the sealing key.
 */
module Durability {
  import opened Base
  import opened Crypto
  import opened Sealing
  import opened SealingLaws
  import opened KeyStore
  import opened Registry
  import opened Startup
  import opened Reload

  /** An item somebody sealed with a certificate the controller had served. */
  datatype Item = Item(cert: Certificate, lbl: string, plaintext: Bytes, text: string)

  /** `running` is the history of the live registry. */
  datatype System = System(
    store: seq<KeySecret>,
    inFlight: Option<KeySecret>,
    running: Option<seq<Key>>,
    served: set<Certificate>,
    items: set<Item>,
    clock: int)

  datatype Step =
    | Tick(dt: nat)
    | WriteGenerated(ks: KeySecret, acknowledged: bool)
    | RegisterGenerated
    | ArriveExternal(ks: KeySecret)
    | InformerAdd(ks: KeySecret)
    | ServeCert
    | SealOne(item: Item)
    | Crash
    | Restart(h: seq<Key>)

  /** What a key generation writes: a key pair with a certificate for it that is valid by now. */
  ghost predicate Generated(c: Primitives, ks: KeySecret, clock: int) {
    exists key, cert, annotations, labels {:trigger IsWritten(ks, key, [cert], KEY_LABEL, annotations, labels)} ::
      && IsWritten(ks, key, [cert], KEY_LABEL, annotations, labels)
      && cert.publicKey == key.publicKey && c.fingerprint(key.publicKey).Some? && cert.notBefore <= clock
  }

  predicate FreshName(store: seq<KeySecret>, name: string) {
    forall ks :: ks in store ==> ks.name != name
  }

  ghost predicate Initial(cfg: Config, s: System) {
    && s.inFlight.None? && s.running.None? && s.served == {} && s.items == {}
    && StoreOk(cfg, s.store)
  }

  ghost predicate CanStep(cfg: Config, s: System, step: Step) {
    match step
    case Tick(_) => true
    case WriteGenerated(ks, _) =>
      && s.running.Some? && s.inFlight.None?
      && Generated(cfg.c, ks, s.clock) && FreshName(s.store, ks.name)
    case RegisterGenerated => s.running.Some? && s.inFlight.Some?
    case ArriveExternal(ks) =>
      FreshName(s.store, ks.name) && (Loads(ks, cfg.prefix) ==> Trustworthy(cfg.c, ks))
    case InformerAdd(ks) => s.running.Some? && ks in s.store && Active(ks) && Registrable(cfg.c, ks)
    case ServeCert => s.running.Some? && s.running.value != []
    case SealOne(item) =>
      item.cert in s.served && SealedItem(cfg.c, item.cert.publicKey, item.lbl, item.plaintext, item.text)
    case Crash => true
    case Restart(h) => s.running.None? && Reloads(cfg, s.store, h)
  }

  /** `k` enters the live registry. */
  function Register(s: System, k: Key): System
    requires s.running.Some?
  {
    s.(running := Some(s.running.value + [k]))
  }

  ghost function Do(cfg: Config, s: System, step: Step): System
    requires CanStep(cfg, s, step)
  {
    match step
    case Tick(dt) => s.(clock := s.clock + dt)
    case WriteGenerated(ks, acknowledged) =>
      s.(store := s.store + [ks], inFlight := if acknowledged then Some(ks) else None)
    case RegisterGenerated =>
      if Registrable(cfg.c, s.inFlight.value)
      then Register(s, KeyAt(cfg.c, s.inFlight.value, s.clock)).(inFlight := None)
      else s.(inFlight := None)
    case ArriveExternal(ks) => s.(store := s.store + [ks])
    case InformerAdd(ks) => Register(s, LoadedKey(cfg.c, ks, cfg.priority))
    case ServeCert =>
      if Elect(s.running.value).Some? then s.(served := s.served + {Elect(s.running.value).value.cert}) else s
    case SealOne(item) => s.(items := s.items + {item})
    case Crash => s.(running := None, inFlight := None)
    case Restart(h) => s.(running := Some(h))
  }

  // ---- The invariant ------------------------------------------------------------------------

  ghost predicate ServedFromStore(cfg: Config, store: seq<KeySecret>, cert: Certificate) {
    exists ks :: ks in store && Loads(ks, cfg.prefix) && Trustworthy(cfg.c, ks) && ks.certs[0] == cert
  }

  ghost predicate Registered(h: seq<Key>, cert: Certificate) {
    exists k :: k in h && k.cert == cert
  }

  ghost predicate InFlightOk(cfg: Config, s: System) {
    s.inFlight.Some? ==>
      && s.running.Some? && s.inFlight.value in s.store && Active(s.inFlight.value)
      && Trustworthy(cfg.c, s.inFlight.value) && s.inFlight.value.certs[0].notBefore <= s.clock
  }

  ghost predicate RunningOk(cfg: Config, s: System) {
    s.running.Some? ==>
      && (forall k :: k in s.running.value ==> Backed(cfg, s.store, k))
      && (forall cert :: cert in s.served ==> Registered(s.running.value, cert))
  }

  ghost predicate ServedOk(cfg: Config, s: System) {
    && (forall cert :: cert in s.served ==> ServedFromStore(cfg, s.store, cert))
    && (forall item :: item in s.items ==>
          item.cert in s.served && SealedItem(cfg.c, item.cert.publicKey, item.lbl, item.plaintext, item.text))
  }

  /** With NotBefore as priority, no key is ordered before its NotBefore. */
  ghost predicate TimesOk(cfg: Config, s: System) {
    s.running.Some? && cfg.priority == CERT_NOT_BEFORE ==> NotEarly(s.running.value)
  }

  ghost predicate Inv(cfg: Config, s: System) {
    StoreOk(cfg, s.store) && InFlightOk(cfg, s) && RunningOk(cfg, s) && ServedOk(cfg, s) && TimesOk(cfg, s)
  }

  /** What was written can be trusted when it is read back. */
  lemma GeneratedIsTrustworthy(c: Primitives, ks: KeySecret, clock: int)
    requires Generated(c, ks, clock)
    ensures Active(ks) && Trustworthy(c, ks) && ks.certs[0].notBefore <= clock
  {
    var key, cert, annotations, labels :|
      && IsWritten(ks, key, [cert], KEY_LABEL, annotations, labels)
      && cert.publicKey == key.publicKey && c.fingerprint(key.publicKey).Some? && cert.notBefore <= clock;
  }

  lemma StoreGrows(cfg: Config, s: System, ks: KeySecret)
    requires Inv(cfg, s) && FreshName(s.store, ks.name) && (Loads(ks, cfg.prefix) ==> Trustworthy(cfg.c, ks))
    ensures Inv(cfg, s.(store := s.store + [ks]))
  {
  }

  lemma RegisterKeepsInv(cfg: Config, s: System, ks: KeySecret, k: Key)
    requires Inv(cfg, s) && s.running.Some? && ks in s.store && Backs(cfg, ks, k)
    requires cfg.priority == CERT_NOT_BEFORE ==> k.cert.notBefore <= k.orderingTime
    ensures Inv(cfg, Register(s, k))
  {
  }

  lemma RestartKeepsInv(cfg: Config, s: System, h: seq<Key>)
    requires Inv(cfg, s) && CanStep(cfg, s, Restart(h))
    ensures Inv(cfg, Do(cfg, s, Restart(h)))
  {
    ReloadsAll(cfg, s.store, h);
    forall cert | cert in s.served ensures Registered(h, cert) {
      var ks :| ks in s.store && Loads(ks, cfg.prefix) && Trustworthy(cfg.c, ks) && ks.certs[0] == cert;
      assert LoadedKey(cfg.c, ks, cfg.priority).cert == cert;
    }
  }

  lemma ServeKeepsInv(cfg: Config, s: System)
    requires Inv(cfg, s) && CanStep(cfg, s, ServeCert)
    ensures Inv(cfg, Do(cfg, s, ServeCert))
  {
    var h := s.running.value;
    ElectIsFirstMaximum(h);
    var e := Elect(h).value;
    var ks :| ks in s.store && Backs(cfg, ks, e);
    assert ks.certs[0] == e.cert;
  }

  lemma StepKeepsInv(cfg: Config, s: System, step: Step)
    requires Inv(cfg, s) && CanStep(cfg, s, step)
    ensures Inv(cfg, Do(cfg, s, step))
  {
    match step
    case WriteGenerated(ks, acknowledged) =>
      GeneratedIsTrustworthy(cfg.c, ks, s.clock);
      StoreGrows(cfg, s, ks);
    case RegisterGenerated =>
      var ks := s.inFlight.value;
      var k := KeyAt(cfg.c, ks, s.clock);
      assert Backs(cfg, ks, k);
      RegisterKeepsInv(cfg, s, ks, k);
    case ArriveExternal(ks) =>
      StoreGrows(cfg, s, ks);
    case InformerAdd(ks) =>
      var k := LoadedKey(cfg.c, ks, cfg.priority);
      assert Backs(cfg, ks, k);
      RegisterKeepsInv(cfg, s, ks, k);
    case ServeCert => ServeKeepsInv(cfg, s);
    case Restart(h) => RestartKeepsInv(cfg, s, h);
    case _ =>
  }

  // ---- Runs ---------------------------------------------------------------------------------

  ghost predicate IsRun(cfg: Config, states: seq<System>, steps: seq<Step>) {
    && |states| == |steps| + 1 && Initial(cfg, states[0])
    && forall i :: 0 <= i < |steps| ==>
         CanStep(cfg, states[i], steps[i]) && states[i + 1] == Do(cfg, states[i], steps[i])
  }

  lemma {:induction false} InvAlways(cfg: Config, states: seq<System>, steps: seq<Step>, i: nat)
    requires IsRun(cfg, states, steps) && i < |states|
    ensures Inv(cfg, states[i])
  {
    if i > 0 {
      InvAlways(cfg, states, steps, i - 1);
      StepKeepsInv(cfg, states[i - 1], steps[i - 1]);
    }
  }

  /** Nothing sealed is forgotten, whatever crashes in between. */
  lemma {:induction false} ItemsStay(cfg: Config, states: seq<System>, steps: seq<Step>, i: nat, j: nat)
    requires IsRun(cfg, states, steps) && i <= j < |states|
    ensures states[i].items <= states[j].items
  {
    if i < j {
      ItemsStay(cfg, states, steps, i, j - 1);
      assert states[j] == Do(cfg, states[j - 1], steps[j - 1]);
    }
  }

  lemma {:induction false} ServedStay(cfg: Config, states: seq<System>, steps: seq<Step>, i: nat, j: nat)
    requires IsRun(cfg, states, steps) && i <= j < |states|
    ensures states[i].served <= states[j].served
  {
    if i < j {
      ServedStay(cfg, states, steps, i, j - 1);
      assert states[j] == Do(cfg, states[j - 1], steps[j - 1]);
    }
  }

  /** A served certificate's private key is on the ring of a running registry. */
  lemma RingHoldsServed(cfg: Config, s: System, cert: Certificate)
    requires Sound(cfg.c) && Inv(cfg, s) && s.running.Some? && cert in s.served
    ensures HoldsKeyFor(Ring(ByFingerprint(s.running.value)), cert.publicKey)
  {
    var h := s.running.value;
    var k :| k in h && k.cert == cert;
    var ks :| ks in s.store && Backs(cfg, ks, k);
    KeysAreKnown(h);
    assert Known(h, k.fingerprint);
    var k' := ByFingerprint(h)[k.fingerprint];
    var ks' :| ks' in s.store && Backs(cfg, ks', k');
    assert cfg.c.fingerprint(ks.privateKey.publicKey) == cfg.c.fingerprint(ks'.privateKey.publicKey);
    assert Ring(ByFingerprint(h))[k.fingerprint].publicKey == cert.publicKey;
  }

  /**
   * Durability: an item sealed at any moment of any run decrypts, in every later running state, to its
   * plaintext and to nothing else, in whatever order the registry's keys are tried.
   */
  lemma SealedItemsStayReadable(
    cfg: Config, states: seq<System>, steps: seq<Step>, i: nat, j: nat, item: Item, o: ItemOutcome)
    requires Sound(cfg.c) && IsRun(cfg, states, steps) && i <= j < |states|
    requires item in states[i].items && states[j].running.Some?
    requires IsOutcome(cfg.c, Ring(ByFingerprint(states[j].running.value)), item.lbl, item.text, o)
    ensures o == Plain(item.plaintext)
  {
    ItemsStay(cfg, states, steps, i, j);
    InvAlways(cfg, states, steps, j);
    RingHoldsServed(cfg, states[j], item.cert);
    SealedItemOutcome(
      cfg.c, item.cert.publicKey, item.lbl, item.plaintext, item.text,
      Ring(ByFingerprint(states[j].running.value)), item.lbl, o);
  }

  // ---- Restart and the sealing key -----------------------------------------------------------

  /** Whatever the sort does with ties, a restart elects the key that seals now. */
  ghost predicate RestartKeeps(cfg: Config, s: System)
    requires s.running.Some? && Elect(s.running.value).Some?
  {
    ReloadsElect(cfg, s.store, Elect(s.running.value).value.fingerprint)
  }

  /**
   * Exactly when a restart is sure to keep the sealing key, for either priority: when every stored key Secret
   * that no loadable one is ahead of, the tied ones among them, holds that key.
   */
  lemma RestartKeepsSealingKeyIff(cfg: Config, s: System)
    requires Inv(cfg, s) && s.running.Some? && Elect(s.running.value).Some?
    ensures RestartKeeps(cfg, s) <==>
              forall ks :: Newest(cfg.c, s.store, cfg.prefix, cfg.priority, ks) ==>
                cfg.c.fingerprint(ks.privateKey.publicKey) == Some(Elect(s.running.value).value.fingerprint)
  {
    LoadableIsStored(cfg, s);
    ReloadsElectIff(cfg, s.store, Elect(s.running.value).value.fingerprint);
  }

  lemma LoadableIsStored(cfg: Config, s: System)
    requires Inv(cfg, s) && s.running.Some? && s.running.value != []
    ensures exists ks :: ks in s.store && Loads(ks, cfg.prefix)
  {
    var k := s.running.value[0];
    assert k in s.running.value;
    var ks :| ks in s.store && Backs(cfg, ks, k);
  }

  /** Registering the keys one after the other is enough: each ordered last before the next one's NotBefore. */
  lemma RestartKeepsSealingKey(cfg: Config, s: System, h': seq<Key>, from: string -> int)
    requires Inv(cfg, s) && cfg.priority == CERT_NOT_BEFORE
    requires s.running.Some? && s.running.value != [] && AllRegistered(cfg, s.store, s.running.value)
    requires NotBeforeOf(cfg, s.store, from) && IntervalsDisjoint(s.running.value, from)
    requires Reloads(cfg, s.store, h')
    ensures Elect(h').Some? && Elect(s.running.value).Some?
    ensures Elect(h').value.fingerprint == Elect(s.running.value).value.fingerprint
  {
    DisjointReloadElects(cfg, s.store, s.running.value, h', from);
  }

  /** A controller that was itself restarted starts out with disjoint intervals, however many keys it loaded. */
  lemma RestartedIsInOrder(cfg: Config, s: System, h: seq<Key>, from: string -> int)
    requires Inv(cfg, s) && cfg.priority == CERT_NOT_BEFORE && CanStep(cfg, s, Restart(h))
    requires DistinctNotBefore(cfg, s.store, from)
    ensures NotBeforeOf(cfg, s.store, from) && AllRegistered(cfg, s.store, h) && IntervalsDisjoint(h, from)
  {
    ReloadedIsInOrder(cfg, s.store, h, from);
  }

  /** A running registry whose keys' intervals are disjoint. */
  ghost predicate RunsDisjoint(s: System, from: string -> int) {
    s.running.Some? && IntervalsDisjoint(s.running.value, from)
  }

  /** No crash, and if a key is registered, in order. */
  ghost predicate KeepsOrder(cfg: Config, s: System, step: Step, from: string -> int) {
    && CanStep(cfg, s, step)
    && match step
       case Crash => false
       case RegisterGenerated =>
         Registrable(cfg.c, s.inFlight.value) ==>
           InOrder(s.running.value, KeyAt(cfg.c, s.inFlight.value, s.clock), from)
       case InformerAdd(ks) => InOrder(s.running.value, LoadedKey(cfg.c, ks, cfg.priority), from)
       case _ => true
  }

  lemma StepKeepsDisjoint(cfg: Config, s: System, step: Step, from: string -> int)
    requires KeepsOrder(cfg, s, step, from) && RunsDisjoint(s, from)
    ensures RunsDisjoint(Do(cfg, s, step), from)
  {
    match step
    case RegisterGenerated =>
      if Registrable(cfg.c, s.inFlight.value) {
        InOrderKeepsDisjoint(s.running.value, KeyAt(cfg.c, s.inFlight.value, s.clock), from);
      }
    case InformerAdd(ks) => InOrderKeepsDisjoint(s.running.value, LoadedKey(cfg.c, ks, cfg.priority), from);
    case _ =>
  }

  /** From moment `i` to `j` the registry runs without a crash and registers in order. */
  ghost predicate OrderlySpell(
    cfg: Config, states: seq<System>, steps: seq<Step>, i: nat, j: nat, from: string -> int)
    requires j <= |steps| <= |states|
  {
    forall m :: i <= m < j ==> KeepsOrder(cfg, states[m], steps[m], from)
  }

  lemma {:induction false} SpellKeepsDisjoint(
    cfg: Config, states: seq<System>, steps: seq<Step>, i: nat, j: nat, from: string -> int)
    requires IsRun(cfg, states, steps) && i <= j < |states| && OrderlySpell(cfg, states, steps, i, j, from)
    requires RunsDisjoint(states[i], from)
    ensures RunsDisjoint(states[j], from)
  {
    if i < j {
      SpellKeepsDisjoint(cfg, states, steps, i, j - 1, from);
      RunStep(cfg, states, steps, j - 1);
      StepKeepsDisjoint(cfg, states[j - 1], steps[j - 1], from);
    }
  }

  lemma RunStep(cfg: Config, states: seq<System>, steps: seq<Step>, i: nat)
    requires IsRun(cfg, states, steps) && i < |steps|
    ensures CanStep(cfg, states[i], steps[i]) && states[i + 1] == Do(cfg, states[i], steps[i])
  {
  }

  lemma {:induction false} StoreStays(cfg: Config, states: seq<System>, steps: seq<Step>, i: nat, j: nat)
    requires IsRun(cfg, states, steps) && i <= j < |states|
    ensures forall ks :: ks in states[i].store ==> ks in states[j].store
  {
    if i < j {
      StoreStays(cfg, states, steps, i, j - 1);
      assert states[j] == Do(cfg, states[j - 1], steps[j - 1]);
    }
  }

  /**
   * Over a whole life between two restarts: if each key is registered in order, its NotBefore after everything
   * ordered so far, and all stored keys are registered at the end, the next restart keeps the sealing key.
   */
  lemma NextRestartKeepsSealingKey(
    cfg: Config, states: seq<System>, steps: seq<Step>, i: nat, j: nat, h': seq<Key>, from: string -> int)
    requires IsRun(cfg, states, steps) && cfg.priority == CERT_NOT_BEFORE && i < j < |states| && steps[i].Restart?
    requires OrderlySpell(cfg, states, steps, i + 1, j, from) && DistinctNotBefore(cfg, states[j].store, from)
    requires states[j].running.Some? && states[j].running.value != []
    requires AllRegistered(cfg, states[j].store, states[j].running.value) && Reloads(cfg, states[j].store, h')
    ensures Elect(h').Some? && Elect(states[j].running.value).Some?
    ensures Elect(h').value.fingerprint == Elect(states[j].running.value).value.fingerprint
  {
    StoreStays(cfg, states, steps, i, j);
    RestartStartsDisjoint(cfg, states, steps, i, from);
    SpellKeepsDisjoint(cfg, states, steps, i + 1, j, from);
    InvAlways(cfg, states, steps, j);
    RestartKeepsSealingKey(cfg, states[j], h', from);
  }

  lemma RestartStartsDisjoint(cfg: Config, states: seq<System>, steps: seq<Step>, i: nat, from: string -> int)
    requires IsRun(cfg, states, steps) && cfg.priority == CERT_NOT_BEFORE && i < |steps| && steps[i].Restart?
    requires DistinctNotBefore(cfg, states[i].store, from)
    ensures RunsDisjoint(states[i + 1], from)
  {
    InvAlways(cfg, states, steps, i);
    RestartedIsInOrder(cfg, states[i], steps[i].h, from);
  }

  /** With one NotBefore a pair and no ties: a restart keeps the sealing key iff no known key's NotBefore is later. */
  lemma RestartKeepsLatestNotBefore(cfg: Config, s: System, h': seq<Key>, from: string -> int)
    requires Inv(cfg, s) && cfg.priority == CERT_NOT_BEFORE && DistinctNotBefore(cfg, s.store, from)
    requires s.running.Some? && s.running.value != [] && AllRegistered(cfg, s.store, s.running.value)
    requires Reloads(cfg, s.store, h')
    ensures Elect(h').Some? && Elect(s.running.value).Some?
    ensures Elect(h').value.fingerprint == Elect(s.running.value).value.fingerprint <==>
            forall g :: Known(s.running.value, g) ==> from(g) <= from(Elect(s.running.value).value.fingerprint)
  {
    ReloadElectsLatest(cfg, s.store, s.running.value, h', from);
  }

  // ---- A restart that changes the sealing key --------------------------------------------------

  lemma ExtendRun(cfg: Config, states: seq<System>, steps: seq<Step>, step: Step)
    requires IsRun(cfg, states, steps) && CanStep(cfg, states[|steps|], step)
    ensures IsRun(cfg, states + [Do(cfg, states[|steps|], step)], steps + [step])
  {
  }

  lemma StepsToRegistered(cfg: Config, a: KeySecret, b: KeySecret, clock: int, now: int, h: seq<Key>)
    returns (states: seq<System>, steps: seq<Step>)
    requires StoreOk(cfg, [b]) && Reloads(cfg, [b], h)
    requires Generated(cfg.c, a, clock) && a.name != b.name && clock <= now
    ensures IsRun(cfg, states, steps) && |steps| == 4 && states[4].store == [b, a]
    ensures steps[3] == RegisterGenerated && states[4].running == Some(h + [KeyAt(cfg.c, a, now)])
  {
    var s0 := System([b], None, None, {}, {}, clock);
    var s1 := Do(cfg, s0, Restart(h));
    var s2 := Do(cfg, s1, WriteGenerated(a, true));
    var s3 := Do(cfg, s2, Tick(now - clock));
    var s4 := Do(cfg, s3, RegisterGenerated);
    states, steps := [s0, s1, s2, s3, s4], [Restart(h), WriteGenerated(a, true), Tick(now - clock), RegisterGenerated];
  }

  /** The generated `a` is registered behind the stored `b` and overtakes it. */
  lemma OvertakingRun(cfg: Config, a: KeySecret, b: KeySecret, clock: int, now: int)
    returns (states: seq<System>, steps: seq<Step>)
    requires cfg.priority == CERT_NOT_BEFORE && Trustworthy(cfg.c, b)
    requires Generated(cfg.c, a, clock) && Loads(b, cfg.prefix) && a.name != b.name
    requires b.certs[0].notBefore < now && clock <= now
    ensures IsRun(cfg, states, steps) && |steps| == 4 && states[4].store == [b, a]
    ensures states[4].running.Some? && Elect(states[4].running.value) == Some(KeyAt(cfg.c, a, now))
  {
    GeneratedIsTrustworthy(cfg.c, a, clock);
    var h := OnlyKeyWins(cfg, b);
    states, steps := StepsToRegistered(cfg, a, b, clock, now, h);
    assert (h + [KeyAt(cfg.c, a, now)])[..|h|] == h;
  }

  /**
   * A stored key with a later NotBefore is overtaken by one generated before and registered after that time,
   * but only until a restart: the generated key seals up to the crash, the other one after every reload.
   */
  lemma OverlapChangesSealingKey(cfg: Config, a: KeySecret, b: KeySecret, clock: int, now: int)
    returns (states: seq<System>, steps: seq<Step>)
    requires cfg.priority == CERT_NOT_BEFORE && Trustworthy(cfg.c, b)
    requires Generated(cfg.c, a, clock) && Loads(b, cfg.prefix) && a.name != b.name
    requires clock <= now && a.certs[0].notBefore < b.certs[0].notBefore < now
    ensures IsRun(cfg, states, steps) && |steps| == 6 && steps[4] == Crash && steps[5].Restart?
    ensures states[4].running.Some? && Elect(states[4].running.value) == Some(KeyAt(cfg.c, a, now))
    ensures states[6].running.Some? && states[6].store == [b, a]
    ensures Elect(states[6].running.value) == Some(LoadedKey(cfg.c, b, cfg.priority))
    ensures forall h :: Reloads(cfg, [b, a], h) ==> Elect(h) == Some(LoadedKey(cfg.c, b, cfg.priority))
  {
    var run, taken := OvertakingRun(cfg, a, b, clock, now);
    var crashed := Do(cfg, run[4], Crash);
    ExtendRun(cfg, run, taken, Crash);
    GeneratedIsTrustworthy(cfg.c, a, clock);
    var h := LaterNotBeforeWins(cfg, a, b);
    ExtendRun(cfg, run + [crashed], taken + [Crash], Restart(h));
    states, steps := run + [crashed] + [Do(cfg, crashed, Restart(h))], taken + [Crash] + [Restart(h)];
  }
}
