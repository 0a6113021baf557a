/**
 * The reconcile controller: the API server's objects, the informer that trails behind them, the event
 * handlers, the work queue and the worker. `World` is the whole state as a value; the class below is the
 * controller itself, its methods proved against the functions on `World`.
 */
module Controller {
  import opened Base
  import opened Types
  import opened Crypto
  import opened Sealing
  import opened Registry
  import opened Rotation
  import opened Status
  import opened Reconcile
  import opened WorkQueue
  import opened Informer

  /** A deleted Secret on its way to the handler. */
  datatype Deletion = Deletion(key: ObjectKey, secret: Secret)

  /** The key in work, and the cached object the worker looked up for it. */
  datatype Work = Work(key: ObjectKey, snapshot: Option<SealedSecret>)

  /**
   * Everything there is. `gaveUp` and `patched` remember how the last finished attempt at a key went: not done and
   * not to be retried, and at a Secret annotated to be patched.
   */
  datatype World = World(
    sealed: map<ObjectKey, SealedSecret>,
    secrets: map<ObjectKey, Secret>,
    watch: seq<WatchEvent>,
    deletions: seq<Deletion>,
    cache: map<ObjectKey, SealedSecret>,
    notes: seq<Note>,
    queue: Queue,
    inHand: Option<Work>,
    gaveUp: set<ObjectKey>,
    patched: set<ObjectKey>)

  /** An attempt may find any of the key rings: keys are registered while the controller runs. */
  datatype Config = Config(
    c: Primitives, templates: TemplateEngine, rings: iset<KeyRing>, maxRetries: int, oldGCBehavior: bool)

  /** What an attempt to unseal the object may return. */
  ghost predicate Attempts(cfg: Config, ss: SealedSecret, r: Result<Secret, UnsealError>) {
    exists keys :: keys in cfg.rings && Unsealed(cfg.c, cfg.templates, Converted(ss), keys, r)
  }

  function Notify(q: Queue, n: Note): Queue {
    if Matters(n) then Add(q, n.key) else q
  }

  /** Additions and deletions queue the key, and updates do when the spec is another one. */
  lemma NotifyMeans(q: Queue, n: Note)
    ensures Notify(q, n) == if n.Updated? && n.was.spec == n.now.spec then q else Add(q, n.key)
    ensures n.key in Notify(q, n).dirty <==> !n.Updated? || n.was.spec != n.now.spec || n.key in q.dirty
  {
  }

  /** Is a deleted Secret one the controller recreates? */
  predicate Recreates(sealed: map<ObjectKey, SealedSecret>, d: Deletion) {
    d.key in sealed && (IsControlledBy(d.secret, sealed[d.key]) || IsAnnotatedToBeManaged(d.secret))
  }

  // ---- The worker ---------------------------------------------------------------------------

  const FETCH_FAILED := "fetch failed"
  const UNSEAL_FAILED := "unseal failed"
  const DELETE_FAILED := "delete failed"

  /** What unsealing a key does to the stored Secrets. */
  datatype Effect = Effect(secrets: map<ObjectKey, Secret>, deletions: seq<Deletion>, verdict: Verdict)

  function Collect(secrets: map<ObjectKey, Secret>, deletions: seq<Deletion>, k: ObjectKey, a: Answers): Effect {
    if k !in secrets then Effect(secrets, deletions, Done)
    else if a.deleteFails then Effect(secrets, deletions, Failed(DELETE_FAILED))
    else Effect(secrets - {k}, deletions + [Deletion(k, secrets[k])], Done)
  }

  function Store(secrets: map<ObjectKey, Secret>, k: ObjectKey, s: Option<Secret>): map<ObjectKey, Secret> {
    match s
    case None => secrets
    case Some(secret) => secrets[k := secret]
  }

  /** Where an unsealed Secret is stored: in the sealed secret's namespace, under the name unsealing gave it. */
  function AddressOf(ss: SealedSecret, n: Secret): ObjectKey {
    ObjectKey(ss.meta.namespace, n.meta.name)
  }

  function UnsealKey(
    oldGCBehavior: bool, secrets: map<ObjectKey, Secret>, deletions: seq<Deletion>, work: Work,
    r: Result<Secret, UnsealError>, a: Answers): Effect
  {
    if a.indexerFails then Effect(secrets, deletions, Failed(FETCH_FAILED))
    else
      match work.snapshot
      case None =>
        if oldGCBehavior then Collect(secrets, deletions, work.key, a) else Effect(secrets, deletions, Done)
      case Some(ss) =>
        if r.Err? then Effect(secrets, deletions, Failed(UNSEAL_FAILED))
        else
          var address := AddressOf(ss, r.value);
          var (stored, verdict) := Reconciled(Lookup(secrets, address), r.value, ss, a);
          Effect(Store(secrets, address, stored), deletions, verdict)
  }

  /** Is this verdict final, rather than retried? */
  predicate Settles(q: Queue, k: ObjectKey, verdict: Verdict, maxRetries: int) {
    verdict.Failed? ==> NumRequeues(q, k) >= maxRetries
  }

  function Dispose(q: Queue, k: ObjectKey, verdict: Verdict, maxRetries: int): Queue {
    Finish(if Settles(q, k, verdict, maxRetries) then Forget(q, k) else AddRateLimited(q, k), k)
  }

  function TakeWork(w: World): World
    requires w.queue.order != []
  {
    var (k, q) := Get(w.queue);
    w.(queue := q, inHand := Some(Work(k, Lookup(w.cache, k))))
  }

  /** `k` joins or leaves the set. */
  function Mark(keys: set<ObjectKey>, k: ObjectKey, member: bool): set<ObjectKey> {
    if member then keys + {k} else keys - {k}
  }

  predicate HoldsPatched(secrets: map<ObjectKey, Secret>, k: ObjectKey) {
    k in secrets && IsAnnotatedToBePatched(secrets[k])
  }

  /** The cached object is written to in place. */
  function Touched(cache: map<ObjectKey, SealedSecret>, k: ObjectKey, cached: Option<SealedSecret>):
    map<ObjectKey, SealedSecret>
  {
    match cached
    case None => cache
    case Some(ss) => cache[k := ss]
  }

  /** The API server takes a new status. */
  function Reported(sealed: map<ObjectKey, SealedSecret>, k: ObjectKey, written: Option<Snapshot>):
    map<ObjectKey, SealedSecret>
  {
    if written.Some? && k in sealed then sealed[k := sealed[k].(status := written.value)] else sealed
  }

  /** And the watch brings it back. */
  function Echo(sealed: map<ObjectKey, SealedSecret>, k: ObjectKey, written: Option<Snapshot>): seq<WatchEvent> {
    if written.Some? && k in sealed then [Put(k, sealed[k].(status := written.value))] else []
  }

  function EndWork(
    maxRetries: int, oldGCBehavior: bool, w: World, r: Result<Secret, UnsealError>, a: Answers,
    cached: Option<SealedSecret>, written: Option<Snapshot>): World
    requires w.inHand.Some?
  {
    var work := w.inHand.value;
    var k := work.key;
    var effect := UnsealKey(oldGCBehavior, w.secrets, w.deletions, work, r, a);
    var final := Settles(w.queue, k, effect.verdict, maxRetries);
    w.(sealed := Reported(w.sealed, k, written),
       secrets := effect.secrets,
       deletions := effect.deletions,
       watch := w.watch + Echo(w.sealed, k, written),
       cache := Touched(w.cache, k, cached),
       queue := Dispose(w.queue, k, effect.verdict, maxRetries),
       inHand := None,
       gaveUp := Mark(w.gaveUp, k, !effect.verdict.Done? && final),
       patched := Mark(w.patched, k, HoldsPatched(w.secrets, k)))
  }

  // ---- Steps --------------------------------------------------------------------------------

  /**
   * `End` carries what the attempt returned, what it made of the cached object, and the status that the API
   * server took, if it was sent one.
   */
  datatype Step =
    | PutSealed(key: ObjectKey, ss: SealedSecret)
    | RemoveSealed(key: ObjectKey)
    | DeleteSecret(key: ObjectKey)
    | ApplyWatch
    | DeliverNote
    | DeliverDeletion(getFails: bool)
    | RetryReady(key: ObjectKey)
    | Begin
    | End(answers: Answers, r: Result<Secret, UnsealError>, cached: Option<SealedSecret>, written: Option<Snapshot>)

  predicate IsExternal(step: Step) {
    step.PutSealed? || step.RemoveSealed? || step.DeleteSecret?
  }

  /** A turn may end this way: only the status and the type information of the object are ever written. */
  ghost predicate CanEnd(
    cfg: Config, w: World, a: Answers, r: Result<Secret, UnsealError>,
    cached: Option<SealedSecret>, written: Option<Snapshot>)
  {
    && w.inHand.Some?
    && var attempted := w.inHand.value.snapshot.Some? && !a.indexerFails;
    && (attempted ==> Attempts(cfg, w.inHand.value.snapshot.value, r))
    && (cached.Some? ==> attempted && BareAt(w.cache, w.inHand.value.key) == Some(Bare(cached.value)))
    && (written.Some? ==> attempted)
  }

  /**
   * Steps the code and its surroundings can take. An object lives under its own namespace and name, and its UID
   * does not change; its status may be anything.
   */
  ghost predicate CanStep(cfg: Config, w: World, step: Step) {
    match step
    case PutSealed(k, ss) => KeyOf(ss) == k && (k in w.sealed ==> ss.meta.uid == w.sealed[k].meta.uid)
    case RemoveSealed(k) => k in w.sealed
    case DeleteSecret(k) => k in w.secrets
    case ApplyWatch => w.watch != []
    case DeliverNote => w.notes != []
    case DeliverDeletion(_) => w.deletions != []
    case RetryReady(k) => k in w.queue.delayed
    case Begin => w.inHand.None? && w.queue.order != []
    case End(a, r, cached, written) => CanEnd(cfg, w, a, r, cached, written)
  }

  ghost function Do(cfg: Config, w: World, step: Step): World
    requires CanStep(cfg, w, step)
  {
    match step
    case PutSealed(k, ss) => w.(sealed := w.sealed[k := ss], watch := w.watch + [Put(k, ss)])
    case RemoveSealed(k) => w.(sealed := w.sealed - {k}, watch := w.watch + [Removed(k)])
    case DeleteSecret(k) => w.(secrets := w.secrets - {k}, deletions := w.deletions + [Deletion(k, w.secrets[k])])
    case ApplyWatch =>
      w.(cache := Apply(w.cache, w.watch[0]), watch := w.watch[1..], notes := w.notes + [NoteOf(w.cache, w.watch[0])])
    case DeliverNote => w.(notes := w.notes[1..], queue := Notify(w.queue, w.notes[0]))
    case DeliverDeletion(getFails) =>
      var d := w.deletions[0];
      w.(deletions := w.deletions[1..],
         queue := if !getFails && Recreates(w.sealed, d) then Add(w.queue, d.key) else w.queue)
    case RetryReady(k) => w.(queue := Ready(w.queue, k))
    case Begin => TakeWork(w)
    case End(a, r, cached, written) => EndWork(cfg.maxRetries, cfg.oldGCBehavior, w, r, a, cached, written)
  }

  // ---- Where runs start ----------------------------------------------------------------------

  ghost predicate OwnKeys(m: map<ObjectKey, SealedSecret>) {
    forall k :: k in m ==> KeyOf(m[k]) == k
  }

  ghost predicate OwnKeysOnWatch(watch: seq<WatchEvent>) {
    forall i :: 0 <= i < |watch| && watch[i].Put? ==> KeyOf(watch[i].ss) == watch[i].key
  }

  /** Every object anywhere in the system is kept under its own namespace and name. */
  ghost predicate Addressed(w: World) {
    && OwnKeys(w.sealed) && OwnKeys(w.cache) && OwnKeysOnWatch(w.watch)
    && (w.inHand.Some? && w.inHand.value.snapshot.Some? ==> KeyOf(w.inHand.value.snapshot.value) == w.inHand.value.key)
  }

  ghost predicate InformerOk(w: World) {
    SameButStatus(Fold(w.cache, w.watch), w.sealed) && Clean(w.cache, w.watch)
  }

  /** Nothing is cached yet; the informer's first list is already on the watch. */
  ghost predicate Initial(w: World) {
    && w.cache == map[] && w.notes == [] && w.deletions == []
    && w.queue == EMPTY_QUEUE && w.inHand.None? && w.gaveUp == {} && w.patched == {}
    && InformerOk(w) && Addressed(w)
  }

  lemma ListOne(
    sealed: map<ObjectKey, SealedSecret>, remaining: set<ObjectKey>, watch: seq<WatchEvent>, k: ObjectKey)
    requires Fold(map[], watch) == sealed - remaining && Clean(map[], watch) && k in remaining && k in sealed
    ensures Fold(map[], watch + [Put(k, sealed[k])]) == sealed - (remaining - {k})
    ensures Clean(map[], watch + [Put(k, sealed[k])])
  {
    OneMoreEvent(map[], watch, Put(k, sealed[k]));
    VisitOne(map[], sealed, remaining, k);
  }

  // ---- What a turn does, from its parts --------------------------------------------------------

  /**
   * Nothing is done when the look-up fails; an absent object is fine unless the old garbage collection has a Secret to
   * delete; an object that does not unseal fails; and one that does is reconciled at its address.
   */
  lemma TurnMeans(
    oldGCBehavior: bool, secrets: map<ObjectKey, Secret>, deletions: seq<Deletion>, work: Work,
    r: Result<Secret, UnsealError>, a: Answers)
    ensures var e := UnsealKey(oldGCBehavior, secrets, deletions, work, r, a);
      var nothing := e.secrets == secrets && e.deletions == deletions;
      if a.indexerFails then
        nothing && e.verdict.Failed?
      else if work.snapshot.None? then
        if !oldGCBehavior || work.key !in secrets then nothing && e.verdict.Done?
        else if a.deleteFails then nothing && e.verdict.Failed?
        else
          && e.verdict.Done? && work.key !in e.secrets
          && e.deletions == deletions + [Deletion(work.key, secrets[work.key])]
          && forall k :: k != work.key ==> Lookup(e.secrets, k) == Lookup(secrets, k)
      else if r.Err? then
        nothing && e.verdict.Failed?
      else
        var ss, n := work.snapshot.value, r.value;
        var address := ObjectKey(ss.meta.namespace, n.meta.name);
        && (Lookup(e.secrets, address), e.verdict) == Reconciled(Lookup(secrets, address), n, ss, a)
        && e.deletions == deletions && forall k :: k != address ==> Lookup(e.secrets, k) == Lookup(secrets, k)
  {
  }

  /** Only a failure is retried, and only below the limit; whatever else happened, the retries are forgotten. */
  lemma DisposeMeans(q: Queue, k: ObjectKey, verdict: Verdict, maxRetries: int)
    ensures var q' := Dispose(q, k, verdict, maxRetries);
      && q'.processing == q.processing - {k} && q'.dirty == q.dirty
      && q'.order == (if k in q.dirty && k in q.processing then q.order + [k] else q.order)
      && (forall x :: x != k ==> q'.requeues[x] == q.requeues[x])
      && (if verdict.Failed? && q.requeues[k] < maxRetries
          then q'.delayed == q.delayed + {k} && q'.requeues[k] == q.requeues[k] + 1
          else q'.delayed == q.delayed && q'.requeues[k] == 0)
  {
  }

  // ---- What a turn reports -------------------------------------------------------------------

  function SyncedStatus(verdict: Verdict): string {
    if verdict.Done? then "True" else "False"
  }

  /** The status says that the Secret is synced, or why it is not. */
  ghost predicate Tells(after: Snapshot, verdict: Verdict, now: int, generation: int) {
    && after.observedGeneration == generation
    && exists i: nat :: FirstSynced(after.conditions, i) && TellsVerdict(after.conditions[i], verdict, now)
  }

  ghost predicate TellsVerdict(c: Condition, verdict: Verdict, now: int) {
    && c.status == SyncedStatus(verdict) && c.lastUpdateTime == now
    && match verdict
       case Done => c.message == ""
       case ImmutableTarget => c.message == IMMUTABLE_FIELD
       case Failed(message) => c.message == message != ""
  }

  /** The status in hand says otherwise, or nothing. */
  ghost predicate SaysOtherwise(before: Snapshot, verdict: Verdict) {
    forall i: nat :: FirstSynced(before.conditions, i) ==> before.conditions[i].status != SyncedStatus(verdict)
  }

  /**
   * The deferred status update of a turn: with the flag off nothing; with it on the object in hand tells how the
   * turn went, and the API is told, unless that fails, exactly when it was told otherwise or of another generation.
   */
  ghost predicate ReportsTurn(
    updateStatus: bool, ss: SealedSecret, verdict: Verdict, now: int, fails: bool,
    cached: Option<SealedSecret>, written: Option<Snapshot>)
  {
    var generation := ss.meta.generation;
    if updateStatus then
      && (written.Some? <==>
            !fails && (SaysOtherwise(ss.status, verdict) || ss.status.observedGeneration != generation))
      && (written.Some? ==> Tells(written.value, verdict, now, generation))
      && (cached.Some? ==> Tells(cached.value.status, verdict, now, generation))
    else
      written.None? && (cached.Some? ==> cached.value.status == ss.status)
  }

  const IMMUTABLE_FIELD := "field is immutable when `immutable` is set"

  function ErrorOf(verdict: Verdict): Option<string> {
    match verdict
    case Done => None
    case ImmutableTarget => Some(IMMUTABLE_FIELD)
    case Failed(message) => Some(message)
  }

  lemma AfterTells(before: Snapshot, verdict: Verdict, now: int, generation: int)
    requires verdict.Failed? ==> verdict.message != ""
    ensures var e := Outcome(ErrorOf(verdict), now, generation);
      && Tells(After(before, e), verdict, now, generation)
      && (NeedsWrite(before, e) <==> SaysOtherwise(before, verdict) || before.observedGeneration != generation)
  {
    var e := Outcome(ErrorOf(verdict), now, generation);
    var i := AfterMeans(before, e);
    assert TellsVerdict(After(before, e).conditions[i], verdict, now);
    assert forall j: nat :: FirstSynced(before.conditions, j) ==> j == i;
    assert i < |before.conditions| ==> FirstSynced(before.conditions, i);
  }

  /** Every failure has a name. */
  lemma FailuresAreNamed(stored: Option<Secret>, n: Secret, ss: SealedSecret, a: Answers)
    ensures Reconciled(stored, n, ss, a).1.Failed? ==> Reconciled(stored, n, ss, a).1.message != ""
  {
  }

  // ---- The controller -----------------------------------------------------------------------

  class Controller {
    const c: Primitives
    const templates: TemplateEngine
    const registry: KeyRegistry
    const maxRetries: int
    const oldGCBehavior: bool
    const updateStatus: bool

    var sealed: map<ObjectKey, SealedSecret>
    var secrets: map<ObjectKey, Secret>
    var watch: seq<WatchEvent>
    var deletions: seq<Deletion>
    var cache: map<ObjectKey, SealedSecret>
    var notes: seq<Note>
    var queue: Queue
    var inHand: Option<Work>
    ghost var gaveUp: set<ObjectKey>
    ghost var patched: set<ObjectKey>

    /** The informer's first list is on its way, in an arbitrary order. */
    constructor (
      c: Primitives, templates: TemplateEngine, registry: KeyRegistry, maxRetries: int, oldGCBehavior: bool,
      updateStatus: bool, sealed: map<ObjectKey, SealedSecret>, secrets: map<ObjectKey, Secret>)
      requires OwnKeys(sealed)
      ensures Initial(State()) && this.sealed == sealed && this.secrets == secrets
      ensures this.c == c && this.templates == templates && this.registry == registry
      ensures this.maxRetries == maxRetries && this.oldGCBehavior == oldGCBehavior && this.updateStatus == updateStatus
    {
      this.c, this.templates, this.registry := c, templates, registry;
      this.maxRetries, this.oldGCBehavior, this.updateStatus := maxRetries, oldGCBehavior, updateStatus;
      this.sealed, this.secrets, watch, deletions := sealed, secrets, [], [];
      cache, notes, queue, inHand := map[], [], EMPTY_QUEUE, None;
      gaveUp, patched := {}, {};
      new;
      watch := FirstList(sealed);
    }

    static method FirstList(sealed: map<ObjectKey, SealedSecret>) returns (list: seq<WatchEvent>)
      ensures Fold(map[], list) == sealed && Clean(map[], list)
      ensures forall e :: e in list ==> e.Put? && e.key in sealed && e.ss == sealed[e.key]
    {
      list := [];
      var remaining := sealed.Keys;
      assert sealed - remaining == map[];
      while remaining != {}
        invariant remaining <= sealed.Keys
        invariant Fold(map[], list) == sealed - remaining && Clean(map[], list)
        invariant forall e :: e in list ==> e.Put? && e.key in sealed && e.ss == sealed[e.key]
        decreases |remaining|
      {
        var k :| k in remaining;
        ListOne(sealed, remaining, list, k);
        list := list + [Put(k, sealed[k])];
        remaining := remaining - {k};
      }
      assert sealed - remaining == sealed;
    }

    ghost function State(): World
      reads this
    {
      World(sealed, secrets, watch, deletions, cache, notes, queue, inHand, gaveUp, patched)
    }

    /** The run the object is on: every attempt finds the registry as it is. */
    ghost function Settings(): Config
      reads registry
    {
      Config(c, templates, iset{Ring(registry.keys)}, maxRetries, oldGCBehavior)
    }

    /** Hands the oldest note to the handler it is for. */
    method DeliverNextNote()
      requires notes != []
      modifies this`notes, this`queue
      ensures State() == old(State()).(notes := old(notes)[1..], queue := Notify(old(queue), old(notes)[0]))
    {
      match notes[0] {
        case Added(key) =>
          queue := Add(queue, key);
        case Updated(key, was, now) =>
          if SealedSecretChanged(was, now) {
            queue := Add(queue, key);
          }
        case Deleted(key) =>
          queue := Add(queue, key);
      }
      notes := notes[1..];
    }

    /** The handler for deleted Secrets asks the API, not the cache, for the sealed secret. */
    method DeliverNextDeletion(getFails: bool)
      requires deletions != []
      modifies this`deletions, this`queue
      ensures State() == old(State()).(
                deletions := old(deletions)[1..],
                queue := if !getFails && Recreates(sealed, old(deletions)[0])
                         then Add(old(queue), old(deletions)[0].key)
                         else old(queue))
    {
      var d := deletions[0];
      deletions := deletions[1..];
      if getFails {
        return;
      }
      if d.key !in sealed {
        return;
      }
      var ssecret := sealed[d.key];
      if !IsControlledBy(d.secret, ssecret) && !IsAnnotatedToBeManaged(d.secret) {
        return;
      }
      queue := Add(queue, d.key);
    }

    /**
     * The deferred status update. It writes to the object in hand, which is the cached one unless the informer has
     * replaced that, and sends the status when it must; the watch will bring it back.
     */
    method UpdateSealedSecretStatus(
      k: ObjectKey, ss: SealedSecret, inCache: bool, error: Option<string>, now: int, fails: bool)
      returns (after: Snapshot, sent: bool)
      modifies this`sealed, this`cache, this`watch
      ensures var e := Outcome(error, now, ss.meta.generation);
        && after == (if updateStatus then After(ss.status, e) else ss.status)
        && sent == (updateStatus && NeedsWrite(ss.status, e) && !fails)
      ensures cache == if inCache then old(cache)[k := ss.(status := after)] else old(cache)
      ensures sealed == Reported(old(sealed), k, if sent then Some(after) else None)
      ensures watch == old(watch) + Echo(old(sealed), k, if sent then Some(after) else None)
      ensures if sent && k in old(sealed)
              then
                && sealed == old(sealed)[k := old(sealed)[k].(status := after)]
                && watch == old(watch) + [Put(k, sealed[k])]
              else sealed == old(sealed) && watch == old(watch)
    {
      var status := new SealedSecretStatus(ss.status);
      sent := false;
      if updateStatus {
        var needed := status.Update(Outcome(error, now, ss.meta.generation));
        sent := needed && !fails;
      }
      after := status.Value();
      if inCache {
        cache := cache[k := ss.(status := after)];
      }
      if sent && k in sealed {
        sealed := sealed[k := sealed[k].(status := after)];
        watch := watch + [Put(k, sealed[k])];
      }
    }

    /** Creates, adopts, overwrites or patches the stored Secret of an unsealed object. */
    method ApplySecret(ss: SealedSecret, newSecret: Secret, a: Answers) returns (verdict: Verdict)
      modifies this`secrets
      ensures var address := AddressOf(ss, newSecret);
        var (stored, v) := Reconciled(Lookup(old(secrets), address), newSecret, ss, a);
        secrets == Store(old(secrets), address, stored) && verdict == v
    {
      var address := ObjectKey(ss.meta.namespace, newSecret.meta.name);
      if a.getFails {
        return Failed(GET_FAILED);
      }
      if address !in secrets {
        if a.createFails {
          return Failed(CREATE_FAILED);
        }
        secrets := secrets[address := newSecret];
      }
      var origSecret := secrets[address];
      if !IsControlledBy(origSecret, ss) && !IsAnnotatedToBeManaged(origSecret) && !IsAnnotatedToBePatched(origSecret) {
        return Failed(UNMANAGED);
      }
      var secret := MakeTarget(origSecret, newSecret);
      if origSecret != secret {
        if a.updateFails {
          return Failed(UPDATE_FAILED);
        }
        if RejectedAsImmutable(origSecret, secret) {
          return ImmutableTarget;
        }
        secrets := secrets[address := secret];
      }
      return Done;
    }

    /** `r` may be what the attempt at the object in work returned. */
    ghost predicate Attempted(work: Work, a: Answers, r: Result<Secret, UnsealError>)
      reads registry
    {
      work.snapshot.Some? && !a.indexerFails ==> Attempts(Settings(), work.snapshot.value, r)
    }

    /** What a turn may write of the sealed secret itself. */
    static ghost predicate WritesStatusOnly(
      cache: map<ObjectKey, SealedSecret>, work: Work, a: Answers,
      cached: Option<SealedSecret>, written: Option<Snapshot>)
    {
      var attempted := work.snapshot.Some? && !a.indexerFails;
      && (cached.Some? ==> attempted && BareAt(cache, work.key) == Some(Bare(cached.value)))
      && (written.Some? ==> attempted)
    }

    /** With the object fetched: the attempt, and what it makes of the stored Secret. */
    method AttemptAndApply(key: ObjectKey, obj: SealedSecret, a: Answers)
      returns (verdict: Verdict, ghost r: Result<Secret, UnsealError>)
      requires registry.Valid()
      modifies this`secrets
      ensures Attempts(Settings(), obj, r)
      ensures var effect := UnsealKey(oldGCBehavior, old(secrets), deletions, Work(key, Some(obj)), r, a);
        !a.indexerFails ==> secrets == effect.secrets && deletions == effect.deletions && verdict == effect.verdict
      ensures verdict.Failed? ==> verdict.message != ""
    {
      var newSecret := AttemptUnseal(c, templates, Converted(obj), registry);
      r := newSecret;
      if newSecret.Err? {
        verdict := Failed(UNSEAL_FAILED);
      } else {
        FailuresAreNamed(Lookup(secrets, AddressOf(obj, newSecret.value)), newSecret.value, obj, a);
        verdict := ApplySecret(obj, newSecret.value, a);
      }
    }

    /** The same, and the deferred status. */
    method UnsealObject(key: ObjectKey, obj: SealedSecret, a: Answers, now: int)
      returns (verdict: Verdict, ghost r: Result<Secret, UnsealError>,
               ghost cached: Option<SealedSecret>, ghost written: Option<Snapshot>)
      requires registry.Valid()
      modifies this`secrets, this`sealed, this`watch, this`cache
      ensures Attempts(Settings(), obj, r)
      ensures var effect := UnsealKey(oldGCBehavior, old(secrets), deletions, Work(key, Some(obj)), r, a);
        !a.indexerFails ==> secrets == effect.secrets && deletions == effect.deletions && verdict == effect.verdict
      ensures cached.Some? <==> Lookup(old(cache), key) == Some(obj)
      ensures cached.Some? ==> Bare(cached.value) == Bare(obj)
      ensures ReportsTurn(updateStatus, obj, verdict, now, a.statusFails, cached, written)
      ensures cache == Touched(old(cache), key, cached)
      ensures sealed == Reported(old(sealed), key, written) && watch == old(watch) + Echo(old(sealed), key, written)
    {
      var ssecret := Converted(obj);
      var inCache := key in cache && cache[key] == obj;
      verdict, r := AttemptAndApply(key, obj, a);
      AfterTells(obj.status, verdict, now, obj.meta.generation);
      var after, sent := UpdateSealedSecretStatus(key, ssecret, inCache, ErrorOf(verdict), now, a.statusFails);
      cached := if inCache then Some(ssecret.(status := after)) else None;
      written := if sent then Some(after) else None;
    }

    method UnsealWork(work: Work, a: Answers, now: int)
      returns (verdict: Verdict, ghost r: Result<Secret, UnsealError>,
               ghost cached: Option<SealedSecret>, ghost written: Option<Snapshot>)
      requires registry.Valid() && inHand == Some(work)
      modifies this`secrets, this`deletions, this`sealed, this`watch, this`cache, this`patched
      ensures Attempted(work, a, r) && WritesStatusOnly(old(cache), work, a, cached, written)
      ensures work.snapshot.Some? && !a.indexerFails ==>
                && ReportsTurn(updateStatus, work.snapshot.value, verdict, now, a.statusFails, cached, written)
                && (cached.Some? <==> Lookup(old(cache), work.key) == work.snapshot)
      ensures var effect := UnsealKey(oldGCBehavior, old(secrets), old(deletions), work, r, a);
        secrets == effect.secrets && deletions == effect.deletions && verdict == effect.verdict
      ensures patched == Mark(old(patched), work.key, HoldsPatched(old(secrets), work.key))
      ensures cache == Touched(old(cache), work.key, cached)
      ensures sealed == Reported(old(sealed), work.key, written)
      ensures watch == old(watch) + Echo(old(sealed), work.key, written)
    {
      r, cached, written := Err(DeprecatedData), None, None;
      patched := Mark(patched, work.key, HoldsPatched(secrets, work.key));
      if a.indexerFails {
        return Failed(FETCH_FAILED), r, cached, written;
      }
      if work.snapshot.None? {
        if oldGCBehavior && work.key in secrets {
          if a.deleteFails {
            return Failed(DELETE_FAILED), r, cached, written;
          }
          deletions := deletions + [Deletion(work.key, secrets[work.key])];
          secrets := secrets - {work.key};
        }
        return Done, r, cached, written;
      }
      verdict, r, cached, written := UnsealObject(work.key, work.snapshot.value, a, now);
    }

    /** Retry, forget or give up, then release the key. */
    method Conclude(key: ObjectKey, verdict: Verdict)
      modifies this`queue, this`inHand, this`gaveUp
      ensures queue == Dispose(old(queue), key, verdict, maxRetries) && inHand.None?
      ensures gaveUp == Mark(old(gaveUp), key, !verdict.Done? && Settles(old(queue), key, verdict, maxRetries))
    {
      gaveUp := gaveUp - {key};
      match verdict {
        case Done =>
          queue := Forget(queue, key);
        case ImmutableTarget =>
          queue := Forget(queue, key);
          gaveUp := gaveUp + {key};
        case Failed(_) =>
          if NumRequeues(queue, key) < maxRetries {
            queue := AddRateLimited(queue, key);
          } else {
            queue := Forget(queue, key);
            gaveUp := gaveUp + {key};
          }
      }
      queue := Finish(queue, key);
      inHand := None;
    }

    /** The first half of a turn: takes the next key and looks it up. */
    method TakeNextItem() returns (work: Work)
      requires inHand.None? && queue.order != []
      modifies this`queue, this`inHand
      ensures State() == TakeWork(old(State())) && inHand == Some(work)
    {
      var (key, q) := Get(queue);
      queue := q;
      work := Work(key, Lookup(cache, key));
      inHand := Some(work);
    }

    /** The second half: unseals it and settles with the queue. */
    method FinishItem(work: Work, a: Answers, now: int)
      returns (ghost r: Result<Secret, UnsealError>,
               ghost cached: Option<SealedSecret>, ghost written: Option<Snapshot>)
      requires registry.Valid() && inHand == Some(work)
      modifies this
      ensures State() == EndWork(maxRetries, oldGCBehavior, old(State()), r, a, cached, written)
      ensures Attempted(work, a, r) && WritesStatusOnly(old(cache), work, a, cached, written)
      ensures work.snapshot.Some? && !a.indexerFails ==>
                var verdict := UnsealKey(oldGCBehavior, old(secrets), old(deletions), work, r, a).verdict;
                && ReportsTurn(updateStatus, work.snapshot.value, verdict, now, a.statusFails, cached, written)
                && (cached.Some? <==> Lookup(old(cache), work.key) == work.snapshot)
    {
      var verdict;
      verdict, r, cached, written := UnsealWork(work, a, now);
      Conclude(work.key, verdict);
    }

    /** One turn of the worker is two steps of the run: `Begin`, and the `End` with what it found and wrote. */
    method ProcessNextItem(a: Answers, now: int) returns (ghost end: Step)
      requires registry.Valid() && inHand.None? && queue.order != []
      modifies this
      ensures end.End? && end.answers == a
      ensures CanStep(Settings(), old(State()), Begin)
      ensures CanStep(Settings(), Do(Settings(), old(State()), Begin), end)
      ensures State() == Do(Settings(), Do(Settings(), old(State()), Begin), end)
      ensures var found := Lookup(old(cache), old(queue).order[0]);
        found.Some? && !a.indexerFails ==>
          var work := Work(old(queue).order[0], found);
          var verdict := UnsealKey(oldGCBehavior, old(secrets), old(deletions), work, end.r, a).verdict;
          end.cached.Some?
          && ReportsTurn(updateStatus, found.value, verdict, now, a.statusFails, end.cached, end.written)
    {
      var work := TakeNextItem();
      ghost var r, cached, written;
      r, cached, written := FinishItem(work, a, now);
      end := End(a, r, cached, written);
    }
  }
}
