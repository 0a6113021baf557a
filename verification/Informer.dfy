/** The informer of sealed secrets: its cache trails behind the API server, and a write of the status is no news. */
module Informer {
  import opened Base
  import opened Types
  import opened WorkQueue

  const API_VERSION := "bitnami.com/v1alpha1"
  const KIND := "SealedSecret"

  /** Objects from the API may come without type information; it is filled in. */
  function Converted(ss: SealedSecret): SealedSecret {
    if ss.apiVersion == "" || ss.kind == "" then ss.(apiVersion := API_VERSION, kind := KIND) else ss
  }

  /** What unsealing reads of an object: everything but its status. */
  function Bare(ss: SealedSecret): SealedSecret {
    Converted(ss).(status := NO_STATUS)
  }

  function BareAt(m: map<ObjectKey, SealedSecret>, k: ObjectKey): Option<SealedSecret> {
    if k in m then Some(Bare(m[k])) else None
  }

  /** The key the cluster and the informer keep an object under. */
  function KeyOf(ss: SealedSecret): ObjectKey {
    ObjectKey(ss.meta.namespace, ss.meta.name)
  }

  /** The same objects, up to their status. */
  ghost predicate SameButStatus(m: map<ObjectKey, SealedSecret>, m': map<ObjectKey, SealedSecret>) {
    forall k :: BareAt(m, k) == BareAt(m', k)
  }

  /** A change of a sealed secret on its way from the API server to the informer. */
  datatype WatchEvent = Put(key: ObjectKey, ss: SealedSecret) | Removed(key: ObjectKey)

  /** A change the informer has applied to its cache and not yet told the handlers. */
  datatype Note =
    | Added(key: ObjectKey)
    | Updated(key: ObjectKey, was: SealedSecret, now: SealedSecret)
    | Deleted(key: ObjectKey)

  predicate SealedSecretChanged(was: SealedSecret, now: SealedSecret) {
    Converted(was).spec != Converted(now).spec
  }

  function Apply(m: map<ObjectKey, SealedSecret>, e: WatchEvent): map<ObjectKey, SealedSecret> {
    match e
    case Put(k, ss) => m[k := ss]
    case Removed(k) => m - {k}
  }

  function NoteOf(cache: map<ObjectKey, SealedSecret>, e: WatchEvent): Note {
    match e
    case Put(k, ss) => if k in cache then Updated(k, cache[k], ss) else Added(k)
    case Removed(k) => Deleted(k)
  }

  /** Does a handler queue the key for this note? An update with an equal spec is suppressed. */
  predicate Matters(n: Note) {
    n.Updated? ==> SealedSecretChanged(n.was, n.now)
  }

  /** Objects always have type information after conversion, and lose nothing that has it. */
  lemma ConvertedMeans(ss: SealedSecret)
    ensures var r := Converted(ss);
      && r.meta == ss.meta && r.spec == ss.spec && r.status == ss.status
      && (if ss.apiVersion != "" && ss.kind != "" then r.apiVersion == ss.apiVersion && r.kind == ss.kind
          else r.apiVersion == "bitnami.com/v1alpha1" && r.kind == "SealedSecret")
  {
  }

  /** An event brings a note that matters exactly when the object is new, gone, or has another spec. */
  lemma NewsMeans(cache: map<ObjectKey, SealedSecret>, e: WatchEvent)
    ensures NoteOf(cache, e).key == e.key
    ensures Matters(NoteOf(cache, e)) <==>
              e.Removed? || e.key !in cache || cache[e.key].spec != e.ss.spec
    ensures forall k :: Lookup(Apply(cache, e), k) ==
              if k != e.key then Lookup(cache, k) else if e.Put? then Some(e.ss) else None
  {
  }

  // ---- Catching up --------------------------------------------------------------------------

  /** The cache once all of `watch` has been applied. */
  function Fold(m: map<ObjectKey, SealedSecret>, watch: seq<WatchEvent>): map<ObjectKey, SealedSecret>
    decreases |watch|
  {
    if watch == [] then m else Fold(Apply(m, watch[0]), watch[1..])
  }

  /** An update with the same spec brings the same object up to its status. */
  predicate CleanAt(m: map<ObjectKey, SealedSecret>, e: WatchEvent) {
    e.Put? && e.key in m && m[e.key].spec == e.ss.spec ==> Bare(m[e.key]) == Bare(e.ss)
  }

  predicate Clean(m: map<ObjectKey, SealedSecret>, watch: seq<WatchEvent>)
    decreases |watch|
  {
    watch == [] || (CleanAt(m, watch[0]) && Clean(Apply(m, watch[0]), watch[1..]))
  }

  /** Some event on its way will make a handler queue `k`. */
  predicate WillNotify(m: map<ObjectKey, SealedSecret>, watch: seq<WatchEvent>, k: ObjectKey)
    decreases |watch|
  {
    && watch != []
    && ((watch[0].key == k && Matters(NoteOf(m, watch[0]))) || WillNotify(Apply(m, watch[0]), watch[1..], k))
  }

  lemma {:induction false} OneMoreEvent(m: map<ObjectKey, SealedSecret>, watch: seq<WatchEvent>, e: WatchEvent)
    ensures Fold(m, watch + [e]) == Apply(Fold(m, watch), e)
    ensures Clean(m, watch + [e]) <==> Clean(m, watch) && CleanAt(Fold(m, watch), e)
    ensures forall k :: WillNotify(m, watch + [e], k) <==>
              WillNotify(m, watch, k) || (e.key == k && Matters(NoteOf(Fold(m, watch), e)))
    decreases |watch|
  {
    if watch == [] {
      assert (watch + [e])[1..] == [];
    } else {
      assert (watch + [e])[1..] == watch[1..] + [e];
      OneMoreEvent(Apply(m, watch[0]), watch[1..], e);
    }
  }

  /** If no event matters to `k`, the cache already has it as the API server does, up to its status. */
  lemma {:induction false} UnnotifiedIsCurrent(m: map<ObjectKey, SealedSecret>, watch: seq<WatchEvent>, k: ObjectKey)
    requires Clean(m, watch) && !WillNotify(m, watch, k)
    ensures BareAt(Fold(m, watch), k) == BareAt(m, k)
    decreases |watch|
  {
    if watch != [] {
      UnnotifiedIsCurrent(Apply(m, watch[0]), watch[1..], k);
    }
  }

  lemma ApplyIgnoresStatus(m: map<ObjectKey, SealedSecret>, m': map<ObjectKey, SealedSecret>, e: WatchEvent)
    requires SameButStatus(m, m')
    ensures SameButStatus(Apply(m, e), Apply(m', e))
    ensures Matters(NoteOf(m, e)) <==> Matters(NoteOf(m', e))
    ensures CleanAt(m, e) <==> CleanAt(m', e)
  {
    forall k ensures BareAt(Apply(m, e), k) == BareAt(Apply(m', e), k) {
      assert BareAt(m, k) == BareAt(m', k);
    }
    assert BareAt(m, e.key) == BareAt(m', e.key);
  }

  /** The status of what is cached is of no consequence. */
  lemma {:induction false} FoldIgnoresStatus(
    m: map<ObjectKey, SealedSecret>, m': map<ObjectKey, SealedSecret>, watch: seq<WatchEvent>)
    requires SameButStatus(m, m')
    ensures SameButStatus(Fold(m, watch), Fold(m', watch))
    ensures Clean(m, watch) <==> Clean(m', watch)
    ensures forall k :: WillNotify(m, watch, k) <==> WillNotify(m', watch, k)
    decreases |watch|
  {
    if watch != [] {
      ApplyIgnoresStatus(m, m', watch[0]);
      FoldIgnoresStatus(Apply(m, watch[0]), Apply(m', watch[0]), watch[1..]);
    }
  }
}
