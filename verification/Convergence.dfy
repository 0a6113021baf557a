/** Every cached sealed secret is pending, given up, or agrees with its Secret: in every reachable state. */
module Convergence {
  import opened Base
  import opened Types
  import opened Crypto
  import opened Sealing
  import opened SealingLaws
  import opened Reconcile
  import opened WorkQueue
  import opened Controller
  import opened Informer

  // ---- The invariant ------------------------------------------------------------------------

  ghost predicate Noted(notes: seq<Note>, k: ObjectKey) {
    exists n :: n in notes && n.key == k && Matters(n)
  }

  ghost predicate Recreating(w: World, k: ObjectKey) {
    exists d :: d in w.deletions && d.key == k && Recreates(w.sealed, d)
  }

  ghost predicate Queued(q: Queue, k: ObjectKey) {
    k in q.dirty || k in q.processing || k in q.delayed
  }

  /** A queue entry, or an undelivered event that will become one. */
  ghost predicate Pending(w: World, k: ObjectKey) {
    Queued(w.queue, k) || Noted(w.notes, k) || WillNotify(w.cache, w.watch, k) || Recreating(w, k)
  }

  /** `stored` is what a reconcile that unsealed `ss` leaves of what the last attempt found. */
  ghost predicate Synced(cfg: Config, stored: Option<Secret>, patched: bool, ss: SealedSecret) {
    stored.Some? && exists n :: Attempts(cfg, ss, Ok(n)) && Agrees(stored.value, n, patched)
  }

  ghost predicate SyncedAt(cfg: Config, w: World, k: ObjectKey, ss: SealedSecret) {
    Synced(cfg, Lookup(w.secrets, k), k in w.patched, ss)
  }

  ghost predicate AgreeOrPending(cfg: Config, w: World) {
    forall k :: k in w.cache ==> Pending(w, k) || k in w.gaveUp || SyncedAt(cfg, w, k, w.cache[k])
  }

  lemma AttemptsIgnoreStatus(cfg: Config, ss: SealedSecret, ss': SealedSecret, r: Result<Secret, UnsealError>)
    requires Bare(ss) == Bare(ss') && Attempts(cfg, ss, r)
    ensures Attempts(cfg, ss', r)
  {
    var keys :| keys in cfg.rings && Unsealed(cfg.c, cfg.templates, Converted(ss), keys, r);
    UnsealedIgnoresStatus(cfg.c, cfg.templates, Converted(ss), Converted(ss'), keys, r);
  }

  lemma SyncedIgnoresStatus(cfg: Config, stored: Option<Secret>, patched: bool, ss: SealedSecret, ss': SealedSecret)
    requires Bare(ss) == Bare(ss') && Synced(cfg, stored, patched, ss)
    ensures Synced(cfg, stored, patched, ss')
  {
    var n :| Attempts(cfg, ss, Ok(n)) && Agrees(stored.value, n, patched);
    AttemptsIgnoreStatus(cfg, ss, ss', Ok(n));
  }

  ghost predicate QueueOk(w: World) {
    WellFormed(w.queue) && w.queue.processing == (if w.inHand.Some? then {w.inHand.value.key} else {})
  }

  /** The object in work is the cached one up to its status, or its key will be queued again. */
  ghost predicate SnapshotOk(w: World) {
    w.inHand.Some? ==>
      var work := w.inHand.value;
      || BareAt(w.cache, work.key) == (if work.snapshot.Some? then Some(Bare(work.snapshot.value)) else None)
      || work.key in w.queue.dirty || Noted(w.notes, work.key)
  }

  ghost predicate Inv(cfg: Config, w: World) {
    QueueOk(w) && SnapshotOk(w) && InformerOk(w) && AgreeOrPending(cfg, w)
  }

  /**
   * The surroundings the controller is made for: sealed secrets change in their spec (or in nothing but their status),
   * only Secrets it recreates are deleted, and the look-up in the deletion handler is answered.
   */
  ghost predicate Orderly(w: World, step: Step) {
    match step
    case PutSealed(k, ss) => k in w.sealed && w.sealed[k].spec == ss.spec ==> Bare(w.sealed[k]) == Bare(ss)
    case DeleteSecret(k) => k in w.sealed && k in w.secrets ==> Recreates(w.sealed, Deletion(k, w.secrets[k]))
    case DeliverDeletion(getFails) => !getFails
    case _ => true
  }

  // ---- Every step keeps it -------------------------------------------------------------------

  lemma NotedAfter(notes: seq<Note>, n: Note, k: ObjectKey)
    ensures Noted(notes + [n], k) <==> Noted(notes, k) || (n.key == k && Matters(n))
  {
  }

  lemma NotedBefore(notes: seq<Note>, k: ObjectKey)
    requires notes != []
    ensures Noted(notes, k) <==> Noted(notes[1..], k) || (notes[0].key == k && Matters(notes[0]))
  {
  }

  lemma PutKeepsInv(cfg: Config, w: World, k: ObjectKey, ss: SealedSecret)
    requires Inv(cfg, w) && CanStep(cfg, w, PutSealed(k, ss)) && Orderly(w, PutSealed(k, ss))
    ensures Inv(cfg, Do(cfg, w, PutSealed(k, ss)))
  {
    var w' := Do(cfg, w, PutSealed(k, ss));
    OneMoreEvent(w.cache, w.watch, Put(k, ss));
    ApplyIgnoresStatus(Fold(w.cache, w.watch), w.sealed, Put(k, ss));
    forall x | Pending(w, x) ensures Pending(w', x) {
      if Recreating(w, x) {
        var d :| d in w.deletions && d.key == x && Recreates(w.sealed, d);
        assert Recreates(w'.sealed, d);
      }
    }
  }

  lemma RemoveKeepsInv(cfg: Config, w: World, k: ObjectKey)
    requires Inv(cfg, w) && CanStep(cfg, w, RemoveSealed(k))
    ensures Inv(cfg, Do(cfg, w, RemoveSealed(k)))
  {
    var w' := Do(cfg, w, RemoveSealed(k));
    OneMoreEvent(w.cache, w.watch, Removed(k));
    ApplyIgnoresStatus(Fold(w.cache, w.watch), w.sealed, Removed(k));
    forall x | Pending(w, x) ensures Pending(w', x) {
      if Recreating(w, x) && x != k {
        var d :| d in w.deletions && d.key == x && Recreates(w.sealed, d);
        assert Recreates(w'.sealed, d);
      }
    }
  }

  lemma DeleteKeepsInv(cfg: Config, w: World, k: ObjectKey)
    requires Inv(cfg, w) && CanStep(cfg, w, DeleteSecret(k)) && Orderly(w, DeleteSecret(k))
    ensures Inv(cfg, Do(cfg, w, DeleteSecret(k)))
  {
    var w' := Do(cfg, w, DeleteSecret(k));
    var d := Deletion(k, w.secrets[k]);
    assert d in w'.deletions;
    forall x | Pending(w, x) ensures Pending(w', x) {
      if Recreating(w, x) {
        var e :| e in w.deletions && e.key == x && Recreates(w.sealed, e);
        assert e in w'.deletions;
      }
    }
    if k in w.cache && !WillNotify(w.cache, w.watch, k) {
      UnnotifiedIsCurrent(w.cache, w.watch, k);
      assert Recreates(w'.sealed, d);
      assert Recreating(w', k);
    }
  }

  /** An event that matters to nobody changes nothing but a status. */
  lemma SuppressedIsStatus(w: World)
    requires InformerOk(w) && w.watch != [] && !Matters(NoteOf(w.cache, w.watch[0]))
    ensures SameButStatus(Apply(w.cache, w.watch[0]), w.cache)
  {
  }

  lemma ApplyKeepsPending(cfg: Config, w: World, x: ObjectKey)
    requires Inv(cfg, w) && CanStep(cfg, w, ApplyWatch)
    ensures var w', n := Do(cfg, w, ApplyWatch), NoteOf(w.cache, w.watch[0]);
      && (Noted(w'.notes, x) <==> Noted(w.notes, x) || (n.key == x && Matters(n)))
      && (Pending(w, x) ==> Pending(w', x))
  {
    var w' := Do(cfg, w, ApplyWatch);
    NotedAfter(w.notes, NoteOf(w.cache, w.watch[0]), x);
    if Recreating(w, x) {
      var d :| d in w.deletions && d.key == x && Recreates(w.sealed, d);
      assert Recreates(w'.sealed, d);
    }
  }

  lemma ApplyKeepsInv(cfg: Config, w: World)
    requires Inv(cfg, w) && CanStep(cfg, w, ApplyWatch)
    ensures Inv(cfg, Do(cfg, w, ApplyWatch))
  {
    var w', e := Do(cfg, w, ApplyWatch), w.watch[0];
    forall x | x in w'.cache
      ensures Pending(w', x) || x in w'.gaveUp || SyncedAt(cfg, w', x, w'.cache[x])
    {
      ApplyKeepsPending(cfg, w, x);
      if x == e.key && !Matters(NoteOf(w.cache, e)) {
        SuppressedIsStatus(w);
        assert BareAt(w'.cache, x) == BareAt(w.cache, x);
        if SyncedAt(cfg, w, x, w.cache[x]) {
          SyncedIgnoresStatus(cfg, Lookup(w.secrets, x), x in w.patched, w.cache[x], w'.cache[x]);
        }
      }
    }
    ApplyKeepsSnapshot(cfg, w);
  }

  lemma ApplyKeepsSnapshot(cfg: Config, w: World)
    requires Inv(cfg, w) && CanStep(cfg, w, ApplyWatch)
    ensures SnapshotOk(Do(cfg, w, ApplyWatch))
  {
    var w', e := Do(cfg, w, ApplyWatch), w.watch[0];
    if w.inHand.Some? {
      var k := w.inHand.value.key;
      ApplyKeepsPending(cfg, w, k);
      if !Matters(NoteOf(w.cache, e)) {
        SuppressedIsStatus(w);
        assert BareAt(w'.cache, k) == BareAt(w.cache, k);
      }
    }
  }

  lemma DeliverKeepsInv(cfg: Config, w: World)
    requires Inv(cfg, w) && CanStep(cfg, w, DeliverNote)
    ensures Inv(cfg, Do(cfg, w, DeliverNote))
  {
    var w' := Do(cfg, w, DeliverNote);
    AddKeepsWellFormed(w.queue, w.notes[0].key);
    forall x ensures Noted(w.notes, x) ==> Noted(w'.notes, x) || x in w'.queue.dirty {
      NotedBefore(w.notes, x);
    }
    forall x | Pending(w, x) ensures Pending(w', x) {
      if Recreating(w, x) {
        var d :| d in w.deletions && d.key == x && Recreates(w.sealed, d);
        assert Recreates(w'.sealed, d);
      }
    }
  }

  lemma DeliverDeletionKeepsInv(cfg: Config, w: World)
    requires Inv(cfg, w) && CanStep(cfg, w, DeliverDeletion(false))
    ensures Inv(cfg, Do(cfg, w, DeliverDeletion(false)))
  {
    var w' := Do(cfg, w, DeliverDeletion(false));
    AddKeepsWellFormed(w.queue, w.deletions[0].key);
    assert w.deletions == [w.deletions[0]] + w'.deletions;
    forall x | Pending(w, x) ensures Pending(w', x) {
      if Recreating(w, x) {
        var d :| d in w.deletions && d.key == x && Recreates(w.sealed, d);
        assert d == w.deletions[0] || d in w'.deletions;
        assert Recreates(w'.sealed, d);
      }
    }
  }

  /** Only the queue moves, and no queued key is lost. */
  lemma QueueMoveKeepsInv(cfg: Config, w: World, q: Queue, inHand: Option<Work>)
    requires Inv(cfg, w)
    requires forall k :: Queued(w.queue, k) ==> Queued(q, k)
    requires QueueOk(w.(queue := q, inHand := inHand)) && SnapshotOk(w.(queue := q, inHand := inHand))
    ensures Inv(cfg, w.(queue := q, inHand := inHand))
  {
  }

  lemma BeginKeepsInv(cfg: Config, w: World)
    requires Inv(cfg, w) && CanStep(cfg, w, Begin)
    ensures Inv(cfg, Do(cfg, w, Begin))
  {
    GetKeepsWellFormed(w.queue);
    var w' := Do(cfg, w, Begin);
    QueueMoveKeepsInv(cfg, w, w'.queue, w'.inHand);
  }

  lemma RetryKeepsInv(cfg: Config, w: World, k: ObjectKey)
    requires Inv(cfg, w) && CanStep(cfg, w, RetryReady(k))
    ensures Inv(cfg, Do(cfg, w, RetryReady(k)))
  {
    AddKeepsWellFormed(w.queue.(delayed := w.queue.delayed - {k}), k);
    QueueMoveKeepsInv(cfg, w, Ready(w.queue, k), w.inHand);
  }

  // ---- Addresses ----------------------------------------------------------------------------

  /** Unsealing pins name and namespace, so a Secret is stored under the key of its sealed secret. */
  lemma AttemptKeepsAddress(cfg: Config, ss: SealedSecret, n: Secret)
    requires Attempts(cfg, ss, Ok(n))
    ensures AddressOf(ss, n) == KeyOf(ss)
  {
    var keys :| keys in cfg.rings && Unsealed(cfg.c, cfg.templates, Converted(ss), keys, Ok(n));
    UnsealedKeepsPlace(cfg.c, cfg.templates, Converted(ss), keys, n);
  }

  lemma EchoKeepsOwnKeys(
    sealed: map<ObjectKey, SealedSecret>, watch: seq<WatchEvent>, k: ObjectKey, written: Option<Status.Snapshot>)
    requires OwnKeys(sealed) && OwnKeysOnWatch(watch)
    ensures OwnKeys(Reported(sealed, k, written)) && OwnKeysOnWatch(watch + Echo(sealed, k, written))
  {
  }

  lemma EndKeepsAddressed(cfg: Config, w: World, step: Step)
    requires Addressed(w) && CanStep(cfg, w, step) && step.End?
    ensures Addressed(Do(cfg, w, step))
  {
    EchoKeepsOwnKeys(w.sealed, w.watch, w.inHand.value.key, step.written);
  }

  lemma StepKeepsAddressed(cfg: Config, w: World, step: Step)
    requires Addressed(w) && CanStep(cfg, w, step)
    ensures Addressed(Do(cfg, w, step))
  {
    if step.End? {
      EndKeepsAddressed(cfg, w, step);
    }
  }

  // ---- The worker's step ---------------------------------------------------------------------

  /** How the worker's step goes. */
  ghost function VerdictAt(cfg: Config, w: World, step: Step): Verdict
    requires w.inHand.Some? && step.End?
  {
    UnsealKey(cfg.oldGCBehavior, w.secrets, w.deletions, w.inHand.value, step.r, step.answers).verdict
  }

  /** What the step does to everything but the key in work. */
  lemma EndFrame(cfg: Config, w: World, step: Step)
    requires CanStep(cfg, w, step) && step.End?
    ensures var w', k := Do(cfg, w, step), w.inHand.value.key;
      && w'.notes == w.notes && w'.inHand == None
      && SameButStatus(w.sealed, w'.sealed) && SameButStatus(w.cache, w'.cache)
      && (forall x :: x != k ==> Lookup(w'.cache, x) == Lookup(w.cache, x))
      && (forall x :: x != k ==> (x in w'.gaveUp <==> x in w.gaveUp) && (x in w'.patched <==> x in w.patched))
      && (forall d :: d in w.deletions ==> d in w'.deletions)
  {
  }

  /** The Secrets it leaves alone: all but that of the key in work. */
  lemma EndTouchesOwn(cfg: Config, w: World, step: Step, x: ObjectKey)
    requires Addressed(w) && CanStep(cfg, w, step) && step.End? && x != w.inHand.value.key
    ensures Lookup(Do(cfg, w, step).secrets, x) == Lookup(w.secrets, x)
  {
    var work := w.inHand.value;
    if work.snapshot.Some? && !step.answers.indexerFails && step.r.Ok? {
      AttemptKeepsAddress(cfg, work.snapshot.value, step.r.value);
    }
  }

  lemma DisposeFrame(q: Queue, k: ObjectKey, verdict: Verdict, maxRetries: int)
    requires WellFormed(q) && q.processing == {k}
    ensures var q' := Dispose(q, k, verdict, maxRetries);
      && WellFormed(q') && q'.processing == {} && q'.dirty == q.dirty
      && (forall x :: x in q.delayed ==> x in q'.delayed)
      && (!Settles(q, k, verdict, maxRetries) ==> k in q'.delayed)
  {
  }

  lemma DisposeAtEnd(cfg: Config, w: World, step: Step)
    requires QueueOk(w) && CanStep(cfg, w, step) && step.End?
    ensures var w' := Do(cfg, w, step);
      && WellFormed(w'.queue) && w'.queue.processing == {} && w'.queue.dirty == w.queue.dirty
      && (forall x :: x in w.queue.delayed ==> x in w'.queue.delayed)
  {
    DisposeFrame(w.queue, w.inHand.value.key, VerdictAt(cfg, w, step), cfg.maxRetries);
  }

  /** A finished attempt that neither retries nor gives up leaves the key in agreement. */
  lemma EndSyncs(cfg: Config, w: World, step: Step)
    requires Addressed(w) && CanStep(cfg, w, step) && step.End? && w.inHand.value.snapshot.Some?
    requires var k := w.inHand.value.key;
      k !in Do(cfg, w, step).gaveUp && Settles(w.queue, k, VerdictAt(cfg, w, step), cfg.maxRetries)
    ensures SyncedAt(cfg, Do(cfg, w, step), w.inHand.value.key, w.inHand.value.snapshot.value)
  {
    var k, ss := w.inHand.value.key, w.inHand.value.snapshot.value;
    assert VerdictAt(cfg, w, step).Done?;
    var n := step.r.value;
    AttemptKeepsAddress(cfg, ss, n);
    DoneMeansAgreement(Lookup(w.secrets, k), n, ss, step.answers);
    assert Attempts(cfg, ss, Ok(n));
  }

  /** What the watch brings of a status write has the stored spec: no handler queues anything for it. */
  lemma EchoIsQuiet(w: World, k: ObjectKey, written: Option<Status.Snapshot>)
    requires InformerOk(w)
    ensures InformerOk(w.(sealed := Reported(w.sealed, k, written), watch := w.watch + Echo(w.sealed, k, written)))
    ensures forall x ::
              WillNotify(w.cache, w.watch + Echo(w.sealed, k, written), x) <==> WillNotify(w.cache, w.watch, x)
  {
    if written.Some? && k in w.sealed {
      var e := Put(k, w.sealed[k].(status := written.value));
      assert Echo(w.sealed, k, written) == [e];
      OneMoreEvent(w.cache, w.watch, e);
      assert BareAt(Fold(w.cache, w.watch), k) == BareAt(w.sealed, k);
      ApplyIgnoresStatus(Fold(w.cache, w.watch), w.sealed, e);
    } else {
      assert w.watch + [] == w.watch;
    }
  }

  lemma EndKeepsInformer(cfg: Config, w: World, step: Step)
    requires InformerOk(w) && CanStep(cfg, w, step) && step.End?
    ensures InformerOk(Do(cfg, w, step))
    ensures forall x ::
              WillNotify(Do(cfg, w, step).cache, Do(cfg, w, step).watch, x) <==> WillNotify(w.cache, w.watch, x)
  {
    var w' := Do(cfg, w, step);
    EchoIsQuiet(w, w.inHand.value.key, step.written);
    EndFrame(cfg, w, step);
    FoldIgnoresStatus(w.cache, w'.cache, w'.watch);
    SameButStatusIsTransitive(Fold(w'.cache, w'.watch), Fold(w.cache, w'.watch), w'.sealed);
  }

  lemma SameButStatusIsTransitive(
    a: map<ObjectKey, SealedSecret>, b: map<ObjectKey, SealedSecret>, c: map<ObjectKey, SealedSecret>)
    requires SameButStatus(b, a) && SameButStatus(b, c)
    ensures SameButStatus(a, c)
  {
    forall k ensures BareAt(a, k) == BareAt(c, k) {
      assert BareAt(b, k) == BareAt(a, k) && BareAt(b, k) == BareAt(c, k);
    }
  }

  lemma EndKeepsPending(cfg: Config, w: World, step: Step, x: ObjectKey)
    requires Inv(cfg, w) && CanStep(cfg, w, step) && step.End? && x != w.inHand.value.key && Pending(w, x)
    ensures Pending(Do(cfg, w, step), x)
  {
    var w' := Do(cfg, w, step);
    EndFrame(cfg, w, step);
    EndKeepsInformer(cfg, w, step);
    DisposeAtEnd(cfg, w, step);
    if Recreating(w, x) {
      var d :| d in w.deletions && d.key == x && Recreates(w.sealed, d);
      assert BareAt(w.sealed, x) == BareAt(w'.sealed, x);
      assert d in w'.deletions && Recreates(w'.sealed, d);
    }
  }

  lemma EndKeepsOthers(cfg: Config, w: World, step: Step, x: ObjectKey)
    requires Inv(cfg, w) && Addressed(w) && CanStep(cfg, w, step) && step.End?
    requires x in w.cache && x != w.inHand.value.key
    ensures var w' := Do(cfg, w, step);
      Pending(w', x) || x in w'.gaveUp || SyncedAt(cfg, w', x, w.cache[x])
  {
    if Pending(w, x) {
      EndKeepsPending(cfg, w, step, x);
    } else {
      EndFrame(cfg, w, step);
      EndTouchesOwn(cfg, w, step, x);
    }
  }

  lemma EndKeepsOwn(cfg: Config, w: World, step: Step)
    requires Inv(cfg, w) && Addressed(w) && CanStep(cfg, w, step) && step.End? && w.inHand.value.key in w.cache
    ensures var w', k := Do(cfg, w, step), w.inHand.value.key;
      k in w'.cache && (Pending(w', k) || k in w'.gaveUp || SyncedAt(cfg, w', k, w'.cache[k]))
  {
    var w', work := Do(cfg, w, step), w.inHand.value;
    var k := work.key;
    EndFrame(cfg, w, step);
    DisposeAtEnd(cfg, w, step);
    assert BareAt(w.cache, k) == BareAt(w'.cache, k);
    if !Pending(w', k) && k !in w'.gaveUp {
      var verdict := VerdictAt(cfg, w, step);
      DisposeFrame(w.queue, k, verdict, cfg.maxRetries);
      assert BareAt(w.cache, k) == Some(Bare(work.snapshot.value));
      EndSyncs(cfg, w, step);
      SyncedIgnoresStatus(cfg, Lookup(w'.secrets, k), k in w'.patched, work.snapshot.value, w'.cache[k]);
    }
  }

  lemma EndKeepsInv(cfg: Config, w: World, step: Step)
    requires Inv(cfg, w) && Addressed(w) && CanStep(cfg, w, step) && step.End?
    ensures Inv(cfg, Do(cfg, w, step))
  {
    var w', k := Do(cfg, w, step), w.inHand.value.key;
    EndFrame(cfg, w, step);
    EndKeepsInformer(cfg, w, step);
    DisposeAtEnd(cfg, w, step);
    forall x | x in w'.cache
      ensures Pending(w', x) || x in w'.gaveUp || SyncedAt(cfg, w', x, w'.cache[x])
    {
      assert BareAt(w.cache, x) == BareAt(w'.cache, x);
      if x == k {
        EndKeepsOwn(cfg, w, step);
      } else {
        assert Lookup(w'.cache, x) == Lookup(w.cache, x);
        EndKeepsOthers(cfg, w, step, x);
      }
    }
  }

  lemma StepKeepsInv(cfg: Config, w: World, step: Step)
    requires Inv(cfg, w) && Addressed(w) && CanStep(cfg, w, step) && Orderly(w, step)
    ensures Inv(cfg, Do(cfg, w, step))
  {
    match step
    case PutSealed(k, ss) => PutKeepsInv(cfg, w, k, ss);
    case RemoveSealed(k) => RemoveKeepsInv(cfg, w, k);
    case DeleteSecret(k) => DeleteKeepsInv(cfg, w, k);
    case ApplyWatch => ApplyKeepsInv(cfg, w);
    case DeliverNote => DeliverKeepsInv(cfg, w);
    case DeliverDeletion(getFails) => DeliverDeletionKeepsInv(cfg, w);
    case RetryReady(k) => RetryKeepsInv(cfg, w, k);
    case Begin => BeginKeepsInv(cfg, w);
    case End(_, _, _, _) => EndKeepsInv(cfg, w, step);
  }

  // ---- Runs ---------------------------------------------------------------------------------

  ghost predicate IsRun(cfg: Config, states: seq<World>, steps: seq<Step>) {
    && |states| == |steps| + 1
    && forall i :: 0 <= i < |steps| ==>
         CanStep(cfg, states[i], steps[i]) && states[i + 1] == Do(cfg, states[i], steps[i])
  }

  ghost predicate IsOrderlyRun(cfg: Config, states: seq<World>, steps: seq<Step>) {
    IsRun(cfg, states, steps) && forall i :: 0 <= i < |steps| ==> Orderly(states[i], steps[i])
  }

  lemma {:induction false} AddressedAlways(cfg: Config, states: seq<World>, steps: seq<Step>, i: nat)
    requires IsRun(cfg, states, steps) && Addressed(states[0]) && i < |states|
    ensures Addressed(states[i])
  {
    if i > 0 {
      AddressedAlways(cfg, states, steps, i - 1);
      StepKeepsAddressed(cfg, states[i - 1], steps[i - 1]);
    }
  }

  lemma {:induction false} InvAlways(cfg: Config, states: seq<World>, steps: seq<Step>, i: nat)
    requires IsOrderlyRun(cfg, states, steps) && Initial(states[0]) && i < |states|
    ensures Inv(cfg, states[i])
  {
    if i > 0 {
      InvAlways(cfg, states, steps, i - 1);
      AddressedAlways(cfg, states, steps, i - 1);
      StepKeepsInv(cfg, states[i - 1], steps[i - 1]);
    }
  }

  /** What holds of the cached object holds of the cluster's: no event on its way means they differ in status only. */
  lemma StoredAgreesOrPends(cfg: Config, w: World, k: ObjectKey)
    requires Inv(cfg, w) && k in w.sealed
    ensures Pending(w, k) || k in w.gaveUp || SyncedAt(cfg, w, k, w.sealed[k])
  {
    if !Pending(w, k) && k !in w.gaveUp {
      UnnotifiedIsCurrent(w.cache, w.watch, k);
      assert BareAt(Fold(w.cache, w.watch), k) == BareAt(w.sealed, k);
      SyncedIgnoresStatus(cfg, Lookup(w.secrets, k), k in w.patched, w.cache[k], w.sealed[k]);
    }
  }

  /** In every reachable state each sealed secret, cached or stored, is pending, given up, or in agreement. */
  lemma AgreeOrPendingAlways(cfg: Config, states: seq<World>, steps: seq<Step>, i: nat, k: ObjectKey)
    requires IsOrderlyRun(cfg, states, steps) && Initial(states[0]) && i < |states|
    ensures k in states[i].cache ==>
              Pending(states[i], k) || k in states[i].gaveUp || SyncedAt(cfg, states[i], k, states[i].cache[k])
    ensures k in states[i].sealed ==>
              Pending(states[i], k) || k in states[i].gaveUp || SyncedAt(cfg, states[i], k, states[i].sealed[k])
  {
    InvAlways(cfg, states, steps, i);
    if k in states[i].sealed {
      StoredAgreesOrPends(cfg, states[i], k);
    }
  }

  /** Turn `j` of the run ended work on `k`, without success and without a retry. */
  ghost predicate GaveUpAt(cfg: Config, states: seq<World>, steps: seq<Step>, j: int, k: ObjectKey)
    requires IsRun(cfg, states, steps)
  {
    && EndedAt(cfg, states, steps, j, k)
    && var verdict := VerdictAt(cfg, states[j], steps[j]);
       !verdict.Done? && Settles(states[j].queue, k, verdict, cfg.maxRetries)
  }

  ghost predicate EndedAt(cfg: Config, states: seq<World>, steps: seq<Step>, j: int, k: ObjectKey)
    requires IsRun(cfg, states, steps)
  {
    0 <= j < |steps| && steps[j].End? && states[j].inHand.Some? && states[j].inHand.value.key == k
  }

  ghost predicate NoEndBetween(cfg: Config, states: seq<World>, steps: seq<Step>, j: int, i: int, k: ObjectKey)
    requires IsRun(cfg, states, steps)
  {
    forall m :: j < m < i ==> !EndedAt(cfg, states, steps, m, k)
  }

  /**
   * What is remembered of a key is how its last finished turn `j` went: given up if that was refused as immutable
   * or failed with no retry left, patched if it found a Secret to be patched; neither if there was no such turn.
   */
  lemma {:induction false} GivenUpMeansLastAttemptWas(
    cfg: Config, states: seq<World>, steps: seq<Step>, i: nat, k: ObjectKey)
    returns (j: int)
    requires IsRun(cfg, states, steps) && Initial(states[0]) && i < |states|
    ensures -1 <= j < i && NoEndBetween(cfg, states, steps, j, i, k)
    ensures j == -1 ==> k !in states[i].gaveUp && k !in states[i].patched
    ensures j >= 0 ==>
              && EndedAt(cfg, states, steps, j, k)
              && (k in states[i].gaveUp <==> GaveUpAt(cfg, states, steps, j, k))
              && (k in states[i].patched <==> HoldsPatched(states[j].secrets, k))
  {
    if i == 0 {
      j := -1;
    } else if EndedAt(cfg, states, steps, i - 1, k) {
      j := i - 1;
      EndMarks(cfg, states[j], steps[j]);
    } else {
      j := GivenUpMeansLastAttemptWas(cfg, states, steps, i - 1, k);
      GaveUpFrame(cfg, states[i - 1], steps[i - 1], k);
    }
  }

  lemma EndMarks(cfg: Config, w: World, step: Step)
    requires CanStep(cfg, w, step) && step.End?
    ensures var w', k := Do(cfg, w, step), w.inHand.value.key;
      && (k in w'.gaveUp <==>
            !VerdictAt(cfg, w, step).Done? && Settles(w.queue, k, VerdictAt(cfg, w, step), cfg.maxRetries))
      && (k in w'.patched <==> HoldsPatched(w.secrets, k))
  {
  }

  lemma GaveUpFrame(cfg: Config, w: World, step: Step, k: ObjectKey)
    requires CanStep(cfg, w, step) && (step.End? ==> w.inHand.value.key != k)
    ensures k in Do(cfg, w, step).gaveUp <==> k in w.gaveUp
    ensures k in Do(cfg, w, step).patched <==> k in w.patched
  {
  }

  /** Nothing is queued, delayed, in work or on its way. */
  ghost predicate Quiet(w: World) {
    && w.watch == [] && w.notes == [] && w.deletions == [] && w.inHand.None?
    && w.queue.dirty == {} && w.queue.delayed == {} && w.queue.processing == {}
  }

  /** The one case in which a further reconcile that unseals `n` would move what is at rest. */
  ghost predicate LeftBehind(w: World, k: ObjectKey, n: Secret)
    requires k in w.sealed && k in w.secrets
  {
    var s := w.secrets[k];
    && k in w.patched && SwitchesOff(n)
    && MayWrite(s, w.sealed[k]) && !SameContent(s, n) && !RejectedAsImmutable(s, Overwritten(s, n))
  }

  /**
   * At rest every sealed secret of the cluster was given up, or its Secret agrees with what it unseals to; and then
   * the Secret is a fixpoint of reconciling, exactly unless a patch switched itself off and left something behind.
   */
  lemma QuietMeansConverged(cfg: Config, states: seq<World>, steps: seq<Step>, i: nat, k: ObjectKey)
    returns (n: Secret)
    requires IsOrderlyRun(cfg, states, steps) && Initial(states[0]) && i < |states|
    requires Quiet(states[i]) && k in states[i].sealed && k !in states[i].gaveUp
    ensures var w := states[i];
      && Attempts(cfg, w.sealed[k], Ok(n)) && k in w.secrets && Agrees(w.secrets[k], n, k in w.patched)
      && (Next(Some(w.secrets[k]), n, w.sealed[k]) == Some(w.secrets[k]) <==> !LeftBehind(w, k, n))
  {
    var w := states[i];
    AgreeOrPendingAlways(cfg, states, steps, i, k);
    QuietIsNotPending(w, k);
    n :| Attempts(cfg, w.sealed[k], Ok(n)) && Agrees(w.secrets[k], n, k in w.patched);
    AgreementRestsIff(w.secrets[k], n, w.sealed[k], k in w.patched);
  }

  lemma QuietIsNotPending(w: World, k: ObjectKey)
    requires Quiet(w)
    ensures !Pending(w, k)
  {
  }

  /** An honest sealed secret that is in agreement has its plaintext in the Secret, whichever ring unsealed it. */
  lemma SyncedCarriesPlaintext(
    cfg: Config, pubKey: PublicKey, secret: Secret, ss: SealedSecret, deployed: SealedSecret, stored: Secret, n: Secret,
    patched: bool)
    requires Sound(cfg.c) && forall keys :: keys in cfg.rings ==> HoldsKeyFor(keys, pubKey)
    requires SealedFrom(cfg.c, pubKey, secret, ss) && DeployedAs(ss, deployed)
    requires Attempts(cfg, deployed, Ok(n)) && Agrees(stored, n, patched)
    ensures forall item :: item in Items(secret) ==> item in stored.data && stored.data[item] == Items(secret)[item]
  {
    var keys :| keys in cfg.rings && Unsealed(cfg.c, cfg.templates, Converted(deployed), keys, Ok(n));
    RoundTrip(cfg.c, cfg.templates, pubKey, secret, ss, Converted(deployed), keys, Ok(n));
  }

  /**
   * From seal to cluster: at rest, a deployed sealed secret not given up has its plaintext in the Secret, if every
   * ring an attempt may have found held the key.
   */
  lemma SealedSecretsReachTheCluster(
    cfg: Config, states: seq<World>, steps: seq<Step>, i: nat, k: ObjectKey,
    pubKey: PublicKey, secret: Secret, ss: SealedSecret)
    requires IsOrderlyRun(cfg, states, steps) && Initial(states[0]) && i < |states| && Quiet(states[i])
    requires k in states[i].sealed && k !in states[i].gaveUp && DeployedAs(ss, states[i].sealed[k])
    requires Sound(cfg.c) && (forall keys :: keys in cfg.rings ==> HoldsKeyFor(keys, pubKey))
    requires SealedFrom(cfg.c, pubKey, secret, ss)
    ensures k in states[i].secrets && forall item :: item in Items(secret) ==>
              item in states[i].secrets[k].data && states[i].secrets[k].data[item] == Items(secret)[item]
  {
    var n := QuietMeansConverged(cfg, states, steps, i, k);
    SyncedCarriesPlaintext(
      cfg, pubKey, secret, ss, states[i].sealed[k], states[i].secrets[k], n, k in states[i].patched);
  }

  // ---- Where the surroundings matter ----------------------------------------------------------

  /** An edit of a sealed secret at rest leads to a reconcile exactly when the spec changed. */
  lemma EditIsNoticedIff(cfg: Config, w: World, k: ObjectKey, ss: SealedSecret)
    requires Inv(cfg, w) && Quiet(w) && k in w.sealed && CanStep(cfg, w, PutSealed(k, ss))
    ensures var put := Do(cfg, w, PutSealed(k, ss));
      var applied := Do(cfg, put, ApplyWatch);
      var delivered := Do(cfg, applied, DeliverNote);
      && Lookup(delivered.cache, k) == Some(ss)
      && (k in delivered.queue.dirty <==> ss.spec != w.sealed[k].spec)
      && (ss.spec == w.sealed[k].spec ==> Quiet(delivered))
  {
    assert BareAt(Fold(w.cache, w.watch), k) == BareAt(w.sealed, k);
    var put := Do(cfg, w, PutSealed(k, ss));
    assert put.watch == [Put(k, ss)];
    var applied := Do(cfg, put, ApplyWatch);
    assert applied.notes == [Updated(k, w.cache[k], ss)];
  }

  /** A Secret deleted at rest is recreated exactly when the handler's look-up is answered and it was owned. */
  lemma DeletionIsNoticedIff(cfg: Config, w: World, k: ObjectKey, getFails: bool)
    requires Quiet(w) && k in w.secrets
    ensures var deleted := Do(cfg, w, DeleteSecret(k));
      var delivered := Do(cfg, deleted, DeliverDeletion(getFails));
      && k !in delivered.secrets
      && (k in delivered.queue.dirty <==>
            !getFails && k in w.sealed
            && (IsControlledBy(w.secrets[k], w.sealed[k]) || IsAnnotatedToBeManaged(w.secrets[k])))
      && (k !in delivered.queue.dirty ==> Quiet(delivered))
  {
  }
}
