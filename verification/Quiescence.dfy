/**
 * With the old garbage collection off the controller comes to rest whatever the API answers: a
 * lexicographic measure falls at every step of its own, and unseals are paid for by external events.
 */
module Quiescence {
  import opened Types
  import opened Reconcile
  import opened Sealing
  import opened SealingLaws
  import opened Base
  import opened WorkQueue
  import opened Controller
  import opened Informer
  import opened Convergence

  // ---- Counting -----------------------------------------------------------------------------

  /** How many events on their way to the informer will make a handler queue a key. */
  function WatchCount(m: map<ObjectKey, SealedSecret>, watch: seq<WatchEvent>): nat
    decreases |watch|
  {
    if watch == [] then 0
    else (if Matters(NoteOf(m, watch[0])) then 1 else 0) + WatchCount(Apply(m, watch[0]), watch[1..])
  }

  function NoteCount(notes: seq<Note>): nat {
    if notes == [] then 0
    else NoteCount(notes[..|notes| - 1]) + (if Matters(notes[|notes| - 1]) then 1 else 0)
  }

  lemma {:induction false} WatchCountAppend(m: map<ObjectKey, SealedSecret>, watch: seq<WatchEvent>, e: WatchEvent)
    ensures WatchCount(m, watch + [e]) ==
            WatchCount(m, watch) + (if Matters(NoteOf(Fold(m, watch), e)) then 1 else 0)
    decreases |watch|
  {
    if watch == [] {
      assert (watch + [e])[1..] == [];
    } else {
      assert (watch + [e])[1..] == watch[1..] + [e];
      WatchCountAppend(Apply(m, watch[0]), watch[1..], e);
    }
  }

  /** What is cached matters up to its status only. */
  lemma {:induction false} WatchCountIgnoresStatus(
    m: map<ObjectKey, SealedSecret>, m': map<ObjectKey, SealedSecret>, watch: seq<WatchEvent>)
    requires SameButStatus(m, m')
    ensures WatchCount(m, watch) == WatchCount(m', watch)
    decreases |watch|
  {
    if watch != [] {
      ApplyIgnoresStatus(m, m', watch[0]);
      WatchCountIgnoresStatus(Apply(m, watch[0]), Apply(m', watch[0]), watch[1..]);
    }
  }

  lemma {:induction false} NoteCountFirst(notes: seq<Note>)
    requires notes != []
    ensures NoteCount(notes) == NoteCount(notes[1..]) + (if Matters(notes[0]) then 1 else 0)
  {
    if |notes| > 1 {
      var front := notes[..|notes| - 1];
      NoteCountFirst(front);
      assert notes[1..][..|notes| - 2] == front[1..];
    }
  }

  // ---- The retry budget ---------------------------------------------------------------------

  /** Retries a key may have, none when the limit is negative. */
  function Budget(cfg: Config): nat {
    if cfg.maxRetries < 0 then 0 else cfg.maxRetries
  }

  /** Retries are counted only for keys still in the queue, and never past the limit. */
  ghost predicate RetriesOk(cfg: Config, w: World) {
    forall k :: w.queue.requeues[k] <= Budget(cfg) && (w.queue.requeues[k] > 0 ==> Queued(w.queue, k))
  }

  ghost predicate RestInv(cfg: Config, w: World) {
    QueueOk(w) && RetriesOk(cfg, w) && SameButStatus(Fold(w.cache, w.watch), w.sealed)
  }

  lemma {:induction false} CountBound(m: multiset<ObjectKey>, s: set<ObjectKey>, limit: nat)
    requires forall k :: m[k] <= limit && (m[k] > 0 ==> k in s)
    ensures |m| <= limit * |s|
  {
    if s == {} {
      assert m == multiset{};
    } else {
      var k :| k in s;
      CountBound(m[k := 0], s - {k}, limit);
      assert |m| == |m[k := 0]| + m[k];
      assert limit * |s| == limit * |s - {k}| + limit;
    }
  }

  /** Queue entries, delayed entries, the entry in work, and the events that will become entries. */
  function Outstanding(w: World): nat {
    WatchCount(w.cache, w.watch) + NoteCount(w.notes) + |w.deletions|
    + |w.queue.dirty| + |w.queue.processing| + |w.queue.delayed|
  }

  /** The unseals still possible: each outstanding entry pays for one and its retries. */
  function UnsealsLeft(cfg: Config, w: World): int {
    (Budget(cfg) + 1) * Outstanding(w) - |w.queue.requeues|
  }

  /** How far entries and events still have to move before the next unseal. */
  function Distance(w: World): nat {
    4 * |w.watch| + 3 * |w.notes| + 3 * |w.deletions| + 2 * |w.queue.delayed| + |w.queue.order|
  }

  lemma UnsealsLeftIsNatural(cfg: Config, w: World)
    requires RetriesOk(cfg, w)
    ensures UnsealsLeft(cfg, w) >= Outstanding(w)
  {
    var q := w.queue;
    var s := q.dirty + q.processing + q.delayed;
    CountBound(q.requeues, s, Budget(cfg));
    SizeOfUnion(q.dirty, q.processing, q.delayed);
    Scale(Budget(cfg), |s|, Outstanding(w));
    OneMore(Budget(cfg), Outstanding(w));
  }

  lemma SizeOfUnion(a: set<ObjectKey>, b: set<ObjectKey>, c: set<ObjectKey>)
    ensures |a + b + c| <= |a| + |b| + |c|
  {
  }

  lemma Scale(n: nat, a: nat, b: nat)
    requires a <= b
    ensures n * a <= n * b
  {
  }

  lemma OneMore(n: nat, a: nat)
    ensures (n + 1) * a == n * a + a
  {
  }

  // ---- Steps --------------------------------------------------------------------------------

  lemma PutStep(cfg: Config, w: World, step: Step)
    requires RestInv(cfg, w) && CanStep(cfg, w, step) && IsExternal(step)
    ensures RestInv(cfg, Do(cfg, w, step))
    ensures UnsealsLeft(cfg, Do(cfg, w, step)) <= UnsealsLeft(cfg, w) + Budget(cfg) + 1
  {
    var w' := Do(cfg, w, step);
    match step {
      case PutSealed(k, ss) =>
        OneMoreEvent(w.cache, w.watch, Put(k, ss));
        ApplyIgnoresStatus(Fold(w.cache, w.watch), w.sealed, Put(k, ss));
        WatchCountAppend(w.cache, w.watch, Put(k, ss));
      case RemoveSealed(k) =>
        OneMoreEvent(w.cache, w.watch, Removed(k));
        ApplyIgnoresStatus(Fold(w.cache, w.watch), w.sealed, Removed(k));
        WatchCountAppend(w.cache, w.watch, Removed(k));
      case DeleteSecret(k) =>
    }
    assert Outstanding(w') <= Outstanding(w) + 1;
    Scale(Budget(cfg) + 1, Outstanding(w'), Outstanding(w) + 1);
    assert (Budget(cfg) + 1) * (Outstanding(w) + 1) == (Budget(cfg) + 1) * Outstanding(w) + Budget(cfg) + 1;
  }

  /** Neither retries nor outstanding entries grow. */
  lemma NoMoreUnseals(cfg: Config, w: World, w': World)
    requires Outstanding(w') <= Outstanding(w) && w'.queue.requeues == w.queue.requeues
    ensures UnsealsLeft(cfg, w') <= UnsealsLeft(cfg, w)
  {
  }

  lemma AddCounts(q: Queue, k: ObjectKey)
    ensures var q' := Add(q, k);
      && |q'.dirty| <= |q.dirty| + 1 && |q'.order| <= |q.order| + 1
      && q'.processing == q.processing && q'.delayed == q.delayed && q'.requeues == q.requeues
      && (forall x :: Queued(q, x) ==> Queued(q', x))
  {
  }

  lemma ApplyStep(cfg: Config, w: World)
    requires RestInv(cfg, w) && CanStep(cfg, w, ApplyWatch)
    ensures var w' := Do(cfg, w, ApplyWatch);
      RestInv(cfg, w') && UnsealsLeft(cfg, w') <= UnsealsLeft(cfg, w) && Distance(w') < Distance(w)
  {
    var w' := Do(cfg, w, ApplyWatch);
    assert w'.notes[..|w.notes|] == w.notes;
    NoMoreUnseals(cfg, w, w');
  }

  lemma DeliverStep(cfg: Config, w: World)
    requires RestInv(cfg, w) && CanStep(cfg, w, DeliverNote)
    ensures var w' := Do(cfg, w, DeliverNote);
      RestInv(cfg, w') && UnsealsLeft(cfg, w') <= UnsealsLeft(cfg, w) && Distance(w') < Distance(w)
  {
    var w' := Do(cfg, w, DeliverNote);
    NoteCountFirst(w.notes);
    AddCounts(w.queue, w.notes[0].key);
    AddKeepsWellFormed(w.queue, w.notes[0].key);
    NoMoreUnseals(cfg, w, w');
  }

  lemma DeliverDeletionStep(cfg: Config, w: World, getFails: bool)
    requires RestInv(cfg, w) && CanStep(cfg, w, DeliverDeletion(getFails))
    ensures var w' := Do(cfg, w, DeliverDeletion(getFails));
      RestInv(cfg, w') && UnsealsLeft(cfg, w') <= UnsealsLeft(cfg, w) && Distance(w') < Distance(w)
  {
    var w' := Do(cfg, w, DeliverDeletion(getFails));
    AddCounts(w.queue, w.deletions[0].key);
    AddKeepsWellFormed(w.queue, w.deletions[0].key);
    NoMoreUnseals(cfg, w, w');
  }

  lemma RetryStep(cfg: Config, w: World, k: ObjectKey)
    requires RestInv(cfg, w) && CanStep(cfg, w, RetryReady(k))
    ensures var w' := Do(cfg, w, RetryReady(k));
      RestInv(cfg, w') && UnsealsLeft(cfg, w') <= UnsealsLeft(cfg, w) && Distance(w') < Distance(w)
  {
    var w' := Do(cfg, w, RetryReady(k));
    var q := w.queue.(delayed := w.queue.delayed - {k});
    AddCounts(q, k);
    AddKeepsWellFormed(q, k);
    assert |q.delayed| == |w.queue.delayed| - 1;
    NoMoreUnseals(cfg, w, w');
  }

  lemma BeginStep(cfg: Config, w: World)
    requires RestInv(cfg, w) && CanStep(cfg, w, Begin)
    ensures var w' := Do(cfg, w, Begin);
      RestInv(cfg, w') && UnsealsLeft(cfg, w') <= UnsealsLeft(cfg, w) && Distance(w') < Distance(w)
  {
    var w' := Do(cfg, w, Begin);
    GetKeepsWellFormed(w.queue);
    var k := w.queue.order[0];
    assert |w'.queue.dirty| == |w.queue.dirty| - 1;
    assert w'.queue.processing == {k};
    NoMoreUnseals(cfg, w, w');
  }

  // ---- The worker's step ---------------------------------------------------------------------

  /** Releasing a key costs at least one unseal of the budget, retried or not. */
  lemma DisposeCounts(cfg: Config, w: World, q: Queue, k: ObjectKey, verdict: Verdict)
    requires QueueOk(w) && RetriesOk(cfg, w) && w.inHand.Some? && w.inHand.value.key == k
    requires q == Dispose(w.queue, k, verdict, cfg.maxRetries)
    ensures WellFormed(q) && q.processing == {} && q.dirty == w.queue.dirty
    ensures forall x :: q.requeues[x] <= Budget(cfg) && (q.requeues[x] > 0 ==> Queued(q, x))
    ensures |q.delayed| <= |w.queue.delayed| + (if Settles(w.queue, k, verdict, cfg.maxRetries) then 0 else 1)
    ensures |q.requeues| == if Settles(w.queue, k, verdict, cfg.maxRetries)
                            then |w.queue.requeues| - w.queue.requeues[k]
                            else |w.queue.requeues| + 1
  {
    DisposeFrame(w.queue, k, verdict, cfg.maxRetries);
  }

  /**
   * What the watch brings back of a status write, whatever the new status, has the spec the API server already had,
   * and handlers compare specs: a status write never feeds itself back.
   */
  lemma EchoAddsNothing(w: World, k: ObjectKey, written: Option<Status.Snapshot>)
    requires SameButStatus(Fold(w.cache, w.watch), w.sealed)
    ensures WatchCount(w.cache, w.watch + Echo(w.sealed, k, written)) == WatchCount(w.cache, w.watch)
    ensures SameButStatus(Fold(w.cache, w.watch + Echo(w.sealed, k, written)), Reported(w.sealed, k, written))
  {
    if written.Some? && k in w.sealed {
      var e := Put(k, w.sealed[k].(status := written.value));
      assert Echo(w.sealed, k, written) == [e];
      WatchCountAppend(w.cache, w.watch, e);
      OneMoreEvent(w.cache, w.watch, e);
      assert BareAt(Fold(w.cache, w.watch), k) == BareAt(w.sealed, k);
      ApplyIgnoresStatus(Fold(w.cache, w.watch), w.sealed, e);
    } else {
      assert w.watch + [] == w.watch;
    }
  }

  lemma EndEvents(cfg: Config, w: World, step: Step)
    requires RestInv(cfg, w) && CanStep(cfg, w, step) && step.End? && !cfg.oldGCBehavior
    ensures var w', k := Do(cfg, w, step), w.inHand.value.key;
      && w'.queue == Dispose(w.queue, k, VerdictAt(cfg, w, step), cfg.maxRetries)
      && w'.inHand.None? && w'.notes == w.notes && w'.deletions == w.deletions
      && WatchCount(w'.cache, w'.watch) == WatchCount(w.cache, w.watch)
      && SameButStatus(Fold(w'.cache, w'.watch), w'.sealed)
  {
    var w' := Do(cfg, w, step);
    EndFrame(cfg, w, step);
    EchoAddsNothing(w, w.inHand.value.key, step.written);
    WatchCountIgnoresStatus(w.cache, w'.cache, w'.watch);
    FoldIgnoresStatus(w.cache, w'.cache, w'.watch);
    SameButStatusIsTransitive(Fold(w'.cache, w'.watch), Fold(w.cache, w'.watch), w'.sealed);
  }

  lemma EndStep(cfg: Config, w: World, step: Step)
    requires RestInv(cfg, w) && CanStep(cfg, w, step) && step.End? && !cfg.oldGCBehavior
    ensures RestInv(cfg, Do(cfg, w, step)) && UnsealsLeft(cfg, Do(cfg, w, step)) < UnsealsLeft(cfg, w)
  {
    var w', k := Do(cfg, w, step), w.inHand.value.key;
    EndEvents(cfg, w, step);
    DisposeCounts(cfg, w, w'.queue, k, VerdictAt(cfg, w, step));
    EndPays(cfg, w, w', k, Settles(w.queue, k, VerdictAt(cfg, w, step), cfg.maxRetries));
  }

  lemma EndPays(cfg: Config, w: World, w': World, k: ObjectKey, settled: bool)
    requires w.queue.requeues[k] <= Budget(cfg)
    requires Outstanding(w') <= Outstanding(w) - (if settled then 1 else 0)
    requires |w'.queue.requeues| == if settled then |w.queue.requeues| - w.queue.requeues[k] else |w.queue.requeues| + 1
    ensures UnsealsLeft(cfg, w') < UnsealsLeft(cfg, w)
  {
    var n, o, o' := Budget(cfg) + 1, Outstanding(w), Outstanding(w');
    if settled {
      OneEntryLess(n, o, o');
    } else {
      Scale(n, o', o);
    }
  }

  lemma OneEntryLess(n: nat, o: int, o': nat)
    requires o' <= o - 1
    ensures n * o' + n <= n * o
  {
    Scale(n, o' + 1, o);
    assert n * (o' + 1) == n * o' + n;
  }

  /** The controller's own steps make the pair (unseals left, distance) fall, whatever the API answers. */
  lemma OwnStepsDescend(cfg: Config, w: World, step: Step)
    requires RestInv(cfg, w) && CanStep(cfg, w, step) && !IsExternal(step) && !cfg.oldGCBehavior
    ensures var w' := Do(cfg, w, step);
      && RestInv(cfg, w')
      && (UnsealsLeft(cfg, w') < UnsealsLeft(cfg, w)
          || (!step.End? && UnsealsLeft(cfg, w') == UnsealsLeft(cfg, w) && Distance(w') < Distance(w)))
  {
    match step
    case ApplyWatch => ApplyStep(cfg, w);
    case DeliverNote => DeliverStep(cfg, w);
    case DeliverDeletion(getFails) => DeliverDeletionStep(cfg, w, getFails);
    case RetryReady(k) => RetryStep(cfg, w, k);
    case Begin => BeginStep(cfg, w);
    case End(_, _, _, _) => EndStep(cfg, w, step);
  }

  // ---- Runs ---------------------------------------------------------------------------------

  function Externals(steps: seq<Step>): nat {
    if steps == [] then 0 else Externals(steps[..|steps| - 1]) + (if IsExternal(steps[|steps| - 1]) then 1 else 0)
  }

  /** Every turn of the worker that ends is one unseal. */
  function Unseals(steps: seq<Step>): nat {
    if steps == [] then 0 else Unseals(steps[..|steps| - 1]) + (if steps[|steps| - 1].End? then 1 else 0)
  }

  lemma InitialRests(cfg: Config, w: World)
    requires Initial(w)
    ensures RestInv(cfg, w) && UnsealsLeft(cfg, w) == (Budget(cfg) + 1) * WatchCount(w.cache, w.watch)
  {
  }

  lemma Paid(cfg: Config, w: World, step: Step)
    requires RestInv(cfg, w) && CanStep(cfg, w, step) && !cfg.oldGCBehavior
    ensures RestInv(cfg, Do(cfg, w, step))
    ensures (if step.End? then 1 else 0) + UnsealsLeft(cfg, Do(cfg, w, step))
            <= UnsealsLeft(cfg, w) + (if IsExternal(step) then Budget(cfg) + 1 else 0)
  {
    if IsExternal(step) {
      PutStep(cfg, w, step);
    } else {
      OwnStepsDescend(cfg, w, step);
    }
  }

  /** Every external event brings one unseal and its retries. */
  function Allowance(cfg: Config, steps: seq<Step>): nat {
    if steps == [] then 0
    else Allowance(cfg, steps[..|steps| - 1]) + (if IsExternal(steps[|steps| - 1]) then Budget(cfg) + 1 else 0)
  }

  lemma {:induction false} AllowanceIsProduct(cfg: Config, steps: seq<Step>)
    ensures Allowance(cfg, steps) == (Budget(cfg) + 1) * Externals(steps)
  {
    if steps != [] {
      AllowanceIsProduct(cfg, steps[..|steps| - 1]);
      OneMore(Externals(steps[..|steps| - 1]), Budget(cfg) + 1);
    }
  }

  lemma {:induction false} UnsealsArePaidFor(cfg: Config, states: seq<World>, steps: seq<Step>, i: nat)
    requires IsRun(cfg, states, steps) && RestInv(cfg, states[0]) && !cfg.oldGCBehavior && i <= |steps|
    ensures RestInv(cfg, states[i])
    ensures Unseals(steps[..i]) + UnsealsLeft(cfg, states[i])
            <= UnsealsLeft(cfg, states[0]) + Allowance(cfg, steps[..i])
  {
    if i > 0 {
      UnsealsArePaidFor(cfg, states, steps, i - 1);
      Paid(cfg, states[i - 1], steps[i - 1]);
      assert steps[..i][..i - 1] == steps[..i - 1];
    }
  }

  /** At most maxRetries + 1 unseals for each listed sealed secret and each external event, ever. */
  lemma UnsealsPerEvent(cfg: Config, states: seq<World>, steps: seq<Step>)
    requires IsRun(cfg, states, steps) && Initial(states[0]) && !cfg.oldGCBehavior
    ensures Unseals(steps)
            <= (Budget(cfg) + 1) * WatchCount(states[0].cache, states[0].watch) + (Budget(cfg) + 1) * Externals(steps)
  {
    InitialRests(cfg, states[0]);
    UnsealsArePaidFor(cfg, states, steps, |steps|);
    assert steps[..|steps|] == steps;
    AllowanceIsProduct(cfg, steps);
    UnsealsLeftIsNatural(cfg, states[|steps|]);
  }

  // ---- A key that keeps failing -----------------------------------------------------------------

  /** Nothing on its way will queue `k`. */
  ghost predicate Calm(w: World, k: ObjectKey) {
    && QueueOk(w) && SameButStatus(Fold(w.cache, w.watch), w.sealed)
    && !Noted(w.notes, k) && !WillNotify(w.cache, w.watch, k) && !Recreating(w, k)
  }

  predicate OneEntry(q: Queue, k: ObjectKey) {
    || (k in q.dirty && k !in q.processing && k !in q.delayed)
    || (k !in q.dirty && k in q.processing && k !in q.delayed)
    || (k !in q.dirty && k !in q.processing && k in q.delayed)
  }

  /** `k` has failed `n` times: still to be tried, or given up with its retries forgotten. */
  ghost predicate HasFailed(cfg: Config, w: World, k: ObjectKey, n: nat) {
    if n <= Budget(cfg) then OneEntry(w.queue, k) && w.queue.requeues[k] == n
    else n == Budget(cfg) + 1 && !Queued(w.queue, k) && w.queue.requeues[k] == 0 && k in w.gaveUp
  }

  ghost predicate EndsOn(w: World, step: Step, k: ObjectKey) {
    step.End? && w.inHand.Some? && w.inHand.value.key == k
  }

  /** A step that is no news for `k`, and if it ends work on `k` does so in failure. */
  ghost predicate FailsAt(cfg: Config, w: World, step: Step, k: ObjectKey) {
    && CanStep(cfg, w, step)
    && (IsExternal(step) ==> step.key != k)
    && (EndsOn(w, step, k) ==> VerdictAt(cfg, w, step).Failed?)
  }

  lemma ExternalStaysCalm(cfg: Config, w: World, step: Step, k: ObjectKey)
    requires Calm(w, k) && FailsAt(cfg, w, step, k) && IsExternal(step)
    ensures Calm(Do(cfg, w, step), k)
  {
    match step {
      case PutSealed(x, ss) =>
        OneMoreEvent(w.cache, w.watch, Put(x, ss));
        ApplyIgnoresStatus(Fold(w.cache, w.watch), w.sealed, Put(x, ss));
      case RemoveSealed(x) =>
        OneMoreEvent(w.cache, w.watch, Removed(x));
        ApplyIgnoresStatus(Fold(w.cache, w.watch), w.sealed, Removed(x));
      case DeleteSecret(x) =>
    }
  }

  lemma FailedEndStaysCalm(cfg: Config, w: World, step: Step, k: ObjectKey)
    requires Calm(w, k) && FailsAt(cfg, w, step, k) && step.End?
    ensures Calm(Do(cfg, w, step), k)
  {
    var w' := Do(cfg, w, step);
    EndFrame(cfg, w, step);
    DisposeAtEnd(cfg, w, step);
    EchoStaysCalm(cfg, w, step, k);
    assert forall d :: d in w'.deletions && d.key == k ==> d in w.deletions;
    assert BareAt(w.sealed, k) == BareAt(w'.sealed, k);
  }

  lemma EchoStaysCalm(cfg: Config, w: World, step: Step, k: ObjectKey)
    requires SameButStatus(Fold(w.cache, w.watch), w.sealed) && !WillNotify(w.cache, w.watch, k)
    requires CanStep(cfg, w, step) && step.End?
    ensures var w' := Do(cfg, w, step);
      SameButStatus(Fold(w'.cache, w'.watch), w'.sealed) && !WillNotify(w'.cache, w'.watch, k)
  {
    var w', x := Do(cfg, w, step), w.inHand.value.key;
    EndFrame(cfg, w, step);
    EchoAddsNothing(w, x, step.written);
    FoldIgnoresStatus(w.cache, w'.cache, w'.watch);
    SameButStatusIsTransitive(Fold(w'.cache, w'.watch), Fold(w.cache, w'.watch), w'.sealed);
    EchoIsSilent(w, x, step.written, k);
  }

  lemma EchoIsSilent(w: World, x: ObjectKey, written: Option<Status.Snapshot>, k: ObjectKey)
    requires SameButStatus(Fold(w.cache, w.watch), w.sealed) && !WillNotify(w.cache, w.watch, k)
    ensures !WillNotify(w.cache, w.watch + Echo(w.sealed, x, written), k)
  {
    if written.Some? && x in w.sealed {
      var e := Put(x, w.sealed[x].(status := written.value));
      assert Echo(w.sealed, x, written) == [e];
      OneMoreEvent(w.cache, w.watch, e);
      assert BareAt(Fold(w.cache, w.watch), x) == BareAt(w.sealed, x);
    } else {
      assert w.watch + [] == w.watch;
    }
  }

  lemma StaysCalm(cfg: Config, w: World, step: Step, k: ObjectKey)
    requires Calm(w, k) && FailsAt(cfg, w, step, k)
    ensures Calm(Do(cfg, w, step), k)
  {
    var w' := Do(cfg, w, step);
    match step
    case ApplyWatch => NotedAfter(w.notes, NoteOf(w.cache, w.watch[0]), k);
    case DeliverNote =>
      NotedBefore(w.notes, k);
      AddKeepsWellFormed(w.queue, w.notes[0].key);
    case DeliverDeletion(getFails) =>
      AddKeepsWellFormed(w.queue, w.deletions[0].key);
      assert forall d :: d in w'.deletions ==> d in w.deletions;
    case RetryReady(x) => AddKeepsWellFormed(w.queue.(delayed := w.queue.delayed - {x}), x);
    case Begin => GetKeepsWellFormed(w.queue);
    case End(_, _, _, _) => FailedEndStaysCalm(cfg, w, step, k);
    case _ => ExternalStaysCalm(cfg, w, step, k);
  }

  lemma DisposeOfFailed(cfg: Config, q: Queue, k: ObjectKey, x: ObjectKey, verdict: Verdict)
    requires WellFormed(q) && q.processing == {x}
    ensures var q' := Dispose(q, x, verdict, cfg.maxRetries);
      && (x != k ==>
            && q'.requeues[k] == q.requeues[k]
            && (OneEntry(q', k) <==> OneEntry(q, k)) && (Queued(q', k) <==> Queued(q, k)))
      && (x == k && verdict.Failed? && OneEntry(q, k) && q.requeues[k] < Budget(cfg) ==>
            OneEntry(q', k) && q'.requeues[k] == q.requeues[k] + 1 && !Settles(q, k, verdict, cfg.maxRetries))
      && (x == k && verdict.Failed? && OneEntry(q, k) && q.requeues[k] == Budget(cfg) ==>
            !Queued(q', k) && q'.requeues[k] == 0 && Settles(q, k, verdict, cfg.maxRetries))
  {
  }

  lemma FailedEndCounts(cfg: Config, w: World, step: Step, k: ObjectKey, n: nat)
    requires QueueOk(w) && HasFailed(cfg, w, k, n) && FailsAt(cfg, w, step, k) && step.End?
    ensures HasFailed(cfg, Do(cfg, w, step), k, if EndsOn(w, step, k) then n + 1 else n)
  {
    DisposeOfFailed(cfg, w.queue, k, w.inHand.value.key, VerdictAt(cfg, w, step));
    EndMarks(cfg, w, step);
    EndFrame(cfg, w, step);
  }

  lemma Counts(cfg: Config, w: World, step: Step, k: ObjectKey, n: nat)
    requires Calm(w, k) && HasFailed(cfg, w, k, n) && FailsAt(cfg, w, step, k)
    ensures HasFailed(cfg, Do(cfg, w, step), k, if EndsOn(w, step, k) then n + 1 else n)
  {
    match step
    case DeliverNote => assert w.notes[0] in w.notes;
    case DeliverDeletion(getFails) => assert w.deletions[0] in w.deletions;
    case Begin => assert w.queue.order[0] in w.queue.order;
    case End(_, _, _, _) => FailedEndCounts(cfg, w, step, k, n);
    case _ =>
  }

  /** How many of the first `i` steps ended work on `k`. */
  ghost function TriesOf(states: seq<World>, steps: seq<Step>, i: nat, k: ObjectKey): nat
    requires i <= |steps| <= |states|
  {
    if i == 0 then 0
    else TriesOf(states, steps, i - 1, k) + (if EndsOn(states[i - 1], steps[i - 1], k) then 1 else 0)
  }

  /**
   * A key with a fresh entry whose attempts all fail is tried exactly maxRetries + 1 times: in every state of any
   * run without news for it, it has one entry and as many retries counted as it failed, until it is given up.
   */
  lemma {:induction false} RetriesExactly(cfg: Config, states: seq<World>, steps: seq<Step>, i: nat, k: ObjectKey)
    requires IsRun(cfg, states, steps) && i <= |steps|
    requires Calm(states[0], k) && HasFailed(cfg, states[0], k, 0)
    requires forall j :: 0 <= j < |steps| ==> FailsAt(cfg, states[j], steps[j], k)
    ensures Calm(states[i], k) && HasFailed(cfg, states[i], k, TriesOf(states, steps, i, k))
    ensures Queued(states[i].queue, k) <==> TriesOf(states, steps, i, k) <= Budget(cfg)
    ensures !Queued(states[i].queue, k) <==> TriesOf(states, steps, i, k) == Budget(cfg) + 1
    ensures !Queued(states[i].queue, k) ==> k in states[i].gaveUp
  {
    if i > 0 {
      RetriesExactly(cfg, states, steps, i - 1, k);
      StaysCalm(cfg, states[i - 1], steps[i - 1], k);
      Counts(cfg, states[i - 1], steps[i - 1], k, TriesOf(states, steps, i - 1, k));
    }
  }

  /** After the last external event the controller cannot go on forever. */
  lemma {:induction false} NoEndlessRun(cfg: Config, states: nat -> World, steps: nat -> Step, i: nat)
    requires !cfg.oldGCBehavior && RestInv(cfg, states(i))
    requires forall j: nat :: i <= j ==>
               && CanStep(cfg, states(j), steps(j)) && !IsExternal(steps(j))
               && states(j + 1) == Do(cfg, states(j), steps(j))
    ensures false
    decreases UnsealsLeft(cfg, states(i)), Distance(states(i))
  {
    OwnStepsDescend(cfg, states(i), steps(i));
    UnsealsLeftIsNatural(cfg, states(i));
    NoEndlessRun(cfg, states, steps, i + 1);
  }

  /** Whatever the object in work, its turn can end. */
  lemma SomeEnd(cfg: Config, w: World) returns (end: Step)
    requires w.inHand.Some? && cfg.rings != iset{}
    ensures end.End? && CanStep(cfg, w, end)
  {
    var r: Result<Secret, UnsealError> := Err(DeprecatedData);
    if w.inHand.value.snapshot.Some? {
      var ss := w.inHand.value.snapshot.value;
      var keys :| keys in cfg.rings;
      r := AnyResult(cfg.c, cfg.templates, Converted(ss), keys);
      assert Attempts(cfg, ss, r);
    }
    end := End(NO_FAULTS, r, None, None);
  }

  /** And it stops only at rest: as long as anything is outstanding, some step of its own is possible. */
  lemma StuckOnlyAtRest(cfg: Config, w: World)
    requires QueueOk(w) && cfg.rings != iset{}
    ensures Quiet(w) <==> forall step :: IsExternal(step) || !CanStep(cfg, w, step)
  {
    assert w.queue.order != [] ==> w.queue.order[0] in w.queue.order;
    if Quiet(w) {
      assert w.queue.order == [];
    } else {
      if w.watch != [] {
        assert CanStep(cfg, w, ApplyWatch);
      } else if w.notes != [] {
        assert CanStep(cfg, w, DeliverNote);
      } else if w.deletions != [] {
        assert CanStep(cfg, w, DeliverDeletion(false));
      } else if w.inHand.Some? {
        var end := SomeEnd(cfg, w);
      } else if w.queue.delayed != {} {
        var k :| k in w.queue.delayed;
        assert CanStep(cfg, w, RetryReady(k));
      } else {
        var k :| k in w.queue.dirty;
        assert k in w.queue.order;
        assert CanStep(cfg, w, Begin);
      }
    }
  }
}
