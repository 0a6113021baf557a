/** Over whole runs: a reconcile touches its own key only, and a foreign Secret is never changed. */
module Ownership {
  import opened Base
  import opened Types
  import opened Reconcile
  import opened WorkQueue
  import opened Controller
  import opened Informer
  import opened Convergence

  /**
   * In every run no step of the controller changes a Secret other than that of the key in work: the Secret is stored
   * under the name and namespace unsealing pins, whatever the template asks for.
   */
  lemma OnlyOwnKeyIsTouched(cfg: Config, states: seq<World>, steps: seq<Step>, i: nat, k: ObjectKey)
    requires IsRun(cfg, states, steps) && Initial(states[0]) && i < |steps| && !IsExternal(steps[i])
    requires steps[i].End? ==> states[i].inHand.value.key != k
    ensures Lookup(states[i + 1].secrets, k) == Lookup(states[i].secrets, k)
  {
    AddressedAlways(cfg, states, steps, i);
    if steps[i].End? {
      EndTouchesOwn(cfg, states[i], steps[i], k);
    }
  }

  /** Neither annotated managed nor patch. */
  predicate Unannotated(s: Secret) {
    !IsAnnotatedToBeManaged(s) && !IsAnnotatedToBePatched(s)
  }

  /** No version of the sealed secret `k` that is anywhere in the system controls `s`. */
  ghost predicate NobodyControls(w: World, k: ObjectKey, s: Secret) {
    && (k in w.sealed ==> !IsControlledBy(s, w.sealed[k]))
    && (k in w.cache ==> !IsControlledBy(s, w.cache[k]))
    && (forall e :: e in w.watch && e.Put? && e.key == k ==> !IsControlledBy(s, e.ss))
    && (w.inHand.Some? && w.inHand.value.key == k && w.inHand.value.snapshot.Some? ==>
          !IsControlledBy(s, w.inHand.value.snapshot.value))
  }

  /** A Secret that is not the controller's. */
  ghost predicate Foreign(w: World, k: ObjectKey, s: Secret) {
    Lookup(w.secrets, k) == Some(s) && Unannotated(s) && NobodyControls(w, k, s)
  }

  /** The outside world leaves it alone, and gives its owner's UID to no new sealed secret. */
  ghost predicate LeavesAlone(step: Step, k: ObjectKey, s: Secret) {
    && (step.DeleteSecret? ==> step.key != k)
    && (step.PutSealed? && step.key == k ==> !IsControlledBy(s, step.ss))
  }

  lemma EndKeepsNobody(cfg: Config, w: World, step: Step, k: ObjectKey, s: Secret)
    requires CanStep(cfg, w, step) && step.End? && NobodyControls(w, k, s)
    ensures NobodyControls(Do(cfg, w, step), k, s)
  {
    var w', x := Do(cfg, w, step), w.inHand.value.key;
    EndFrame(cfg, w, step);
    assert BareAt(w.sealed, k) == BareAt(w'.sealed, k) && BareAt(w.cache, k) == BareAt(w'.cache, k);
    assert forall e :: e in w'.watch ==> e in w.watch || (e.Put? && e.key == x && Some(e.ss) == Lookup(w'.sealed, x));
  }

  lemma StepKeepsNobody(cfg: Config, w: World, step: Step, k: ObjectKey, s: Secret)
    requires CanStep(cfg, w, step) && NobodyControls(w, k, s) && LeavesAlone(step, k, s)
    ensures NobodyControls(Do(cfg, w, step), k, s)
  {
    var w' := Do(cfg, w, step);
    match step {
      case PutSealed(x, ss) =>
        assert forall e :: e in w'.watch ==> e in w.watch || e == Put(x, ss);
      case RemoveSealed(x) =>
        assert forall e :: e in w'.watch ==> e in w.watch || e == Removed(x);
      case ApplyWatch =>
        assert w.watch[0] in w.watch;
        assert forall e :: e in w'.watch ==> e in w.watch;
      case End(_, _, _, _) => EndKeepsNobody(cfg, w, step, k, s);
      case _ =>
    }
  }

  /** The worker removes a Secret only when it collects garbage the old way, and then by name alone. */
  predicate CollectsSecret(cfg: Config, w: World, step: Step, k: ObjectKey) {
    && cfg.oldGCBehavior && step.End? && w.inHand == Some(Work(k, None))
    && !step.answers.indexerFails && !step.answers.deleteFails
  }

  lemma EndKeepsForeign(cfg: Config, w: World, step: Step, k: ObjectKey, s: Secret)
    requires Addressed(w) && CanStep(cfg, w, step) && step.End? && Foreign(w, k, s)
    ensures Lookup(Do(cfg, w, step).secrets, k) == if CollectsSecret(cfg, w, step, k) then None else Some(s)
  {
    var work := w.inHand.value;
    if work.key != k {
      EndTouchesOwn(cfg, w, step, k);
    } else if work.snapshot.Some? && !step.answers.indexerFails && step.r.Ok? {
      AttemptKeepsAddress(cfg, work.snapshot.value, step.r.value);
      ForeignSecretIsUntouched(s, step.r.value, work.snapshot.value, step.answers);
    }
  }

  /** No step ever changes a foreign Secret, and of all steps exactly two kinds remove it. */
  lemma OldGCDeletesForeignSecrets(cfg: Config, w: World, step: Step, k: ObjectKey, s: Secret)
    requires Addressed(w) && CanStep(cfg, w, step) && Foreign(w, k, s)
    ensures Lookup(Do(cfg, w, step).secrets, k) in {None, Some(s)}
    ensures k !in Do(cfg, w, step).secrets <==> step == DeleteSecret(k) || CollectsSecret(cfg, w, step, k)
  {
    if step.End? {
      EndKeepsForeign(cfg, w, step, k, s);
    }
  }

  /** A pre-existing Secret that is neither controlled nor annotated is never changed by any run. */
  lemma {:induction false} ForeignSecretsSurvive(
    cfg: Config, states: seq<World>, steps: seq<Step>, i: nat, k: ObjectKey, s: Secret)
    requires IsRun(cfg, states, steps) && Addressed(states[0]) && !cfg.oldGCBehavior && i < |states|
    requires Foreign(states[0], k, s)
    requires forall j :: 0 <= j < |steps| ==> LeavesAlone(steps[j], k, s)
    ensures Foreign(states[i], k, s)
  {
    if i > 0 {
      ForeignSecretsSurvive(cfg, states, steps, i - 1, k, s);
      AddressedAlways(cfg, states, steps, i - 1);
      OldGCDeletesForeignSecrets(cfg, states[i - 1], steps[i - 1], k, s);
      StepKeepsNobody(cfg, states[i - 1], steps[i - 1], k, s);
    }
  }
}
