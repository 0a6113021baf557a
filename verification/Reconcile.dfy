/** What one reconcile does to the stored Secret: create, refuse, overwrite or patch. */
module Reconcile {
  import opened Base
  import opened Types

  /** How the API server and the informer's index answer during one reconcile. */
  datatype Answers = Answers(
    indexerFails: bool, getFails: bool, createFails: bool, updateFails: bool, deleteFails: bool, statusFails: bool)

  const NO_FAULTS := Answers(false, false, false, false, false, false)

  datatype Verdict = Done | ImmutableTarget | Failed(message: string)

  // ---- Ownership ----------------------------------------------------------------------------

  /** The UID of the first owner reference marked as controller. */
  function ControllerUid(refs: seq<OwnerReference>): Option<string> {
    if refs == [] then None
    else if refs[0].controller then Some(refs[0].uid)
    else ControllerUid(refs[1..])
  }

  predicate IsControlledBy(secret: Secret, owner: SealedSecret) {
    ControllerUid(secret.meta.ownerReferences) == Some(owner.meta.uid)
  }

  predicate IsAnnotatedToBeManaged(secret: Secret) {
    IsTrue(secret.meta.annotations, MANAGED)
  }

  predicate IsAnnotatedToBePatched(secret: Secret) {
    IsTrue(secret.meta.annotations, PATCH)
  }

  /** May the controller of `ss` write this Secret? */
  predicate MayWrite(secret: Secret, ss: SealedSecret) {
    IsControlledBy(secret, ss) || IsAnnotatedToBeManaged(secret) || IsAnnotatedToBePatched(secret)
  }

  // ---- The target ---------------------------------------------------------------------------

  function Patched(s: Secret, n: Secret): Secret {
    var annotations := s.meta.annotations + n.meta.annotations;
    s.(data := s.data + n.data,
       secretType := n.secretType,
       meta := s.meta.(
         labels := s.meta.labels + n.meta.labels,
         annotations := annotations,
         ownerReferences :=
           if IsTrue(annotations, MANAGED) then n.meta.ownerReferences else s.meta.ownerReferences))
  }

  function Overwritten(s: Secret, n: Secret): Secret {
    s.(data := n.data,
       secretType := n.secretType,
       meta := s.meta.(
         labels := n.meta.labels, annotations := n.meta.annotations, ownerReferences := n.meta.ownerReferences))
  }

  function Target(s: Secret, n: Secret): Secret {
    if IsAnnotatedToBePatched(s) then Patched(s, n) else Overwritten(s, n)
  }

  /** One range loop copying the entries of a map into another. */
  method CopyInto<V>(into: map<string, V>, from: map<string, V>) returns (r: map<string, V>)
    ensures r == into + from
  {
    r := into;
    var remaining := from.Keys;
    VisitAllAndNone(into, from);
    while remaining != {}
      invariant remaining <= from.Keys
      invariant r == into + (from - remaining)
      decreases |remaining|
    {
      var k :| k in remaining;
      VisitOne(into, from, remaining, k);
      r := r[k := from[k]];
      remaining := remaining - {k};
    }
  }

  method MakeTarget(orig: Secret, newSecret: Secret) returns (secret: Secret)
    ensures secret == Target(orig, newSecret)
  {
    secret := orig;
    if IsAnnotatedToBePatched(secret) {
      var data := CopyInto(secret.data, newSecret.data);
      secret := secret.(data := data);
      var labels := CopyInto(secret.meta.labels, newSecret.meta.labels);
      secret := secret.(meta := secret.meta.(labels := labels));
      var annotations := CopyInto(secret.meta.annotations, newSecret.meta.annotations);
      secret := secret.(meta := secret.meta.(annotations := annotations));
      if IsAnnotatedToBeManaged(secret) {
        secret := secret.(meta := secret.meta.(ownerReferences := newSecret.meta.ownerReferences));
      }
    } else {
      secret := secret.(data := newSecret.data);
      secret := secret.(meta := secret.meta.(annotations := newSecret.meta.annotations));
      secret := secret.(meta := secret.meta.(labels := newSecret.meta.labels));
      secret := secret.(meta := secret.meta.(ownerReferences := newSecret.meta.ownerReferences));
    }
    secret := secret.(secretType := newSecret.secretType);
  }

  /** The API server keeps the data of an immutable Secret. */
  predicate RejectedAsImmutable(old': Secret, new': Secret) {
    old'.immutable == Some(true) && new'.data != old'.data
  }

  const GET_FAILED := "get failed"
  const CREATE_FAILED := "create failed"
  const UPDATE_FAILED := "update failed"
  const UNMANAGED := "failed update: Resource already exists and is not managed by SealedSecret"

  /** The stored Secret after a reconcile that unsealed `ss` to `n`, and how it went. */
  function Reconciled(stored: Option<Secret>, n: Secret, ss: SealedSecret, a: Answers): (Option<Secret>, Verdict) {
    if a.getFails then (stored, Failed(GET_FAILED))
    else if stored.None? && a.createFails then (stored, Failed(CREATE_FAILED))
    else
      var s := if stored.None? then n else stored.value;
      if !MayWrite(s, ss) then (Some(s), Failed(UNMANAGED))
      else if Target(s, n) == s then (Some(s), Done)
      else if a.updateFails then (Some(s), Failed(UPDATE_FAILED))
      else if RejectedAsImmutable(s, Target(s, n)) then (Some(s), ImmutableTarget)
      else (Some(Target(s, n)), Done)
  }

  // ---- What a reconcile does, from the fields ------------------------------------------------

  /** The first owner reference marked as controller has this UID. */
  ghost predicate FirstControllerIs(refs: seq<OwnerReference>, uid: string) {
    exists i :: 0 <= i < |refs| && refs[i].controller && refs[i].uid == uid && NoControllerBefore(refs, i)
  }

  ghost predicate NoControllerBefore(refs: seq<OwnerReference>, i: nat) {
    forall j :: 0 <= j < i && j < |refs| ==> !refs[j].controller
  }

  lemma {:induction false} ControllerIsFirst(refs: seq<OwnerReference>, uid: string)
    ensures ControllerUid(refs) == Some(uid) <==> FirstControllerIs(refs, uid)
  {
    if refs != [] && !refs[0].controller {
      ControllerIsFirst(refs[1..], uid);
      if i :| 0 <= i < |refs| && refs[i].controller && refs[i].uid == uid && NoControllerBefore(refs, i) {
        assert forall j :: 0 <= j < i - 1 ==> refs[1..][j] == refs[j + 1];
        assert refs[1..][i - 1] == refs[i] && NoControllerBefore(refs[1..], i - 1);
      }
      if i :| 0 <= i < |refs| - 1 && refs[1..][i].controller && refs[1..][i].uid == uid
              && NoControllerBefore(refs[1..], i) {
        assert forall j :: 0 < j < i + 1 ==> refs[j] == refs[1..][j - 1];
        assert refs[i + 1] == refs[1..][i] && NoControllerBefore(refs, i + 1);
      }
    } else if refs != [] {
      assert NoControllerBefore(refs, 0);
    }
  }

  predicate Annotated(s: Secret, k: string) {
    k in s.meta.annotations && s.meta.annotations[k] == "true"
  }

  /** Controlled by the sealed secret, or annotated to be managed or patched. */
  ghost predicate IsOurs(s: Secret, ss: SealedSecret) {
    || FirstControllerIs(s.meta.ownerReferences, ss.meta.uid)
    || Annotated(s, MANAGED) || Annotated(s, PATCH)
  }

  /** `s` carries everything `n` has. */
  ghost predicate Carries(s: Secret, n: Secret) {
    && s.secretType == n.secretType
    && (forall k :: k in n.data ==> k in s.data && s.data[k] == n.data[k])
    && (forall k :: k in n.meta.labels ==> k in s.meta.labels && s.meta.labels[k] == n.meta.labels[k])
    && (forall k :: k in n.meta.annotations ==>
          k in s.meta.annotations && s.meta.annotations[k] == n.meta.annotations[k])
  }

  ghost predicate SameContent(s: Secret, n: Secret) {
    && s.data == n.data && s.meta.labels == n.meta.labels && s.meta.annotations == n.meta.annotations
    && s.meta.ownerReferences == n.meta.ownerReferences
  }

  /** What `n` makes of `s`: put over it if `s` is to be patched, in its place if not; identity stays that of `s`. */
  ghost predicate IsMadeOf(t: Secret, s: Secret, n: Secret) {
    && t.secretType == n.secretType && t.immutable == s.immutable && t.stringData == s.stringData
    && t.meta.name == s.meta.name && t.meta.namespace == s.meta.namespace
    && t.meta.uid == s.meta.uid && t.meta.generation == s.meta.generation
    && (if Annotated(s, PATCH) then
          && Overlays(t.data, s.data, n.data)
          && Overlays(t.meta.labels, s.meta.labels, n.meta.labels)
          && Overlays(t.meta.annotations, s.meta.annotations, n.meta.annotations)
          && t.meta.ownerReferences == if Annotated(t, MANAGED) then n.meta.ownerReferences else s.meta.ownerReferences
        else
          SameContent(t, n))
  }

  /**
   * Over an existing Secret: refused exactly when it is not ours; otherwise made of the new one, unless an update
   * fails or the data of an immutable Secret would change, and nothing is sent when there is nothing to change.
   */
  lemma ReconcileMeans(s: Secret, n: Secret, ss: SealedSecret, a: Answers) returns (t: Secret)
    ensures IsMadeOf(t, s, n)
    ensures Reconciled(Some(s), n, ss, a) ==
            if a.getFails then (Some(s), Failed(GET_FAILED))
            else if !IsOurs(s, ss) then (Some(s), Failed(UNMANAGED))
            else if t == s then (Some(s), Done)
            else if a.updateFails then (Some(s), Failed(UPDATE_FAILED))
            else if s.immutable == Some(true) && t.data != s.data then (Some(s), ImmutableTarget)
            else (Some(t), Done)
  {
    ControllerIsFirst(s.meta.ownerReferences, ss.meta.uid);
    t := Target(s, n);
  }

  /** Over none: it is created as unsealed, and kept; but a Secret that is not ours then is reported. */
  lemma CreateMeans(n: Secret, ss: SealedSecret, a: Answers)
    ensures Reconciled(None, n, ss, a) ==
            if a.getFails then (None, Failed(GET_FAILED))
            else if a.createFails then (None, Failed(CREATE_FAILED))
            else (Some(n), if IsOurs(n, ss) then Done else Failed(UNMANAGED))
  {
    ControllerIsFirst(n.meta.ownerReferences, ss.meta.uid);
    SameIsTarget(n, n);
  }

  /** The ordinary update: a Secret that is ours and not immutable takes the new content. */
  lemma OwnedSecretIsUpdated(s: Secret, n: Secret, ss: SealedSecret)
    requires IsOurs(s, ss) && s.immutable != Some(true)
    ensures var (after, verdict) := Reconciled(Some(s), n, ss, NO_FAULTS);
      && verdict.Done? && after.Some? && Carries(after.value, n)
      && (!Annotated(s, PATCH) ==> SameContent(after.value, n))
  {
    var t := ReconcileMeans(s, n, ss, NO_FAULTS);
    DoneMeansAgreement(Some(s), n, ss, NO_FAULTS);
  }

  // ---- Fixpoint -----------------------------------------------------------------------------

  /** Where a reconcile that meets no fault leads. */
  function Next(stored: Option<Secret>, n: Secret, ss: SealedSecret): Option<Secret> {
    Reconciled(stored, n, ss, NO_FAULTS).0
  }

  /** Whatever the API answers, a reconcile stays put or makes the fault-free move. */
  lemma StaysOrMoves(stored: Option<Secret>, n: Secret, ss: SealedSecret, a: Answers)
    ensures Reconciled(stored, n, ss, a).0 == stored || Reconciled(stored, n, ss, a).0 == Next(stored, n, ss)
  {
  }

  lemma SameIsTarget(s: Secret, n: Secret)
    requires s.data == n.data && s.secretType == n.secretType
    requires s.meta.labels == n.meta.labels && s.meta.annotations == n.meta.annotations
    requires s.meta.ownerReferences == n.meta.ownerReferences
    ensures Target(s, n) == s
  {
  }

  lemma PatchTwice(s: Secret, n: Secret)
    ensures Patched(Patched(s, n), n) == Patched(s, n)
  {
  }

  /** A patch can drop the patch annotation, so an overwrite may follow; after that nothing moves. */
  lemma TargetSettles(s: Secret, n: Secret)
    ensures !IsAnnotatedToBePatched(s) ==> Target(Target(s, n), n) == Target(s, n)
    ensures var t := Target(Target(s, n), n); Target(t, n) == t
  {
    if IsAnnotatedToBePatched(s) {
      PatchTwice(s, n);
      SameIsTarget(Overwritten(Patched(s, n), n), n);
    } else {
      SameIsTarget(Overwritten(s, n), n);
    }
  }

  /** At most two fault-free moves from any Secret, one when there was none, reach a fixpoint. */
  lemma NextSettles(stored: Option<Secret>, n: Secret, ss: SealedSecret)
    ensures var two := Next(Next(stored, n, ss), n, ss); Next(two, n, ss) == two
    ensures stored.None? ==> Next(stored, n, ss) == Some(n) && Next(Some(n), n, ss) == Some(n)
  {
    SameIsTarget(n, n);
    if stored.Some? {
      TargetSettles(stored.value, n);
    }
  }

  /** How many moves are left. */
  function MovesLeft(stored: Option<Secret>, n: Secret, ss: SealedSecret): nat {
    var one := Next(stored, n, ss);
    if one == stored then 0 else if Next(one, n, ss) == one then 1 else 2
  }

  /** The stored Secret after any number of reconciles under any answers, and how often it changed. */
  function Rounds(stored: Option<Secret>, n: Secret, ss: SealedSecret, rounds: seq<Answers>): (Option<Secret>, nat) {
    if rounds == [] then (stored, 0)
    else
      var (before, changes) := Rounds(stored, n, ss, rounds[..|rounds| - 1]);
      var after := Reconciled(before, n, ss, rounds[|rounds| - 1]).0;
      (after, if after == before then changes else changes + 1)
  }

  lemma MoveUsesOne(stored: Option<Secret>, n: Secret, ss: SealedSecret, a: Answers)
    ensures var after := Reconciled(stored, n, ss, a).0;
      MovesLeft(after, n, ss) <= MovesLeft(stored, n, ss) - (if after == stored then 0 else 1)
  {
    StaysOrMoves(stored, n, ss, a);
    NextSettles(stored, n, ss);
  }

  lemma {:induction false} RoundsAddUp(stored: Option<Secret>, n: Secret, ss: SealedSecret, rounds: seq<Answers>)
    ensures var (after, changes) := Rounds(stored, n, ss, rounds);
      changes + MovesLeft(after, n, ss) <= MovesLeft(stored, n, ss)
  {
    if rounds != [] {
      var front := rounds[..|rounds| - 1];
      RoundsAddUp(stored, n, ss, front);
      MoveUsesOne(Rounds(stored, n, ss, front).0, n, ss, rounds[|rounds| - 1]);
    }
  }

  /** Any number of reconciles, whatever fails in between, changes the Secret at most twice; once if absent. */
  lemma ReconcileReachesFixpoint(stored: Option<Secret>, n: Secret, ss: SealedSecret, rounds: seq<Answers>)
    ensures Rounds(stored, n, ss, rounds).1 <= 2
    ensures stored.None? ==> Rounds(stored, n, ss, rounds).1 <= 1
  {
    RoundsAddUp(stored, n, ss, rounds);
    NextSettles(stored, n, ss);
  }

  /** Once two reconciles met no fault, every further one is a no-op or a refusal. */
  lemma {:induction false} SettledForGood(
    stored: Option<Secret>, n: Secret, ss: SealedSecret, rounds: seq<Answers>)
    ensures var two := Next(Next(stored, n, ss), n, ss); Rounds(two, n, ss, rounds) == (two, 0)
  {
    var two := Next(Next(stored, n, ss), n, ss);
    NextSettles(stored, n, ss);
    if rounds != [] {
      SettledForGood(stored, n, ss, rounds[..|rounds| - 1]);
      StaysOrMoves(two, n, ss, rounds[|rounds| - 1]);
    }
  }

  /** Two is needed: a patch that clears the patch annotation on a managed Secret is followed by an overwrite. */
  lemma TwoChangesHappen(ss: SealedSecret)
    ensures exists s: Secret, n: Secret ::
              Rounds(Some(s), n, ss, [NO_FAULTS, NO_FAULTS]).1 == 2
  {
    var meta := ObjectMeta("x", "y", "", 0, map[], map[PATCH := "true", MANAGED := "true"], []);
    var s := Secret(meta, map["old" := []], map[], "", None);
    var n := Secret(meta.(annotations := map[PATCH := "false", MANAGED := "true"]), map["new" := []], map[], "", None);
    var rounds := [NO_FAULTS, NO_FAULTS];
    assert rounds[..1] == [NO_FAULTS] && [NO_FAULTS][..0] == [];
    assert Rounds(Some(s), n, ss, []) == (Some(s), 0);
    var p := Patched(s, n);
    assert "old" in p.data && "new" in p.data && "old" !in n.data && "new" !in s.data;
    assert p.meta.annotations[PATCH] == "false" && p.meta.annotations[MANAGED] == "true";
    assert "false"[0] != "true"[0];
    assert Next(Some(s), n, ss) == Some(p);
    assert Next(Some(p), n, ss) == Some(Overwritten(p, n));
    assert Rounds(Some(s), n, ss, [NO_FAULTS]) == (Some(p), 1);
    assert "old" !in Overwritten(p, n).data;
    assert rounds[..|rounds| - 1] == [NO_FAULTS] && rounds[|rounds| - 1] == NO_FAULTS;
    assert Rounds(Some(s), n, ss, rounds) == (Some(Overwritten(p, n)), 2);
  }

  // ---- Ownership and frame -------------------------------------------------------------------

  /** A Secret the controller may not write is left alone, and the failure is reported. */
  lemma ForeignSecretIsUntouched(s: Secret, n: Secret, ss: SealedSecret, a: Answers)
    requires !MayWrite(s, ss)
    ensures Reconciled(Some(s), n, ss, a).0 == Some(s) && Reconciled(Some(s), n, ss, a).1.Failed?
  {
  }

  /** Patching keeps every data key, label and annotation the sealed secret does not name. */
  lemma PatchDropsNothing(s: Secret, n: Secret, ss: SealedSecret, a: Answers)
    requires IsAnnotatedToBePatched(s)
    ensures Reconciled(Some(s), n, ss, a).0.Some?
    ensures var r := Reconciled(Some(s), n, ss, a).0.value;
      && (forall k :: k in s.data ==> k in r.data && (k !in n.data ==> r.data[k] == s.data[k]))
      && (forall k :: k in s.meta.labels ==>
            k in r.meta.labels && (k !in n.meta.labels ==> r.meta.labels[k] == s.meta.labels[k]))
      && (forall k :: k in s.meta.annotations ==>
            k in r.meta.annotations && (k !in n.meta.annotations ==> r.meta.annotations[k] == s.meta.annotations[k]))
      && (!IsAnnotatedToBeManaged(r) ==> r.meta.ownerReferences == s.meta.ownerReferences)
  {
  }

  /** A write changes neither identity nor immutability, nor the data of an immutable Secret. */
  lemma WriteKeepsIdentity(s: Secret, n: Secret, ss: SealedSecret, a: Answers)
    ensures Reconciled(Some(s), n, ss, a).0.Some?
    ensures var r := Reconciled(Some(s), n, ss, a).0.value;
      && r.meta.name == s.meta.name && r.meta.namespace == s.meta.namespace && r.meta.uid == s.meta.uid
      && r.immutable == s.immutable && (s.immutable == Some(true) ==> r.data == s.data)
  {
  }

  // ---- Agreement ----------------------------------------------------------------------------

  /** Patching with `n` would set the patch annotation to something else than "true". */
  predicate SwitchesOff(n: Secret) {
    PATCH in n.meta.annotations && !IsTrue(n.meta.annotations, PATCH)
  }

  /**
   * `s` is what a reconcile leaves that found a Secret to be patched, or not: a superset that stays one to be
   * patched unless `n` switches that off, or the same; managed, with the sealed secret's owner references.
   */
  ghost predicate Agrees(s: Secret, n: Secret, patched: bool) {
    && Carries(s, n)
    && (IsAnnotatedToBeManaged(s) ==> s.meta.ownerReferences == n.meta.ownerReferences)
    && (if patched then SwitchesOff(n) || IsAnnotatedToBePatched(s) else SameContent(s, n))
  }

  predicate WasPatched(stored: Option<Secret>) {
    stored.Some? && IsAnnotatedToBePatched(stored.value)
  }

  /** Success means agreement. */
  lemma DoneMeansAgreement(stored: Option<Secret>, n: Secret, ss: SealedSecret, a: Answers)
    requires Reconciled(stored, n, ss, a).1.Done?
    ensures Reconciled(stored, n, ss, a).0.Some?
    ensures Agrees(Reconciled(stored, n, ss, a).0.value, n, WasPatched(stored))
  {
    SameIsTarget(n, n);
  }

  /** Exactly when the result is the same and not just a superset: nothing of a patched Secret was foreign to `n`. */
  lemma DoneIsExactIff(stored: Option<Secret>, n: Secret, ss: SealedSecret, a: Answers)
    requires Reconciled(stored, n, ss, a).1.Done?
    ensures Reconciled(stored, n, ss, a).0.Some?
    ensures SameContent(Reconciled(stored, n, ss, a).0.value, n) <==>
              (WasPatched(stored) ==>
                 && stored.value.data.Keys <= n.data.Keys
                 && stored.value.meta.labels.Keys <= n.meta.labels.Keys
                 && stored.value.meta.annotations.Keys <= n.meta.annotations.Keys
                 && (IsTrue(n.meta.annotations, MANAGED)
                     || stored.value.meta.ownerReferences == n.meta.ownerReferences))
  {
    DoneMeansAgreement(stored, n, ss, a);
    if WasPatched(stored) {
      var s := stored.value;
      assert Reconciled(stored, n, ss, a).0.value == Patched(s, n);
      OverlayIsSecondIff(s.data, n.data);
      OverlayIsSecondIff(s.meta.labels, n.meta.labels);
      OverlayIsSecondIff(s.meta.annotations, n.meta.annotations);
    }
  }

  lemma OverlayIsSecondIff<K, V>(a: map<K, V>, b: map<K, V>)
    ensures a + b == b <==> a.Keys <= b.Keys
  {
    if a + b == b {
      assert forall k :: k in a ==> k in (a + b);
    }
  }

  // ---- Fixpoints and agreement ----------------------------------------------------------------

  lemma AgreementIsTarget(s: Secret, n: Secret, patched: bool)
    requires Agrees(s, n, patched) && !(patched && SwitchesOff(n))
    ensures Target(s, n) == s
  {
    if patched {
      assert s.data + n.data == s.data && s.meta.labels + n.meta.labels == s.meta.labels;
      assert s.meta.annotations + n.meta.annotations == s.meta.annotations;
    } else {
      SameIsTarget(s, n);
    }
  }

  /**
   * Exactly when an agreeing Secret is left alone from then on: unless the patch that made it switched patching
   * off, and left something that may be, and can be, overwritten.
   */
  lemma AgreementRestsIff(s: Secret, n: Secret, ss: SealedSecret, patched: bool)
    requires Agrees(s, n, patched)
    ensures Next(Some(s), n, ss) == Some(s) <==>
              || !(patched && SwitchesOff(n))
              || !MayWrite(s, ss) || SameContent(s, n) || RejectedAsImmutable(s, Overwritten(s, n))
  {
    if !(patched && SwitchesOff(n)) {
      AgreementIsTarget(s, n, patched);
    } else if SameContent(s, n) {
      SameIsTarget(s, n);
    } else {
      assert !IsAnnotatedToBePatched(s);
    }
  }

  /**
   * A patch that switches patching off leaves behind every key the sealed secret does not name; the next
   * reconcile drops it, but only from a Secret the controller may still write.
   */
  lemma PatchSwitchedOffLeavesKeys(s: Secret, n: Secret, ss: SealedSecret, k: string)
    returns (left: Secret)
    requires IsAnnotatedToBePatched(s) && SwitchesOff(n) && s.immutable != Some(true)
    requires k in s.data && k !in n.data
    ensures Reconciled(Some(s), n, ss, NO_FAULTS) == (Some(left), Done)
    ensures !IsAnnotatedToBePatched(left) && k in left.data && left.data[k] == s.data[k] && !SameContent(left, n)
    ensures Next(Some(left), n, ss) == Some(if MayWrite(left, ss) then Overwritten(left, n) else left)
    ensures SameContent(Overwritten(left, n), n)
  {
    left := Patched(s, n);
    assert k in left.data && left.meta.annotations[PATCH] == n.meta.annotations[PATCH];
  }

  /** The fixpoints of reconciling are the Secrets in agreement and the standing refusals. */
  lemma FixpointIsAgreementOrRefusal(s: Secret, n: Secret, ss: SealedSecret)
    ensures Next(Some(s), n, ss) == Some(s) <==>
              || !MayWrite(s, ss)
              || Agrees(s, n, IsAnnotatedToBePatched(s))
              || RejectedAsImmutable(s, Target(s, n))
    ensures Reconciled(Some(s), n, ss, NO_FAULTS).1.Failed? <==> !MayWrite(s, ss)
    ensures Reconciled(Some(s), n, ss, NO_FAULTS).1.ImmutableTarget? <==>
              MayWrite(s, ss) && RejectedAsImmutable(s, Target(s, n))
  {
    var patched := IsAnnotatedToBePatched(s);
    if Agrees(s, n, patched) {
      assert !(patched && SwitchesOff(n));
      AgreementIsTarget(s, n, patched);
    } else if Target(s, n) == s {
      TargetAgrees(s, n);
    }
  }

  lemma TargetAgrees(s: Secret, n: Secret)
    ensures Agrees(Target(s, n), n, IsAnnotatedToBePatched(s))
  {
  }
}
