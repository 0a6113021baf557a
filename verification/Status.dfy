/** The Synced condition of a sealed secret, over any number of reconciles. */
module Status {
  import opened Base

  const SYNCED := "Synced"
  const CONDITION_TRUE := "True"
  const CONDITION_FALSE := "False"

  datatype Condition = Condition(
    kind: string, status: string, lastUpdateTime: int, lastTransitionTime: int, reason: string, message: string)

  /** A status as a value. */
  datatype Snapshot = Snapshot(observedGeneration: int, conditions: seq<Condition>)

  /** One reconcile: its error, if any, when it ended, and the generation it saw. */
  datatype Outcome = Outcome(error: Option<string>, now: int, generation: int)

  function StatusOf(error: Option<string>): string {
    if error.None? then CONDITION_TRUE else CONDITION_FALSE
  }

  function MessageOf(error: Option<string>): string {
    if error.None? then "" else error.value
  }

  /** The first Synced condition, or one past the end. */
  function SyncedIndex(conditions: seq<Condition>): (i: nat)
    ensures i <= |conditions|
    ensures forall j :: 0 <= j < i ==> conditions[j].kind != SYNCED
    ensures i < |conditions| ==> conditions[i].kind == SYNCED
  {
    if conditions == [] || conditions[0].kind == SYNCED then 0 else 1 + SyncedIndex(conditions[1..])
  }

  /** The condition as it stands, or the blank one about to be appended. */
  function SyncedCondition(conditions: seq<Condition>): Condition {
    var i := SyncedIndex(conditions);
    if i < |conditions| then conditions[i] else Condition(SYNCED, "", 0, 0, "", "")
  }

  function Refreshed(c: Condition, error: Option<string>, now: int): Condition {
    c.(status := StatusOf(error), message := MessageOf(error), lastUpdateTime := now,
       lastTransitionTime := if c.status != StatusOf(error) then now else c.lastTransitionTime)
  }

  function Observed(conditions: seq<Condition>, error: Option<string>, now: int): seq<Condition> {
    var i := SyncedIndex(conditions);
    conditions[..i] + [Refreshed(SyncedCondition(conditions), error, now)]
      + (if i < |conditions| then conditions[i + 1..] else [])
  }

  predicate Flips(conditions: seq<Condition>, error: Option<string>) {
    SyncedCondition(conditions).status != StatusOf(error)
  }

  function After(s: Snapshot, e: Outcome): Snapshot {
    Snapshot(e.generation, Observed(s.conditions, e.error, e.now))
  }

  predicate NeedsWrite(s: Snapshot, e: Outcome) {
    Flips(s.conditions, e.error) || s.observedGeneration != e.generation
  }

  class SealedSecretStatus {
    var observedGeneration: int
    var conditions: seq<Condition>

    constructor (s: Snapshot)
      ensures Value() == s
    {
      observedGeneration, conditions := s.observedGeneration, s.conditions;
    }

    function Value(): Snapshot
      reads this
    {
      Snapshot(observedGeneration, conditions)
    }

    method UpdateConditions(error: Option<string>, now: int) returns (updateRequired: bool)
      modifies this
      ensures conditions == Observed(old(conditions), error, now)
      ensures updateRequired == Flips(old(conditions), error)
      ensures observedGeneration == old(observedGeneration)
    {
      var i := 0;
      while i < |conditions| && conditions[i].kind != SYNCED
        invariant 0 <= i <= |conditions| && conditions == old(conditions)
        invariant forall j :: 0 <= j < i ==> conditions[j].kind != SYNCED
      {
        i := i + 1;
      }
      assert i == SyncedIndex(old(conditions));
      if i == |conditions| {
        conditions := conditions + [Condition(SYNCED, "", 0, 0, "", "")];
      }
      var cond := conditions[i];
      var status;
      if error.None? {
        status := CONDITION_TRUE;
        cond := cond.(message := "");
      } else {
        status := CONDITION_FALSE;
        cond := cond.(message := error.value);
      }
      cond := cond.(lastUpdateTime := now);
      updateRequired := false;
      if cond.status != status {
        cond := cond.(lastTransitionTime := cond.lastUpdateTime);
        cond := cond.(status := status);
        updateRequired := true;
      }
      conditions := conditions[i := cond];
    }

    /** What happens to the cached status after a reconcile; says whether the API must be told. */
    method Update(e: Outcome) returns (write: bool)
      modifies this
      ensures Value() == After(old(Value()), e)
      ensures write == NeedsWrite(old(Value()), e)
    {
      var updateRequired := UpdateConditions(e.error, e.now);
      write := updateRequired || observedGeneration != e.generation;
      observedGeneration := e.generation;
    }
  }

  // ---- Over a history of reconciles ----------------------------------------------------------

  function Run(s: Snapshot, es: seq<Outcome>): Snapshot {
    if es == [] then s else After(Run(s, es[..|es| - 1]), es[|es| - 1])
  }

  /** The Synced status just before reconcile number `n`. */
  function StatusBefore(s: Snapshot, es: seq<Outcome>, n: nat): string
    requires n <= |es|
  {
    if n == 0 then SyncedCondition(s.conditions).status else StatusOf(es[n - 1].error)
  }

  predicate IsFlip(s: Snapshot, es: seq<Outcome>, n: nat)
    requires n < |es|
  {
    StatusBefore(s, es, n) != StatusOf(es[n].error)
  }

  function GenerationBefore(s: Snapshot, es: seq<Outcome>, n: nat): int
    requires n <= |es|
  {
    if n == 0 then s.observedGeneration else es[n - 1].generation
  }

  ghost predicate NeverFlips(s: Snapshot, es: seq<Outcome>) {
    forall n :: 0 <= n < |es| ==> !IsFlip(s, es, n)
  }

  ghost predicate LastFlip(s: Snapshot, es: seq<Outcome>, n: int) {
    0 <= n < |es| && IsFlip(s, es, n) && forall m :: n < m < |es| ==> !IsFlip(s, es, m)
  }

  /** `t` is when the status last flipped, or what it was before if it never did. */
  ghost predicate LastFlipAt(s: Snapshot, es: seq<Outcome>, t: int) {
    || (NeverFlips(s, es) && t == SyncedCondition(s.conditions).lastTransitionTime)
    || (exists n :: LastFlip(s, es, n) && t == es[n].now)
  }

  ghost predicate Monotone(es: seq<Outcome>) {
    forall i, j :: 0 <= i <= j < |es| ==> es[i].now <= es[j].now
  }

  lemma ObservedShape(conditions: seq<Condition>, error: Option<string>, now: int)
    ensures var i, r := SyncedIndex(conditions), Observed(conditions, error, now);
      && |r| == (if i < |conditions| then |conditions| else |conditions| + 1)
      && (forall j :: 0 <= j < |conditions| && j != i ==> r[j] == conditions[j])
      && SyncedIndex(r) == i && SyncedCondition(r) == r[i] == Refreshed(SyncedCondition(conditions), error, now)
  {
    var i, r := SyncedIndex(conditions), Observed(conditions, error, now);
    assert r[i].kind == SYNCED;
    assert forall j :: 0 <= j < i ==> r[j] == conditions[j];
  }

  ghost predicate FirstSynced(conditions: seq<Condition>, i: nat) {
    && i < |conditions| && conditions[i].kind == "Synced"
    && forall j :: 0 <= j < i ==> conditions[j].kind != "Synced"
  }

  /** One reconcile, from the fields: the first Synced condition, or a new one at the end, tells it all. */
  lemma AfterMeans(s: Snapshot, e: Outcome) returns (i: nat)
    ensures FirstSynced(After(s, e).conditions, i) && After(s, e).observedGeneration == e.generation
    ensures i < |s.conditions| ==> FirstSynced(s.conditions, i) && |After(s, e).conditions| == |s.conditions|
    ensures i >= |s.conditions| ==>
              && i == |s.conditions| && |After(s, e).conditions| == |s.conditions| + 1
              && forall j :: 0 <= j < |s.conditions| ==> s.conditions[j].kind != "Synced"
    ensures forall j :: 0 <= j < |s.conditions| && j != i ==> After(s, e).conditions[j] == s.conditions[j]
    ensures var c, new' := After(s, e).conditions[i], i == |s.conditions|;
      && c.status == (if e.error.None? then "True" else "False")
      && c.message == (if e.error.None? then "" else e.error.value) && c.lastUpdateTime == e.now
      && c.reason == (if new' then "" else s.conditions[i].reason)
      && c.lastTransitionTime ==
           if !new' && s.conditions[i].status == c.status then s.conditions[i].lastTransitionTime else e.now
    ensures NeedsWrite(s, e) <==>
            || s.observedGeneration != e.generation || i == |s.conditions|
            || s.conditions[i].status != After(s, e).conditions[i].status
  {
    i := SyncedIndex(s.conditions);
    ObservedShape(s.conditions, e.error, e.now);
    assert CONDITION_TRUE != "" && CONDITION_FALSE != "";
  }

  /** At most one condition is ever appended, and only the Synced one is ever touched. */
  lemma {:induction false} OnlySyncedChanges(s: Snapshot, es: seq<Outcome>)
    ensures var i, r := SyncedIndex(s.conditions), Run(s, es).conditions;
      && SyncedIndex(r) == i
      && (es != [] ==> |r| == (if i < |s.conditions| then |s.conditions| else |s.conditions| + 1))
      && (es == [] ==> r == s.conditions)
      && (forall j :: 0 <= j < |s.conditions| && j != i ==> j < |r| && r[j] == s.conditions[j])
      && SyncedCondition(r).reason == SyncedCondition(s.conditions).reason
  {
    if es != [] {
      var front, last := es[..|es| - 1], es[|es| - 1];
      OnlySyncedChanges(s, front);
      ObservedShape(Run(s, front).conditions, last.error, last.now);
    }
  }

  /** The condition always tells the last outcome. */
  lemma SyncedTellsLastOutcome(s: Snapshot, es: seq<Outcome>)
    ensures Run(s, es).observedGeneration == GenerationBefore(s, es, |es|)
    ensures SyncedCondition(Run(s, es).conditions).status == StatusBefore(s, es, |es|)
    ensures es != [] ==>
              var c := SyncedCondition(Run(s, es).conditions);
              c.message == MessageOf(es[|es| - 1].error) && c.lastUpdateTime == es[|es| - 1].now
  {
    if es != [] {
      var front, last := es[..|es| - 1], es[|es| - 1];
      ObservedShape(Run(s, front).conditions, last.error, last.now);
    }
  }

  lemma FlipInPrefix(s: Snapshot, es: seq<Outcome>, n: nat, m: nat)
    requires m < n <= |es|
    ensures IsFlip(s, es[..n], m) == IsFlip(s, es, m)
  {
  }

  lemma LastFlipStays(s: Snapshot, es: seq<Outcome>, k: int)
    requires es != [] && !IsFlip(s, es, |es| - 1)
    ensures NeverFlips(s, es[..|es| - 1]) ==> NeverFlips(s, es)
    ensures LastFlip(s, es[..|es| - 1], k) ==> LastFlip(s, es, k)
  {
    var n := |es| - 1;
    forall m | 0 <= m < n ensures IsFlip(s, es[..n], m) == IsFlip(s, es, m) {
      FlipInPrefix(s, es, n, m);
    }
  }

  lemma LastFlipExtends(s: Snapshot, es: seq<Outcome>, t: int)
    requires es != [] && LastFlipAt(s, es[..|es| - 1], t)
    ensures LastFlipAt(s, es, if IsFlip(s, es, |es| - 1) then es[|es| - 1].now else t)
  {
    var front := es[..|es| - 1];
    if IsFlip(s, es, |es| - 1) {
      assert LastFlip(s, es, |es| - 1);
    } else if NeverFlips(s, front) && t == SyncedCondition(s.conditions).lastTransitionTime {
      LastFlipStays(s, es, 0);
    } else {
      var k :| LastFlip(s, front, k) && t == front[k].now;
      LastFlipStays(s, es, k);
    }
  }

  /** Its transition time is that of the last flip. */
  lemma {:induction false} TransitionIsLastFlip(s: Snapshot, es: seq<Outcome>)
    ensures LastFlipAt(s, es, SyncedCondition(Run(s, es).conditions).lastTransitionTime)
  {
    if es != [] {
      var front, last := es[..|es| - 1], es[|es| - 1];
      TransitionIsLastFlip(s, front);
      SyncedTellsLastOutcome(s, front);
      ObservedShape(Run(s, front).conditions, last.error, last.now);
      LastFlipExtends(s, es, SyncedCondition(Run(s, front).conditions).lastTransitionTime);
    }
  }

  /** With a monotone clock the transition time never passes the update time. */
  lemma TransitionBeforeUpdate(s: Snapshot, es: seq<Outcome>)
    requires es != [] && Monotone(es)
    requires SyncedCondition(s.conditions).lastTransitionTime <= es[0].now
    ensures var c := SyncedCondition(Run(s, es).conditions); c.lastTransitionTime <= c.lastUpdateTime
  {
    TransitionIsLastFlip(s, es);
    SyncedTellsLastOutcome(s, es);
  }

  /** The API is written exactly on a flip or a generation change. */
  lemma WritesExactlyOnChange(s: Snapshot, es: seq<Outcome>, n: nat)
    requires n < |es|
    ensures NeedsWrite(Run(s, es[..n]), es[n]) <==>
            IsFlip(s, es, n) || GenerationBefore(s, es, n) != es[n].generation
  {
    SyncedTellsLastOutcome(s, es[..n]);
  }

  /** The status stored in the cluster when every write that is made succeeds. */
  function Stored(s: Snapshot, es: seq<Outcome>): Snapshot {
    if es == [] then s
    else
      var front := es[..|es| - 1];
      if NeedsWrite(Run(s, front), es[|es| - 1]) then Run(s, es) else Stored(s, front)
  }

  /** Skipping the other writes never leaves the stored status, transition time or generation behind. */
  lemma {:induction false} StoredIsCurrent(s: Snapshot, es: seq<Outcome>)
    ensures var a, b := SyncedCondition(Stored(s, es).conditions), SyncedCondition(Run(s, es).conditions);
      && a.status == b.status && a.lastTransitionTime == b.lastTransitionTime
      && Stored(s, es).observedGeneration == Run(s, es).observedGeneration
  {
    if es != [] {
      var front, last := es[..|es| - 1], es[|es| - 1];
      StoredIsCurrent(s, front);
      ObservedShape(Run(s, front).conditions, last.error, last.now);
    }
  }

  predicate IsWritten(s: Snapshot, es: seq<Outcome>, n: nat)
    requires n < |es|
  {
    IsFlip(s, es, n) || GenerationBefore(s, es, n) != es[n].generation
  }

  function StoredMessage(s: Snapshot, es: seq<Outcome>): string {
    SyncedCondition(Stored(s, es).conditions).message
  }

  /** `n` is the last reconcile whose status was written, or -1 if there was none. */
  ghost predicate LastWritten(s: Snapshot, es: seq<Outcome>, n: int) {
    -1 <= n < |es| && (n >= 0 ==> IsWritten(s, es, n)) && forall m :: n < m < |es| ==> !IsWritten(s, es, m)
  }

  lemma LastWrittenExtends(s: Snapshot, es: seq<Outcome>, n: int)
    requires es != [] && !IsWritten(s, es, |es| - 1) && LastWritten(s, es[..|es| - 1], n)
    ensures LastWritten(s, es, n)
  {
    var last := |es| - 1;
    forall m | 0 <= m < last ensures IsWritten(s, es[..last], m) == IsWritten(s, es, m) {
      FlipInPrefix(s, es, last, m);
    }
  }

  lemma {:induction false} StoredMessageIsLastWritten(s: Snapshot, es: seq<Outcome>) returns (n: int)
    ensures LastWritten(s, es, n)
    ensures StoredMessage(s, es) == if n >= 0 then MessageOf(es[n].error) else SyncedCondition(s.conditions).message
  {
    if es == [] {
      n := -1;
    } else {
      var last := |es| - 1;
      WritesExactlyOnChange(s, es, last);
      if IsWritten(s, es, last) {
        n := last;
        SyncedTellsLastOutcome(s, es);
      } else {
        n := StoredMessageIsLastWritten(s, es[..last]);
        LastWrittenExtends(s, es, n);
      }
    }
  }

  /**
   * The stored message is that of the last reconcile that flipped the status or saw a new generation, so it is
   * the current one exactly when the last error has the same text as that one.
   */
  lemma StoredMessageIsCurrentIff(s: Snapshot, es: seq<Outcome>) returns (n: int)
    requires es != []
    ensures LastWritten(s, es, n)
    ensures StoredMessage(s, es) == SyncedCondition(Run(s, es).conditions).message <==>
            (if n >= 0 then MessageOf(es[n].error) else SyncedCondition(s.conditions).message)
            == MessageOf(es[|es| - 1].error)
  {
    n := StoredMessageIsLastWritten(s, es);
    SyncedTellsLastOutcome(s, es);
  }

  /** Any failure with a new text on a status that is already false leaves the stored message behind. */
  lemma StoredMessageCanBeStale(s: Snapshot, e: Outcome)
    requires SyncedCondition(s.conditions).status == CONDITION_FALSE && e.generation == s.observedGeneration
    requires e.error.Some? && e.error.value != SyncedCondition(s.conditions).message
    ensures Stored(s, [e]) == s && StoredMessage(s, [e]) != SyncedCondition(Run(s, [e]).conditions).message
  {
    assert [e][..0] == [];
    var n := StoredMessageIsCurrentIff(s, [e]);
  }
}
