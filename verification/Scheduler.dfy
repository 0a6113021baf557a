/**
 * The renewal job: a timer and any number of early triggers feed one runner over an unbuffered channel.
 * A send completes only when the runner is receiving, so jobs never overlap. The job generates a key.
 */
module Scheduler {
  import opened Base
  import opened Registry
  import opened Startup

  datatype Timer = Asleep(until: int) | Sending

  datatype Runner = Receiving | Running(scheduled: bool)

  /** `failures` counts failed scheduled jobs since the last key, `worst` is its largest value so far. */
  datatype Sched = Sched(
    now: int,
    timer: Timer,
    runner: Runner,
    blocked: set<nat>,
    timerSends: seq<int>,
    callerSends: nat,
    started: nat,
    finished: nat,
    history: seq<Key>,
    failures: nat,
    worst: nat,
    settled: bool)

  datatype Config = Config(start: int, initialDelay: int, period: int)

  datatype Step =
    | Tick(dt: nat)
    | Wake
    | TimerSend
    | CallerArrives(caller: nat)
    | CallerSend(caller: nat)
    | JobDone(made: Option<Key>)
    | RegisterOther(k: Key)

  ghost predicate CanStep(cfg: Config, s: Sched, step: Step) {
    match step
    case Tick(_) => true
    case Wake => s.timer.Asleep? && s.timer.until <= s.now
    case TimerSend => s.timer.Sending? && s.runner.Receiving?
    case CallerArrives(id) => id !in s.blocked
    case CallerSend(id) => id in s.blocked && s.runner.Receiving?
    case JobDone(made) => s.runner.Running? && (made.Some? ==> made.value.orderingTime == s.now)
    case RegisterOther(_) => true
  }

  function Do(cfg: Config, s: Sched, step: Step): Sched {
    match step
    case Tick(dt) => s.(now := s.now + dt)
    case Wake => s.(timer := Sending)
    case TimerSend =>
      s.(timer := Asleep(s.now + cfg.period), runner := Running(true), started := s.started + 1,
         timerSends := s.timerSends + [s.now])
    case CallerArrives(id) => s.(blocked := s.blocked + {id})
    case CallerSend(id) =>
      s.(blocked := s.blocked - {id}, runner := Running(false), started := s.started + 1,
         callerSends := s.callerSends + 1)
    case JobDone(Some(k)) =>
      s.(runner := Receiving, finished := s.finished + 1, history := s.history + [k], failures := 0, settled := true)
    case JobDone(None) =>
      var failures := if s.runner == Running(true) then s.failures + 1 else s.failures;
      s.(runner := Receiving, finished := s.finished + 1, failures := failures, worst := Later(s.worst, failures))
    case RegisterOther(k) => s.(history := s.history + [k])
  }

  ghost predicate Initial(cfg: Config, s: Sched) {
    && s.now == cfg.start && s.timer == Asleep(cfg.start + cfg.initialDelay) && s.runner.Receiving?
    && s.timerSends == [] && s.callerSends == s.started == s.finished == 0
    && s.failures == s.worst == 0
  }

  ghost predicate IsRun(cfg: Config, states: seq<Sched>, steps: seq<Step>) {
    && |states| == |steps| + 1 && Initial(cfg, states[0])
    && forall i :: 0 <= i < |steps| ==>
         CanStep(cfg, states[i], steps[i]) && states[i + 1] == Do(cfg, states[i], steps[i])
  }

  // ---- Jobs are serial and scheduled jobs are spaced -----------------------------------------

  /** The earliest moment of the next scheduled send. */
  function NextDue(cfg: Config, s: Sched): int {
    if s.timerSends == [] then cfg.start + cfg.initialDelay
    else s.timerSends[|s.timerSends| - 1] + cfg.period
  }

  ghost predicate Spaced(cfg: Config, sends: seq<int>) {
    && (sends != [] ==> cfg.start + cfg.initialDelay <= sends[0])
    && forall i :: 0 < i < |sends| ==> sends[i - 1] + cfg.period <= sends[i]
  }

  ghost predicate SerialInv(cfg: Config, s: Sched) {
    && s.started == |s.timerSends| + s.callerSends
    && s.started == s.finished + (if s.runner.Running? then 1 else 0)
    && Spaced(cfg, s.timerSends)
    && NextDue(cfg, s) <= (if s.timer.Asleep? then s.timer.until else s.now)
  }

  lemma StepKeepsSerialInv(cfg: Config, s: Sched, step: Step)
    requires SerialInv(cfg, s) && CanStep(cfg, s, step)
    ensures SerialInv(cfg, Do(cfg, s, step))
  {
  }

  /**
   * In every interleaving: jobs started are exactly the completed sends, all but at most one of them have
   * finished, and scheduled sends keep the initial delay and the period between them.
   */
  lemma {:induction false} JobsAreSerial(cfg: Config, states: seq<Sched>, steps: seq<Step>, i: nat)
    requires IsRun(cfg, states, steps) && i < |states|
    ensures SerialInv(cfg, states[i])
  {
    if i > 0 {
      JobsAreSerial(cfg, states, steps, i - 1);
      StepKeepsSerialInv(cfg, states[i - 1], steps[i - 1]);
    }
  }

  /** Scheduled send number `j` comes at least `j - i` periods after number `i`. */
  lemma {:induction false} SendsAreSparse(cfg: Config, sends: seq<int>, i: nat, j: nat)
    requires Spaced(cfg, sends) && i <= j < |sends|
    ensures (j - i) * cfg.period <= sends[j] - sends[i]
    decreases j
  {
    if i < j {
      SendsAreSparse(cfg, sends, i, j - 1);
      assert (j - i) * cfg.period == (j - 1 - i) * cfg.period + cfg.period;
    }
  }

  // ---- The age of the sealing key ------------------------------------------------------------

  /** An ideal clock and instantaneous jobs: time passes only while nobody can act. */
  ghost predicate Ideal(s: Sched, step: Step) {
    step.Tick? ==>
      s.runner.Receiving? && s.blocked == {} && s.timer.Asleep? && s.now + step.dt <= s.timer.until
  }

  ghost predicate IsIdealRun(cfg: Config, states: seq<Sched>, steps: seq<Step>) {
    && IsRun(cfg, states, steps)
    && forall i :: 0 <= i < |steps| ==> Ideal(states[i], steps[i])
  }

  /** The ordering time of the sealing key. */
  function SealingTime(s: Sched): int {
    match Elect(s.history)
    case Some(k) => k.orderingTime
    case None => 0
  }

  function Age(s: Sched): int {
    s.now - SealingTime(s)
  }

  /** Renewal as `InitKeyRenewal` arranges it: there is a key, and the delay lasts until it is stale. */
  ghost predicate InitialRenewal(cfg: Config, s: Sched) {
    && Initial(cfg, s) && s.blocked == {} && s.history != [] && cfg.period > 0
    && cfg.initialDelay == DelayUntilStale(cfg.period, cfg.start, SealingTime(s))
    && s.settled == (Age(s) <= cfg.period)
  }

  function Due(s: Sched): int {
    if s.timer.Asleep? then s.timer.until else s.now
  }

  /** Scheduled jobs that may still fail before the sealing key is late. */
  function Slack(s: Sched): nat {
    if s.runner == Running(true) then s.failures + 2 else s.failures + 1
  }

  ghost predicate AgeInv(cfg: Config, s: Sched) {
    && cfg.period > 0 && s.history != [] && s.failures <= s.worst
    && s.now <= Due(s) <= Later(s.now, SealingTime(s)) + cfg.period
    && (s.runner == Running(true) ==> s.timer == Asleep(s.now + cfg.period))
    && (s.settled ==> Due(s) - SealingTime(s) <= Slack(s) * cfg.period)
  }

  lemma SealingTimeAfter(h: seq<Key>, k: Key, s: Sched)
    requires s.history == h && h != []
    ensures SealingTime(s.(history := h + [k])) == Later(SealingTime(s), k.orderingTime)
  {
  }

  lemma AddPeriod(n: nat, period: int)
    ensures (n + 1) * period == n * period + period
  {
  }

  lemma JobKeepsAgeInv(cfg: Config, s: Sched, made: Option<Key>)
    requires AgeInv(cfg, s) && CanStep(cfg, s, JobDone(made))
    ensures AgeInv(cfg, Do(cfg, s, JobDone(made)))
  {
    AddPeriod(s.failures + 1, cfg.period);
    if made.Some? {
      SealingTimeAfter(s.history, made.value, s);
    }
  }

  lemma StepKeepsAgeInv(cfg: Config, s: Sched, step: Step)
    requires AgeInv(cfg, s) && CanStep(cfg, s, step) && Ideal(s, step)
    ensures AgeInv(cfg, Do(cfg, s, step))
  {
    AddPeriod(s.failures + 1, cfg.period);
    match step
    case JobDone(made) => JobKeepsAgeInv(cfg, s, made);
    case RegisterOther(k) => SealingTimeAfter(s.history, k, s);
    case _ =>
  }

  lemma {:induction false} AgeInvAlways(cfg: Config, states: seq<Sched>, steps: seq<Step>, i: nat)
    requires IsIdealRun(cfg, states, steps) && InitialRenewal(cfg, states[0]) && i < |states|
    ensures AgeInv(cfg, states[i])
  {
    if i > 0 {
      AgeInvAlways(cfg, states, steps, i - 1);
      StepKeepsAgeInv(cfg, states[i - 1], steps[i - 1]);
    } else {
      ElectIsFirstMaximum(states[0].history);
    }
  }

  lemma {:induction false} SettledAfterSuccess(cfg: Config, states: seq<Sched>, steps: seq<Step>, j: nat)
    requires IsRun(cfg, states, steps) && j < |states|
    ensures states[j].settled <==>
            states[0].settled || exists i :: 0 <= i < j && steps[i].JobDone? && steps[i].made.Some?
  {
    if j > 0 {
      SettledAfterSuccess(cfg, states, steps, j - 1);
      assert states[j] == Do(cfg, states[j - 1], steps[j - 1]);
    }
  }

  lemma Scale(a: nat, b: nat, period: int)
    requires a <= b && period > 0
    ensures a * period <= b * period
  {
  }

  /**
   * From the first successful generation on (or from the start, if the loaded key was not stale), the
   * sealing key is never older than one period for each scheduled job that failed in a row, plus one.
   */
  lemma SealingKeyAge(cfg: Config, states: seq<Sched>, steps: seq<Step>, j: nat)
    requires IsIdealRun(cfg, states, steps) && InitialRenewal(cfg, states[0]) && j < |states|
    requires Age(states[0]) <= cfg.period || exists i :: 0 <= i < j && steps[i].JobDone? && steps[i].made.Some?
    ensures Age(states[j]) <= (states[j].worst + 1) * cfg.period
  {
    AgeInvAlways(cfg, states, steps, j);
    SettledAfterSuccess(cfg, states, steps, j);
    var s := states[j];
    AddPeriod(s.failures + 1, cfg.period);
    Scale(s.failures + 1, s.worst + 1, cfg.period);
  }

  /** An early trigger, whatever its outcome, and a key from elsewhere never make the sealing key older. */
  lemma TriggersNeverRaiseAge(cfg: Config, s: Sched, step: Step)
    requires s.history != [] && CanStep(cfg, s, step)
    requires step.CallerArrives? || step.CallerSend? || step.RegisterOther?
             || (step.JobDone? && s.runner == Running(false))
    ensures Age(Do(cfg, s, step)) <= Age(s)
    ensures Do(cfg, s, step).failures <= s.failures && Do(cfg, s, step).worst == Later(s.worst, Do(cfg, s, step).worst)
  {
  }

  // ---- The bound is met -------------------------------------------------------------------------

  lemma ExtendRun(cfg: Config, states: seq<Sched>, steps: seq<Step>, step: Step)
    requires IsIdealRun(cfg, states, steps) && CanStep(cfg, states[|steps|], step) && Ideal(states[|steps|], step)
    ensures IsIdealRun(cfg, states + [Do(cfg, states[|steps|], step)], steps + [step])
  {
  }

  /** `n` scheduled jobs have failed since the key of time `t`, and the next one is due `n + 1` periods after it. */
  ghost predicate FailedSoFar(cfg: Config, s: Sched, t: int, n: nat) {
    && s.runner.Receiving? && s.blocked == {} && s.failures == s.worst == n && SealingTime(s) == t
    && s.timer == Asleep(t + (n + 1) * cfg.period) && s.now <= s.timer.until
  }

  lemma FailOnce(cfg: Config, states: seq<Sched>, steps: seq<Step>, t: int, n: nat)
    returns (states': seq<Sched>, steps': seq<Step>)
    requires IsIdealRun(cfg, states, steps) && FailedSoFar(cfg, states[|steps|], t, n) && cfg.period > 0
    ensures IsIdealRun(cfg, states', steps') && states'[0] == states[0]
    ensures FailedSoFar(cfg, states'[|steps'|], t, n + 1)
  {
    var s := states[|steps|];
    var dt := s.timer.until - s.now;
    var s1 := Do(cfg, s, Tick(dt));
    ExtendRun(cfg, states, steps, Tick(dt));
    var s2 := Do(cfg, s1, Wake);
    ExtendRun(cfg, states + [s1], steps + [Tick(dt)], Wake);
    var s3 := Do(cfg, s2, TimerSend);
    ExtendRun(cfg, states + [s1] + [s2], steps + [Tick(dt)] + [Wake], TimerSend);
    var s4 := Do(cfg, s3, JobDone(None));
    ExtendRun(cfg, states + [s1] + [s2] + [s3], steps + [Tick(dt)] + [Wake] + [TimerSend], JobDone(None));
    states', steps' := states + [s1] + [s2] + [s3] + [s4], steps + [Tick(dt)] + [Wake] + [TimerSend] + [JobDone(None)];
    AddPeriod(n + 1, cfg.period);
  }

  lemma {:induction false} FailTimes(cfg: Config, s0: Sched, n: nat) returns (states: seq<Sched>, steps: seq<Step>)
    requires InitialRenewal(cfg, s0) && Age(s0) <= cfg.period
    ensures IsIdealRun(cfg, states, steps) && states[0] == s0
    ensures FailedSoFar(cfg, states[|steps|], SealingTime(s0), n)
  {
    if n == 0 {
      states, steps := [s0], [];
    } else {
      states, steps := FailTimes(cfg, s0, n - 1);
      states, steps := FailOnce(cfg, states, steps, SealingTime(s0), n - 1);
    }
  }

  /** From any start with a key that is not stale, for any number of failures, some run reaches the bound. */
  lemma AgeBoundIsTight(cfg: Config, s0: Sched, n: nat) returns (states: seq<Sched>, steps: seq<Step>)
    requires InitialRenewal(cfg, s0) && Age(s0) <= cfg.period
    ensures IsIdealRun(cfg, states, steps) && states[0] == s0
    ensures states[|steps|].worst == n && Age(states[|steps|]) == (n + 1) * cfg.period
  {
    states, steps := FailTimes(cfg, s0, n);
    var s := states[|steps|];
    var wait := Tick(s.timer.until - s.now);
    ExtendRun(cfg, states, steps, wait);
    states, steps := states + [Do(cfg, s, wait)], steps + [wait];
  }
}
