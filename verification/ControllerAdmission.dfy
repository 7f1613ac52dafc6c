/** Admission of the next wave by remaining time (controller_admission.py), and why a plan
    that fits the Job is admitted to its last wave. */
module ControllerAdmission {
  import opened Common
  import opened TextOrder
  import opened CampaignWaves
  import opened CampaignPlanner
  import opened CampaignLocks
  import opened WaveCoverage

  datatype Input = Input(
    started: real,
    timeoutSeconds: int,
    now: real,
    reserveSeconds: int,
    nextWaveSeconds: Option<int>,
    cleanupRequired: bool,
    capacityValid: bool,
    policyAllows: bool)
  {
    predicate Valid() {
      && started <= now && 0.0 <= started && timeoutSeconds >= 1 && reserveSeconds >= 1
      && (nextWaveSeconds.Some? ==> nextWaveSeconds.value >= 1)
    }
  }

  datatype Decision = Admit | Wait | Finalize | PauseCapacity | PausePolicy

  datatype Admission = Admission(decision: Decision, elapsed: int, available: int, required: int)

  function AtLeastZero(x: int): int {
    if x < 0 then 0 else x
  }

  /** `decide_remaining_time`; whole seconds are cut off, not rounded. */
  function DecideRemainingTime(v: Input): Admission
    requires v.Valid()
  {
    var elapsed := AtLeastZero((v.now - v.started).Floor);
    var available := AtLeastZero(v.timeoutSeconds - elapsed);
    var required := v.reserveSeconds + if v.nextWaveSeconds.Some? then v.nextWaveSeconds.value else 0;
    if !v.policyAllows then Admission(PausePolicy, elapsed, available, required)
    else if !v.capacityValid then Admission(PauseCapacity, elapsed, available, required)
    else if v.cleanupRequired then Admission(Wait, elapsed, available, v.reserveSeconds)
    else if v.nextWaveSeconds.None? then Admission(Finalize, elapsed, available, v.reserveSeconds)
    else if available >= required then Admission(Admit, elapsed, available, required)
    else Admission(PauseCapacity, elapsed, available, required)
  }

  /** Whole seconds since the start, what they leave of the timeout, and what is asked of it:
      the reserve, and the next wave where one is in question. */
  lemma TimesAreWhole(v: Input)
    requires v.Valid()
    ensures var a := DecideRemainingTime(v);
            && a.elapsed as real <= v.now - v.started < (a.elapsed + 1) as real
            && a.available == (if a.elapsed < v.timeoutSeconds then v.timeoutSeconds - a.elapsed else 0)
            && a.required == v.reserveSeconds +
                             (if v.nextWaveSeconds.Some? && (!v.policyAllows || !v.capacityValid || !v.cleanupRequired)
                              then v.nextWaveSeconds.value else 0)
  {
  }

  /** When a decision other than to admit is taken. */
  lemma RefusedExactly(v: Input)
    requires v.Valid()
    ensures var d := DecideRemainingTime(v).decision;
            && (d == PausePolicy <==> !v.policyAllows)
            && (d == Wait <==> v.policyAllows && v.capacityValid && v.cleanupRequired)
            && (d == Finalize <==> v.policyAllows && v.capacityValid && !v.cleanupRequired && v.nextWaveSeconds.None?)
            && (d == PauseCapacity <==>
                  && v.policyAllows
                  && (!v.capacityValid ||
                      (!v.cleanupRequired && v.nextWaveSeconds.Some? &&
                       v.now - v.started >= (v.timeoutSeconds - v.reserveSeconds - v.nextWaveSeconds.value + 1) as real)))
  {
  }

  /** Nothing but time stands in the way of the next wave. */
  predicate Ready(v: Input) {
    v.policyAllows && v.capacityValid && !v.cleanupRequired && v.nextWaveSeconds.Some?
  }

  /** A wave is admitted exactly when it is ready and less than one second more than what is
      left after wave and reserve has been used. */
  lemma AdmittedExactly(v: Input)
    requires v.Valid()
    ensures DecideRemainingTime(v).decision == Admit <==>
            Ready(v) && v.now - v.started < (v.timeoutSeconds - v.reserveSeconds - v.nextWaveSeconds.value + 1) as real
  {
  }

  /** An admitted wave that keeps to its time leaves the reserve but for part of a second. */
  lemma AdmittedLeavesReserve(v: Input, end: real)
    requires v.Valid() && DecideRemainingTime(v).decision == Admit
    requires end <= v.now + v.nextWaveSeconds.value as real
    ensures (v.started + v.timeoutSeconds as real) - end > (v.reserveSeconds - 1) as real
  {
    AdmittedExactly(v);
  }

  /** That part of a second can be missing, however close to a whole one it is. */
  lemma ReserveCanBeCut(v: Input, missing: real)
    requires 0.0 <= missing < 1.0 && v.Valid() && Ready(v)
    requires v.timeoutSeconds >= v.reserveSeconds + v.nextWaveSeconds.value
    requires v.now - v.started == (v.timeoutSeconds - v.reserveSeconds - v.nextWaveSeconds.value) as real + missing
    ensures DecideRemainingTime(v).decision == Admit
    ensures (v.started + v.timeoutSeconds as real) - (v.now + v.nextWaveSeconds.value as real) == v.reserveSeconds as real - missing
  {
    AdmittedExactly(v);
  }

  predicate LeavesReserve(v: Input, end: real) {
    (v.started + v.timeoutSeconds as real) - end >= v.reserveSeconds as real
  }

  /** The wave is admitted and leaves the whole reserve, whenever it ends within its time, if
      and only if no more was used than what is left after wave and reserve. */
  lemma WholeReserveIsLeft(v: Input)
    requires v.Valid() && Ready(v)
    ensures v.now - v.started <= (v.timeoutSeconds - v.reserveSeconds - v.nextWaveSeconds.value) as real <==>
            && DecideRemainingTime(v).decision == Admit
            && forall end | end <= v.now + v.nextWaveSeconds.value as real :: LeavesReserve(v, end)
  {
    AdmittedExactly(v);
    var latest := v.now + v.nextWaveSeconds.value as real;
    assert LeavesReserve(v, latest) <==>
           v.now - v.started <= (v.timeoutSeconds - v.reserveSeconds - v.nextWaveSeconds.value) as real;
  }

  // ---- a plan that fits is admitted ----

  lemma {:induction false} PrefixTakesNoLonger(waves: seq<Wave>, i: nat)
    requires i <= |waves| && forall w | w in waves :: w.seconds >= 0
    ensures TotalSeconds(waves[..i]) <= TotalSeconds(waves)
  {
    if i < |waves| {
      var front := waves[..|waves| - 1];
      assert front[..i] == waves[..i];
      PrefixTakesNoLonger(front, i);
    } else {
      assert waves[..i] == waves;
    }
  }

  /** The controller asks about wave `i` after `used` seconds. */
  function Asking(started: real, used: real, timeoutSeconds: int, reserve: int, waves: seq<Wave>, i: nat): Input
    requires i < |waves|
  {
    Input(started, timeoutSeconds, started + used, reserve, Some(waves[i].seconds), false, true, true)
  }

  /** If no more time was used before a wave than planned for the waves before it, the wave
      is admitted. */
  lemma FeasibleWaveIsAdmitted(started: real, used: real, timeoutSeconds: int, reserve: int, waves: seq<Wave>, i: nat)
    requires i < |waves| && reserve >= 1 && 0.0 <= started && 0.0 <= used
    requires forall w | w in waves :: w.seconds >= 1
    requires TotalSeconds(waves) + reserve <= timeoutSeconds
    requires used <= TotalSeconds(waves[..i]) as real
    ensures Asking(started, used, timeoutSeconds, reserve, waves, i).Valid()
    ensures DecideRemainingTime(Asking(started, used, timeoutSeconds, reserve, waves, i)).decision == Admit
  {
    assert waves[..i + 1][..i] == waves[..i];
    PrefixTakesNoLonger(waves, i + 1);
    TotalIsPositive(waves[..i]);
    AdmittedExactly(Asking(started, used, timeoutSeconds, reserve, waves, i));
  }

  lemma {:induction false} TotalIsPositive(waves: seq<Wave>)
    requires forall w | w in waves :: w.seconds >= 1
    ensures TotalSeconds(waves) >= 0
  {
    if waves != [] { TotalIsPositive(waves[..|waves| - 1]); }
  }

  function Sum(durations: seq<real>): real {
    if durations == [] then 0.0 else Sum(durations[..|durations| - 1]) + durations[|durations| - 1]
  }

  /** Waves that run one after another, each within its time, are all admitted. */
  lemma {:induction false} PunctualWavesUseNoMore(waves: seq<Wave>, durations: seq<real>)
    requires |durations| <= |waves|
    requires forall j | 0 <= j < |durations| :: 0.0 <= durations[j] <= waves[j].seconds as real
    ensures 0.0 <= Sum(durations) <= TotalSeconds(waves[..|durations|]) as real
  {
    if durations != [] {
      var n := |durations| - 1;
      PunctualWavesUseNoMore(waves, durations[..n]);
      assert waves[..n + 1][..n] == waves[..n];
    }
  }

  lemma PunctualWavesAreAdmitted(started: real, timeoutSeconds: int, reserve: int, waves: seq<Wave>, durations: seq<real>)
    requires |durations| < |waves| && reserve >= 1 && 0.0 <= started
    requires forall w | w in waves :: w.seconds >= 1
    requires TotalSeconds(waves) + reserve <= timeoutSeconds
    requires forall j | 0 <= j < |durations| :: 0.0 <= durations[j] <= waves[j].seconds as real
    ensures Asking(started, Sum(durations), timeoutSeconds, reserve, waves, |durations|).Valid()
    ensures DecideRemainingTime(Asking(started, Sum(durations), timeoutSeconds, reserve, waves, |durations|)).decision == Admit
  {
    PunctualWavesUseNoMore(waves, durations);
    FeasibleWaveIsAdmitted(started, Sum(durations), timeoutSeconds, reserve, waves, |durations|);
  }

  // ---- from the plan to the last admission ----

  lemma WavesTakeTime(p: Policy, trials: nat, concurrency: nat)
    requires Sensible(p) && concurrency > 0
    ensures WaveSeconds(p, trials, concurrency) >= 1
  {
    var work := Batches(trials, concurrency) * p.planningTrialSeconds;
    assert work as real * p.headroom >= 0.0;
  }

  lemma LockedWavesTakeTime(
    spec: Spec, p: Policy, runs: seq<Run>, ids: Ids, concurrency: map<string, nat>, planned: seq<Wave>, w: Wave)
    requires Sensible(p) && spec.maxShardsPerWave > 0 && Planned(spec, p, runs, concurrency, planned)
    requires var ordered := LockedOrder(LockRuns(ids, runs));
             && Deployments(ordered) <= ConcurrencyOf(planned).Keys && Deployments(ordered) <= SecondsOf(planned).Keys
             && w in LockedWaves(planned, LockRuns(ids, runs), spec.maxShardsPerWave)
    ensures w.seconds >= 1
  {
    var ordered := LockedOrder(LockRuns(ids, runs));
    LockHasTables(spec, p, runs, ids, concurrency, planned);
    WaveSizes(Ascending(Deployments(ordered)), GroupMap(ordered), spec.maxShardsPerWave, ConcurrencyOf(planned), SecondsOf(planned), w);
    WavesAreTabled(Ascending(Deployments(ordered)), GroupMap(ordered), spec.maxShardsPerWave, ConcurrencyOf(planned), SecondsOf(planned));
    var d := w.deployment;
    PlanCoversTheLock(spec, p, runs, ids, concurrency, planned, d);
    PlannedWavesTakeTime(spec, p, GroupMap(runs), concurrency, d);
  }

  lemma PlannedWavesTakeTime(spec: Spec, p: Policy, groups: Groups, concurrency: map<string, nat>, d: string)
    requires Sensible(p) && spec.maxShardsPerWave > 0 && groups.Keys <= concurrency.Keys
    requires AllPlannable(spec, p, groups, concurrency) && d in groups
    ensures PlannedSeconds(spec, p, groups, concurrency)[d] >= 1
  {
    PlannableHasConcurrency(spec, p, groups[d], concurrency[d]);
    var chunks := Chunks(groups[d], spec.maxShardsPerWave);
    LongestIsMet(p, chunks, concurrency[d]);
    var b :| b in chunks && LongestSeconds(p, chunks, concurrency[d]) == WaveSeconds(p, Trials(b), concurrency[d]);
    WavesTakeTime(p, Trials(b), concurrency[d]);
  }

  /** A campaign whose plan fitted the Job is admitted wave by wave as it was locked, for as
      long as its waves keep to their times. */
  lemma LockedCampaignIsAdmitted(
    spec: Spec, p: Policy, runs: seq<Run>, ids: Ids, concurrency: map<string, nat>, planned: seq<Wave>,
    started: real, durations: seq<real>)
    requires Sensible(p) && p.controllerReserve >= 1 && 0.0 <= started && spec.maxShardsPerWave > 0
    requires Planned(spec, p, runs, concurrency, planned)
    requires TotalSeconds(planned) + p.controllerReserve <= spec.jobTimeoutSeconds
    ensures var ordered := LockedOrder(LockRuns(ids, runs));
            && Deployments(ordered) <= ConcurrencyOf(planned).Keys && Deployments(ordered) <= SecondsOf(planned).Keys
            && var locked := LockedWaves(planned, LockRuns(ids, runs), spec.maxShardsPerWave);
            |durations| < |locked| && (forall j | 0 <= j < |durations| :: 0.0 <= durations[j] <= locked[j].seconds as real) ==>
              && var v := Asking(started, Sum(durations), spec.jobTimeoutSeconds, p.controllerReserve, locked, |durations|);
              && v.Valid() && DecideRemainingTime(v).decision == Admit
  {
    LockKeepsTotals(spec, p, runs, ids, concurrency, planned);
    var locked := LockedWaves(planned, LockRuns(ids, runs), spec.maxShardsPerWave);
    forall w | w in locked ensures w.seconds >= 1 {
      LockedWavesTakeTime(spec, p, runs, ids, concurrency, planned, w);
    }
    if |durations| < |locked| && forall j | 0 <= j < |durations| :: 0.0 <= durations[j] <= locked[j].seconds as real {
      PunctualWavesAreAdmitted(started, spec.jobTimeoutSeconds, p.controllerReserve, locked, durations);
    }
  }
}
