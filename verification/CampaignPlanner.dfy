/** The loops that plan and lock the initial waves (campaigns.py). */
module CampaignPlanner {
  import opened Common
  import opened TextOrder
  import opened CampaignWaves

  /** The concurrency that a run allows. */
  function Effective(spec: Spec, r: Run): Option<nat> {
    if r.limit.None? then None
    else Some(Smaller(Smaller(spec.concurrentTrials, r.limit.value),
                    if spec.profileConcurrency.Some? then spec.profileConcurrency.value else spec.concurrentTrials))
  }

  /** The greatest concurrency within the trials at once, the provider's limit, and the
      profile's where there is one. */
  lemma EffectiveIsLeast(spec: Spec, r: Run, c: nat)
    ensures Effective(spec, r) == Some(c) <==>
              && r.limit.Some? && c <= spec.concurrentTrials && c <= r.limit.value
              && (spec.profileConcurrency.Some? ==> c <= spec.profileConcurrency.value)
              && (c == spec.concurrentTrials || c == r.limit.value || Some(c) == spec.profileConcurrency)
  {
  }

  /** Every run has a limit, and the runs of one deployment have the same. */
  predicate Consistent(spec: Spec, runs: seq<Run>) {
    && (forall r | r in runs :: r.limit.Some?)
    && (forall a, b | a in runs && b in runs && a.deployment == b.deployment :: Effective(spec, a) == Effective(spec, b))
  }

  predicate Collected(spec: Spec, runs: seq<Run>, groups: Groups, concurrency: map<string, nat>) {
    && groups == GroupMap(runs) && concurrency.Keys == Deployments(runs)
    && forall r | r in runs :: Effective(spec, r) == Some(concurrency[r.deployment])
  }

  lemma {:induction false} NoGroup(runs: seq<Run>, d: string)
    requires d !in Deployments(runs)
    ensures GroupOf(runs, d) == []
  {
    if runs != [] {
      assert runs[|runs| - 1] in runs && forall r | r in runs[..|runs| - 1] :: r in runs;
      NoGroup(runs[..|runs| - 1], d);
    }
  }

  lemma GroupOneMore(runs: seq<Run>, run: Run, d: string)
    ensures GroupOf(runs + [run], d) == GroupOf(runs, d) + if run.deployment == d then run.shards else []
  {
    assert (runs + [run])[..|runs|] == runs;
  }

  lemma DeploymentsOneMore(runs: seq<Run>, run: Run)
    ensures Deployments(runs + [run]) == Deployments(runs) + {run.deployment}
  {
    assert forall r :: r in runs + [run] <==> r in runs || r == run;
  }

  lemma GroupsOneMore(runs: seq<Run>, run: Run)
    ensures Deployments(runs + [run]) == Deployments(runs) + {run.deployment}
    ensures GroupMap(runs + [run]) ==
            GroupMap(runs)[run.deployment := GroupOf(runs, run.deployment) + run.shards]
  {
    DeploymentsOneMore(runs, run);
    forall d | d in Deployments(runs + [run])
      ensures GroupMap(runs + [run])[d] == GroupMap(runs)[run.deployment := GroupOf(runs, run.deployment) + run.shards][d]
    {
      GroupOneMore(runs, run, d);
    }
  }

  lemma {:induction false} PrefixConsistent(spec: Spec, runs: seq<Run>, i: nat)
    requires i <= |runs| && Consistent(spec, runs)
    ensures Consistent(spec, runs[..i])
  {
    assert forall r | r in runs[..i] :: r in runs;
  }

  lemma CollectOneMore(spec: Spec, runs: seq<Run>, groups: Groups, concurrency: map<string, nat>, run: Run)
    requires Collected(spec, runs, groups, concurrency) && Effective(spec, run).Some?
    requires run.deployment in concurrency ==> concurrency[run.deployment] == Effective(spec, run).value
    ensures Collected(spec, runs + [run], groups[run.deployment := GroupOf(runs, run.deployment) + run.shards],
                      concurrency[run.deployment := Effective(spec, run).value])
  {
    GroupsOneMore(runs, run);
  }

  /** One turn of the loop. */
  method AddRun(spec: Spec, groups: Groups, concurrency: map<string, nat>, ghost runs: seq<Run>, run: Run)
    returns (r: Result<(Groups, map<string, nat>), Error>)
    requires Collected(spec, runs, groups, concurrency)
    ensures r.Ok? ==> Collected(spec, runs + [run], r.value.0, r.value.1)
    ensures r.Err? ==> !Consistent(spec, runs + [run])
  {
    var effective := Effective(spec, run);
    if effective.None? {
      assert run in runs + [run];
      return Err(NoLimit);
    }
    if run.deployment in concurrency && concurrency[run.deployment] != effective.value {
      ghost var other :| other in runs && other.deployment == run.deployment;
      assert other in runs + [run] && run in runs + [run];
      return Err(InconsistentLimits);
    }
    if run.deployment !in groups { NoGroup(runs, run.deployment); }
    var shards := if run.deployment in groups then groups[run.deployment] else [];
    assert shards == GroupOf(runs, run.deployment);
    CollectOneMore(spec, runs, groups, concurrency, run);
    r := Ok((groups[run.deployment := shards + run.shards], concurrency[run.deployment := effective.value]));
  }

  /** `_provider_wave_groups` */
  method ProviderWaveGroups(spec: Spec, runs: seq<Run>) returns (r: Result<(Groups, map<string, nat>), Error>)
    ensures r.Ok? <==> Consistent(spec, runs)
    ensures r.Ok? ==> Collected(spec, runs, r.value.0, r.value.1)
  {
    var groups: Groups, concurrency: map<string, nat> := map[], map[];
    for i := 0 to |runs|
      invariant Collected(spec, runs[..i], groups, concurrency)
    {
      assert runs[..i + 1] == runs[..i] + [runs[i]];
      var added := AddRun(spec, groups, concurrency, runs[..i], runs[i]);
      if added.Err? {
        if Consistent(spec, runs) { PrefixConsistent(spec, runs, i + 1); }
        return added;
      }
      groups, concurrency := added.value.0, added.value.1;
    }
    assert runs[..|runs|] == runs;
    CollectedIsConsistent(spec, runs, groups, concurrency);
    r := Ok((groups, concurrency));
  }

  lemma CollectedIsConsistent(spec: Spec, runs: seq<Run>, groups: Groups, concurrency: map<string, nat>)
    requires Collected(spec, runs, groups, concurrency)
    ensures Consistent(spec, runs)
  {
  }

  /** A chunk makes a wave: it has trials, and they fit the time of a wave. */
  predicate FitsWave(spec: Spec, p: Policy, chunk: seq<Shard>, concurrency: nat) {
    Trials(chunk) >= 1 && concurrency >= 1 && WaveSeconds(p, Trials(chunk), concurrency) <= spec.timeoutSeconds
  }

  predicate Plannable(spec: Spec, p: Policy, shards: seq<Shard>, concurrency: nat)
    requires spec.maxShardsPerWave > 0
  {
    shards != [] && forall chunk | chunk in Chunks(shards, spec.maxShardsPerWave) :: FitsWave(spec, p, chunk, concurrency)
  }

  lemma ChunksOfSome<T>(s: seq<T>, n: nat)
    requires n > 0
    ensures s != [] <==> Chunks(s, n) != []
  {
  }

  lemma PlannableHasConcurrency(spec: Spec, p: Policy, shards: seq<Shard>, concurrency: nat)
    requires spec.maxShardsPerWave > 0 && Plannable(spec, p, shards, concurrency)
    ensures concurrency > 0 && Chunks(shards, spec.maxShardsPerWave) != []
  {
    ChunksOfSome(shards, spec.maxShardsPerWave);
    assert Chunks(shards, spec.maxShardsPerWave)[0] in Chunks(shards, spec.maxShardsPerWave);
  }

  predicate AllPlannable(spec: Spec, p: Policy, groups: Groups, concurrency: map<string, nat>)
    requires spec.maxShardsPerWave > 0 && groups.Keys <= concurrency.Keys
  {
    forall d | d in groups :: Plannable(spec, p, groups[d], concurrency[d])
  }

  /** The time of each deployment's waves in a plan. */
  function PlannedSeconds(spec: Spec, p: Policy, groups: Groups, concurrency: map<string, nat>): map<string, int>
    requires spec.maxShardsPerWave > 0 && groups.Keys <= concurrency.Keys
    requires AllPlannable(spec, p, groups, concurrency)
  {
    map d | d in groups :: (
      PlannableHasConcurrency(spec, p, groups[d], concurrency[d]);
      LongestSeconds(p, Chunks(groups[d], spec.maxShardsPerWave), concurrency[d]))
  }

  function PlanWaves(spec: Spec, p: Policy, groups: Groups, concurrency: map<string, nat>): seq<Wave>
    requires spec.maxShardsPerWave > 0 && groups.Keys <= concurrency.Keys
    requires AllPlannable(spec, p, groups, concurrency)
  {
    Waves(Ascending(groups.Keys), groups, spec.maxShardsPerWave, concurrency, PlannedSeconds(spec, p, groups, concurrency))
  }

  lemma FirstChunk<T>(s: seq<T>, n: nat)
    requires n > 0 && s != []
    ensures Chunks(s, n) == [s[..Smaller(|s|, n)]] + Chunks(s[Smaller(|s|, n)..], n)
  {
    if |s| <= n {
      assert s[..|s|] == s && s[|s|..] == [];
    }
  }

  lemma ChunkComesNext<T>(all: seq<seq<T>>, chunks: seq<seq<T>>, rest: seq<T>, n: nat)
    requires n > 0 && rest != [] && all == chunks + Chunks(rest, n)
    ensures var m := Smaller(|rest|, n); all == chunks + [rest[..m]] + Chunks(rest[m..], n) && rest[..m] in all
  {
    FirstChunk(rest, n);
    var m := Smaller(|rest|, n);
    assert all[|chunks|] == rest[..m];
  }

  lemma LongestOneMore(p: Policy, chunks: seq<seq<Shard>>, chunk: seq<Shard>, concurrency: nat)
    requires concurrency > 0
    ensures var seconds := WaveSeconds(p, Trials(chunk), concurrency);
            LongestSeconds(p, chunks + [chunk], concurrency) ==
            if chunks == [] || seconds > LongestSeconds(p, chunks, concurrency) then seconds
            else LongestSeconds(p, chunks, concurrency)
  {
    assert (chunks + [chunk])[..|chunks|] == chunks;
  }

  /** The waves of one deployment, all with the longest time of any of them. */
  method PlanDeployment(spec: Spec, p: Policy, d: string, shards: seq<Shard>, concurrency: nat)
    returns (r: Result<(seq<Wave>, int), Error>)
    requires spec.maxShardsPerWave > 0
    ensures r.Ok? <==> Plannable(spec, p, shards, concurrency)
    ensures r.Ok? ==>
              && concurrency > 0 && Chunks(shards, spec.maxShardsPerWave) != []
              && r.value.1 == LongestSeconds(p, Chunks(shards, spec.maxShardsPerWave), concurrency)
              && r.value.0 == WavesOf(d, Chunks(shards, spec.maxShardsPerWave), concurrency, r.value.1)
  {
    ghost var all := Chunks(shards, spec.maxShardsPerWave);
    ChunksOfSome(shards, spec.maxShardsPerWave);
    if shards == [] || concurrency < 1 {
      if shards != [] && Plannable(spec, p, shards, concurrency) {
        PlannableHasConcurrency(spec, p, shards, concurrency);
      }
      return Err(EmptyWave);
    }
    var chunks: seq<seq<Shard>>, longest, rest := [], 0, shards;
    while rest != []
      invariant all == chunks + Chunks(rest, spec.maxShardsPerWave)
      invariant forall chunk | chunk in chunks :: FitsWave(spec, p, chunk, concurrency)
      invariant chunks != [] ==> longest == LongestSeconds(p, chunks, concurrency)
      decreases |rest|
    {
      var n := Smaller(|rest|, spec.maxShardsPerWave);
      var chunk := rest[..n];
      ChunkComesNext(all, chunks, rest, spec.maxShardsPerWave);
      LongestOneMore(p, chunks, chunk, concurrency);
      if Trials(chunk) < 1 { return Err(EmptyWave); }
      var seconds := WaveSeconds(p, Trials(chunk), concurrency);
      if seconds > spec.timeoutSeconds {
        assert !FitsWave(spec, p, chunk, concurrency);
        return Err(WaveTooLong);
      }
      if chunks == [] || seconds > longest { longest := seconds; }
      chunks, rest := chunks + [chunk], rest[n..];
    }
    assert all == chunks;
    r := Ok((WavesOf(d, chunks, concurrency, longest), longest));
  }

  predicate PlannedSoFar(
    spec: Spec, p: Policy, groups: Groups, concurrency: map<string, nat>, ds: seq<string>, seconds: map<string, int>, waves: seq<Wave>)
    requires spec.maxShardsPerWave > 0 && groups.Keys <= concurrency.Keys
  {
    && (forall d | d in ds :: d in groups && Plannable(spec, p, groups[d], concurrency[d]))
    && seconds.Keys == (set d | d in ds)
    && (forall d | d in ds :: IsLongest(p, groups[d], spec.maxShardsPerWave, concurrency[d], seconds[d]))
    && waves == Waves(ds, groups, spec.maxShardsPerWave, concurrency, seconds)
  }

  predicate IsLongest(p: Policy, shards: seq<Shard>, n: nat, concurrency: nat, seconds: int)
    requires n > 0
  {
    concurrency > 0 && Chunks(shards, n) != [] && seconds == LongestSeconds(p, Chunks(shards, n), concurrency)
  }

  lemma PlannedNone(spec: Spec, p: Policy, groups: Groups, concurrency: map<string, nat>)
    requires spec.maxShardsPerWave > 0 && groups.Keys <= concurrency.Keys
    ensures PlannedSoFar(spec, p, groups, concurrency, [], map[], [])
  {
  }

  lemma PlanOneMore(
    spec: Spec, p: Policy, groups: Groups, concurrency: map<string, nat>, ds: seq<string>, seconds: map<string, int>,
    waves: seq<Wave>, d: string, longest: int)
    requires spec.maxShardsPerWave > 0 && groups.Keys <= concurrency.Keys
    requires PlannedSoFar(spec, p, groups, concurrency, ds, seconds, waves)
    requires d in groups && d !in ds && Plannable(spec, p, groups[d], concurrency[d])
    requires IsLongest(p, groups[d], spec.maxShardsPerWave, concurrency[d], longest)
    ensures PlannedSoFar(spec, p, groups, concurrency, ds + [d], seconds[d := longest],
                         waves + WavesOf(d, Chunks(groups[d], spec.maxShardsPerWave), concurrency[d], longest))
  {
    assert (ds + [d])[..|ds|] == ds;
    WavesIgnore(ds, groups, spec.maxShardsPerWave, concurrency, concurrency, seconds, seconds[d := longest]);
  }

  lemma PlannedAllSeconds(
    spec: Spec, p: Policy, groups: Groups, concurrency: map<string, nat>, seconds: map<string, int>, waves: seq<Wave>)
    requires spec.maxShardsPerWave > 0 && groups.Keys <= concurrency.Keys
    requires PlannedSoFar(spec, p, groups, concurrency, Ascending(groups.Keys), seconds, waves)
    ensures AllPlannable(spec, p, groups, concurrency)
    ensures seconds == PlannedSeconds(spec, p, groups, concurrency)
  {
    forall d | d in groups ensures d in Ascending(groups.Keys) {}
  }

  lemma PlannedAll(
    spec: Spec, p: Policy, groups: Groups, concurrency: map<string, nat>, seconds: map<string, int>, waves: seq<Wave>)
    requires spec.maxShardsPerWave > 0 && groups.Keys <= concurrency.Keys
    requires PlannedSoFar(spec, p, groups, concurrency, Ascending(groups.Keys), seconds, waves)
    ensures AllPlannable(spec, p, groups, concurrency)
    ensures waves == PlanWaves(spec, p, groups, concurrency)
  {
    PlannedAllSeconds(spec, p, groups, concurrency, seconds, waves);
  }

  /** One turn of the loop over the deployments. */
  method AddDeployment(
    spec: Spec, p: Policy, groups: Groups, concurrency: map<string, nat>, ghost ds: seq<string>, seconds: map<string, int>,
    waves: seq<Wave>, d: string)
    returns (r: Result<(map<string, int>, seq<Wave>), Error>)
    requires spec.maxShardsPerWave > 0 && groups.Keys <= concurrency.Keys
    requires PlannedSoFar(spec, p, groups, concurrency, ds, seconds, waves)
    requires d in groups && d !in ds
    ensures r.Ok? ==> PlannedSoFar(spec, p, groups, concurrency, ds + [d], r.value.0, r.value.1)
    ensures r.Err? ==> !AllPlannable(spec, p, groups, concurrency)
  {
    var planned := PlanDeployment(spec, p, d, groups[d], concurrency[d]);
    if planned.Err? { return Err(planned.error); }
    PlanOneMore(spec, p, groups, concurrency, ds, seconds, waves, d, planned.value.1);
    r := Ok((seconds[d := planned.value.1], waves + planned.value.0));
  }

  lemma NextIsNew(ds: seq<string>, i: nat)
    requires NoRepeats(ds) && i < |ds|
    ensures ds[i] !in ds[..i] && ds[..i + 1] == ds[..i] + [ds[i]]
  {
  }

  /** The loop over the deployments. */
  method PlanDeployments(spec: Spec, p: Policy, groups: Groups, concurrency: map<string, nat>, ds: seq<string>)
    returns (r: Result<(map<string, int>, seq<Wave>), Error>)
    requires spec.maxShardsPerWave > 0 && groups.Keys <= concurrency.Keys
    requires NoRepeats(ds) && forall d | d in ds :: d in groups
    ensures r.Ok? ==> PlannedSoFar(spec, p, groups, concurrency, ds, r.value.0, r.value.1)
    ensures r.Err? ==> !AllPlannable(spec, p, groups, concurrency)
  {
    var waves, seconds: map<string, int> := [], map[];
    PlannedNone(spec, p, groups, concurrency);
    ghost var done: seq<string> := [];
    for i := 0 to |ds|
      invariant done == ds[..i]
      invariant PlannedSoFar(spec, p, groups, concurrency, done, seconds, waves)
    {
      NextIsNew(ds, i);
      var added := AddDeployment(spec, p, groups, concurrency, done, seconds, waves, ds[i]);
      if added.Err? { return Err(added.error); }
      done := done + [ds[i]];
      seconds, waves := added.value.0, added.value.1;
    }
    assert done == ds;
    r := Ok((seconds, waves));
  }

  /** `_build_planned_initial_waves` */
  method BuildPlannedInitialWaves(spec: Spec, p: Policy, groups: Groups, concurrency: map<string, nat>)
    returns (r: Result<seq<Wave>, Error>)
    requires spec.maxShardsPerWave > 0 && groups.Keys <= concurrency.Keys
    ensures r.Ok? <==> AllPlannable(spec, p, groups, concurrency)
    ensures r.Ok? ==> r.value == PlanWaves(spec, p, groups, concurrency)
  {
    AscendingWorks(groups.Keys);
    var planned := PlanDeployments(spec, p, groups, concurrency, Ascending(groups.Keys));
    if planned.Err? { return Err(planned.error); }
    PlannedAll(spec, p, groups, concurrency, planned.value.0, planned.value.1);
    r := Ok(planned.value.1);
  }

  lemma {:induction false} WavesIgnore(
    ds: seq<string>, groups: Groups, n: nat, c: map<string, nat>, e: map<string, nat>, a: map<string, int>, b: map<string, int>)
    requires n > 0 && forall d | d in ds :: d in groups && d in c && d in e && d in a && d in b && c[d] == e[d] && a[d] == b[d]
    ensures Waves(ds, groups, n, c, a) == Waves(ds, groups, n, e, b)
  {
    if ds != [] {
      assert ds[|ds| - 1] in ds;
      WavesIgnore(ds[..|ds| - 1], groups, n, c, e, a, b);
    }
  }

  lemma PlanOfGroups(
    spec: Spec, p: Policy, runs: seq<Run>, groups: Groups, concurrency: map<string, nat>, waves: seq<Wave>)
    requires spec.maxShardsPerWave > 0 && Collected(spec, runs, groups, concurrency)
    requires AllPlannable(spec, p, groups, concurrency)
    requires waves == PlanWaves(spec, p, groups, concurrency)
    ensures Planned(spec, p, runs, concurrency, waves)
  {
  }

  method SumSeconds(waves: seq<Wave>) returns (total: int)
    ensures total == TotalSeconds(waves)
  {
    total := 0;
    for i := 0 to |waves|
      invariant total == TotalSeconds(waves[..i])
    {
      assert waves[..i + 1][..i] == waves[..i];
      total := total + waves[i].seconds;
    }
    assert waves[..|waves|] == waves;
  }

  /** `_controller_plan`, once there is a policy: succeeds exactly for the campaigns that
      can be planned and whose waves and reserve fit the Job. */
  method ControllerPlan(spec: Spec, p: Policy, runs: seq<Run>) returns (r: Result<(seq<Wave>, int), Error>)
    requires spec.maxShardsPerWave > 0
    ensures r.Ok? ==> IsPlan(spec, p, runs, r.value.0) && r.value.1 == TotalSeconds(r.value.0) + p.controllerReserve
    ensures r.Ok? ==> r.value.1 <= spec.jobTimeoutSeconds
    ensures r.Ok? <==> exists concurrency, waves :: Fits(spec, p, runs, concurrency, waves)
  {
    forall concurrency, waves | Fits(spec, p, runs, concurrency, waves)
      ensures Consistent(spec, runs)
    {
      CollectedIsConsistent(spec, runs, GroupMap(runs), concurrency);
    }
    var grouped := ProviderWaveGroups(spec, runs);
    if grouped.Err? { return Err(grouped.error); }
    var concurrency := grouped.value.1;
    forall other, waves | Fits(spec, p, runs, other, waves) ensures other == concurrency {
      OneConcurrency(spec, runs, other, concurrency);
    }
    var waves := BuildPlannedInitialWaves(spec, p, grouped.value.0, concurrency);
    if waves.Err? { return Err(waves.error); }
    var total := SumSeconds(waves.value);
    total := total + p.controllerReserve;
    PlanOfGroups(spec, p, runs, grouped.value.0, concurrency, waves.value);
    if total > spec.jobTimeoutSeconds { return Err(CampaignTooLong); }
    assert Fits(spec, p, runs, concurrency, waves.value);
    r := Ok((waves.value, total));
  }

  lemma OneConcurrency(spec: Spec, runs: seq<Run>, a: map<string, nat>, b: map<string, nat>)
    requires Collected(spec, runs, GroupMap(runs), a) && Collected(spec, runs, GroupMap(runs), b)
    ensures a == b
  {
    forall d | d in a ensures a[d] == b[d] {
      var r :| r in runs && r.deployment == d;
    }
  }

  predicate Fits(spec: Spec, p: Policy, runs: seq<Run>, concurrency: map<string, nat>, waves: seq<Wave>)
    requires spec.maxShardsPerWave > 0
  {
    Planned(spec, p, runs, concurrency, waves) && TotalSeconds(waves) + p.controllerReserve <= spec.jobTimeoutSeconds
  }

  /** `waves` plan these runs with that concurrency. */
  predicate Planned(spec: Spec, p: Policy, runs: seq<Run>, concurrency: map<string, nat>, waves: seq<Wave>)
    requires spec.maxShardsPerWave > 0
  {
    && Collected(spec, runs, GroupMap(runs), concurrency)
    && AllPlannable(spec, p, GroupMap(runs), concurrency)
    && waves == PlanWaves(spec, p, GroupMap(runs), concurrency)
  }

  ghost predicate IsPlan(spec: Spec, p: Policy, runs: seq<Run>, waves: seq<Wave>)
    requires spec.maxShardsPerWave > 0
  {
    exists concurrency :: Planned(spec, p, runs, concurrency, waves)
  }
}
