/** Locking a planned campaign (campaigns.py): shards get IDs, are sorted by them and
    chunked again.  The locked waves still keep what was planned. */
module CampaignLocks {
  import opened Common
  import opened TextOrder
  import opened Permutations
  import opened CampaignWaves
  import opened CampaignPlanner

  /** The short IDs of runs and shards, which are hashes. */
  datatype Ids = Ids(run: string -> string, shard: (string, string) -> string)

  function LockShard(ids: Ids, run: string, s: Shard): Shard {
    Shard(ids.shard(run, s.key), s.trials)
  }

  function LockShards(ids: Ids, run: string, shards: seq<Shard>): seq<Shard> {
    seq(|shards|, i requires 0 <= i < |shards| => LockShard(ids, run, shards[i]))
  }

  function LockRun(ids: Ids, r: Run): Run {
    Run(ids.run(r.key), r.deployment, r.limit, LockShards(ids, ids.run(r.key), r.shards))
  }

  /** The runs of `build_campaign_lock`. */
  function LockRuns(ids: Ids, runs: seq<Run>): seq<Run> {
    if runs == [] then [] else LockRuns(ids, runs[..|runs| - 1]) + [LockRun(ids, runs[|runs| - 1])]
  }

  function RunKey(): Run -> string {
    (r: Run) => r.key
  }

  function ShardKey(): Shard -> string {
    (s: Shard) => s.key
  }

  function SortShards(runs: seq<Run>): seq<Run> {
    if runs == [] then []
    else
      var last := runs[|runs| - 1];
      SortShards(runs[..|runs| - 1]) + [last.(shards := SortByKey(ShardKey(), last.shards))]
  }

  /** The order in which `_locked_initial_waves` takes runs and shards. */
  function LockedOrder(runs: seq<Run>): seq<Run> {
    SortShards(SortByKey(RunKey(), runs))
  }

  // ---- the same shards ----

  /** What sorting and locking keep of a group. */
  predicate SameLoad(a: seq<Shard>, b: seq<Shard>) {
    |a| == |b| && Trials(a) == Trials(b)
  }

  lemma TrialsOfPermutation(a: seq<Shard>, b: seq<Shard>)
    requires multiset(a) == multiset(b)
    ensures SameLoad(a, b)
  {
    assert |multiset(a)| == |a| && |multiset(b)| == |b|;
    var f := (s: seq<Shard>) => Trials(s);
    forall x, y ensures AddsUp(f, x, y) { TrialsJoin(x, y); }
    AdditiveOnPermutation(f, a, b);
  }

  lemma {:induction false} GroupJoin(a: seq<Run>, b: seq<Run>, d: string)
    ensures GroupOf(a + b, d) == GroupOf(a, d) + GroupOf(b, d)
  {
    if b == [] {
      assert a + b == a;
    } else {
      assert (a + b)[..|a + b| - 1] == a + b[..|b| - 1];
      GroupJoin(a, b[..|b| - 1], d);
    }
  }

  lemma GroupOfPermutation(a: seq<Run>, b: seq<Run>, d: string)
    requires multiset(a) == multiset(b)
    ensures multiset(GroupOf(a, d)) == multiset(GroupOf(b, d))
  {
    forall shard ensures multiset(GroupOf(a, d))[shard] == multiset(GroupOf(b, d))[shard] {
      var f := (s: seq<Run>) => multiset(GroupOf(s, d))[shard];
      forall x, y ensures AddsUp(f, x, y) { GroupJoin(x, y, d); }
      AdditiveOnPermutation(f, a, b);
    }
  }

  lemma GroupOfOne(x: Run, d: string)
    ensures GroupOf([x], d) == if x.deployment == d then x.shards else []
  {
    assert [x][..0] == [];
  }

  lemma {:induction false} GroupOfSortedShards(runs: seq<Run>, d: string)
    ensures multiset(GroupOf(SortShards(runs), d)) == multiset(GroupOf(runs, d))
  {
    if runs != [] {
      var front, last := runs[..|runs| - 1], runs[|runs| - 1];
      var sorted := last.(shards := SortByKey(ShardKey(), last.shards));
      GroupOfSortedShards(front, d);
      GroupJoin(SortShards(front), [sorted], d);
      GroupOfOne(sorted, d);
    }
  }

  lemma LockedOrderKeepsGroups(runs: seq<Run>, d: string)
    ensures multiset(GroupOf(LockedOrder(runs), d)) == multiset(GroupOf(runs, d))
  {
    GroupOfSortedShards(SortByKey(RunKey(), runs), d);
    GroupOfPermutation(SortByKey(RunKey(), runs), runs, d);
  }

  lemma {:induction false} LockShardsKeepLoad(ids: Ids, run: string, shards: seq<Shard>)
    ensures SameLoad(LockShards(ids, run, shards), shards)
  {
    if shards != [] {
      LockShardsKeepLoad(ids, run, shards[..|shards| - 1]);
      var locked := LockShards(ids, run, shards);
      assert locked[..|locked| - 1] == LockShards(ids, run, shards[..|shards| - 1]);
    }
  }

  lemma {:induction false} LockKeepsLoad(ids: Ids, runs: seq<Run>, d: string)
    ensures SameLoad(GroupOf(LockRuns(ids, runs), d), GroupOf(runs, d))
  {
    if runs != [] {
      var front, last := runs[..|runs| - 1], runs[|runs| - 1];
      LockKeepsLoad(ids, front, d);
      LockShardsKeepLoad(ids, ids.run(last.key), last.shards);
      GroupJoin(LockRuns(ids, front), [LockRun(ids, last)], d);
      GroupOfOne(LockRun(ids, last), d);
      TrialsJoin(GroupOf(front, d), if last.deployment == d then last.shards else []);
      TrialsJoin(GroupOf(LockRuns(ids, front), d), if last.deployment == d then LockRun(ids, last).shards else []);
    }
  }

  lemma {:induction false} LockKeepsDeployments(ids: Ids, runs: seq<Run>)
    ensures Deployments(LockRuns(ids, runs)) == Deployments(runs)
  {
    if runs != [] {
      LockKeepsDeployments(ids, runs[..|runs| - 1]);
      DeploymentsOneMore(LockRuns(ids, runs[..|runs| - 1]), LockRun(ids, runs[|runs| - 1]));
      DeploymentsOneMore(runs[..|runs| - 1], runs[|runs| - 1]);
      assert runs == runs[..|runs| - 1] + [runs[|runs| - 1]];
    }
  }

  lemma {:induction false} OrderKeepsDeployments(runs: seq<Run>)
    ensures Deployments(LockedOrder(runs)) == Deployments(runs)
  {
    SortShardsKeepsDeployments(SortByKey(RunKey(), runs));
    assert forall r :: r in SortByKey(RunKey(), runs) <==> r in multiset(SortByKey(RunKey(), runs));
    assert forall r :: r in runs <==> r in multiset(runs);
  }

  lemma {:induction false} SortShardsKeepsDeployments(runs: seq<Run>)
    ensures Deployments(SortShards(runs)) == Deployments(runs)
  {
    if runs != [] {
      var front, last := runs[..|runs| - 1], runs[|runs| - 1];
      SortShardsKeepsDeployments(front);
      DeploymentsOneMore(SortShards(front), last.(shards := SortByKey(ShardKey(), last.shards)));
      DeploymentsOneMore(front, last);
      assert runs == front + [last];
    }
  }

  // ---- the tables read back from the plan ----

  function ConcurrencyOf(planned: seq<Wave>): map<string, nat> {
    if planned == [] then map[]
    else ConcurrencyOf(planned[..|planned| - 1])[planned[|planned| - 1].deployment := planned[|planned| - 1].concurrency]
  }

  function SecondsOf(planned: seq<Wave>): map<string, int> {
    if planned == [] then map[]
    else SecondsOf(planned[..|planned| - 1])[planned[|planned| - 1].deployment := planned[|planned| - 1].seconds]
  }

  /** Every wave of a deployment agrees with the tables. */
  predicate Tabled(planned: seq<Wave>, concurrency: map<string, nat>, seconds: map<string, int>) {
    forall w | w in planned ::
      && w.deployment in concurrency && w.deployment in seconds
      && w.concurrency == concurrency[w.deployment] && w.seconds == seconds[w.deployment]
  }

  lemma {:induction false} TablesAreReadBack(
    planned: seq<Wave>, concurrency: map<string, nat>, seconds: map<string, int>, d: string)
    requires Tabled(planned, concurrency, seconds) && exists w :: w in planned && w.deployment == d
    ensures d in ConcurrencyOf(planned) && ConcurrencyOf(planned)[d] == concurrency[d]
    ensures d in SecondsOf(planned) && SecondsOf(planned)[d] == seconds[d]
  {
    var front, last := planned[..|planned| - 1], planned[|planned| - 1];
    if last.deployment != d {
      var w :| w in planned && w.deployment == d;
      assert w in front;
      TablesAreReadBack(front, concurrency, seconds, d);
    }
  }

  lemma {:induction false} WavesAreTabled(
    ds: seq<string>, groups: Groups, n: nat, concurrency: map<string, nat>, seconds: map<string, int>)
    requires n > 0 && forall d | d in ds :: d in groups && d in concurrency && d in seconds
    ensures Tabled(Waves(ds, groups, n, concurrency, seconds), concurrency, seconds)
  {
    if ds != [] {
      assert ds[|ds| - 1] in ds;
      WavesAreTabled(ds[..|ds| - 1], groups, n, concurrency, seconds);
    }
  }

  lemma {:induction false} EveryGroupHasAWave(
    ds: seq<string>, groups: Groups, n: nat, concurrency: map<string, nat>, seconds: map<string, int>, d: string)
    requires n > 0 && forall e | e in ds :: e in groups && e in concurrency && e in seconds
    requires d in ds && groups[d] != []
    ensures exists w :: w in Waves(ds, groups, n, concurrency, seconds) && w.deployment == d
  {
    var last := ds[|ds| - 1];
    assert last in ds;
    var own := WavesOf(last, Chunks(groups[last], n), concurrency[last], seconds[last]);
    if last == d {
      ChunksOfSome(groups[d], n);
      assert own[0] in own && own[0].deployment == d;
      assert own[0] in Waves(ds, groups, n, concurrency, seconds);
    } else {
      EveryGroupHasAWave(ds[..|ds| - 1], groups, n, concurrency, seconds, d);
    }
  }

  // ---- the lock keeps the plan ----

  /** `_locked_initial_waves` on the runs of a lock. */
  function LockedWaves(planned: seq<Wave>, runs: seq<Run>, n: nat): seq<Wave>
    requires n > 0 && Deployments(LockedOrder(runs)) <= ConcurrencyOf(planned).Keys
    requires Deployments(LockedOrder(runs)) <= SecondsOf(planned).Keys
  {
    Waves(Ascending(Deployments(LockedOrder(runs))), GroupMap(LockedOrder(runs)), n, ConcurrencyOf(planned), SecondsOf(planned))
  }

  lemma PlanCoversTheLock(
    spec: Spec, p: Policy, runs: seq<Run>, ids: Ids, concurrency: map<string, nat>, planned: seq<Wave>, d: string)
    requires spec.maxShardsPerWave > 0 && Planned(spec, p, runs, concurrency, planned)
    requires d in Deployments(runs)
    ensures d in ConcurrencyOf(planned) && ConcurrencyOf(planned)[d] == concurrency[d]
    ensures d in SecondsOf(planned) &&
            SecondsOf(planned)[d] == PlannedSeconds(spec, p, GroupMap(runs), concurrency)[d]
  {
    var groups := GroupMap(runs);
    var seconds := PlannedSeconds(spec, p, groups, concurrency);
    var ds := Ascending(groups.Keys);
    assert Plannable(spec, p, groups[d], concurrency[d]);
    WavesAreTabled(ds, groups, spec.maxShardsPerWave, concurrency, seconds);
    EveryGroupHasAWave(ds, groups, spec.maxShardsPerWave, concurrency, seconds, d);
    TablesAreReadBack(planned, concurrency, seconds, d);
  }

  lemma LockHasTables(
    spec: Spec, p: Policy, runs: seq<Run>, ids: Ids, concurrency: map<string, nat>, planned: seq<Wave>)
    requires spec.maxShardsPerWave > 0 && Planned(spec, p, runs, concurrency, planned)
    ensures var ordered := LockedOrder(LockRuns(ids, runs));
            && Deployments(ordered) == Deployments(runs)
            && Deployments(ordered) <= ConcurrencyOf(planned).Keys && Deployments(ordered) <= SecondsOf(planned).Keys
  {
    LockKeepsDeployments(ids, runs);
    OrderKeepsDeployments(LockRuns(ids, runs));
    forall d | d in Deployments(runs) ensures d in ConcurrencyOf(planned) && d in SecondsOf(planned) {
      PlanCoversTheLock(spec, p, runs, ids, concurrency, planned, d);
    }
  }

  lemma LockedLoad(ids: Ids, runs: seq<Run>, d: string)
    ensures SameLoad(GroupOf(LockedOrder(LockRuns(ids, runs)), d), GroupOf(runs, d))
  {
    LockedOrderKeepsGroups(LockRuns(ids, runs), d);
    TrialsOfPermutation(GroupOf(LockedOrder(LockRuns(ids, runs)), d), GroupOf(LockRuns(ids, runs), d));
    LockKeepsLoad(ids, runs, d);
  }

  /** The lock runs the same trials in the same time as the plan, to the second. */
  lemma LockKeepsTotals(
    spec: Spec, p: Policy, runs: seq<Run>, ids: Ids, concurrency: map<string, nat>, planned: seq<Wave>)
    requires spec.maxShardsPerWave > 0 && Planned(spec, p, runs, concurrency, planned)
    ensures var ordered := LockedOrder(LockRuns(ids, runs));
            && Deployments(ordered) <= ConcurrencyOf(planned).Keys && Deployments(ordered) <= SecondsOf(planned).Keys
            && var locked := LockedWaves(planned, LockRuns(ids, runs), spec.maxShardsPerWave);
            && TotalSeconds(locked) == TotalSeconds(planned)
            && TotalTrials(locked) == TotalTrials(planned)
  {
    LockHasTables(spec, p, runs, ids, concurrency, planned);
    var ordered := LockedOrder(LockRuns(ids, runs));
    TablesAgree(spec, p, runs, ids, concurrency, planned);
    assert GroupMap(runs).Keys == Deployments(runs) && GroupMap(ordered).Keys == Deployments(runs);
    TotalsThroughTables(Deployments(runs), GroupMap(ordered), GroupMap(runs), spec.maxShardsPerWave,
                        ConcurrencyOf(planned), concurrency, SecondsOf(planned),
                        PlannedSeconds(spec, p, GroupMap(runs), concurrency));
  }

  lemma TablesAgree(
    spec: Spec, p: Policy, runs: seq<Run>, ids: Ids, concurrency: map<string, nat>, planned: seq<Wave>)
    requires spec.maxShardsPerWave > 0 && Planned(spec, p, runs, concurrency, planned)
    ensures var ordered := LockedOrder(LockRuns(ids, runs));
            var seconds := PlannedSeconds(spec, p, GroupMap(runs), concurrency);
            && Deployments(ordered) == Deployments(runs)
            && Deployments(runs) <= ConcurrencyOf(planned).Keys && Deployments(runs) <= SecondsOf(planned).Keys
            && forall d | d in Deployments(runs) ::
                 && SameLoad(GroupMap(ordered)[d], GroupMap(runs)[d])
                 && ConcurrencyOf(planned)[d] == concurrency[d] && SecondsOf(planned)[d] == seconds[d]
  {
    LockHasTables(spec, p, runs, ids, concurrency, planned);
    forall d | d in Deployments(runs)
      ensures SameLoad(GroupOf(LockedOrder(LockRuns(ids, runs)), d), GroupOf(runs, d))
      ensures ConcurrencyOf(planned)[d] == concurrency[d]
      ensures SecondsOf(planned)[d] == PlannedSeconds(spec, p, GroupMap(runs), concurrency)[d]
    {
      LockedLoad(ids, runs, d);
      PlanCoversTheLock(spec, p, runs, ids, concurrency, planned, d);
    }
  }

  lemma TotalsThroughTables(
    all: set<string>, a: Groups, b: Groups, n: nat,
    c: map<string, nat>, e: map<string, nat>, x: map<string, int>, y: map<string, int>)
    requires n > 0 && all <= a.Keys && all <= b.Keys && all <= c.Keys && all <= e.Keys && all <= x.Keys && all <= y.Keys
    requires forall d | d in all :: SameLoad(a[d], b[d]) && c[d] == e[d] && x[d] == y[d]
    ensures TotalSeconds(Waves(Ascending(all), a, n, c, x)) == TotalSeconds(Waves(Ascending(all), b, n, e, y))
    ensures TotalTrials(Waves(Ascending(all), a, n, c, x)) == TotalTrials(Waves(Ascending(all), b, n, e, y))
  {
    WavesIgnore(Ascending(all), a, n, c, e, x, y);
    SameTotals(Ascending(all), a, b, n, e, y);
  }

  /** Ordering the runs of a lock loses no shard. */
  lemma OrderKeepsShards(runs: seq<Run>)
    ensures multiset(AllShards(LockedOrder(runs))) == multiset(AllShards(runs))
  {
    var ds := Ascending(Deployments(runs));
    OrderKeepsDeployments(runs);
    AscendingWorks(Deployments(runs));
    PartitionBy(ds, runs);
    PartitionBy(ds, LockedOrder(runs));
    forall d ensures multiset(GroupOf(LockedOrder(runs), d)) == multiset(GroupOf(runs, d)) {
      LockedOrderKeepsGroups(runs, d);
    }
    SameGroups(ds, LockedOrder(runs), runs);
  }

  lemma PartitionBy(ds: seq<string>, runs: seq<Run>)
    requires NoRepeats(ds) && forall d | d in Deployments(runs) :: d in ds
    ensures multiset(GroupsOf(ds, runs)) == multiset(AllShards(runs))
  {
    GroupsPartition(ds, runs);
  }

  lemma {:induction false} SameGroups(ds: seq<string>, a: seq<Run>, b: seq<Run>)
    requires forall d :: multiset(GroupOf(a, d)) == multiset(GroupOf(b, d))
    ensures multiset(GroupsOf(ds, a)) == multiset(GroupsOf(ds, b))
  {
    if ds != [] { SameGroups(ds[..|ds| - 1], a, b); }
  }

  lemma KeysOfPermutation(a: seq<Shard>, b: seq<Shard>)
    requires multiset(a) == multiset(b)
    ensures multiset(ShardKeys(a)) == multiset(ShardKeys(b))
  {
    forall key ensures multiset(ShardKeys(a))[key] == multiset(ShardKeys(b))[key] {
      var f := (s: seq<Shard>) => multiset(ShardKeys(s))[key];
      forall x, y ensures AddsUp(f, x, y) { KeysJoin(x, y); }
      AdditiveOnPermutation(f, a, b);
    }
  }

  /** Locked waves hold each shard ID of the lock as often as the lock does: each once. */
  lemma LockedWavesPartition(planned: seq<Wave>, runs: seq<Run>, n: nat)
    requires n > 0 && Deployments(LockedOrder(runs)) <= ConcurrencyOf(planned).Keys
    requires Deployments(LockedOrder(runs)) <= SecondsOf(planned).Keys
    ensures multiset(AllKeys(LockedWaves(planned, runs, n))) == multiset(ShardKeys(AllShards(runs)))
    ensures TotalTrials(LockedWaves(planned, runs, n)) == Trials(AllShards(runs))
  {
    var ordered := LockedOrder(runs);
    var ds := Ascending(Deployments(ordered));
    WavesHoldTheGroups(ds, GroupMap(ordered), n, ConcurrencyOf(planned), SecondsOf(planned));
    AscendingWorks(Deployments(ordered));
    GroupsPartition(ds, ordered);
    GroupedIsGroupsOf(ds, ordered);
    OrderKeepsShards(runs);
    KeysOfPermutation(GroupsOf(ds, ordered), AllShards(runs));
    TrialsOfPermutation(GroupsOf(ds, ordered), AllShards(runs));
  }

  lemma {:induction false} WaveSizes(
    ds: seq<string>, groups: Groups, n: nat, concurrency: map<string, nat>, seconds: map<string, int>, w: Wave)
    requires n > 0 && forall d | d in ds :: d in groups && d in concurrency && d in seconds
    requires w in Waves(ds, groups, n, concurrency, seconds)
    ensures 1 <= |w.shards| <= n && w.deployment in ds
  {
    var d := ds[|ds| - 1];
    assert d in ds;
    var own := WavesOf(d, Chunks(groups[d], n), concurrency[d], seconds[d]);
    if w in own {
      var i :| 0 <= i < |own| && own[i] == w;
      ChunkSizes(groups[d], n, i);
    } else {
      WaveSizes(ds[..|ds| - 1], groups, n, concurrency, seconds, w);
    }
  }

  /** No locked wave is empty or over the shard bound. */
  lemma LockedWavesFit(planned: seq<Wave>, runs: seq<Run>, n: nat, w: Wave)
    requires n > 0 && Deployments(LockedOrder(runs)) <= ConcurrencyOf(planned).Keys
    requires Deployments(LockedOrder(runs)) <= SecondsOf(planned).Keys
    requires w in LockedWaves(planned, runs, n)
    ensures 1 <= |w.shards| <= n
  {
    var ordered := LockedOrder(runs);
    WaveSizes(Ascending(Deployments(ordered)), GroupMap(ordered), n, ConcurrencyOf(planned), SecondsOf(planned), w);
  }

  // ---- each wave is found by its shards ----

  ghost predicate NoKeyTwice(s: seq<string>) {
    forall k :: multiset(s)[k] <= 1
  }

  lemma {:induction false} KeyCount(waves: seq<Wave>, i: nat, j: nat, k: string)
    requires i < j < |waves| && k in waves[i].shards && k in waves[j].shards
    ensures multiset(AllKeys(waves))[k] >= 2
  {
    var front := waves[..|waves| - 1];
    if j == |waves| - 1 {
      KeyIsThere(front, i, k);
      assert k in multiset(waves[j].shards);
    } else {
      KeyCount(front, i, j, k);
    }
  }

  lemma {:induction false} KeyIsThere(waves: seq<Wave>, i: nat, k: string)
    requires i < |waves| && k in waves[i].shards
    ensures multiset(AllKeys(waves))[k] >= 1
  {
    if i == |waves| - 1 {
      assert k in multiset(waves[i].shards);
    } else {
      KeyIsThere(waves[..|waves| - 1], i, k);
    }
  }

  /** Two locked waves never list the same shards. */
  lemma WavesAreTold(waves: seq<Wave>, i: nat, j: nat)
    requires i < |waves| && j < |waves| && NoKeyTwice(AllKeys(waves)) && waves[i].shards != []
    requires forall k :: k in waves[i].shards <==> k in waves[j].shards
    ensures i == j
  {
    var k := waves[i].shards[0];
    assert k in waves[i].shards;
    if i < j { KeyCount(waves, i, j, k); }
    if j < i { KeyCount(waves, j, i, k); }
  }

  /** Under different shard IDs no locked wave shares a shard with another, so each is the
      only one that lists its shards. */
  lemma LockedWavesResolve(planned: seq<Wave>, runs: seq<Run>, n: nat, i: nat)
    requires n > 0 && Deployments(LockedOrder(runs)) <= ConcurrencyOf(planned).Keys
    requires Deployments(LockedOrder(runs)) <= SecondsOf(planned).Keys
    requires NoKeyTwice(ShardKeys(AllShards(runs))) && i < |LockedWaves(planned, runs, n)|
    ensures NoKeyTwice(AllKeys(LockedWaves(planned, runs, n)))
    ensures var waves := LockedWaves(planned, runs, n);
            var shards := set k | k in waves[i].shards;
            shards != {} && OnlyOne(waves, waves[i].deployment, shards, i)
  {
    LockedWavesPartition(planned, runs, n);
    var waves := LockedWaves(planned, runs, n);
    var shards := set k | k in waves[i].shards;
    assert waves[i] in waves;
    LockedWavesFit(planned, runs, n, waves[i]);
    assert waves[i].shards[0] in shards;
    forall j | 0 <= j < |waves| && Lists(waves[j], waves[i].deployment, shards) ensures j == i {
      WavesAreTold(waves, i, j);
    }
  }

  predicate Lists(w: Wave, d: string, shards: set<string>) {
    w.deployment == d && (forall k | k in w.shards :: k in shards) && (forall k | k in shards :: k in w.shards)
  }

  predicate OnlyOne(waves: seq<Wave>, d: string, shards: set<string>, i: nat)
    requires i < |waves|
  {
    Lists(waves[i], d, shards) && forall j | 0 <= j < |waves| && Lists(waves[j], d, shards) :: j == i
  }

  /** `locked_provider_action_seconds` for a wave: the time of the one wave that lists these
      shards, or an error when it is not just one. */
  method LockedWaveSeconds(waves: seq<Wave>, d: string, shards: set<string>) returns (r: Result<int, Error>)
    ensures forall i | 0 <= i < |waves| && Lists(waves[i], d, shards) && NoKeyTwice(AllKeys(waves)) && shards != {} ::
              r == Ok(waves[i].seconds)
    ensures r.Ok? ==> exists i :: 0 <= i < |waves| && OnlyOne(waves, d, shards, i) && r.value == waves[i].seconds
    ensures r.Err? ==> r.error == NoMatch
  {
    forall i, j | 0 <= i < |waves| && 0 <= j < |waves| && Lists(waves[i], d, shards) && Lists(waves[j], d, shards) &&
                  NoKeyTwice(AllKeys(waves)) && shards != {}
      ensures i == j
    {
      ListedIsNotEmpty(waves[i], d, shards);
      WavesAreTold(waves, i, j);
    }
    var found: Option<nat> := None;
    for i := 0 to |waves|
      invariant found.None? ==> forall j | 0 <= j < i :: !Lists(waves[j], d, shards)
      invariant found.Some? ==> found.value < i && Lists(waves[found.value], d, shards)
      invariant found.Some? ==> forall j | 0 <= j < i && Lists(waves[j], d, shards) :: j == found.value
    {
      if Lists(waves[i], d, shards) {
        if found.Some? { return Err(NoMatch); }
        found := Some(i);
      }
    }
    r := if found.None? then Err(NoMatch) else Ok(waves[found.value].seconds);
  }

  /** `locked_provider_action_concurrency`: the one concurrency of a deployment's waves. */
  method LockedConcurrency(waves: seq<Wave>, d: string) returns (r: Option<nat>)
    ensures r.Some? ==> (exists w :: w in waves && w.deployment == d) && forall w | w in waves && w.deployment == d :: w.concurrency == r.value
    ensures r.None? ==>
              || (forall w | w in waves :: w.deployment != d)
              || exists v, w :: v in waves && w in waves && v.deployment == d == w.deployment && v.concurrency != w.concurrency
  {
    r := None;
    for i := 0 to |waves|
      invariant r.None? ==> forall j | 0 <= j < i :: waves[j].deployment != d
      invariant r.Some? ==> exists j :: 0 <= j < i && waves[j].deployment == d && waves[j].concurrency == r.value
      invariant r.Some? ==> forall j | 0 <= j < i && waves[j].deployment == d :: waves[j].concurrency == r.value
    {
      if waves[i].deployment == d {
        if r.Some? && r.value != waves[i].concurrency {
          ghost var j :| 0 <= j < i && waves[j].deployment == d && waves[j].concurrency == r.value;
          assert waves[j] in waves && waves[i] in waves;
          return None;
        }
        r := Some(waves[i].concurrency);
      }
    }
  }

  /** `locked_provider_action_seconds`: a wave takes the time it was locked with, a retry
      the time that its own trials need. */
  method LockedActionSeconds(p: Policy, waves: seq<Wave>, retry: bool, d: string, shards: set<string>, trials: nat)
    returns (r: Result<int, Error>)
    ensures !retry && r.Ok? ==>
              exists i :: 0 <= i < |waves| && OnlyOne(waves, d, shards, i) && r.value == waves[i].seconds
    ensures !retry ==> forall i | 0 <= i < |waves| && OnlyOne(waves, d, shards, i) && NoKeyTwice(AllKeys(waves)) && shards != {} ::
              r == Ok(waves[i].seconds)
    ensures retry ==> forall concurrency: nat | HasConcurrency(waves, d, concurrency) ::
              r == if trials >= 1 && concurrency >= 1 then Ok(WaveSeconds(p, trials, concurrency)) else Err(EmptyWave)
    ensures retry && r.Ok? ==> exists concurrency: nat :: HasConcurrency(waves, d, concurrency)
  {
    if !retry {
      r := LockedWaveSeconds(waves, d, shards);
      return;
    }
    var concurrency := LockedConcurrency(waves, d);
    if concurrency.None? { return Err(NoMatch); }
    assert HasConcurrency(waves, d, concurrency.value);
    if trials < 1 || concurrency.value < 1 { return Err(EmptyWave); }
    r := Ok(WaveSeconds(p, trials, concurrency.value));
  }

  predicate HasConcurrency(waves: seq<Wave>, d: string, concurrency: nat) {
    (exists w | w in waves :: w.deployment == d) && forall w | w in waves && w.deployment == d :: w.concurrency == concurrency
  }

  lemma ListedIsNotEmpty(w: Wave, d: string, shards: set<string>)
    requires Lists(w, d, shards) && shards != {}
    ensures w.shards != []
  {
    var k :| k in shards;
    assert k in w.shards;
  }

  // ---- the loops of `_locked_initial_waves` ----

  method GroupShards(runs: seq<Run>) returns (groups: Groups)
    ensures groups == GroupMap(runs)
  {
    groups := map[];
    ghost var done: seq<Run> := [];
    for i := 0 to |runs|
      invariant done == runs[..i] && groups == GroupMap(done)
    {
      var run := runs[i];
      GroupsOneMore(done, run);
      if run.deployment !in groups { NoGroup(done, run.deployment); }
      var shards := if run.deployment in groups then groups[run.deployment] else [];
      groups := groups[run.deployment := shards + run.shards];
      done := done + [run];
    }
    assert done == runs;
  }

  method LockDeployment(d: string, shards: seq<Shard>, n: nat, concurrency: nat, seconds: int) returns (waves: seq<Wave>)
    requires n > 0
    ensures waves == WavesOf(d, Chunks(shards, n), concurrency, seconds)
  {
    waves := [];
    var rest := shards;
    ghost var chunks: seq<seq<Shard>> := [];
    while rest != []
      invariant Chunks(shards, n) == chunks + Chunks(rest, n)
      invariant waves == WavesOf(d, chunks, concurrency, seconds)
      decreases |rest|
    {
      FirstChunk(rest, n);
      var size := Smaller(|rest|, n);
      chunks := chunks + [rest[..size]];
      waves := waves + [WaveOf(d, rest[..size], concurrency, seconds)];
      rest := rest[size..];
    }
    assert Chunks(shards, n) == chunks;
  }

  method LockDeployments(ds: seq<string>, groups: Groups, n: nat, concurrency: map<string, nat>, seconds: map<string, int>)
    returns (waves: seq<Wave>)
    requires n > 0 && forall d | d in ds :: d in groups && d in concurrency && d in seconds
    ensures waves == Waves(ds, groups, n, concurrency, seconds)
  {
    waves := [];
    ghost var done: seq<string> := [];
    for i := 0 to |ds|
      invariant done == ds[..i] && forall d | d in done :: d in ds
      invariant waves == Waves(done, groups, n, concurrency, seconds)
    {
      var d := ds[i];
      var more := LockDeployment(d, groups[d], n, concurrency[d], seconds[d]);
      assert (done + [d])[..|done|] == done;
      waves, done := waves + more, done + [d];
    }
    assert done == ds;
  }

  method LockedInitialWaves(planned: seq<Wave>, runs: seq<Run>, n: nat) returns (waves: seq<Wave>)
    requires n > 0 && Deployments(LockedOrder(runs)) <= ConcurrencyOf(planned).Keys
    requires Deployments(LockedOrder(runs)) <= SecondsOf(planned).Keys
    ensures waves == LockedWaves(planned, runs, n)
  {
    var groups := GroupShards(LockedOrder(runs));
    assert groups.Keys == Deployments(LockedOrder(runs));
    waves := LockDeployments(Ascending(groups.Keys), groups, n, ConcurrencyOf(planned), SecondsOf(planned));
  }
}
