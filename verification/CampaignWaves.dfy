/** Planning and locking the initial waves of a provider campaign (campaigns.py): shards
    are chunked per deployment when the plan is made, then sorted by their locked IDs and
    chunked again, and the time planned before must still be right. */
module CampaignWaves {
  import opened Common
  import opened TextOrder

  /** A shard and a run, planned or locked: `key` is a digest in a plan, an ID in a lock. */
  datatype Shard = Shard(key: string, trials: seq<string>)

  datatype Run = Run(key: string, deployment: string, limit: Option<nat>, shards: seq<Shard>)

  /** An initial wave; its index is its place in the list, from one. */
  datatype Wave = Wave(deployment: string, shards: seq<string>, trialCount: nat, concurrency: nat, seconds: int)

  datatype Policy = Policy(planningTrialSeconds: nat, headroom: real, waveReserve: nat, controllerReserve: nat)

  datatype Spec = Spec(
    concurrentTrials: nat, profileConcurrency: Option<nat>, maxShardsPerWave: nat, timeoutSeconds: int, jobTimeoutSeconds: int)

  datatype Error = NoLimit | InconsistentLimits | WaveTooLong | CampaignTooLong | EmptyWave | NoMatch

  type Groups = map<string, seq<Shard>>

  // ---- arithmetic ----

  function Ceiling(x: real): int {
    -((-x).Floor)
  }

  function Batches(trials: nat, concurrency: nat): nat
    requires concurrency > 0
  {
    (trials + concurrency - 1) / concurrency
  }

  predicate Sensible(p: Policy) {
    p.planningTrialSeconds >= 1 && p.headroom >= 1.0 && p.waveReserve >= 1
  }

  /** The time of so many batches, with headroom, in whole seconds. */
  function Work(p: Policy, batches: nat): int {
    Ceiling((batches * p.planningTrialSeconds) as real * p.headroom)
  }

  /** `planned_provider_wave_seconds` */
  function WaveSeconds(p: Policy, trials: nat, concurrency: nat): int
    requires concurrency > 0
  {
    Work(p, Batches(trials, concurrency)) + p.waveReserve
  }

  /** The least number of batches that holds so many trials. */
  lemma BatchesAreLeast(trials: nat, concurrency: nat)
    requires concurrency > 0
    ensures Batches(trials, concurrency) * concurrency >= trials
    ensures trials > 0 ==> (Batches(trials, concurrency) - 1) * concurrency < trials
    ensures trials == 0 ==> Batches(trials, concurrency) == 0
  {
    var n := Batches(trials, concurrency);
    assert n * concurrency + (trials + concurrency - 1) % concurrency == trials + concurrency - 1;
    assert (n - 1) * concurrency == n * concurrency - concurrency;
  }

  /** The least whole number of seconds that is not below the batches' time with headroom. */
  lemma WorkIsLeast(p: Policy, batches: nat)
    ensures Work(p, batches) as real >= (batches * p.planningTrialSeconds) as real * p.headroom
    ensures (Work(p, batches) - 1) as real < (batches * p.planningTrialSeconds) as real * p.headroom
  {
  }

  /** A wave's time: its reserve, and the least that covers the least number of batches. */
  lemma WaveTimeIsLeast(p: Policy, trials: nat, concurrency: nat, batches: nat)
    requires concurrency > 0 && trials > 0 && batches * concurrency >= trials > (batches - 1) * concurrency
    ensures var seconds := WaveSeconds(p, trials, concurrency) - p.waveReserve;
            seconds as real >= (batches * p.planningTrialSeconds) as real * p.headroom > (seconds - 1) as real
  {
    BatchesAreLeast(trials, concurrency);
    OneQuotient(trials, concurrency, batches, Batches(trials, concurrency));
    WorkIsLeast(p, batches);
  }

  lemma OneQuotient(trials: nat, concurrency: nat, m: int, n: int)
    requires concurrency > 0 && m * concurrency >= trials > (m - 1) * concurrency && n * concurrency >= trials > (n - 1) * concurrency
    ensures m == n
  {
    QuotientIsLeast(m, n - 1, concurrency);
    QuotientIsLeast(n, m - 1, concurrency);
  }

  lemma QuotientIsLeast(m: int, n: int, d: int)
    requires d > 0 && m * d > n * d
    ensures m > n
  {
    assert (m - n) * d > 0;
  }

  /** Headroom and reserve do not blur the batches: a time covers another load if and only
      if its own load has no fewer batches. */
  lemma MoreBatchesTakeLonger(p: Policy, a: nat, b: nat, concurrency: nat)
    requires Sensible(p) && concurrency > 0
    ensures WaveSeconds(p, a, concurrency) <= WaveSeconds(p, b, concurrency) <==>
            Batches(a, concurrency) <= Batches(b, concurrency)
  {
    WorkOrders(p, Batches(a, concurrency), Batches(b, concurrency));
  }

  lemma WorkOrders(p: Policy, m: nat, n: nat)
    requires Sensible(p)
    ensures Work(p, m) <= Work(p, n) <==> m <= n
  {
    if m <= n { WorkGrows(p, m, n); } else { WorkGrows(p, n, m); }
  }

  lemma WorkGrows(p: Policy, m: nat, n: nat)
    requires Sensible(p) && m <= n
    ensures Work(p, m) <= Work(p, n) && (m < n ==> Work(p, m) < Work(p, n))
  {
    var u, v := m * p.planningTrialSeconds, n * p.planningTrialSeconds;
    TimesDifference(m, n, p.planningTrialSeconds);
    HeadroomGrows(u, v, p.headroom);
    CeilingGrows(u as real * p.headroom, v as real * p.headroom, v - u);
  }

  /** What is left of a wave's time without its reserve is positive. */
  lemma WorkTakesTime(p: Policy, trials: nat, concurrency: nat)
    requires Sensible(p) && concurrency > 0 && trials >= 1
    ensures WaveSeconds(p, trials, concurrency) - p.waveReserve >= 1
  {
    var n := Batches(trials, concurrency);
    DivisionBounds(trials + concurrency - 1, concurrency);
    assert n >= 1;
    assert Work(p, 0) == 0;
    WorkGrows(p, 0, n);
  }

  lemma TimesDifference(m: nat, n: nat, d: nat)
    requires m <= n && d >= 1
    ensures n * d - m * d >= n - m
  {
    assert (n - m) * d == n * d - m * d;
    assert (n - m) * d >= (n - m) * 1;
  }

  lemma HeadroomGrows(u: nat, v: nat, h: real)
    requires u <= v && h >= 1.0
    ensures v as real * h - u as real * h >= (v - u) as real
  {
    var x := (v - u) as real;
    assert v as real * h - u as real * h == x * h;
    assert x * h - x == x * (h - 1.0);
  }

  lemma CeilingGrows(x: real, y: real, n: nat)
    requires y - x >= n as real
    ensures Ceiling(y) >= Ceiling(x) + n
  {
  }

  lemma FewerTrialsFewerBatches(a: nat, b: nat, concurrency: nat)
    requires a <= b && concurrency > 0
    ensures Batches(a, concurrency) <= Batches(b, concurrency)
  {
    DivideGrows(a + concurrency - 1, b + concurrency - 1, concurrency);
  }

  lemma DivideGrows(x: nat, y: nat, d: nat)
    requires x <= y && d > 0
    ensures x / d <= y / d
  {
    var q, r := x / d, y / d;
    DivisionBounds(x, d);
    DivisionBounds(y, d);
    if r < q { TimesGrows(r + 1, q, d); }
  }

  lemma DivisionBounds(x: nat, d: nat)
    requires d > 0
    ensures d * (x / d) <= x < d * (x / d + 1)
  {
  }

  lemma TimesGrows(m: nat, n: nat, d: nat)
    requires m <= n
    ensures d * m <= d * n
  {
  }

  // ---- chunks and groups ----

  /** A list cut into pieces of `n`, the last one possibly shorter. */
  function Chunks<T>(s: seq<T>, n: nat): seq<seq<T>>
    requires n > 0
  {
    if s == [] then [] else if |s| <= n then [s] else [s[..n]] + Chunks(s[n..], n)
  }

  /** The shards of the runs of one deployment, in the order of the runs. */
  function GroupOf(runs: seq<Run>, d: string): seq<Shard> {
    if runs == [] then []
    else
      var last := runs[|runs| - 1];
      GroupOf(runs[..|runs| - 1], d) + if last.deployment == d then last.shards else []
  }

  function Deployments(runs: seq<Run>): set<string> {
    set r | r in runs :: r.deployment
  }

  function GroupMap(runs: seq<Run>): Groups {
    map d | d in Deployments(runs) :: GroupOf(runs, d)
  }

  function Trials(shards: seq<Shard>): nat {
    if shards == [] then 0 else Trials(shards[..|shards| - 1]) + |shards[|shards| - 1].trials|
  }

  function ShardKeys(shards: seq<Shard>): seq<string> {
    seq(|shards|, i requires 0 <= i < |shards| => shards[i].key)
  }

  function WaveOf(d: string, chunk: seq<Shard>, concurrency: nat, seconds: int): Wave {
    Wave(d, ShardKeys(chunk), Trials(chunk), concurrency, seconds)
  }

  /** The waves of one deployment, all of them given the same time. */
  function WavesOf(d: string, chunks: seq<seq<Shard>>, concurrency: nat, seconds: int): seq<Wave> {
    seq(|chunks|, i requires 0 <= i < |chunks| => WaveOf(d, chunks[i], concurrency, seconds))
  }

  /** The waves of the deployments `ds`. */
  function Waves(ds: seq<string>, groups: Groups, n: nat, concurrency: map<string, nat>, seconds: map<string, int>): seq<Wave>
    requires n > 0 && forall d | d in ds :: d in groups && d in concurrency && d in seconds
  {
    if ds == [] then []
    else
      var d := ds[|ds| - 1];
      assert d in ds && forall e | e in ds[..|ds| - 1] :: e in ds;
      Waves(ds[..|ds| - 1], groups, n, concurrency, seconds) + WavesOf(d, Chunks(groups[d], n), concurrency[d], seconds[d])
  }

  /** The longest time that any of the chunks needs. */
  function LongestSeconds(p: Policy, chunks: seq<seq<Shard>>, concurrency: nat): int
    requires chunks != [] && concurrency > 0
  {
    var last := WaveSeconds(p, Trials(chunks[|chunks| - 1]), concurrency);
    if |chunks| == 1 then last
    else
      var rest := LongestSeconds(p, chunks[..|chunks| - 1], concurrency);
      if rest > last then rest else last
  }

  // ---- what chunking keeps ----

  function TotalTrials(waves: seq<Wave>): nat {
    if waves == [] then 0 else TotalTrials(waves[..|waves| - 1]) + waves[|waves| - 1].trialCount
  }

  function TotalSeconds(waves: seq<Wave>): int {
    if waves == [] then 0 else TotalSeconds(waves[..|waves| - 1]) + waves[|waves| - 1].seconds
  }

  function AllKeys(waves: seq<Wave>): seq<string> {
    if waves == [] then [] else AllKeys(waves[..|waves| - 1]) + waves[|waves| - 1].shards
  }

  lemma TotalsJoin(a: seq<Wave>, b: seq<Wave>)
    ensures TotalTrials(a + b) == TotalTrials(a) + TotalTrials(b)
    ensures TotalSeconds(a + b) == TotalSeconds(a) + TotalSeconds(b)
    ensures AllKeys(a + b) == AllKeys(a) + AllKeys(b)
  {
    NumbersJoin(a, b);
    AllKeysJoin(a, b);
  }

  lemma {:induction false} NumbersJoin(a: seq<Wave>, b: seq<Wave>)
    ensures TotalTrials(a + b) == TotalTrials(a) + TotalTrials(b)
    ensures TotalSeconds(a + b) == TotalSeconds(a) + TotalSeconds(b)
  {
    if b == [] {
      assert a + b == a;
    } else {
      assert (a + b)[..|a + b| - 1] == a + b[..|b| - 1];
      NumbersJoin(a, b[..|b| - 1]);
    }
  }

  lemma {:induction false} AllKeysJoin(a: seq<Wave>, b: seq<Wave>)
    ensures AllKeys(a + b) == AllKeys(a) + AllKeys(b)
  {
    if b == [] {
      assert a + b == a;
    } else {
      assert (a + b)[..|a + b| - 1] == a + b[..|b| - 1];
      AllKeysJoin(a, b[..|b| - 1]);
    }
  }

  lemma {:induction false} TrialsJoin(a: seq<Shard>, b: seq<Shard>)
    ensures Trials(a + b) == Trials(a) + Trials(b)
  {
    if b == [] {
      assert a + b == a;
    } else {
      assert (a + b)[..|a + b| - 1] == a + b[..|b| - 1];
      TrialsJoin(a, b[..|b| - 1]);
    }
  }

  lemma KeysJoin(a: seq<Shard>, b: seq<Shard>)
    ensures ShardKeys(a + b) == ShardKeys(a) + ShardKeys(b)
  {
  }

  function Concat<T>(chunks: seq<seq<T>>): seq<T> {
    if chunks == [] then [] else Concat(chunks[..|chunks| - 1]) + chunks[|chunks| - 1]
  }

  lemma {:induction false} ConcatFirst<T>(chunk: seq<T>, rest: seq<seq<T>>)
    ensures Concat([chunk] + rest) == chunk + Concat(rest)
  {
    if rest == [] {
      assert ([chunk] + rest)[..0] == [];
    } else {
      var less := rest[..|rest| - 1];
      assert ([chunk] + rest)[..|rest|] == [chunk] + less;
      ConcatFirst(chunk, less);
    }
  }

  lemma {:induction false} ConcatChunks<T>(s: seq<T>, n: nat)
    requires n > 0
    ensures Concat(Chunks(s, n)) == s
    decreases |s|
  {
    if |s| > n {
      ConcatChunks(s[n..], n);
      ConcatFirst(s[..n], Chunks(s[n..], n));
      assert s[..n] + s[n..] == s;
    } else if s != [] {
      ConcatFirst(s, []);
    }
  }

  lemma {:induction false} TotalsOf(d: string, chunks: seq<seq<Shard>>, concurrency: nat, seconds: int)
    ensures var waves := WavesOf(d, chunks, concurrency, seconds);
            && TotalTrials(waves) == Trials(Concat(chunks)) && AllKeys(waves) == ShardKeys(Concat(chunks))
            && TotalSeconds(waves) == |chunks| * seconds
  {
    if chunks != [] {
      var front, last := chunks[..|chunks| - 1], chunks[|chunks| - 1];
      TotalsOf(d, front, concurrency, seconds);
      var waves := WavesOf(d, chunks, concurrency, seconds);
      assert waves[..|waves| - 1] == WavesOf(d, front, concurrency, seconds);
      TrialsJoin(Concat(front), last);
      KeysJoin(Concat(front), last);
      assert |chunks| * seconds == |front| * seconds + seconds;
    }
  }

  /** Chunking loses no trial and no shard, and gives every chunk the same time. */
  lemma ChunkTotals(d: string, s: seq<Shard>, n: nat, concurrency: nat, seconds: int)
    requires n > 0
    ensures var waves := WavesOf(d, Chunks(s, n), concurrency, seconds);
            && TotalTrials(waves) == Trials(s) && AllKeys(waves) == ShardKeys(s)
            && TotalSeconds(waves) == |Chunks(s, n)| * seconds
  {
    ConcatChunks(s, n);
    TotalsOf(d, Chunks(s, n), concurrency, seconds);
  }

  lemma {:induction false} ChunkSizes<T>(s: seq<T>, n: nat, i: nat)
    requires n > 0 && i < |Chunks(s, n)|
    ensures 1 <= |Chunks(s, n)[i]| <= n
    ensures forall x | x in Chunks(s, n)[i] :: x in s
    ensures |Chunks(s, n)[i]| == |s| || |Chunks(s, n)[0]| == n
    decreases |s|
  {
    if |s| > n && i > 0 {
      ChunkSizes(s[n..], n, i - 1);
    }
  }

  lemma {:induction false} ChunkCount<S, T>(a: seq<S>, b: seq<T>, n: nat)
    requires n > 0 && |a| == |b|
    ensures |Chunks(a, n)| == |Chunks(b, n)|
    decreases |a|
  {
    if |a| > n { ChunkCount(a[n..], b[n..], n); }
  }

  /** Groups with as many shards and as many trials take as many waves and as long. */
  lemma {:induction false} SameTotals(
    ds: seq<string>, a: Groups, b: Groups, n: nat, concurrency: map<string, nat>, seconds: map<string, int>)
    requires n > 0 && forall d | d in ds :: d in a && d in b && d in concurrency && d in seconds
    requires forall d | d in ds :: |a[d]| == |b[d]| && Trials(a[d]) == Trials(b[d])
    ensures TotalTrials(Waves(ds, a, n, concurrency, seconds)) == TotalTrials(Waves(ds, b, n, concurrency, seconds))
    ensures TotalSeconds(Waves(ds, a, n, concurrency, seconds)) == TotalSeconds(Waves(ds, b, n, concurrency, seconds))
  {
    if ds != [] {
      var d, rest := ds[|ds| - 1], ds[..|ds| - 1];
      SameTotals(rest, a, b, n, concurrency, seconds);
      ChunkCount(a[d], b[d], n);
      ChunkTotals(d, a[d], n, concurrency[d], seconds[d]);
      ChunkTotals(d, b[d], n, concurrency[d], seconds[d]);
      TotalsJoin(Waves(rest, a, n, concurrency, seconds), WavesOf(d, Chunks(a[d], n), concurrency[d], seconds[d]));
      TotalsJoin(Waves(rest, b, n, concurrency, seconds), WavesOf(d, Chunks(b[d], n), concurrency[d], seconds[d]));
    }
  }

  /** The shards of the groups of `ds`, one group after another. */
  function Grouped(ds: seq<string>, groups: Groups): seq<Shard>
    requires forall d | d in ds :: d in groups
  {
    if ds == [] then []
    else
      assert ds[|ds| - 1] in ds && forall e | e in ds[..|ds| - 1] :: e in ds;
      Grouped(ds[..|ds| - 1], groups) + groups[ds[|ds| - 1]]
  }

  lemma {:induction false} WavesHoldTheGroups(
    ds: seq<string>, groups: Groups, n: nat, concurrency: map<string, nat>, seconds: map<string, int>)
    requires n > 0 && forall d | d in ds :: d in groups && d in concurrency && d in seconds
    ensures AllKeys(Waves(ds, groups, n, concurrency, seconds)) == ShardKeys(Grouped(ds, groups))
    ensures TotalTrials(Waves(ds, groups, n, concurrency, seconds)) == Trials(Grouped(ds, groups))
  {
    if ds != [] {
      var d, rest := ds[|ds| - 1], ds[..|ds| - 1];
      WavesHoldTheGroups(rest, groups, n, concurrency, seconds);
      ChunkTotals(d, groups[d], n, concurrency[d], seconds[d]);
      TotalsJoin(Waves(rest, groups, n, concurrency, seconds), WavesOf(d, Chunks(groups[d], n), concurrency[d], seconds[d]));
      KeysJoin(Grouped(rest, groups), groups[d]);
      TrialsJoin(Grouped(rest, groups), groups[d]);
    }
  }

  // ---- grouping by deployment ----

  function AllShards(runs: seq<Run>): seq<Shard> {
    if runs == [] then [] else AllShards(runs[..|runs| - 1]) + runs[|runs| - 1].shards
  }

  /** The groups of `ds`, straight from the runs. */
  function GroupsOf(ds: seq<string>, runs: seq<Run>): seq<Shard> {
    if ds == [] then [] else GroupsOf(ds[..|ds| - 1], runs) + GroupOf(runs, ds[|ds| - 1])
  }

  lemma {:induction false} GroupedIsGroupsOf(ds: seq<string>, runs: seq<Run>)
    requires forall d | d in ds :: d in Deployments(runs)
    ensures Grouped(ds, GroupMap(runs)) == GroupsOf(ds, runs)
  {
    if ds != [] {
      assert ds[|ds| - 1] in ds;
      GroupedIsGroupsOf(ds[..|ds| - 1], runs);
    }
  }

  lemma {:induction false} OneMoreRun(ds: seq<string>, front: seq<Run>, r: Run)
    requires forall i, j | 0 <= i < j < |ds| :: ds[i] != ds[j]
    ensures multiset(GroupsOf(ds, front + [r])) ==
            multiset(GroupsOf(ds, front)) + (if r.deployment in ds then multiset(r.shards) else multiset{})
  {
    if ds != [] {
      var fewer, last := ds[..|ds| - 1], ds[|ds| - 1];
      OneMoreRun(fewer, front, r);
      GroupOfMore(front, r, last);
      LastIsAlone(ds, r.deployment);
    }
  }

  lemma LastIsAlone(ds: seq<string>, d: string)
    requires ds != [] && forall i, j | 0 <= i < j < |ds| :: ds[i] != ds[j]
    ensures d in ds[..|ds| - 1] ==> d != ds[|ds| - 1]
    ensures d in ds <==> d in ds[..|ds| - 1] || d == ds[|ds| - 1]
  {
    assert ds == ds[..|ds| - 1] + [ds[|ds| - 1]];
  }

  lemma GroupOfMore(front: seq<Run>, r: Run, d: string)
    ensures multiset(GroupOf(front + [r], d)) ==
            multiset(GroupOf(front, d)) + (if r.deployment == d then multiset(r.shards) else multiset{})
  {
    assert (front + [r])[..|front|] == front;
  }

  /** Every shard is in the group of just one deployment. */
  lemma {:induction false} GroupsPartition(ds: seq<string>, runs: seq<Run>)
    requires forall i, j | 0 <= i < j < |ds| :: ds[i] != ds[j]
    requires forall r | r in runs :: r.deployment in ds
    ensures multiset(GroupsOf(ds, runs)) == multiset(AllShards(runs))
  {
    if runs == [] {
      NoRunsNoGroups(ds);
    } else {
      var front, r := runs[..|runs| - 1], runs[|runs| - 1];
      assert runs == front + [r];
      GroupsPartition(ds, front);
      OneMoreRun(ds, front, r);
    }
  }

  lemma {:induction false} NoRunsNoGroups(ds: seq<string>)
    ensures GroupsOf(ds, []) == []
  {
    if ds != [] { NoRunsNoGroups(ds[..|ds| - 1]); }
  }
}
