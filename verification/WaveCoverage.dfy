/** Whether the time planned for a deployment's waves is enough for the waves that the lock
    makes, which group the same shards differently (campaigns.py). */
module WaveCoverage {
  import opened Common
  import opened TextOrder
  import opened Permutations
  import opened CampaignWaves
  import opened CampaignPlanner
  import opened CampaignLocks

  /** The shards of `_plan_run`: the trials cut into pieces of one size. */
  function PlanShards(key: seq<string> -> string, trials: seq<string>, size: nat): seq<Shard>
    requires size > 0
  {
    var chunks := Chunks(trials, size);
    seq(|chunks|, i requires 0 <= i < |chunks| => Shard(key(chunks[i]), chunks[i]))
  }

  lemma {:induction false} AllButTheLastAreFull<T>(s: seq<T>, n: nat, i: nat)
    requires n > 0 && i < |Chunks(s, n)|
    ensures |Chunks(s, n)[i]| <= n
    ensures i < |Chunks(s, n)| - 1 ==> |Chunks(s, n)[i]| == n
    decreases |s|
  {
    if |s| > n && i > 0 {
      AllButTheLastAreFull(s[n..], n, i - 1);
    }
  }

  predicate AtMostFull(shards: seq<Shard>, size: nat) {
    forall s | s in shards :: |s.trials| <= size
  }

  predicate AllFull(shards: seq<Shard>, size: nat) {
    forall s | s in shards :: |s.trials| == size
  }

  lemma {:induction false} TrialsBound(shards: seq<Shard>, size: nat)
    ensures AtMostFull(shards, size) ==> Trials(shards) <= |shards| * size
    ensures AllFull(shards, size) ==> Trials(shards) == |shards| * size
  {
    if shards != [] {
      var front := shards[..|shards| - 1];
      TrialsBound(front, size);
      assert forall s | s in front :: s in shards;
      OneMoreTime(|front|, size);
    }
  }

  lemma OneMoreTime(n: nat, size: nat)
    ensures (n + 1) * size == n * size + size
  {
  }

  /** The greatest of these values. */
  ghost predicate IsMaximum<T>(f: T -> int, s: seq<T>, m: int) {
    (exists x | x in s :: f(x) == m) && forall x | x in s :: f(x) <= m
  }

  lemma MaximumOneMore<T>(f: T -> int, front: seq<T>, last: T, m: int)
    requires IsMaximum(f, front, m)
    ensures IsMaximum(f, front + [last], if m > f(last) then m else f(last))
  {
    var s := front + [last];
    var x :| x in front && f(x) == m;
    assert x in s && last in s;
    forall y | y in s ensures f(y) <= m || y == last {
      if y != last { assert y in front; }
    }
  }

  function ChunkSeconds(p: Policy, concurrency: nat): seq<Shard> -> int
    requires concurrency > 0
  {
    chunk => WaveSeconds(p, Trials(chunk), concurrency)
  }

  lemma LongestOfMore(p: Policy, chunks: seq<seq<Shard>>, concurrency: nat)
    requires chunks != [] && concurrency > 0
    ensures var last := ChunkSeconds(p, concurrency)(chunks[|chunks| - 1]);
            LongestSeconds(p, chunks, concurrency) ==
            if |chunks| == 1 then last
            else
              var rest := LongestSeconds(p, chunks[..|chunks| - 1], concurrency);
              if rest > last then rest else last
  {
  }

  lemma {:induction false} LongestIsMaximum(p: Policy, chunks: seq<seq<Shard>>, concurrency: nat)
    requires chunks != [] && concurrency > 0
    ensures IsMaximum(ChunkSeconds(p, concurrency), chunks, LongestSeconds(p, chunks, concurrency))
  {
    var front, last := chunks[..|chunks| - 1], chunks[|chunks| - 1];
    assert last in chunks && chunks == front + [last];
    LongestOfMore(p, chunks, concurrency);
    if front != [] {
      LongestIsMaximum(p, front, concurrency);
      MaximumOneMore(ChunkSeconds(p, concurrency), front, last, LongestSeconds(p, front, concurrency));
    }
  }

  lemma LongestIsMet(p: Policy, chunks: seq<seq<Shard>>, concurrency: nat)
    requires chunks != [] && concurrency > 0
    ensures exists b | b in chunks :: LongestSeconds(p, chunks, concurrency) == WaveSeconds(p, Trials(b), concurrency)
    ensures forall b | b in chunks :: WaveSeconds(p, Trials(b), concurrency) <= LongestSeconds(p, chunks, concurrency)
  {
    var f, m := ChunkSeconds(p, concurrency), LongestSeconds(p, chunks, concurrency);
    LongestIsMaximum(p, chunks, concurrency);
    var b :| b in chunks && f(b) == m;
    assert m == WaveSeconds(p, Trials(b), concurrency);
    forall b | b in chunks ensures WaveSeconds(p, Trials(b), concurrency) <= m {
      assert f(b) <= m;
    }
  }

  /** The planned time covers a wave if and only if some planned chunk has as many batches. */
  lemma CoveredExactly(p: Policy, planned: seq<seq<Shard>>, chunk: seq<Shard>, concurrency: nat)
    requires Sensible(p) && planned != [] && concurrency > 0
    ensures WaveSeconds(p, Trials(chunk), concurrency) <= LongestSeconds(p, planned, concurrency) <==>
            exists b | b in planned :: Batches(Trials(chunk), concurrency) <= Batches(Trials(b), concurrency)
  {
    LongestIsMet(p, planned, concurrency);
    forall b | b in planned
      ensures WaveSeconds(p, Trials(chunk), concurrency) <= WaveSeconds(p, Trials(b), concurrency) <==>
              Batches(Trials(chunk), concurrency) <= Batches(Trials(b), concurrency)
    {
      MoreBatchesTakeLonger(p, Trials(chunk), Trials(b), concurrency);
    }
  }

  // ---- sizes survive locking ----

  lemma {:induction false} LockKeepsSizes(ids: Ids, runs: seq<Run>, d: string, size: nat)
    requires AtMostFull(GroupOf(runs, d), size)
    ensures AtMostFull(GroupOf(LockRuns(ids, runs), d), size)
  {
    if runs != [] {
      var front, last := runs[..|runs| - 1], runs[|runs| - 1];
      assert forall s | s in GroupOf(front, d) :: s in GroupOf(runs, d);
      LockKeepsSizes(ids, front, d, size);
      GroupJoin(LockRuns(ids, front), [LockRun(ids, last)], d);
      GroupOfOne(LockRun(ids, last), d);
      if last.deployment == d {
        assert forall s | s in last.shards :: s in GroupOf(runs, d);
        LockedShardsFit(ids, last, size);
      }
    }
  }

  lemma LockedShardsFit(ids: Ids, r: Run, size: nat)
    requires AtMostFull(r.shards, size)
    ensures AtMostFull(LockRun(ids, r).shards, size)
  {
    forall s | s in LockRun(ids, r).shards ensures |s.trials| <= size {
      var i :| 0 <= i < |r.shards| && LockRun(ids, r).shards[i] == s;
      assert r.shards[i] in r.shards;
    }
  }

  lemma OrderKeepsSizes(runs: seq<Run>, d: string, size: nat)
    requires AtMostFull(GroupOf(runs, d), size)
    ensures AtMostFull(GroupOf(LockedOrder(runs), d), size)
  {
    LockedOrderKeepsGroups(runs, d);
    forall s | s in GroupOf(LockedOrder(runs), d) ensures |s.trials| <= size {
      assert s in multiset(GroupOf(LockedOrder(runs), d));
      assert s in multiset(GroupOf(runs, d));
    }
  }

  /** The deployment fits one wave, or some planned wave is full of full shards. */
  predicate HasFullWave(shards: seq<Shard>, n: nat, size: nat)
    requires n > 0
  {
    |shards| <= n || exists b | b in Chunks(shards, n) :: |b| == n && AllFull(b, size)
  }

  /** With a full wave in the plan, every locked wave of the deployment has its time. */
  lemma LockedWavesAreCovered(
    p: Policy, ids: Ids, runs: seq<Run>, d: string, n: nat, size: nat, concurrency: nat, chunk: seq<Shard>)
    requires Sensible(p) && n > 0 && concurrency > 0
    requires AtMostFull(GroupOf(runs, d), size) && HasFullWave(GroupOf(runs, d), n, size)
    requires chunk in Chunks(GroupOf(LockedOrder(LockRuns(ids, runs)), d), n)
    ensures Chunks(GroupOf(runs, d), n) != []
    ensures WaveSeconds(p, Trials(chunk), concurrency) <= LongestSeconds(p, Chunks(GroupOf(runs, d), n), concurrency)
  {
    var locked, shards := GroupOf(LockedOrder(LockRuns(ids, runs)), d), GroupOf(runs, d);
    LockedLoad(ids, runs, d);
    ChunksOfSome(shards, n);
    ChunksOfSome(locked, n);
    LockKeepsSizes(ids, runs, d, size);
    OrderKeepsSizes(LockRuns(ids, runs), d, size);
    var b := SomePlannedChunk(shards, locked, n, size, chunk);
    FewerTrialsFewerBatches(Trials(chunk), Trials(b), concurrency);
    CoveredExactly(p, Chunks(shards, n), chunk, concurrency);
  }

  lemma SomePlannedChunk(shards: seq<Shard>, locked: seq<Shard>, n: nat, size: nat, chunk: seq<Shard>) returns (b: seq<Shard>)
    requires n > 0 && SameLoad(locked, shards) && AtMostFull(locked, size) && HasFullWave(shards, n, size)
    requires chunk in Chunks(locked, n)
    ensures b in Chunks(shards, n) && Trials(chunk) <= Trials(b)
  {
    var i :| 0 <= i < |Chunks(locked, n)| && Chunks(locked, n)[i] == chunk;
    if |shards| <= n {
      b := shards;
      assert Chunks(locked, n) == [locked] && Chunks(shards, n) == [shards];
    } else {
      b :| b in Chunks(shards, n) && |b| == n && AllFull(b, size);
      ChunkSizes(locked, n, i);
      TrialsBound(chunk, size);
      TrialsBound(b, size);
      TimesGrows(|chunk|, n, size);
    }
  }

  /** A deployment with one run always has a full wave, or all its shards in one; and so has
      any whose first run has more shards than a wave takes. */
  lemma OneRunHasFullWave(key: seq<string> -> string, trials: seq<string>, size: nat, rest: seq<Shard>, n: nat)
    requires n > 0 && size > 0
    requires rest == [] || |PlanShards(key, trials, size)| > n
    ensures HasFullWave(PlanShards(key, trials, size) + rest, n, size)
  {
    var first := PlanShards(key, trials, size);
    var shards := first + rest;
    if |shards| > n {
      assert Chunks(shards, n)[0] == shards[..n];
      forall s | s in shards[..n] ensures |s.trials| == size {
        var i :| 0 <= i < n && shards[i] == s;
        AllButTheLastAreFull(trials, size, i);
      }
      assert shards[..n] in Chunks(shards, n);
    }
  }

  lemma FullShardsHaveFullWave(shards: seq<Shard>, n: nat, size: nat)
    requires n > 0 && AllFull(shards, size)
    ensures HasFullWave(shards, n, size)
  {
    if |shards| > n {
      assert Chunks(shards, n)[0] == shards[..n];
      assert shards[..n] in Chunks(shards, n);
    }
  }

  // ---- without a full wave it can fail ----

  // Three runs of one deployment, each with the same five trials in shards of two, four
  // shards to a wave: the plan has seven trials in its largest wave, and one lock has eight.

  const TRIALS := ["a", "b", "c", "d", "e"]

  function Full(key: string): Shard { Shard(key, ["a", "b"]) }
  function Other(key: string): Shard { Shard(key, ["c", "d"]) }
  function Small(key: string): Shard { Shard(key, ["e"]) }
  function RunOf(key: string, shards: seq<Shard>): Run { Run(key, "d", Some(1), shards) }

  const FIRST := RunOf("1", [Full("11"), Other("12"), Small("13")])
  const SECOND := RunOf("2", [Full("21"), Other("22"), Small("23")])
  const SECOND_LOCKED := RunOf("2", [Full("21"), Other("22"), Small("20")])
  const SECOND_ORDERED := RunOf("2", [Small("20"), Full("21"), Other("22")])
  const THIRD := RunOf("3", [Full("31"), Other("32"), Small("33")])
  const RUNS := [FIRST, SECOND, THIRD]
  const IDS := Ids((k: string) => k, (r: string, k: string) => if k == "23" then "20" else k)
  const SPEC := Spec(1, None, 4, 100, 1000)
  const POLICY := Policy(1, 1.0, 1, 600)
  const ONE: map<string, nat> := map["d" := 1]

  /** The shard digests of a run. */
  function DigestIn(run: string): seq<string> -> string {
    trials => run + if trials == ["a", "b"] then "1" else if trials == ["c", "d"] then "2" else "3"
  }

  lemma FiveInShards()
    ensures Chunks(TRIALS, 2) == [["a", "b"], ["c", "d"], ["e"]]
  {
    assert TRIALS[..2] == ["a", "b"] && TRIALS[2..] == ["c", "d", "e"];
    assert TRIALS[2..][..2] == ["c", "d"] && TRIALS[2..][2..] == ["e"];
    assert Chunks(["e"], 2) == [["e"]];
    assert Chunks(["c", "d", "e"], 2) == [["c", "d"]] + Chunks(["e"], 2);
  }

  lemma CutInThree(run: string)
    ensures PlanShards(DigestIn(run), TRIALS, 2) == [Full(run + "1"), Other(run + "2"), Small(run + "3")]
  {
    FiveInShards();
    assert Chunks(TRIALS, 2)[0] == ["a", "b"] && Chunks(TRIALS, 2)[1] == ["c", "d"] && Chunks(TRIALS, 2)[2] == ["e"];
  }

  /** The shards are those that planning cuts the trials into. */
  lemma RunsAreCut()
    ensures forall r | r in RUNS :: r.shards == PlanShards(DigestIn(r.key), TRIALS, 2)
  {
    CutInThree("1");
    CutInThree("2");
    CutInThree("3");
    assert "1" + "1" == "11" && "1" + "2" == "12" && "1" + "3" == "13";
    assert "2" + "1" == "21" && "2" + "2" == "22" && "2" + "3" == "23";
    assert "3" + "1" == "31" && "3" + "2" == "32" && "3" + "3" == "33";
  }

  lemma KeepsThree(r: string, a: Shard, b: Shard, c: Shard)
    ensures LockShards(IDS, r, [a, b, c]) == [LockShard(IDS, r, a), LockShard(IDS, r, b), LockShard(IDS, r, c)]
  {
  }

  lemma LockOneMore(runs: seq<Run>, r: Run, more: seq<Run>)
    requires more == runs + [r]
    ensures LockRuns(IDS, more) == LockRuns(IDS, runs) + [LockRun(IDS, r)]
  {
    assert more[..|runs|] == runs;
  }

  lemma RunsLocked()
    ensures LockRuns(IDS, RUNS) == [FIRST, SECOND_LOCKED, THIRD]
  {
    KeepsThree("1", Full("11"), Other("12"), Small("13"));
    KeepsThree("2", Full("21"), Other("22"), Small("23"));
    KeepsThree("3", Full("31"), Other("32"), Small("33"));
    LockOneMore([], FIRST, [FIRST]);
    LockOneMore([FIRST], SECOND, [FIRST, SECOND]);
    LockOneMore([FIRST, SECOND], THIRD, RUNS);
  }

  /** What is sorted stays as it is. */
  lemma {:induction false} SortedStays<T>(key: T -> string, s: seq<T>)
    requires SortedByKey(key, s)
    ensures SortByKey(key, s) == s
  {
    if s != [] {
      SortedStays(key, s[..|s| - 1]);
    }
  }

  lemma DigitOrder()
    ensures !StringLess("2", "1") && !StringLess("3", "1") && !StringLess("3", "2")
    ensures StringLess("20", "21") && StringLess("20", "22") && !StringLess("22", "21")
    ensures !StringLess("12", "11") && !StringLess("13", "11") && !StringLess("13", "12")
    ensures !StringLess("32", "31") && !StringLess("33", "31") && !StringLess("33", "32")
  {
  }

  lemma ThreeSorted<T>(key: T -> string, a: T, b: T, c: T)
    requires !StringLess(key(b), key(a)) && !StringLess(key(c), key(a)) && !StringLess(key(c), key(b))
    ensures SortByKey(key, [a, b, c]) == [a, b, c]
  {
    SortedStays(key, [a, b, c]);
  }

  lemma InsertFirst<T>(key: T -> string, x: T, a: T, b: T)
    requires StringLess(key(x), key(a)) && StringLess(key(x), key(b))
    ensures InsertByKey(key, x, [a, b]) == [x, a, b]
  {
    assert [a][..0] == [] && [a, b][..1] == [a];
    assert InsertByKey(key, x, [a]) == [x, a];
  }

  lemma SortAppend<T>(key: T -> string, s: seq<T>, x: T, more: seq<T>)
    requires more == s + [x]
    ensures SortByKey(key, more) == InsertByKey(key, x, SortByKey(key, s))
  {
    assert more[..|s|] == s;
  }

  lemma TwoSorted<T>(key: T -> string, a: T, b: T)
    requires !StringLess(key(b), key(a))
    ensures SortByKey(key, [a, b]) == [a, b]
  {
    SortedStays(key, [a, b]);
  }

  lemma LastFirst<T>(key: T -> string, a: T, b: T, x: T, front: seq<T>)
    requires front == [a, b] && SortByKey(key, front) == front
    requires StringLess(key(x), key(a)) && StringLess(key(x), key(b))
    ensures SortByKey(key, front + [x]) == [x, a, b]
  {
    InsertFirst(key, x, a, b);
    SortAppend(key, front, x, front + [x]);
  }

  lemma SortShardsAppend(runs: seq<Run>, r: Run, more: seq<Run>, sorted: seq<Run>, s: seq<Shard>)
    requires SortByKey(ShardKey(), r.shards) == s && SortShards(runs) == sorted && more == runs + [r]
    ensures SortShards(more) == sorted + [r.(shards := s)]
  {
    assert more[..|runs|] == runs;
  }

  lemma SortShardsOfTwo(x: Run, y: Run, sx: seq<Shard>, sy: seq<Shard>)
    requires SortByKey(ShardKey(), x.shards) == sx && SortByKey(ShardKey(), y.shards) == sy
    ensures SortShards([x, y]) == [x.(shards := sx), y.(shards := sy)]
  {
    SortShardsAppend([], x, [x], [], sx);
    SortShardsAppend([x], y, [x, y], [x.(shards := sx)], sy);
  }

  lemma SortShardsOfThree(x: Run, y: Run, z: Run, sx: seq<Shard>, sy: seq<Shard>, sz: seq<Shard>)
    requires SortShards([x, y]) == [x.(shards := sx), y.(shards := sy)] && SortByKey(ShardKey(), z.shards) == sz
    ensures SortShards([x, y, z]) == [x.(shards := sx), y.(shards := sy), z.(shards := sz)]
  {
    SortShardsAppend([x, y], z, [x, y, z], [x.(shards := sx), y.(shards := sy)], sz);
  }

  lemma RunsOrdered()
    ensures LockedOrder(LockRuns(IDS, RUNS)) == [FIRST, SECOND_ORDERED, THIRD]
  {
    RunsLocked();
    DigitOrder();
    ThreeSorted(RunKey(), FIRST, SECOND_LOCKED, THIRD);
    ShardsOrdered();
    SortShardsOfTwo(FIRST, SECOND_LOCKED, FIRST.shards, SECOND_ORDERED.shards);
    SortShardsOfThree(FIRST, SECOND_LOCKED, THIRD, FIRST.shards, SECOND_ORDERED.shards, THIRD.shards);
  }

  lemma ShardsOrdered()
    ensures SortByKey(ShardKey(), FIRST.shards) == FIRST.shards
    ensures SortByKey(ShardKey(), SECOND_LOCKED.shards) == SECOND_ORDERED.shards
    ensures SortByKey(ShardKey(), THIRD.shards) == THIRD.shards
  {
    DigitOrder();
    ThreeSorted(ShardKey(), Full("11"), Other("12"), Small("13"));
    SecondOrdered();
    ThreeSorted(ShardKey(), Full("31"), Other("32"), Small("33"));
  }

  lemma SecondOrdered()
    ensures SortByKey(ShardKey(), SECOND_LOCKED.shards) == SECOND_ORDERED.shards
  {
    DigitOrder();
    TwoSorted(ShardKey(), Full("21"), Other("22"));
    LastFirst(ShardKey(), Full("21"), Other("22"), Small("20"), [Full("21"), Other("22")]);
    assert [Full("21"), Other("22")] + [Small("20")] == SECOND_LOCKED.shards;
  }

  lemma GroupOfThree(x: Run, y: Run, z: Run)
    requires x.deployment == "d" && y.deployment == "d" && z.deployment == "d"
    ensures GroupOf([x, y, z], "d") == x.shards + y.shards + z.shards
    ensures Deployments([x, y, z]) == {"d"}
    ensures AllShards([x, y, z]) == x.shards + y.shards + z.shards
  {
    assert [x][..0] == [] && [x, y][..1] == [x] && [x, y, z][..2] == [x, y];
    assert GroupOf([x], "d") == x.shards && AllShards([x]) == x.shards;
    assert GroupOf([x, y], "d") == x.shards + y.shards && AllShards([x, y]) == x.shards + y.shards;
    assert x in [x, y, z];
  }

  lemma NineInChunks(s: seq<Shard>)
    requires |s| == 9
    ensures Chunks(s, 4) == [s[..4], s[4..8], s[8..]]
  {
    assert Chunks(s[4..][4..], 4) == [s[4..][4..]];
    assert s[4..][..4] == s[4..8] && s[4..][4..] == s[8..];
  }

  lemma TrialsOneMore(s: seq<Shard>, x: Shard, t: seq<Shard>)
    requires t == s + [x]
    ensures Trials(t) == Trials(s) + |x.trials|
  {
    assert t[..|s|] == s;
  }

  lemma TrialsOfFour(a: Shard, b: Shard, c: Shard, d: Shard)
    ensures Trials([a]) == |a.trials|
    ensures Trials([a, b, c, d]) == |a.trials| + |b.trials| + |c.trials| + |d.trials|
  {
    TrialsOneMore([], a, [a]);
    TrialsOneMore([a], b, [a, b]);
    TrialsOneMore([a, b], c, [a, b, c]);
    TrialsOneMore([a, b, c], d, [a, b, c, d]);
  }

  const P1 := [Full("11"), Other("12"), Small("13"), Full("21")]
  const P2 := [Other("22"), Small("23"), Full("31"), Other("32")]
  const P3 := [Small("33")]
  const L2 := [Full("21"), Other("22"), Full("31"), Other("32")]

  lemma PlannedChunks()
    ensures Deployments(RUNS) == {"d"} && Chunks(GroupOf(RUNS, "d"), 4) == [P1, P2, P3]
  {
    GroupOfThree(FIRST, SECOND, THIRD);
    var s := FIRST.shards + SECOND.shards + THIRD.shards;
    NineInChunks(s);
    assert s[..4] == P1 && s[4..8] == P2 && s[8..] == P3;
  }

  lemma LockedChunks()
    ensures var ordered := LockedOrder(LockRuns(IDS, RUNS));
            Deployments(ordered) == {"d"} && |Chunks(GroupOf(ordered, "d"), 4)| == 3 && Chunks(GroupOf(ordered, "d"), 4)[1] == L2
  {
    RunsOrdered();
    OrderedChunks();
  }

  lemma OrderedChunks()
    ensures var ordered := [FIRST, SECOND_ORDERED, THIRD];
            Deployments(ordered) == {"d"} && |Chunks(GroupOf(ordered, "d"), 4)| == 3 && Chunks(GroupOf(ordered, "d"), 4)[1] == L2
  {
    GroupOfThree(FIRST, SECOND_ORDERED, THIRD);
    var s := FIRST.shards + SECOND_ORDERED.shards + THIRD.shards;
    NineInChunks(s);
    assert s[4..8] == L2;
  }

  lemma ChunkTrials()
    ensures Trials(P1) == 7 && Trials(P2) == 7 && Trials(P3) == 1 && Trials(L2) == 8
  {
    TrialsOfFour(Full("11"), Other("12"), Small("13"), Full("21"));
    TrialsOfFour(Other("22"), Small("23"), Full("31"), Other("32"));
    TrialsOfFour(Small("33"), Small("33"), Small("33"), Small("33"));
    TrialsOfFour(Full("21"), Other("22"), Full("31"), Other("32"));
  }

  lemma SevenSeconds()
    ensures WaveSeconds(POLICY, 7, 1) == 8 && WaveSeconds(POLICY, 1, 1) == 2 && WaveSeconds(POLICY, 8, 1) == 9
  {
  }

  /** The plan of the three runs: eight seconds for each wave. */
  lemma ThreeRunsArePlanned() returns (planned: seq<Wave>)
    ensures Planned(SPEC, POLICY, RUNS, ONE, planned) && PlannedSeconds(SPEC, POLICY, GroupMap(RUNS), ONE)["d"] == 8
  {
    PlannedChunks();
    ChunkTrials();
    SevenSeconds();
    assert P1 in Chunks(GroupOf(RUNS, "d"), 4);
    assert GroupOf(RUNS, "d") != [] by { ChunksOfSome(GroupOf(RUNS, "d"), 4); }
    assert AllPlannable(SPEC, POLICY, GroupMap(RUNS), ONE);
    assert Collected(SPEC, RUNS, GroupMap(RUNS), ONE);
    LongestIsMet(POLICY, [P1, P2, P3], 1);
    planned := PlanWaves(SPEC, POLICY, GroupMap(RUNS), ONE);
  }

  lemma OnlyDeployment()
    ensures Ascending({"d"}) == ["d"]
  {
    assert IsLeast({"d"}, "d");
    OneLeast({"d"}, Least({"d"}), "d");
    assert {"d"} - {"d"} == {};
  }

  const KEYS := ["11", "12", "13", "21", "22", "20", "31", "32", "33"]

  lemma ThreeRunsHaveNineShards()
    ensures NoKeyTwice(ShardKeys(AllShards(LockRuns(IDS, RUNS))))
  {
    RunsLocked();
    LockedKeys();
    NineKeys();
    DistinctKeys(KEYS);
  }

  lemma DistinctKeys(keys: seq<string>)
    requires forall i, j | 0 <= i < j < |keys| :: keys[i] != keys[j]
    ensures NoKeyTwice(keys)
  {
    forall k ensures multiset(keys)[k] <= 1 {
      OnceIn(keys, k);
    }
  }

  lemma LockedKeys()
    ensures ShardKeys(AllShards([FIRST, SECOND_LOCKED, THIRD])) == KEYS
  {
    GroupOfThree(FIRST, SECOND_LOCKED, THIRD);
    assert ShardKeys(FIRST.shards + SECOND_LOCKED.shards + THIRD.shards) == KEYS;
  }

  lemma NineKeys()
    ensures forall i, j | 0 <= i < j < |KEYS| :: KEYS[i] != KEYS[j]
  {
    forall i, j | 0 <= i < j < 9 ensures KEYS[i][0] != KEYS[j][0] || KEYS[i][1] != KEYS[j][1] {}
  }

  /** Three runs of the same five trials in shards of two can be planned, all their shard IDs
      differ, and a wave of their lock was given less time than its own trials need. */
  lemma LockedWaveCanBeLonger() returns (planned: seq<Wave>, w: Wave)
    ensures forall r | r in RUNS :: r.shards == PlanShards(DigestIn(r.key), TRIALS, 2)
    ensures Planned(SPEC, POLICY, RUNS, ONE, planned)
    ensures NoKeyTwice(ShardKeys(AllShards(LockRuns(IDS, RUNS))))
    ensures var ordered := LockedOrder(LockRuns(IDS, RUNS));
            && Deployments(ordered) <= ConcurrencyOf(planned).Keys && Deployments(ordered) <= SecondsOf(planned).Keys
            && w in LockedWaves(planned, LockRuns(IDS, RUNS), SPEC.maxShardsPerWave)
    ensures w.concurrency > 0 && w.seconds < WaveSeconds(POLICY, w.trialCount, w.concurrency)
  {
    RunsAreCut();
    planned := ThreeRunsArePlanned();
    ThreeRunsHaveNineShards();
    LockHasTables(SPEC, POLICY, RUNS, IDS, ONE, planned);
    PlannedChunks();
    PlanCoversTheLock(SPEC, POLICY, RUNS, IDS, ONE, planned, "d");
    w := SecondLockedWave(planned);
    SevenSeconds();
  }

  lemma SecondLockedWave(planned: seq<Wave>) returns (w: Wave)
    requires "d" in ConcurrencyOf(planned) && "d" in SecondsOf(planned)
    requires ConcurrencyOf(planned)["d"] == 1 && SecondsOf(planned)["d"] == 8
    ensures var ordered := LockedOrder(LockRuns(IDS, RUNS));
            && Deployments(ordered) <= ConcurrencyOf(planned).Keys && Deployments(ordered) <= SecondsOf(planned).Keys
            && w in LockedWaves(planned, LockRuns(IDS, RUNS), 4)
    ensures w.trialCount == 8 && w.concurrency == 1 && w.seconds == 8
  {
    LockedChunks();
    ChunkTrials();
    OnlyDeployment();
    var ordered := LockedOrder(LockRuns(IDS, RUNS));
    var own := WavesOf("d", Chunks(GroupOf(ordered, "d"), 4), 1, 8);
    w := WaveOf("d", L2, 1, 8);
    assert own[1] == w;
    assert ["d"][..0] == [];
    assert Waves(["d"], GroupMap(ordered), 4, ConcurrencyOf(planned), SecondsOf(planned)) == own;
  }
}
