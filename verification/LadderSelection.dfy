/** What a ladder run leaves for the selection: which rungs can win. */
module LadderSelection {
  import opened Common
  import opened ProfilePoints
  import opened ProfileLadder
  import opened ProfileSelection

  /** The entries of a run before its boundary repetitions. */
  function RungEntries(plan: Plan, phase: Phase, k: nat, at: Key -> Point, expired: nat -> bool): seq<Entry>
    requires InPlan(plan, phase)
    decreases Rank(phase), Width(plan, phase), Depth(plan, phase)
  {
    if phase.Done? || phase.Repeat? then []
    else
      var e := NextEntry(plan, phase, k, at, expired);
      [e] + RungEntries(plan, Advance(plan, phase, e), k + 1, at, expired)
  }

  function RungPoints(plan: Plan, at: Key -> Point, expired: nat -> bool): seq<Point> {
    Points(RungEntries(plan, Start(plan), 0, at, expired))
  }

  /** Every rung that was measured at all has its first repetition. */
  predicate FirstMeasured(points: seq<Point>) {
    forall p | p in points :: (p.concurrency, 1) in Keys(points)
  }

  lemma PointsOfOneMore(e: Entry, rest: seq<Entry>)
    ensures Points([e] + rest) == [e.point] + Points(rest)
  {
  }

  lemma PointsJoin(a: seq<Entry>, b: seq<Entry>)
    ensures Points(a + b) == Points(a) + Points(b)
  {
  }

  predicate InRungs(phase: Phase) {
    phase.Rung? || phase.Retry?
  }

  lemma NextHasPoint(plan: Plan, phase: Phase, e: Entry)
    requires InPlan(plan, phase) && InRungs(phase)
    ensures var next, rungs := Advance(plan, phase, e), phase.rungs + [e.point];
            if InRungs(next) then next.rungs == rungs else next == AfterRungs(plan, rungs)
  {
  }

  /** The points of the rungs, once the run has left them. */
  function AllRungs(plan: Plan, phase: Phase, k: nat, at: Key -> Point, expired: nat -> bool): seq<Point>
    requires InPlan(plan, phase) && InRungs(phase)
  {
    phase.rungs + Points(RungEntries(plan, phase, k, at, expired))
  }

  lemma OneEntryOn(plan: Plan, phase: Phase, k: nat, at: Key -> Point, expired: nat -> bool)
    requires InPlan(plan, phase) && InRungs(phase)
    ensures var e := NextEntry(plan, phase, k, at, expired);
            var next := Advance(plan, phase, e);
            && AllRungs(plan, phase, k, at, expired) ==
               (if InRungs(next) then AllRungs(plan, next, k + 1, at, expired) else phase.rungs + [e.point])
            && (!InRungs(next) ==> RungEntries(plan, phase, k, at, expired) == [e])
  {
    var e := NextEntry(plan, phase, k, at, expired);
    var next := Advance(plan, phase, e);
    NextHasPoint(plan, phase, e);
    PointsOfOneMore(e, RungEntries(plan, next, k + 1, at, expired));
  }

  lemma Regroup<T>(a: seq<T>, b: seq<T>, c: seq<T>)
    ensures a + (b + c) == (a + b) + c
  {
  }

  /** The entries of a run for its boundary repetitions. */
  function RepeatEntries(plan: Plan, phase: Phase, k: nat, at: Key -> Point, expired: nat -> bool): seq<Entry>
    requires InPlan(plan, phase)
    decreases Rank(phase), Width(plan, phase), Depth(plan, phase)
  {
    if !InRungs(phase) then Run(plan, phase, k, at, expired)
    else
      var e := NextEntry(plan, phase, k, at, expired);
      RepeatEntries(plan, Advance(plan, phase, e), k + 1, at, expired)
  }

  /** A run is its rungs followed by the repetitions of its boundary. */
  lemma {:induction false} RungsThenRepeats(plan: Plan, phase: Phase, k: nat, at: Key -> Point, expired: nat -> bool)
    requires InPlan(plan, phase)
    ensures Run(plan, phase, k, at, expired) ==
            RungEntries(plan, phase, k, at, expired) + RepeatEntries(plan, phase, k, at, expired)
    decreases Rank(phase), Width(plan, phase), Depth(plan, phase)
  {
    if InRungs(phase) {
      var e := NextEntry(plan, phase, k, at, expired);
      var next := Advance(plan, phase, e);
      RungsThenRepeats(plan, next, k + 1, at, expired);
      Regroup([e], RungEntries(plan, next, k + 1, at, expired), RepeatEntries(plan, next, k + 1, at, expired));
    }
  }

  /** What follows the rungs is asked for by their points, after `n` entries in all. */
  lemma {:induction false} RepeatsOfTheBoundary(
    plan: Plan, phase: Phase, k: nat, at: Key -> Point, expired: nat -> bool, rungs: seq<Point>) returns (n: nat)
    requires InPlan(plan, phase) && InRungs(phase) && rungs == AllRungs(plan, phase, k, at, expired)
    ensures RepeatEntries(plan, phase, k, at, expired) == Run(plan, AfterRungs(plan, rungs), n, at, expired)
    decreases Rank(phase), Width(plan, phase), Depth(plan, phase)
  {
    var e := NextEntry(plan, phase, k, at, expired);
    var next := Advance(plan, phase, e);
    NextHasPoint(plan, phase, e);
    OneEntryOn(plan, phase, k, at, expired);
    RepeatsOneOn(plan, phase, k, at, expired);
    if InRungs(next) {
      NextIsCloser(plan, phase, e);
      n := RepeatsOfTheBoundary(plan, next, k + 1, at, expired, rungs);
    } else {
      n := k + 1;
    }
  }

  lemma RepeatsOneOn(plan: Plan, phase: Phase, k: nat, at: Key -> Point, expired: nat -> bool)
    requires InPlan(plan, phase) && InRungs(phase)
    ensures var next := Advance(plan, phase, NextEntry(plan, phase, k, at, expired));
            RepeatEntries(plan, phase, k, at, expired) ==
            if InRungs(next) then RepeatEntries(plan, next, k + 1, at, expired) else Run(plan, next, k + 1, at, expired)
  {
  }

  predicate Climbs(plan: Plan, phase: Phase)
    requires InPlan(plan, phase)
  {
    InRungs(phase) ==> Climbing(plan, phase.i, phase.rungs)
  }

  lemma StepClimbs(plan: Plan, phase: Phase, e: Entry)
    requires Increasing(plan.candidates) && InPlan(plan, phase) && InRungs(phase) && Climbs(plan, phase)
    requires e.point.concurrency == plan.candidates[phase.i] && (e.skipped ==> !Passes(plan.objective, e.point))
    ensures Climbs(plan, Advance(plan, phase, e))
    ensures Increasing(PassingRungs(plan.objective, phase.rungs + [e.point]))
  {
    ClimbOne(plan, phase.i, phase.rungs, e.point);
    NextHasPoint(plan, phase, e);
    NextRungOrSame(plan, phase, e);
  }

  lemma NextRungOrSame(plan: Plan, phase: Phase, e: Entry)
    requires InPlan(plan, phase) && InRungs(phase)
    ensures var next := Advance(plan, phase, e);
            InRungs(next) ==> next.i == phase.i + 1 || (next.i == phase.i && !e.skipped && !Passes(plan.objective, e.point))
  {
  }

  lemma EntryOfRung(plan: Plan, phase: Phase, k: nat, at: Key -> Point, expired: nat -> bool)
    requires InPlan(plan, phase) && InRungs(phase) && Faithful(at)
    ensures var e := NextEntry(plan, phase, k, at, expired);
            e.point.concurrency == plan.candidates[phase.i] && (e.skipped ==> !Passes(plan.objective, e.point))
  {
  }

  lemma NextIsCloser(plan: Plan, phase: Phase, e: Entry)
    requires InPlan(plan, phase) && InRungs(phase) && InRungs(Advance(plan, phase, e))
    ensures var next := Advance(plan, phase, e);
            && Rank(next) == Rank(phase)
            && (Width(plan, next) < Width(plan, phase) ||
                (Width(plan, next) == Width(plan, phase) && Depth(plan, next) < Depth(plan, phase)))
  {
  }

  /** The passing rungs are in climbing order, each there once. */
  lemma {:induction false} RungsClimb(plan: Plan, phase: Phase, k: nat, at: Key -> Point, expired: nat -> bool)
    requires Increasing(plan.candidates) && Faithful(at)
    requires InPlan(plan, phase) && InRungs(phase) && Climbs(plan, phase)
    ensures Increasing(PassingRungs(plan.objective, AllRungs(plan, phase, k, at, expired)))
    decreases Rank(phase), Width(plan, phase), Depth(plan, phase)
  {
    var e := NextEntry(plan, phase, k, at, expired);
    var next := Advance(plan, phase, e);
    EntryOfRung(plan, phase, k, at, expired);
    StepClimbs(plan, phase, e);
    OneEntryOn(plan, phase, k, at, expired);
    if InRungs(next) {
      NextIsCloser(plan, phase, e);
      RungsClimb(plan, next, k + 1, at, expired);
    }
  }

  lemma {:induction false} RungsStartAtOne(plan: Plan, phase: Phase, k: nat, at: Key -> Point, expired: nat -> bool)
    requires Faithful(at) && InPlan(plan, phase) && InRungs(phase)
    requires FirstMeasured(phase.rungs) && (phase.Retry? ==> (plan.candidates[phase.i], 1) in Keys(phase.rungs))
    ensures FirstMeasured(AllRungs(plan, phase, k, at, expired))
    decreases Rank(phase), Width(plan, phase), Depth(plan, phase)
  {
    var e := NextEntry(plan, phase, k, at, expired);
    var next := Advance(plan, phase, e);
    NextHasPoint(plan, phase, e);
    KeysOfOneMore(phase.rungs, e.point);
    OneEntryOn(plan, phase, k, at, expired);
    if InRungs(next) {
      RungsStartAtOne(plan, next, k + 1, at, expired);
    }
  }

  // ---- the repetitions ----

  lemma {:induction false} CountJoin(o: Objective, a: seq<Point>, b: seq<Point>, c: nat)
    ensures PassCount(o, a + b, c) == PassCount(o, a, c) + PassCount(o, b, c)
  {
    if b == [] {
      assert a + b == a;
    } else {
      assert (a + b)[..|a + b| - 1] == a + b[..|b| - 1];
      CountJoin(o, a, b[..|b| - 1], c);
    }
  }

  lemma {:induction false} CountOfRungs(o: Objective, rungs: seq<Point>, c: nat)
    requires Increasing(PassingRungs(o, rungs))
    ensures PassCount(o, rungs, c) == if c in PassingRungs(o, rungs) then 1 else 0
  {
    if rungs != [] {
      var front := PassingRungs(o, rungs[..|rungs| - 1]);
      assert front <= PassingRungs(o, rungs);
      CountOfRungs(o, rungs[..|rungs| - 1], c);
      if c in front && PassingRungs(o, rungs) != front {
        var i :| 0 <= i < |front| && front[i] == c;
        assert PassingRungs(o, rungs)[i] < PassingRungs(o, rungs)[|front|];
      }
    }
  }

  /** How many more passing points a boundary rung needs. */
  function Need(plan: Plan, phase: Phase, c: nat): nat
    requires InPlan(plan, phase) && !InRungs(phase)
  {
    if phase.Done? then 0
    else if c == phase.todo[0] then plan.boundaryRepetitions - phase.eligible
    else if c in phase.todo then
      var eligible := PassCount(plan.objective, phase.rungs, c);
      if eligible < plan.boundaryRepetitions then plan.boundaryRepetitions - eligible else 0
    else 0
  }

  lemma NeedAtStart(plan: Plan, todo: seq<nat>, rungs: seq<Point>, c: nat)
    requires Increasing(todo)
    ensures var eligible := PassCount(plan.objective, rungs, c);
            Need(plan, StartRepeat(plan, todo, rungs), c) ==
            if c in todo && eligible < plan.boundaryRepetitions then plan.boundaryRepetitions - eligible else 0
  {
    if todo != [] && !(PassCount(plan.objective, rungs, todo[0]) < plan.boundaryRepetitions) {
      NeedAtStart(plan, todo[1..], rungs, c);
    }
  }

  predicate AllPass(o: Objective, points: seq<Point>, c: nat) {
    forall p | p in points && p.concurrency == c :: Passes(o, p)
  }

  lemma NeedStep(plan: Plan, phase: Phase, e: Entry, c: nat)
    requires InPlan(plan, phase) && phase.Repeat? && Increasing(phase.todo)
    requires e.point.concurrency == phase.todo[0] && (e.skipped ==> !Passes(plan.objective, e.point))
    ensures var next := Advance(plan, phase, e);
            && (next.Repeat? ==> Increasing(next.todo))
            && Need(plan, next, c) ==
               if c != phase.todo[0] then Need(plan, phase, c)
               else if Passes(plan.objective, e.point) then Need(plan, phase, c) - 1 else 0
  {
    assert forall d | d in phase.todo[1..] :: phase.todo[0] < d;
    NeedAtStart(plan, phase.todo[1..], phase.rungs, c);
    RepeatIncreasing(plan, phase.todo[1..], phase.rungs);
  }

  lemma RepeatIncreasing(plan: Plan, todo: seq<nat>, rungs: seq<Point>)
    requires Increasing(todo)
    ensures StartRepeat(plan, todo, rungs).Repeat? ==> Increasing(StartRepeat(plan, todo, rungs).todo)
  {
    if todo != [] { RepeatIncreasing(plan, todo[1..], rungs); }
  }

  /** A boundary rung gets all the passing points it needs, unless one of its repetitions
      fails or is skipped; other rungs get none. */
  lemma {:induction false} RepeatsFillTheNeed(
    plan: Plan, phase: Phase, k: nat, at: Key -> Point, expired: nat -> bool, c: nat)
    requires Faithful(at) && InPlan(plan, phase) && !InRungs(phase)
    requires phase.Repeat? ==> Increasing(phase.todo)
    ensures var points := Points(Run(plan, phase, k, at, expired));
            && PassCount(plan.objective, points, c) <= Need(plan, phase, c)
            && (PassCount(plan.objective, points, c) == Need(plan, phase, c) <==> AllPass(plan.objective, points, c))
            && (Need(plan, phase, c) > 0 ==> exists p :: p in points && p.concurrency == c)
    decreases Width(plan, phase), Depth(plan, phase)
  {
    if phase.Repeat? {
      var e := NextEntry(plan, phase, k, at, expired);
      var next := Advance(plan, phase, e);
      var rest := Run(plan, next, k + 1, at, expired);
      NeedStep(plan, phase, e, c);
      RepeatsFillTheNeed(plan, next, k + 1, at, expired, c);
      PointsOfOneMore(e, rest);
      CountJoin(plan.objective, [e.point], Points(rest), c);
    }
  }

  // ---- the groups that selection sees ----

  lemma {:induction false} AtMembers(points: seq<Point>, c: nat, p: Point)
    ensures p in At(points, c) <==> p in points && p.concurrency == c
  {
    if points != [] {
      AtMembers(points[..|points| - 1], c, p);
      assert points == points[..|points| - 1] + [points[|points| - 1]];
    }
  }

  lemma {:induction false} EligibleCount(o: Objective, points: seq<Point>, c: nat)
    ensures |Eligible(o, At(points, c))| == PassCount(o, points, c)
  {
    if points != [] {
      var front, last := points[..|points| - 1], points[|points| - 1];
      EligibleCount(o, front, c);
      if last.concurrency == c {
        assert At(points, c)[..|At(points, c)| - 1] == At(front, c);
      }
    }
  }

  lemma {:induction false} AtDistinct(points: seq<Point>, c: nat)
    requires forall i, j | 0 <= i < j < |points| :: KeyOf(points[i]) != KeyOf(points[j])
    ensures DistinctRepetitions(At(points, c))
  {
    if points != [] {
      var front, last := points[..|points| - 1], points[|points| - 1];
      AtDistinct(front, c);
      forall i | 0 <= i < |At(front, c)| ensures KeyOf(At(front, c)[i]) != KeyOf(last) && At(front, c)[i].concurrency == c {
        AtMembers(front, c, At(front, c)[i]);
        var j :| 0 <= j < |front| && front[j] == At(front, c)[i];
        assert points[j] == front[j];
      }
    }
  }

  lemma {:induction false} PassingIsMeasured(o: Objective, rungs: seq<Point>, c: nat)
    requires c in PassingRungs(o, rungs)
    ensures exists p :: p in rungs && p.concurrency == c
  {
    if rungs[|rungs| - 1].concurrency != c {
      PassingIsMeasured(o, rungs[..|rungs| - 1], c);
    }
  }

  /** How a run ends, at a concurrency. */
  lemma RunOutcome(plan: Plan, at: Key -> Point, expired: nat -> bool, c: nat)
    requires Increasing(plan.candidates) && Faithful(at) && plan.boundaryRepetitions >= 3
    ensures var o, n := plan.objective, plan.boundaryRepetitions;
            var all, rungs := Points(Ladder(plan, at, expired)), RungPoints(plan, at, expired);
            && rungs <= all
            && (c in Boundary(o, rungs) ==>
                  && (PassCount(o, all, c) == n <==> AllPass(o, all[|rungs|..], c))
                  && exists p :: p in all[|rungs|..] && p.concurrency == c)
            && (PassCount(o, all, c) >= 2 ==> c in Boundary(o, rungs))
            && PassCount(o, all, c) <= n
  {
    if plan.candidates != [] {
      RunOutcomeOfRungs(plan, at, expired, c);
    }
  }

  lemma RunOutcomeOfRungs(plan: Plan, at: Key -> Point, expired: nat -> bool, c: nat)
    requires Increasing(plan.candidates) && Faithful(at) && plan.boundaryRepetitions >= 3 && plan.candidates != []
    ensures var o, n := plan.objective, plan.boundaryRepetitions;
            var all, rungs := Points(Ladder(plan, at, expired)), RungPoints(plan, at, expired);
            && rungs <= all
            && (c in Boundary(o, rungs) ==>
                  && (PassCount(o, all, c) == n <==> AllPass(o, all[|rungs|..], c))
                  && exists p :: p in all[|rungs|..] && p.concurrency == c)
            && (PassCount(o, all, c) >= 2 ==> c in Boundary(o, rungs))
            && PassCount(o, all, c) <= n
  {
    LadderPoints(plan, at, expired);
    var rungs := RungPoints(plan, at, expired);
    var repeats := Points(RepeatEntries(plan, Start(plan), 0, at, expired));
    RepeatsOutcome(plan, at, expired, c);
    CountJoin(plan.objective, rungs, repeats, c);
    assert (rungs + repeats)[|rungs|..] == repeats;
  }

  lemma LadderPoints(plan: Plan, at: Key -> Point, expired: nat -> bool)
    ensures Points(Ladder(plan, at, expired)) ==
            RungPoints(plan, at, expired) + Points(RepeatEntries(plan, Start(plan), 0, at, expired))
  {
    RungsThenRepeats(plan, Start(plan), 0, at, expired);
    PointsJoin(RungEntries(plan, Start(plan), 0, at, expired), RepeatEntries(plan, Start(plan), 0, at, expired));
  }

  lemma BoundaryPasses(o: Objective, rungs: seq<Point>, c: nat)
    requires c in Boundary(o, rungs)
    ensures c in PassingRungs(o, rungs)
  {
  }

  predicate Outcome(plan: Plan, rungs: seq<Point>, repeats: seq<Point>, c: nat) {
    var o, n := plan.objective, plan.boundaryRepetitions;
    && PassCount(o, rungs, c) == (if c in PassingRungs(o, rungs) then 1 else 0)
    && (c in Boundary(o, rungs) ==>
          && PassCount(o, repeats, c) <= n - 1
          && (PassCount(o, repeats, c) == n - 1 <==> AllPass(o, repeats, c))
          && exists p :: p in repeats && p.concurrency == c)
    && (c !in Boundary(o, rungs) ==> PassCount(o, repeats, c) == 0)
  }

  lemma RepeatsOutcome(plan: Plan, at: Key -> Point, expired: nat -> bool, c: nat)
    requires Increasing(plan.candidates) && Faithful(at) && plan.boundaryRepetitions >= 3 && plan.candidates != []
    ensures Outcome(plan, RungPoints(plan, at, expired), Points(RepeatEntries(plan, Start(plan), 0, at, expired)), c)
  {
    var n := RepeatsFromStart(plan, at, expired);
    OutcomeOf(plan, RungPoints(plan, at, expired), n, at, expired, c);
  }

  lemma RepeatsFromStart(plan: Plan, at: Key -> Point, expired: nat -> bool) returns (n: nat)
    requires Increasing(plan.candidates) && Faithful(at) && plan.candidates != []
    ensures var rungs := RungPoints(plan, at, expired);
            && Increasing(PassingRungs(plan.objective, rungs))
            && RepeatEntries(plan, Start(plan), 0, at, expired) == Run(plan, AfterRungs(plan, rungs), n, at, expired)
  {
    var rungs := RungPoints(plan, at, expired);
    assert AllRungs(plan, Start(plan), 0, at, expired) == rungs;
    RungsClimb(plan, Start(plan), 0, at, expired);
    n := RepeatsOfTheBoundary(plan, Start(plan), 0, at, expired, rungs);
  }

  lemma OutcomeOf(plan: Plan, rungs: seq<Point>, k: nat, at: Key -> Point, expired: nat -> bool, c: nat)
    requires Faithful(at) && plan.boundaryRepetitions >= 3 && Increasing(PassingRungs(plan.objective, rungs))
    ensures Outcome(plan, rungs, Points(Run(plan, AfterRungs(plan, rungs), k, at, expired)), c)
  {
    var boundary := Boundary(plan.objective, rungs);
    CountOfRungs(plan.objective, rungs, c);
    BoundaryIncreasing(plan.objective, rungs);
    NeedAtStart(plan, boundary, rungs, c);
    RepeatIncreasing(plan, boundary, rungs);
    RepeatsFillTheNeed(plan, AfterRungs(plan, rungs), k, at, expired, c);
    if c in boundary { BoundaryPasses(plan.objective, rungs, c); }
  }

  lemma SelectionInputs(plan: Plan, at: Key -> Point, expired: nat -> bool, c: nat)
    requires Increasing(plan.candidates) && Faithful(at)
    ensures var all := Points(Ladder(plan, at, expired));
            DistinctRepetitions(At(all, c)) && |Eligible(plan.objective, At(all, c))| == PassCount(plan.objective, all, c)
  {
    var run := Ladder(plan, at, expired);
    var all := Points(run);
    LadderKeysAreNew(plan, at, expired);
    forall i, j | 0 <= i < j < |all| ensures KeyOf(all[i]) != KeyOf(all[j]) {
      assert run[i] in run[..j];
    }
    AtDistinct(all, c);
    EligibleCount(plan.objective, all, c);
  }

  lemma BoundaryHasFirst(plan: Plan, at: Key -> Point, expired: nat -> bool, c: nat)
    requires Increasing(plan.candidates) && Faithful(at) && c in Boundary(plan.objective, RungPoints(plan, at, expired))
    ensures exists p :: p in RungPoints(plan, at, expired) && KeyOf(p) == (c, 1)
  {
    var rungs := RungPoints(plan, at, expired);
    assert plan.candidates != [];
    assert rungs == AllRungs(plan, Start(plan), 0, at, expired);
    RungsStartAtOne(plan, Start(plan), 0, at, expired);
    PassingIsMeasured(plan.objective, rungs, c);
  }

  /** A boundary rung is selectable exactly when none of its repetitions failed or was
      skipped, and then has exactly the wanted number of eligible points.  For the highest
      stable concurrency no other rung is selectable. */
  lemma BoundaryRungsAreSelectable(plan: Plan, at: Key -> Point, expired: nat -> bool, c: nat)
    requires Increasing(plan.candidates) && Faithful(at) && plan.boundaryRepetitions >= 3
    ensures var o, n := plan.objective, plan.boundaryRepetitions;
            var all, rungs := Points(Ladder(plan, at, expired)), RungPoints(plan, at, expired);
            var group := Group(o, n, At(all, c));
            && rungs <= all
            && (c in Boundary(o, rungs) ==>
                  && (group.Some? <==> AllPass(o, all[|rungs|..], c))
                  && (group.Some? ==> |group.value| == n))
            && (o.kind == MaximumStableConcurrency && group.Some? ==> c in Boundary(o, rungs))
  {
    var o, n := plan.objective, plan.boundaryRepetitions;
    var all, rungs := Points(Ladder(plan, at, expired)), RungPoints(plan, at, expired);
    RunOutcome(plan, at, expired, c);
    SelectionInputs(plan, at, expired, c);
    if c in Boundary(o, rungs) {
      BoundaryHasFirst(plan, at, expired, c);
      var p :| p in rungs && KeyOf(p) == (c, 1);
      assert p in all;
      AtMembers(all, c, p);
      TwoMeasured(plan, at, expired, c);
    }
  }

  lemma TwoMeasured(plan: Plan, at: Key -> Point, expired: nat -> bool, c: nat)
    requires Increasing(plan.candidates) && Faithful(at) && plan.boundaryRepetitions >= 3
    requires c in Boundary(plan.objective, RungPoints(plan, at, expired))
    ensures |At(Points(Ladder(plan, at, expired)), c)| > 1
  {
    var all, rungs := Points(Ladder(plan, at, expired)), RungPoints(plan, at, expired);
    RunOutcome(plan, at, expired, c);
    PassingIsMeasured(plan.objective, rungs, c);
    var p :| p in rungs && p.concurrency == c;
    var q :| q in all[|rungs|..] && q.concurrency == c;
    AtMembers(rungs, c, p);
    AtMembers(all[|rungs|..], c, q);
    assert all == rungs + all[|rungs|..];
    AtJoin(rungs, all[|rungs|..], c);
  }

  lemma {:induction false} AtJoin(a: seq<Point>, b: seq<Point>, c: nat)
    ensures At(a + b, c) == At(a, c) + At(b, c)
  {
    if b == [] {
      assert a + b == a;
    } else {
      assert (a + b)[..|a + b| - 1] == a + b[..|b| - 1];
      AtJoin(a, b[..|b| - 1], c);
    }
  }

  /** For the highest stable concurrency the winner is the higher of the top two passing
      rungs whose repetitions all passed. */
  lemma HighestFullRungWins(plan: Plan, at: Key -> Point, expired: nat -> bool, w: nat, c: nat)
    requires Increasing(plan.candidates) && Faithful(at) && plan.boundaryRepetitions >= 3
    requires plan.objective.kind == MaximumStableConcurrency
    requires IsWinner(plan.objective, plan.boundaryRepetitions, Points(Ladder(plan, at, expired)), w)
    ensures var o, all, rungs := plan.objective, Points(Ladder(plan, at, expired)), RungPoints(plan, at, expired);
            && rungs <= all && w in Boundary(o, rungs) && AllPass(o, all[|rungs|..], w)
            && (c in Boundary(o, rungs) && AllPass(o, all[|rungs|..], c) ==> c <= w)
  {
    BoundaryRungsAreSelectable(plan, at, expired, w);
    BoundaryRungsAreSelectable(plan, at, expired, c);
    if c in Boundary(plan.objective, RungPoints(plan, at, expired)) {
      BoundaryHasFirst(plan, at, expired, c);
    }
  }
}
