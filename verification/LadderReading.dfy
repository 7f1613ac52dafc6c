/** How far the measurement ladder climbs (profile_worker.py, `_run_ladder`), said of the
    points it gathers and of nothing else. */
module LadderReading {
  import opened Common
  import opened ProfilePoints
  import opened ProfileLadder

  predicate IsAt(p: Point, c: nat, k: nat) {
    p.concurrency == c && p.repetition == k
  }

  predicate Found(points: seq<Point>, c: nat, k: nat) {
    exists p | p in points :: IsAt(p, c, k)
  }

  /** The point for which a rung counts as passed: the first measurement, or the second when
      the first one failed. */
  predicate Passed(o: Objective, points: seq<Point>, c: nat, p: Point) {
    && p in points && p.concurrency == c && Meets(o, p)
    && (p.repetition == 1 ||
        (p.repetition == 2 && Found(points, c, 1) && forall q | q in points && IsAt(q, c, 1) :: !Meets(o, q)))
  }

  ghost predicate HasPassed(o: Objective, points: seq<Point>, c: nat) {
    exists p :: Passed(o, points, c, p)
  }

  /** One of the last two steps was a rise. */
  predicate Rises(kind: Kind, last: Point, middle: Point, first: Point) {
    Measure(kind, last) > Measure(kind, middle) || Measure(kind, middle) > Measure(kind, first)
  }

  /** Three rungs were passed, and the rates of their points do not fall or stand still twice. */
  ghost predicate StillRises(o: Objective, points: seq<Point>, last: nat, middle: nat, first: nat) {
    exists p, q, r :: Passed(o, points, last, p) && Passed(o, points, middle, q) && Passed(o, points, first, r) && Rises(o.kind, p, q, r)
  }

  /** The rung was passed; and where rates are compared, with two rungs before it, one of the
      last two steps was a rise. */
  ghost predicate GoesOn(plan: Plan, points: seq<Point>, i: nat)
    requires i < |plan.candidates|
  {
    var o, c := plan.objective, plan.candidates;
    && HasPassed(o, points, c[i])
    && (o.kind == MaximumStableConcurrency || i < 2 || StillRises(o, points, c[i], c[i - 1], c[i - 2]))
  }

  /** The first candidate is measured, and each other one if and only if the one before it
      passed and the rates of the last three that passed have not stopped rising. */
  ghost predicate Climbs(plan: Plan, points: seq<Point>) {
    && (plan.candidates != [] ==> Found(points, plan.candidates[0], 1))
    && (forall i: nat {:trigger GoesOn(plan, points, i)} | i + 1 < |plan.candidates| ::
          Found(points, plan.candidates[i + 1], 1) <==> GoesOn(plan, points, i))
  }

  // ---------- on the way ----------

  /** One point for each key, and a second measurement only after a failed first one. */
  ghost predicate Paired(o: Objective, points: seq<Point>) {
    && (forall p, q | p in points && q in points && KeyOf(p) == KeyOf(q) :: p == q)
    && (forall p | p in points ::
          || p.repetition == 1
          || (p.repetition == 2 && Found(points, p.concurrency, 1)
              && forall q | q in points && IsAt(q, p.concurrency, 1) :: !Meets(o, q)))
  }

  /** All points are at the first `i` candidates. */
  predicate Below(plan: Plan, points: seq<Point>, i: nat)
    requires i <= |plan.candidates|
  {
    forall p | p in points :: p.concurrency in plan.candidates[..i]
  }

  ghost predicate HasRate(o: Objective, points: seq<Point>, c: nat, rate: real) {
    exists p :: Passed(o, points, c, p) && rate == Measure(o.kind, p)
  }

  /** The rates so far are those of the points that passed. */
  ghost predicate RatesOf(plan: Plan, points: seq<Point>, rates: seq<real>, i: nat)
    requires i <= |plan.candidates|
  {
    plan.objective.kind != MaximumStableConcurrency ==>
      && |rates| == i
      && forall j | 0 <= j < i :: HasRate(plan.objective, points, plan.candidates[j], rates[j])
  }

  /** The first `i` rungs are behind: each was measured, passed, and let the ladder go on. */
  ghost predicate Behind(plan: Plan, points: seq<Point>, i: nat)
    requires i <= |plan.candidates|
  {
    && (forall j | 0 <= j < i :: Found(points, plan.candidates[j], 1))
    && (forall j: nat {:trigger GoesOn(plan, points, j)} | j < i :: GoesOn(plan, points, j))
  }

  /** A point of this rung passed, no later than the last repetition that the rungs have. */
  ghost predicate PassedEarlier(o: Objective, points: seq<Point>, rungs: seq<Point>, c: nat) {
    exists q :: Passed(o, points, c, q) && q.repetition <= LastRepetition(rungs, c)
  }

  /** Where the points are when the run is in this phase. */
  ghost predicate Stands(plan: Plan, phase: Phase, points: seq<Point>)
    requires InPlan(plan, phase)
  {
    match phase
    case Rung(i, rates, rungs) =>
      && points == rungs && Paired(plan.objective, points) && Below(plan, points, i)
      && Behind(plan, points, i) && RatesOf(plan, points, rates, i)
    case Retry(i, rates, rungs) =>
      && points == rungs && Paired(plan.objective, points) && Below(plan, points, i + 1)
      && Behind(plan, points, i) && RatesOf(plan, points, rates, i)
      && Found(points, plan.candidates[i], 1)
      && (forall p | p in points && p.concurrency == plan.candidates[i] :: p.repetition == 1 && !Meets(plan.objective, p))
    case Repeat(todo, _, repetition, rungs) =>
      && Climbs(plan, points) && (forall c | c in todo :: PassedEarlier(plan.objective, points, rungs, c))
      && repetition > LastRepetition(rungs, todo[0])
    case Done => Climbs(plan, points)
  }

  // ---------- one more point ----------

  lemma OneMorePoint(points: seq<Point>, p: Point)
    ensures forall q :: q in points + [p] <==> q in points || q == p
  {
  }

  /** A point at another rung changes nothing at this one. */
  lemma Elsewhere(o: Objective, points: seq<Point>, p: Point, c: nat)
    requires p.concurrency != c
    ensures forall k: nat :: Found(points + [p], c, k) <==> Found(points, c, k)
    ensures forall q :: Passed(o, points + [p], c, q) <==> Passed(o, points, c, q)
  {
    OneMorePoint(points, p);
    forall k: nat ensures Found(points + [p], c, k) <==> Found(points, c, k) {
      if Found(points, c, k) { var q :| q in points && IsAt(q, c, k); assert q in points + [p]; }
    }
  }

  lemma FoundHere(points: seq<Point>, p: Point)
    ensures Found(points + [p], p.concurrency, p.repetition)
  {
    assert p in points + [p] && IsAt(p, p.concurrency, p.repetition);
  }

  lemma SameGoesOn(plan: Plan, points: seq<Point>, p: Point, i: nat, j: nat)
    requires Increasing(plan.candidates) && j < i < |plan.candidates| && p.concurrency == plan.candidates[i]
    ensures GoesOn(plan, points + [p], j) <==> GoesOn(plan, points, j)
    ensures Found(points + [p], plan.candidates[j], 1) <==> Found(points, plan.candidates[j], 1)
  {
    var o := plan.objective;
    Elsewhere(o, points, p, plan.candidates[j]);
    if j >= 2 {
      Elsewhere(o, points, p, plan.candidates[j - 1]);
      Elsewhere(o, points, p, plan.candidates[j - 2]);
    }
  }

  lemma RungsStayBehind(plan: Plan, points: seq<Point>, rates: seq<real>, p: Point, i: nat)
    requires Increasing(plan.candidates) && i < |plan.candidates| && p.concurrency == plan.candidates[i]
    requires Behind(plan, points, i) && RatesOf(plan, points, rates, i)
    ensures Behind(plan, points + [p], i) && RatesOf(plan, points + [p], rates, i)
  {
    var more := points + [p];
    forall j: nat | j < i ensures Found(more, plan.candidates[j], 1) && GoesOn(plan, more, j) {
      SameGoesOn(plan, points, p, i, j);
      assert GoesOn(plan, points, j);
    }
    forall j | 0 <= j < i && plan.objective.kind != MaximumStableConcurrency
      ensures HasRate(plan.objective, more, plan.candidates[j], rates[j])
    {
      RateStays(plan.objective, points, p, plan.candidates[j], rates[j]);
    }
  }

  lemma RateStays(o: Objective, points: seq<Point>, p: Point, c: nat, rate: real)
    requires p.concurrency != c && HasRate(o, points, c, rate)
    ensures HasRate(o, points + [p], c, rate)
  {
    Elsewhere(o, points, p, c);
    var q :| Passed(o, points, c, q) && rate == Measure(o.kind, q);
    assert Passed(o, points + [p], c, q);
  }

  // ---------- the rung itself ----------

  lemma BelowOneMore(plan: Plan, points: seq<Point>, p: Point, i: nat)
    requires i < |plan.candidates| && p.concurrency == plan.candidates[i]
    requires Below(plan, points, i) || Below(plan, points, i + 1)
    ensures Below(plan, points + [p], i + 1)
  {
    assert plan.candidates[..i + 1] == plan.candidates[..i] + [plan.candidates[i]];
  }

  lemma NewRungIsEmpty(plan: Plan, points: seq<Point>, i: nat, j: nat)
    requires Increasing(plan.candidates) && i <= j < |plan.candidates| && Below(plan, points, i)
    ensures forall p | p in points :: p.concurrency != plan.candidates[j]
  {
    forall p | p in points ensures p.concurrency != plan.candidates[j] {
      var k :| 0 <= k < i && plan.candidates[..i][k] == p.concurrency;
    }
  }

  /** No two points count for the same rung. */
  lemma OnePassed(o: Objective, points: seq<Point>, c: nat, p: Point, q: Point)
    requires Paired(o, points) && Passed(o, points, c, p) && Passed(o, points, c, q)
    ensures p == q
  {
    if p.repetition == q.repetition { assert KeyOf(p) == KeyOf(q); }
    if p.repetition == 1 && q.repetition == 2 { assert IsAt(p, c, 1); }
    if p.repetition == 2 && q.repetition == 1 { assert IsAt(q, c, 1); }
  }

  /** The ladder stops here: this rung does not let it go on, and nothing is above. */
  lemma StopsHere(plan: Plan, points: seq<Point>, i: nat)
    requires Increasing(plan.candidates) && i < |plan.candidates| && Below(plan, points, i + 1)
    requires Behind(plan, points, i) && Found(points, plan.candidates[i], 1) && (i + 1 < |plan.candidates| ==> !GoesOn(plan, points, i))
    ensures Climbs(plan, points)
  {
    forall j: nat | j + 1 < |plan.candidates|
      ensures Found(points, plan.candidates[j + 1], 1) <==> GoesOn(plan, points, j)
    {
      if j < i {
        assert GoesOn(plan, points, j);
        assert Found(points, plan.candidates[j + 1], 1);
      } else {
        NewRungIsEmpty(plan, points, i + 1, j + 1);
        if j > i { NewRungIsEmpty(plan, points, i + 1, j); }
      }
    }
  }

  lemma RisesExactly(o: Objective, points: seq<Point>, c2: nat, c1: nat, c0: nat, r2: real, r1: real, r0: real)
    requires Paired(o, points) && HasRate(o, points, c2, r2) && HasRate(o, points, c1, r1) && HasRate(o, points, c0, r0)
    ensures StillRises(o, points, c2, c1, c0) <==> r2 > r1 || r1 > r0
  {
    var p :| Passed(o, points, c2, p) && r2 == Measure(o.kind, p);
    var q :| Passed(o, points, c1, q) && r1 == Measure(o.kind, q);
    var r :| Passed(o, points, c0, r) && r0 == Measure(o.kind, r);
    if StillRises(o, points, c2, c1, c0) {
      var p', q', r' :| Passed(o, points, c2, p') && Passed(o, points, c1, q') && Passed(o, points, c0, r') && Rises(o.kind, p', q', r');
      OnePassed(o, points, c2, p, p');
      OnePassed(o, points, c1, q, q');
      OnePassed(o, points, c0, r, r');
    }
  }

  /** The rates of the last three rungs decide. */
  lemma RatesDecide(plan: Plan, points: seq<Point>, rates: seq<real>, i: nat)
    requires i < |plan.candidates| && Paired(plan.objective, points)
    requires plan.objective.kind != MaximumStableConcurrency && RatesOf(plan, points, rates, i + 1)
    ensures GoesOn(plan, points, i) <==> !Flat(rates)
  {
    var o, c := plan.objective, plan.candidates;
    assert HasRate(o, points, c[i], rates[i]);
    if i >= 2 {
      assert HasRate(o, points, c[i - 1], rates[i - 1]) && HasRate(o, points, c[i - 2], rates[i - 2]);
      RisesExactly(o, points, c[i], c[i - 1], c[i - 2], rates[i], rates[i - 1], rates[i - 2]);
    }
  }

  lemma LadderRateIsMeasure(plan: Plan, p: Point)
    ensures plan.objective.kind == MaximumStableConcurrency ==> LadderRate(plan, p) == None
    ensures plan.objective.kind != MaximumStableConcurrency ==> LadderRate(plan, p) == Some(Measure(plan.objective.kind, p))
  {
  }

  // ---------- from phase to phase ----------

  lemma {:induction false} PassingIsMet(o: Objective, points: seq<Point>, c: nat)
    requires c in PassingRungs(o, points)
    ensures exists p :: p in points && p.concurrency == c && Meets(o, p)
  {
    var front, last := points[..|points| - 1], points[|points| - 1];
    PassesExactly(o, last);
    assert last in points;
    if !(Passes(o, last) && last.concurrency == c) {
      PassingIsMet(o, front, c);
      var p :| p in front && p.concurrency == c && Meets(o, p);
      assert p in points;
    }
  }

  lemma PassingIsPassed(o: Objective, points: seq<Point>, c: nat)
    requires Paired(o, points) && c in PassingRungs(o, points)
    ensures PassedEarlier(o, points, points, c)
  {
    PassingIsMet(o, points, c);
    var p :| p in points && p.concurrency == c && Meets(o, p);
    LastRepetitionBounds(points, p);
    assert Passed(o, points, c, p);
  }

  lemma {:induction false} StartRepeatStands(plan: Plan, todo: seq<nat>, rungs: seq<Point>, points: seq<Point>)
    requires Climbs(plan, points) && forall c | c in todo :: PassedEarlier(plan.objective, points, rungs, c)
    ensures Stands(plan, StartRepeat(plan, todo, rungs), points)
  {
    if todo != [] && PassCount(plan.objective, rungs, todo[0]) >= plan.boundaryRepetitions {
      assert forall c | c in todo[1..] :: c in todo;
      StartRepeatStands(plan, todo[1..], rungs, points);
    }
  }

  lemma AfterRungsStands(plan: Plan, points: seq<Point>)
    requires Climbs(plan, points) && Paired(plan.objective, points)
    ensures Stands(plan, AfterRungs(plan, points), points)
  {
    var boundary := Boundary(plan.objective, points);
    forall c | c in boundary ensures PassedEarlier(plan.objective, points, points, c) {
      assert c in PassingRungs(plan.objective, points);
      PassingIsPassed(plan.objective, points, c);
    }
    StartRepeatStands(plan, boundary, points, points);
  }

  /** The rung failed: the ladder ends here. */
  lemma FailureStands(plan: Plan, points: seq<Point>, i: nat)
    requires Increasing(plan.candidates) && i < |plan.candidates| && Paired(plan.objective, points) && Below(plan, points, i + 1)
    requires Behind(plan, points, i) && Found(points, plan.candidates[i], 1)
    requires forall p | p in points && p.concurrency == plan.candidates[i] :: !Meets(plan.objective, p)
    ensures Stands(plan, AfterRungs(plan, points), points)
  {
    StopsHere(plan, points, i);
    AfterRungsStands(plan, points);
  }

  /** The rung passed: the ladder goes on unless the rates do not. */
  lemma PassStands(plan: Plan, points: seq<Point>, rates: seq<real>, i: nat, p: Point)
    requires Increasing(plan.candidates) && i < |plan.candidates| && Paired(plan.objective, points) && Below(plan, points, i + 1)
    requires Behind(plan, points, i) && RatesOf(plan, points, rates, i) && Found(points, plan.candidates[i], 1)
    requires Passed(plan.objective, points, plan.candidates[i], p)
    ensures Stands(plan, AfterPass(plan, i, rates, points, p), points)
  {
    LadderRateIsMeasure(plan, p);
    var rate := LadderRate(plan, p);
    var more := if rate.None? then rates else rates + [rate.value];
    assert HasPassed(plan.objective, points, plan.candidates[i]);
    if rate.Some? {
      RatesGoOn(plan, points, rates, i, p);
      RatesDecide(plan, points, more, i);
    }
    if rate.Some? && Flat(more) {
      StopsHere(plan, points, i);
      AfterRungsStands(plan, points);
    } else {
      assert GoesOn(plan, points, i);
      NextRungStands(plan, points, more, i);
    }
  }

  lemma NextRungStands(plan: Plan, points: seq<Point>, rates: seq<real>, i: nat)
    requires Increasing(plan.candidates) && i < |plan.candidates| && Paired(plan.objective, points) && Below(plan, points, i + 1)
    requires Behind(plan, points, i) && Found(points, plan.candidates[i], 1) && GoesOn(plan, points, i)
    requires RatesOf(plan, points, rates, i + 1)
    ensures Stands(plan, NextRung(plan, i + 1, rates, points), points)
  {
    if i + 1 == |plan.candidates| {
      StopsHere(plan, points, i);
      AfterRungsStands(plan, points);
    }
  }

  lemma RatesGoOn(plan: Plan, points: seq<Point>, rates: seq<real>, i: nat, p: Point)
    requires i < |plan.candidates| && RatesOf(plan, points, rates, i) && Passed(plan.objective, points, plan.candidates[i], p)
    requires plan.objective.kind != MaximumStableConcurrency
    ensures RatesOf(plan, points, rates + [Measure(plan.objective.kind, p)], i + 1)
  {
    var more := rates + [Measure(plan.objective.kind, p)];
    forall j | 0 <= j < i + 1 ensures HasRate(plan.objective, points, plan.candidates[j], more[j]) {
      if j < i { assert more[j] == rates[j]; }
    }
  }

  lemma PairedFirst(plan: Plan, points: seq<Point>, p: Point, i: nat)
    requires Increasing(plan.candidates) && i < |plan.candidates| && Paired(plan.objective, points) && Below(plan, points, i)
    requires IsAt(p, plan.candidates[i], 1)
    ensures Paired(plan.objective, points + [p])
  {
    OneMorePoint(points, p);
    NewRungIsEmpty(plan, points, i, i);
    forall q | q in points && q.repetition == 2
      ensures Found(points + [p], q.concurrency, 1)
      ensures forall r | r in points + [p] && IsAt(r, q.concurrency, 1) :: !Meets(plan.objective, r)
    {
      Elsewhere(plan.objective, points, p, q.concurrency);
    }
  }

  lemma RungStands(plan: Plan, phase: Phase, e: Entry)
    requires Increasing(plan.candidates) && InPlan(plan, phase) && phase.Rung? && Stands(plan, phase, phase.rungs)
    requires KeyOf(e.point) == NextKey(plan, phase) && (e.skipped ==> e.point.status == Skipped)
    ensures Stands(plan, Advance(plan, phase, e), phase.rungs + [e.point])
  {
    var i, rungs, p := phase.i, phase.rungs, e.point;
    var points := rungs + [p];
    PassesExactly(plan.objective, p);
    PairedFirst(plan, rungs, p, i);
    BelowOneMore(plan, rungs, p, i);
    RungsStayBehind(plan, rungs, phase.rates, p, i);
    FoundHere(rungs, p);
    NewRungIsEmpty(plan, rungs, i, i);
    OneMorePoint(rungs, p);
    if e.skipped {
      FailureStands(plan, points, i);
    } else if Passes(plan.objective, p) {
      PassStands(plan, points, phase.rates, i, p);
    }
  }

  lemma PairedSecond(plan: Plan, points: seq<Point>, p: Point, c: nat)
    requires Paired(plan.objective, points) && IsAt(p, c, 2) && Found(points, c, 1)
    requires forall q | q in points && q.concurrency == c :: q.repetition == 1 && !Meets(plan.objective, q)
    ensures Paired(plan.objective, points + [p])
  {
    var more := points + [p];
    OneMorePoint(points, p);
    forall q | q in more && q.repetition == 2
      ensures Found(more, q.concurrency, 1)
      ensures forall r | r in more && IsAt(r, q.concurrency, 1) :: !Meets(plan.objective, r)
    {
      var first :| first in points && IsAt(first, q.concurrency, 1);
      assert first in more;
    }
  }

  lemma RetryStands(plan: Plan, phase: Phase, e: Entry)
    requires Increasing(plan.candidates) && InPlan(plan, phase) && phase.Retry? && Stands(plan, phase, phase.rungs)
    requires KeyOf(e.point) == NextKey(plan, phase)
    ensures Stands(plan, Advance(plan, phase, e), phase.rungs + [e.point])
  {
    var i, rungs, p := phase.i, phase.rungs, e.point;
    var points, c := rungs + [p], plan.candidates[phase.i];
    PassesExactly(plan.objective, p);
    PairedSecond(plan, rungs, p, c);
    BelowOneMore(plan, rungs, p, i);
    RungsStayBehind(plan, rungs, phase.rates, p, i);
    OneMorePoint(rungs, p);
    var first :| first in rungs && IsAt(first, c, 1);
    assert first in points && Found(points, c, 1);
    if Passes(plan.objective, p) {
      PassStands(plan, points, phase.rates, i, p);
    } else {
      FailureStands(plan, points, i);
    }
  }

  // ---------- repetitions ----------

  /** A later point at a rung that passed changes nothing. */
  lemma LaterPoint(o: Objective, points: seq<Point>, p: Point, q: Point, c: nat)
    requires Passed(o, points, p.concurrency, q) && p.repetition > q.repetition
    ensures forall x :: Passed(o, points + [p], c, x) <==> Passed(o, points, c, x)
    ensures Found(points + [p], c, 1) <==> Found(points, c, 1)
  {
    OneMorePoint(points, p);
    if c != p.concurrency { Elsewhere(o, points, p, c); }
    if Found(points, c, 1) { var x :| x in points && IsAt(x, c, 1); assert x in points + [p]; }
    forall x ensures Passed(o, points + [p], c, x) <==> Passed(o, points, c, x) {
      if x == p && p.repetition == 2 { assert q in points && IsAt(q, p.concurrency, 1); }
    }
  }

  lemma ClimbsStill(plan: Plan, points: seq<Point>, p: Point, q: Point)
    requires Climbs(plan, points) && Passed(plan.objective, points, p.concurrency, q) && p.repetition > q.repetition
    ensures Climbs(plan, points + [p])
  {
    var o, more := plan.objective, points + [p];
    forall c ensures Found(more, c, 1) <==> Found(points, c, 1) { LaterPoint(o, points, p, q, c); }
    forall j: nat | j + 1 < |plan.candidates| ensures GoesOn(plan, more, j) <==> GoesOn(plan, points, j) {
      LaterPoint(o, points, p, q, plan.candidates[j]);
      if j >= 2 {
        LaterPoint(o, points, p, q, plan.candidates[j - 1]);
        LaterPoint(o, points, p, q, plan.candidates[j - 2]);
      }
    }
  }

  lemma PassedEarlierStays(o: Objective, points: seq<Point>, rungs: seq<Point>, p: Point, q: Point, c: nat)
    requires Passed(o, points, p.concurrency, q) && p.repetition > q.repetition && PassedEarlier(o, points, rungs, c)
    ensures PassedEarlier(o, points + [p], rungs, c)
  {
    LaterPoint(o, points, p, q, c);
    var x :| Passed(o, points, c, x) && x.repetition <= LastRepetition(rungs, c);
    assert Passed(o, points + [p], c, x);
  }

  lemma RepeatStands(plan: Plan, phase: Phase, points: seq<Point>, e: Entry)
    requires InPlan(plan, phase) && phase.Repeat? && Stands(plan, phase, points) && KeyOf(e.point) == NextKey(plan, phase)
    ensures Stands(plan, Advance(plan, phase, e), points + [e.point])
  {
    var o, todo, rungs, p := plan.objective, phase.todo, phase.rungs, e.point;
    assert PassedEarlier(o, points, rungs, todo[0]);
    var q :| Passed(o, points, todo[0], q) && q.repetition <= LastRepetition(rungs, todo[0]);
    ClimbsStill(plan, points, p, q);
    forall c | c in todo ensures PassedEarlier(o, points + [p], rungs, c) {
      PassedEarlierStays(o, points, rungs, p, q, c);
    }
    assert forall c | c in todo[1..] :: c in todo;
    StartRepeatStands(plan, todo[1..], rungs, points + [p]);
  }

  // ---------- the whole run ----------

  lemma StandsNext(plan: Plan, phase: Phase, points: seq<Point>, e: Entry)
    requires Increasing(plan.candidates) && InPlan(plan, phase) && !phase.Done? && Stands(plan, phase, points)
    requires KeyOf(e.point) == NextKey(plan, phase) && (e.skipped ==> e.point.status == Skipped)
    ensures Stands(plan, Advance(plan, phase, e), points + [e.point])
  {
    if phase.Rung? { RungStands(plan, phase, e); }
    else if phase.Retry? { RetryStands(plan, phase, e); }
    else { RepeatStands(plan, phase, points, e); }
  }

  /** `stands` is `Stands`, looked into only where `Stands` is mentioned. */
  ghost predicate IsStanding(plan: Plan, stands: (Phase, seq<Point>) -> bool) {
    forall phase, points {:trigger Stands(plan, phase, points)} | InPlan(plan, phase) ::
      stands(phase, points) <==> Stands(plan, phase, points)
  }

  lemma Standing(plan: Plan) returns (stands: (Phase, seq<Point>) -> bool)
    ensures IsStanding(plan, stands) && stands(Start(plan), [])
  {
    stands := (phase, points) => InPlan(plan, phase) && Stands(plan, phase, points);
    StartStands(plan);
  }

  lemma StandingNext(plan: Plan, stands: (Phase, seq<Point>) -> bool, phase: Phase, points: seq<Point>, e: Entry)
    requires IsStanding(plan, stands) && Increasing(plan.candidates) && InPlan(plan, phase) && !phase.Done? && stands(phase, points)
    requires KeyOf(e.point) == NextKey(plan, phase) && (e.skipped ==> e.point.status == Skipped)
    ensures stands(Advance(plan, phase, e), points + [e.point])
  {
    assert Stands(plan, phase, points);
    StandsNext(plan, phase, points, e);
  }

  lemma StandingAtTheEnd(plan: Plan, stands: (Phase, seq<Point>) -> bool, points: seq<Point>)
    requires IsStanding(plan, stands) && stands(AfterRungs(plan, points), points)
    ensures Climbs(plan, points)
  {
    assert Stands(plan, AfterRungs(plan, points), points);
  }

  lemma StartStands(plan: Plan)
    ensures Stands(plan, Start(plan), [])
  {
    if plan.candidates == [] { AfterRungsStands(plan, []); }
  }

  lemma {:induction false} RunStands(plan: Plan, phase: Phase, k: nat, at: Key -> Point, expired: nat -> bool, points: seq<Point>)
    requires Increasing(plan.candidates) && Faithful(at) && InPlan(plan, phase) && Stands(plan, phase, points)
    ensures Climbs(plan, points + Points(Run(plan, phase, k, at, expired)))
    decreases Rank(phase), Width(plan, phase), Depth(plan, phase)
  {
    if phase.Done? {
      assert points + Points(Run(plan, phase, k, at, expired)) == points;
    } else {
      var e := NextEntry(plan, phase, k, at, expired);
      StandsNext(plan, phase, points, e);
      RunStands(plan, Advance(plan, phase, e), k + 1, at, expired, points + [e.point]);
      PointsAppend(points, e, Run(plan, Advance(plan, phase, e), k + 1, at, expired));
    }
  }

  lemma PointsAppend(points: seq<Point>, e: Entry, rest: seq<Entry>)
    ensures points + Points([e] + rest) == points + [e.point] + Points(rest)
  {
    assert Points([e] + rest) == [e.point] + Points(rest);
  }

  /** Every run of the ladder climbs as far as its points say. */
  lemma LadderClimbs(plan: Plan, at: Key -> Point, expired: nat -> bool)
    requires Increasing(plan.candidates) && Faithful(at)
    ensures Climbs(plan, Points(Ladder(plan, at, expired)))
  {
    StartStands(plan);
    RunStands(plan, Start(plan), 0, at, expired, []);
    assert [] + Points(Ladder(plan, at, expired)) == Points(Ladder(plan, at, expired));
  }

  /** In particular, when every rung passes and every three in a row have a rise, every
      candidate is measured. */
  lemma {:induction false} RisingLadderIsComplete(plan: Plan, points: seq<Point>, i: nat)
    requires Climbs(plan, points) && i < |plan.candidates|
    requires forall j | 0 <= j < |plan.candidates| && Found(points, plan.candidates[j], 1) :: HasPassed(plan.objective, points, plan.candidates[j])
    requires forall j | 2 <= j < |plan.candidates| && HasPassed(plan.objective, points, plan.candidates[j]) ::
               StillRises(plan.objective, points, plan.candidates[j], plan.candidates[j - 1], plan.candidates[j - 2])
    ensures Found(points, plan.candidates[i], 1)
  {
    if i > 0 {
      RisingLadderIsComplete(plan, points, i - 1);
      assert GoesOn(plan, points, i - 1);
    }
  }
}
