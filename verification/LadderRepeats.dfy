/** Which rungs the worker repeats, and how often (profile_worker.py, `_run_ladder` and
    `_run_boundary_repetitions`), said of the points it gathers and of nothing else. */
module LadderRepeats {
  import opened Common
  import opened ProfilePoints
  import opened ProfileLadder
  import opened LadderReading
  import opened LadderSelection

  ghost predicate MetAt(o: Objective, points: seq<Point>, c: nat, r: nat) {
    exists p :: p in points && IsAt(p, c, r) && Meets(o, p)
  }

  /** The rung passed, and at most one above it did. */
  ghost predicate TopTwo(o: Objective, points: seq<Point>, c: nat) {
    && HasPassed(o, points, c)
    && forall d: nat, e: nat | c < d && c < e && HasPassed(o, points, d) && HasPassed(o, points, e) :: d == e
  }

  /** The repetitions from `from` on are made until one does not meet the objective, and no
      more than `most`. */
  ghost predicate Asked(o: Objective, points: seq<Point>, c: nat, from: nat, most: nat, r: nat) {
    && from <= r < from + most
    && forall q: nat | from <= q < r :: MetAt(o, points, c, q)
  }

  /** After the point that passed at a rung there are further ones if and only if the rung is
      one of the top two: until one does not meet the objective or there are as many as the
      plan wants. */
  ghost predicate RepeatedAfter(plan: Plan, points: seq<Point>, p: Point) {
    forall r: nat | p.repetition < r ::
      Found(points, p.concurrency, r) <==>
      && TopTwo(plan.objective, points, p.concurrency)
      && r < p.repetition + plan.boundaryRepetitions
      && forall q: nat | p.repetition < q < r :: MetAt(plan.objective, points, p.concurrency, q)
  }

  /** Rungs that passed are repeated as far as they should be, others never. */
  ghost predicate Repeats(plan: Plan, points: seq<Point>) {
    && (forall p: Point | Passed(plan.objective, points, p.concurrency, p) :: RepeatedAfter(plan, points, p))
    && (forall p | p in points && !HasPassed(plan.objective, points, p.concurrency) :: p.repetition <= 2)
  }

  // ---------- the rungs ----------

  lemma {:induction false} RungsArePaired(plan: Plan, phase: Phase, k: nat, at: Key -> Point, expired: nat -> bool)
    requires Increasing(plan.candidates) && Faithful(at) && InPlan(plan, phase) && InRungs(phase)
    requires Stands(plan, phase, phase.rungs)
    ensures Paired(plan.objective, AllRungs(plan, phase, k, at, expired))
    decreases Rank(phase), Width(plan, phase), Depth(plan, phase)
  {
    var e := NextEntry(plan, phase, k, at, expired);
    var next := Advance(plan, phase, e);
    NextHasPoint(plan, phase, e);
    OneEntryOn(plan, phase, k, at, expired);
    PairedOneMore(plan, phase, e);
    StandsNext(plan, phase, phase.rungs, e);
    if InRungs(next) {
      NextIsCloser(plan, phase, e);
      RungsArePaired(plan, next, k + 1, at, expired);
    }
  }

  lemma PairedOneMore(plan: Plan, phase: Phase, e: Entry)
    requires Increasing(plan.candidates) && InPlan(plan, phase) && InRungs(phase) && Stands(plan, phase, phase.rungs)
    requires KeyOf(e.point) == NextKey(plan, phase)
    ensures Paired(plan.objective, phase.rungs + [e.point])
  {
    if phase.Rung? {
      PairedFirst(plan, phase.rungs, e.point, phase.i);
    } else {
      PairedSecond(plan, phase.rungs, e.point, plan.candidates[phase.i]);
    }
  }

  lemma {:induction false} MetIsPassing(o: Objective, points: seq<Point>, p: Point)
    requires p in points && Meets(o, p)
    ensures p.concurrency in PassingRungs(o, points)
  {
    PassesExactly(o, p);
    if p != points[|points| - 1] { MetIsPassing(o, points[..|points| - 1], p); }
  }

  lemma {:induction false} LastRepetitionIsThere(points: seq<Point>, c: nat)
    ensures LastRepetition(points, c) == 0 || exists p :: p in points && IsAt(p, c, LastRepetition(points, c))
  {
    if points != [] {
      var front, last := points[..|points| - 1], points[|points| - 1];
      assert last in points;
      LastRepetitionIsThere(front, c);
      if LastRepetition(points, c) == LastRepetition(front, c) != 0 {
        var p :| p in front && IsAt(p, c, LastRepetition(front, c));
        assert p in points;
      } else if LastRepetition(points, c) != 0 {
        assert IsAt(last, c, LastRepetition(points, c));
      }
    }
  }

  /** The point that passed is the last one of its rung. */
  lemma PassedIsLast(o: Objective, rungs: seq<Point>, c: nat, p: Point)
    requires Paired(o, rungs) && Passed(o, rungs, c, p)
    ensures LastRepetition(rungs, c) == p.repetition
  {
    LastRepetitionBounds(rungs, p);
    LastRepetitionIsThere(rungs, c);
    var q :| q in rungs && IsAt(q, c, LastRepetition(rungs, c));
    if p.repetition == 1 && q.repetition == 2 { assert IsAt(p, c, 1); }
  }

  // ---------- the repetitions ----------

  function From(plan: Plan, phase: Phase, c: nat): nat
    requires InPlan(plan, phase) && !InRungs(phase)
  {
    if phase.Done? then 0
    else if c == phase.todo[0] then phase.repetition
    else LastRepetition(phase.rungs, c) + 1
  }

  lemma FromAtStart(plan: Plan, todo: seq<nat>, rungs: seq<Point>, c: nat)
    ensures var phase := StartRepeat(plan, todo, rungs);
            phase.Repeat? ==> phase.rungs == rungs && From(plan, phase, c) == LastRepetition(rungs, c) + 1
  {
    if todo != [] { FromAtStart(plan, todo[1..], rungs, c); }
  }

  lemma FromStep(plan: Plan, phase: Phase, e: Entry, c: nat)
    requires InPlan(plan, phase) && phase.Repeat? && Increasing(phase.todo)
    requires e.skipped ==> !Passes(plan.objective, e.point)
    ensures var next := Advance(plan, phase, e);
            Need(plan, next, c) > 0 ==>
              From(plan, next, c) == if c == phase.todo[0] then phase.repetition + 1 else From(plan, phase, c)
  {
    var todo := phase.todo;
    FromAtStart(plan, todo[1..], phase.rungs, c);
    NeedAtStart(plan, todo[1..], phase.rungs, c);
    assert forall d | d in todo[1..] :: todo[0] < d;
  }

  lemma FoundOneMore(o: Objective, p: Point, rest: seq<Point>, c: nat, r: nat)
    ensures Found([p] + rest, c, r) <==> IsAt(p, c, r) || Found(rest, c, r)
    ensures MetAt(o, [p] + rest, c, r) <==> (IsAt(p, c, r) && Meets(o, p)) || MetAt(o, rest, c, r)
  {
    var points := [p] + rest;
    assert forall x :: x in points <==> x == p || x in rest;
    assert p in points;
    if Found(rest, c, r) { var x :| x in rest && IsAt(x, c, r); assert x in points; }
    if MetAt(o, rest, c, r) { var x :| x in rest && IsAt(x, c, r) && Meets(o, x); assert x in points; }
  }

  /** The points of the repetitions of one rung. */
  ghost predicate RepeatsOf(o: Objective, points: seq<Point>, c: nat, from: nat, most: nat) {
    forall r: nat :: Found(points, c, r) <==> Asked(o, points, c, from, most, r)
  }

  lemma OtherRung(o: Objective, p: Point, rest: seq<Point>, c: nat, from: nat, most: nat)
    requires p.concurrency != c && RepeatsOf(o, rest, c, from, most)
    ensures RepeatsOf(o, [p] + rest, c, from, most)
  {
    forall r: nat ensures Found([p] + rest, c, r) <==> Asked(o, [p] + rest, c, from, most, r) {
      FoundOneMore(o, p, rest, c, r);
      forall q: nat ensures MetAt(o, [p] + rest, c, q) <==> MetAt(o, rest, c, q) { FoundOneMore(o, p, rest, c, q); }
    }
  }

  /** This rung, one repetition earlier. */
  lemma ThisRung(o: Objective, p: Point, rest: seq<Point>, from: nat, most: nat)
    requires p.repetition == from && most > 0
    requires RepeatsOf(o, rest, p.concurrency, from + 1, if Meets(o, p) then most - 1 else 0)
    ensures RepeatsOf(o, [p] + rest, p.concurrency, from, most)
  {
    var c, points := p.concurrency, [p] + rest;
    forall r: nat ensures Found(points, c, r) <==> Asked(o, points, c, from, most, r) {
      FoundOneMore(o, p, rest, c, r);
      FoundOneMore(o, p, rest, c, from);
      NotMet(o, rest, c, from);
      forall q: nat | q != from ensures MetAt(o, points, c, q) <==> MetAt(o, rest, c, q) { FoundOneMore(o, p, rest, c, q); }
      if r > from && !Meets(o, p) { assert !MetAt(o, points, c, from); }
    }
  }

  lemma NotMet(o: Objective, points: seq<Point>, c: nat, r: nat)
    requires !Found(points, c, r)
    ensures !MetAt(o, points, c, r)
  {
  }

  lemma NoneNeeded(o: Objective, points: seq<Point>, c: nat, from: nat, other: nat)
    requires RepeatsOf(o, points, c, from, 0)
    ensures RepeatsOf(o, points, c, other, 0)
  {
    forall r: nat ensures Found(points, c, r) <==> Asked(o, points, c, other, 0, r) {
      assert !Asked(o, points, c, from, 0, r);
    }
  }

  lemma {:induction false} RunRepeats(plan: Plan, phase: Phase, k: nat, at: Key -> Point, expired: nat -> bool, c: nat)
    requires Faithful(at) && InPlan(plan, phase) && !InRungs(phase) && (phase.Repeat? ==> Increasing(phase.todo))
    ensures RepeatsOf(plan.objective, Points(Run(plan, phase, k, at, expired)), c, From(plan, phase, c), Need(plan, phase, c))
    decreases Width(plan, phase), Depth(plan, phase)
  {
    if phase.Repeat? {
      var e := NextEntry(plan, phase, k, at, expired);
      var next := Advance(plan, phase, e);
      NeedStep(plan, phase, e, c);
      FromStep(plan, phase, e, c);
      RunRepeats(plan, next, k + 1, at, expired, c);
      EarlierRepeat(plan.objective, e.point, Points(Run(plan, next, k + 1, at, expired)), phase.todo[0], phase.repetition, c,
                    From(plan, phase, c), Need(plan, phase, c), From(plan, next, c), Need(plan, next, c));
      PointsOfOneMore(e, Run(plan, next, k + 1, at, expired));
    }
  }

  lemma EarlierRepeat(
    o: Objective, p: Point, rest: seq<Point>, first: nat, repetition: nat, c: nat, from: nat, most: nat, from': nat, most': nat)
    requires IsAt(p, first, repetition) && RepeatsOf(o, rest, c, from', most')
    requires c == first ==> from == repetition && most > 0
    requires most' == if c != first then most else if Passes(o, p) then most - 1 else 0
    requires most' > 0 ==> from' == if c == first then repetition + 1 else from
    ensures RepeatsOf(o, [p] + rest, c, from, most)
  {
    PassesExactly(o, p);
    if most' == 0 { NoneNeeded(o, rest, c, from', if c == first then repetition + 1 else from); }
    if c == first { ThisRung(o, p, rest, from, most); } else { OtherRung(o, p, rest, c, from, most); }
  }

  // ---------- the whole run ----------

  /** What the repetitions are, said of the points of the rungs. */
  ghost predicate IsRepeated(plan: Plan, rungs: seq<Point>, repeats: seq<Point>) {
    forall c: nat ::
      RepeatsOf(plan.objective, repeats, c, LastRepetition(rungs, c) + 1, Wanted(plan, rungs, c))
  }

  function Wanted(plan: Plan, rungs: seq<Point>, c: nat): nat {
    if c in Boundary(plan.objective, rungs) && 1 < plan.boundaryRepetitions then plan.boundaryRepetitions - 1 else 0
  }

  lemma RepeatsAreWanted(plan: Plan, rungs: seq<Point>, k: nat, at: Key -> Point, expired: nat -> bool, c: nat)
    requires Faithful(at) && Increasing(PassingRungs(plan.objective, rungs))
    ensures RepeatsOf(plan.objective, Points(Run(plan, AfterRungs(plan, rungs), k, at, expired)), c,
                      LastRepetition(rungs, c) + 1, Wanted(plan, rungs, c))
  {
    var boundary, phase := Boundary(plan.objective, rungs), AfterRungs(plan, rungs);
    CountOfRungs(plan.objective, rungs, c);
    BoundaryIncreasing(plan.objective, rungs);
    NeedAtStart(plan, boundary, rungs, c);
    RepeatIncreasing(plan, boundary, rungs);
    FromAtStart(plan, boundary, rungs, c);
    RunRepeats(plan, phase, k, at, expired, c);
    if c in boundary { BoundaryPasses(plan.objective, rungs, c); }
    if phase.Done? {
      NoneNeeded(plan.objective, Points(Run(plan, phase, k, at, expired)), c, 0, LastRepetition(rungs, c) + 1);
    }
  }

  /** The two highest of an increasing list are those with at most one above them. */
  lemma LastTwo(s: seq<nat>, c: nat)
    requires Increasing(s)
    ensures c in (if |s| <= 2 then s else s[|s| - 2..]) <==>
            c in s && forall d: nat, e: nat | c < d && c < e && d in s && e in s :: d == e
  {
    if c in s && |s| > 2 {
      var i :| 0 <= i < |s| && s[i] == c;
      if i < |s| - 2 {
        assert s[|s| - 2] in s && s[|s| - 1] in s;
      } else {
        assert s[|s| - 2..][i - (|s| - 2)] == c;
      }
    }
  }

  lemma PassedInRungs(o: Objective, rungs: seq<Point>, c: nat)
    requires Paired(o, rungs)
    ensures HasPassed(o, rungs, c) <==> c in PassingRungs(o, rungs)
  {
    if HasPassed(o, rungs, c) {
      var p :| Passed(o, rungs, c, p);
      MetIsPassing(o, rungs, p);
    }
    if c in PassingRungs(o, rungs) { PassingIsPassed(o, rungs, c); }
  }

  lemma TopTwoOfRungs(o: Objective, rungs: seq<Point>, c: nat)
    requires Paired(o, rungs) && Increasing(PassingRungs(o, rungs))
    ensures TopTwo(o, rungs, c) <==> c in Boundary(o, rungs)
  {
    forall d: nat ensures HasPassed(o, rungs, d) <==> d in PassingRungs(o, rungs) { PassedInRungs(o, rungs, d); }
    LastTwo(PassingRungs(o, rungs), c);
  }

  lemma FoundInBoth(a: seq<Point>, b: seq<Point>, c: nat, r: nat)
    ensures Found(a + b, c, r) <==> Found(a, c, r) || Found(b, c, r)
  {
    if Found(a, c, r) { var p :| p in a && IsAt(p, c, r); assert p in a + b; }
    if Found(b, c, r) { var p :| p in b && IsAt(p, c, r); assert p in a + b; }
  }

  /** Only rungs that passed are repeated, and their repetitions come afterwards. */
  lemma RepeatsComeLater(plan: Plan, rungs: seq<Point>, repeats: seq<Point>, q: Point)
    requires Paired(plan.objective, rungs) && IsRepeated(plan, rungs, repeats) && q in repeats
    ensures HasPassed(plan.objective, rungs, q.concurrency)
    ensures forall p | Passed(plan.objective, rungs, q.concurrency, p) :: p.repetition < q.repetition
  {
    var o, c := plan.objective, q.concurrency;
    assert RepeatsOf(o, repeats, c, LastRepetition(rungs, c) + 1, Wanted(plan, rungs, c));
    assert IsAt(q, c, q.repetition) && Found(repeats, c, q.repetition);
    assert Asked(o, repeats, c, LastRepetition(rungs, c) + 1, Wanted(plan, rungs, c), q.repetition);
    BoundaryPasses(o, rungs, c);
    PassedInRungs(o, rungs, c);
    forall p | Passed(o, rungs, c, p) ensures p.repetition < q.repetition { LastRepetitionBounds(rungs, p); }
  }

  /** Repetitions come after the point that passed, so they change nothing about that. */
  lemma SamePassed(plan: Plan, rungs: seq<Point>, repeats: seq<Point>, c: nat, p: Point)
    requires Paired(plan.objective, rungs) && IsRepeated(plan, rungs, repeats)
    ensures Passed(plan.objective, rungs + repeats, c, p) <==> Passed(plan.objective, rungs, c, p)
  {
    var o, points := plan.objective, rungs + repeats;
    assert forall q :: q in points <==> q in rungs || q in repeats;
    forall q | q in repeats && q.concurrency == c
      ensures exists x :: Passed(o, rungs, c, x) && Meets(o, x) && x.repetition < q.repetition
    {
      RepeatsComeLater(plan, rungs, repeats, q);
      var x :| Passed(o, rungs, c, x);
    }
    FoundInBoth(rungs, repeats, c, 1);
    forall q | q in repeats && q.concurrency == c ensures q.repetition != 1 && !Passed(o, points, c, q) {
      var x :| Passed(o, rungs, c, x) && Meets(o, x) && x.repetition < q.repetition;
      if x.repetition == 1 { assert IsAt(x, c, 1); }
    }
  }

  lemma SameTopTwo(plan: Plan, rungs: seq<Point>, repeats: seq<Point>, c: nat)
    requires Paired(plan.objective, rungs) && IsRepeated(plan, rungs, repeats)
    ensures TopTwo(plan.objective, rungs + repeats, c) <==> TopTwo(plan.objective, rungs, c)
  {
    forall d: nat ensures HasPassed(plan.objective, rungs + repeats, d) <==> HasPassed(plan.objective, rungs, d) {
      forall p ensures Passed(plan.objective, rungs + repeats, d, p) <==> Passed(plan.objective, rungs, d, p) {
        SamePassed(plan, rungs, repeats, d, p);
      }
    }
  }

  lemma MetInBoth(o: Objective, a: seq<Point>, b: seq<Point>, c: nat, r: nat)
    requires !Found(a, c, r)
    ensures MetAt(o, a + b, c, r) <==> MetAt(o, b, c, r)
    ensures Found(a + b, c, r) <==> Found(b, c, r)
  {
    FoundInBoth(a, b, c, r);
    if MetAt(o, b, c, r) { var p :| p in b && IsAt(p, c, r) && Meets(o, p); assert p in a + b; }
  }

  lemma RungIsRepeated(plan: Plan, rungs: seq<Point>, repeats: seq<Point>, p: Point)
    requires Paired(plan.objective, rungs) && IsRepeated(plan, rungs, repeats) && Increasing(PassingRungs(plan.objective, rungs))
    requires Passed(plan.objective, rungs, p.concurrency, p)
    ensures RepeatedAfter(plan, rungs + repeats, p)
  {
    var o, c := plan.objective, p.concurrency;
    PassedIsLast(o, rungs, c, p);
    SameTopTwo(plan, rungs, repeats, c);
    TopTwoOfRungs(o, rungs, c);
    assert RepeatsOf(o, repeats, c, p.repetition + 1, Wanted(plan, rungs, c));
    forall r: nat | p.repetition < r
      ensures !Found(rungs, c, r)
      ensures Found(rungs + repeats, c, r) <==> Asked(o, repeats, c, p.repetition + 1, Wanted(plan, rungs, c), r)
      ensures MetAt(o, rungs + repeats, c, r) <==> MetAt(o, repeats, c, r)
    {
      if Found(rungs, c, r) {
        var q :| q in rungs && IsAt(q, c, r);
        LastRepetitionBounds(rungs, q);
        assert false;
      }
      MetInBoth(o, rungs, repeats, c, r);
    }
  }

  lemma RungsAndRepeats(plan: Plan, rungs: seq<Point>, repeats: seq<Point>)
    requires Paired(plan.objective, rungs) && IsRepeated(plan, rungs, repeats) && Increasing(PassingRungs(plan.objective, rungs))
    ensures Repeats(plan, rungs + repeats)
  {
    var o, points := plan.objective, rungs + repeats;
    forall p: Point | Passed(o, points, p.concurrency, p) ensures RepeatedAfter(plan, points, p) {
      SamePassed(plan, rungs, repeats, p.concurrency, p);
      RungIsRepeated(plan, rungs, repeats, p);
    }
    forall p | p in points && !HasPassed(o, points, p.concurrency) ensures p.repetition <= 2 {
      if p in repeats {
        RepeatsComeLater(plan, rungs, repeats, p);
        var q :| Passed(o, rungs, p.concurrency, q);
        SamePassed(plan, rungs, repeats, p.concurrency, q);
        assert false;
      }
    }
  }

  lemma RunIsRepeated(plan: Plan, rungs: seq<Point>, k: nat, at: Key -> Point, expired: nat -> bool)
    requires Faithful(at) && Increasing(PassingRungs(plan.objective, rungs))
    ensures IsRepeated(plan, rungs, Points(Run(plan, AfterRungs(plan, rungs), k, at, expired)))
  {
    var repeats := Points(Run(plan, AfterRungs(plan, rungs), k, at, expired));
    forall c: nat ensures RepeatsOf(plan.objective, repeats, c, LastRepetition(rungs, c) + 1, Wanted(plan, rungs, c)) {
      RepeatsAreWanted(plan, rungs, k, at, expired, c);
    }
  }

  /** Every run of the ladder repeats the rungs that its points say. */
  lemma TopRungsAreRepeated(plan: Plan, at: Key -> Point, expired: nat -> bool)
    requires Increasing(plan.candidates) && Faithful(at)
    ensures Repeats(plan, Points(Ladder(plan, at, expired)))
  {
    if plan.candidates != [] {
      var rungs := RungPoints(plan, at, expired);
      StartStands(plan);
      RungsArePaired(plan, Start(plan), 0, at, expired);
      assert rungs == AllRungs(plan, Start(plan), 0, at, expired);
      var n := RepeatsFromStart(plan, at, expired);
      var repeats := Points(Run(plan, AfterRungs(plan, rungs), n, at, expired));
      LadderPoints(plan, at, expired);
      RunIsRepeated(plan, rungs, n, at, expired);
      RungsAndRepeats(plan, rungs, repeats);
    }
  }
}
