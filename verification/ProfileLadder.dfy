/** The restartable measurement ladder (profile_worker.py).  `Run` says which point is asked
    for next, from the points so far; the worker's loops are proved to follow it. */
module ProfileLadder {
  import opened Common
  import opened ProfilePoints

  datatype Plan = Plan(candidates: seq<nat>, objective: Objective, boundaryRepetitions: nat)

  /** A point of a run; `skipped` when the deadline passed and this run made it up. */
  datatype Entry = Entry(point: Point, skipped: bool)

  function SkippedPoint(key: Key): Point {
    Point(key.0, key.1, Skipped, 0.0, None, None, None, None, None)
  }

  function LadderRate(plan: Plan, p: Point): Option<real> {
    match plan.objective.kind
    case MaximumStableConcurrency => None
    case MaximumThroughput => Some(OrZero(p.outputRate))
    case _ => Some(OrZero(p.tasksPerHour))
  }

  predicate Flat(rates: seq<real>) {
    |rates| >= 3 && rates[|rates| - 1] <= rates[|rates| - 2] <= rates[|rates| - 3]
  }

  // ---- what is asked for next ----

  /** Where a run stands: at a rung's first or second measurement, or at a repetition of
      the first boundary rung of `todo`; `rungs` are the points of the rungs. */
  datatype Phase =
    | Rung(i: nat, rates: seq<real>, rungs: seq<Point>)
    | Retry(i: nat, rates: seq<real>, rungs: seq<Point>)
    | Repeat(todo: seq<nat>, eligible: nat, repetition: nat, rungs: seq<Point>)
    | Done

  predicate InPlan(plan: Plan, phase: Phase) {
    && (phase.Rung? || phase.Retry? ==> phase.i < |plan.candidates|)
    && (phase.Repeat? ==> phase.todo != [] && phase.eligible < plan.boundaryRepetitions)
  }

  /** The concurrencies of the points that pass, in order. */
  function PassingRungs(o: Objective, points: seq<Point>): seq<nat> {
    if points == [] then []
    else
      var p := points[|points| - 1];
      PassingRungs(o, points[..|points| - 1]) + if Passes(o, p) then [p.concurrency] else []
  }

  /** The top two passing rungs. */
  function Boundary(o: Objective, points: seq<Point>): seq<nat> {
    var rungs := PassingRungs(o, points);
    if |rungs| <= 2 then rungs else rungs[|rungs| - 2..]
  }

  function LastRepetition(points: seq<Point>, c: nat): nat {
    if points == [] then 0
    else
      var p, rest := points[|points| - 1], LastRepetition(points[..|points| - 1], c);
      if p.concurrency == c && p.repetition > rest then p.repetition else rest
  }

  function StartRepeat(plan: Plan, todo: seq<nat>, rungs: seq<Point>): (r: Phase)
    ensures InPlan(plan, r) && (r.Done? || (r.Repeat? && |r.todo| <= |todo|))
  {
    if todo == [] then Done
    else
      var eligible := PassCount(plan.objective, rungs, todo[0]);
      if eligible < plan.boundaryRepetitions then Repeat(todo, eligible, LastRepetition(rungs, todo[0]) + 1, rungs)
      else StartRepeat(plan, todo[1..], rungs)
  }

  function AfterRungs(plan: Plan, rungs: seq<Point>): (r: Phase)
    ensures InPlan(plan, r) && (r.Done? || r.Repeat?)
  {
    StartRepeat(plan, Boundary(plan.objective, rungs), rungs)
  }

  function NextRung(plan: Plan, i: nat, rates: seq<real>, rungs: seq<Point>): (r: Phase)
    ensures InPlan(plan, r) && (r.Done? || r.Repeat? || (r.Rung? && r.i == i))
  {
    if i < |plan.candidates| then Rung(i, rates, rungs) else AfterRungs(plan, rungs)
  }

  /** A rung that passed: on to the next one, unless the rates have stopped rising. */
  function AfterPass(plan: Plan, i: nat, rates: seq<real>, rungs: seq<Point>, p: Point): (r: Phase)
    ensures InPlan(plan, r) && (r.Done? || r.Repeat? || (r.Rung? && r.i == i + 1))
  {
    var rate := LadderRate(plan, p);
    if rate.None? then NextRung(plan, i + 1, rates, rungs)
    else if Flat(rates + [rate.value]) then AfterRungs(plan, rungs)
    else NextRung(plan, i + 1, rates + [rate.value], rungs)
  }

  function Start(plan: Plan): (r: Phase)
    ensures InPlan(plan, r)
  {
    NextRung(plan, 0, [], [])
  }

  function NextKey(plan: Plan, phase: Phase): Key
    requires InPlan(plan, phase) && !phase.Done?
  {
    match phase
    case Rung(i, _, _) => (plan.candidates[i], 1)
    case Retry(i, _, _) => (plan.candidates[i], 2)
    case Repeat(todo, _, repetition, _) => (todo[0], repetition)
  }

  function Advance(plan: Plan, phase: Phase, e: Entry): (r: Phase)
    requires InPlan(plan, phase) && !phase.Done?
    ensures InPlan(plan, r)
  {
    var p := e.point;
    match phase
    case Rung(i, rates, rungs) =>
      if e.skipped then AfterRungs(plan, rungs + [p])
      else if Passes(plan.objective, p) then AfterPass(plan, i, rates, rungs + [p], p)
      else Retry(i, rates, rungs + [p])
    case Retry(i, rates, rungs) =>
      if Passes(plan.objective, p) then AfterPass(plan, i, rates, rungs + [p], p)
      else AfterRungs(plan, rungs + [p])
    case Repeat(todo, eligible, repetition, rungs) =>
      if e.skipped || !Passes(plan.objective, p) || eligible + 1 == plan.boundaryRepetitions then
        StartRepeat(plan, todo[1..], rungs)
      else Repeat(todo, eligible + 1, repetition + 1, rungs)
  }

  /** The second measurement of a rung does not look at the clock first. */
  predicate Looks(phase: Phase) {
    !phase.Retry?
  }

  function NextEntry(plan: Plan, phase: Phase, k: nat, at: Key -> Point, expired: nat -> bool): Entry
    requires InPlan(plan, phase) && !phase.Done?
  {
    var key := NextKey(plan, phase);
    if Looks(phase) && expired(k) then Entry(SkippedPoint(key), true) else Entry(at(key), false)
  }

  function Rank(phase: Phase): nat {
    match phase case Rung(_, _, _) => 2 case Retry(_, _, _) => 2 case Repeat(_, _, _, _) => 1 case Done => 0
  }

  function Width(plan: Plan, phase: Phase): nat
    requires InPlan(plan, phase)
  {
    match phase
    case Rung(i, _, _) => |plan.candidates| - i
    case Retry(i, _, _) => |plan.candidates| - i
    case Repeat(todo, _, _, _) => |todo|
    case Done => 0
  }

  function Depth(plan: Plan, phase: Phase): nat
    requires InPlan(plan, phase)
  {
    match phase case Rung(_, _, _) => 1 case Retry(_, _, _) => 0
    case Repeat(_, eligible, _, _) => plan.boundaryRepetitions - eligible case Done => 0
  }

  /** The rest of a run: `at` gives the point of a key, and `expired` says whether the
      deadline has passed once so many points were gathered. */
  function Run(plan: Plan, phase: Phase, k: nat, at: Key -> Point, expired: nat -> bool): seq<Entry>
    requires InPlan(plan, phase)
    decreases Rank(phase), Width(plan, phase), Depth(plan, phase)
  {
    if phase.Done? then []
    else
      var e := NextEntry(plan, phase, k, at, expired);
      [e] + Run(plan, Advance(plan, phase, e), k + 1, at, expired)
  }

  function Ladder(plan: Plan, at: Key -> Point, expired: nat -> bool): seq<Entry> {
    Run(plan, Start(plan), 0, at, expired)
  }

  // ---- replay ----

  /** `at` after a restart: recovered points first. */
  function Recalled(recovered: map<Key, Point>, at: Key -> Point): Key -> Point {
    (k: Key) => if k in recovered then recovered[k] else at(k)
  }

  /** `at` gives back these measured points. */
  predicate Recalls(at: Key -> Point, entries: seq<Entry>) {
    forall i | 0 <= i < |entries| :: !entries[i].skipped && at(KeyOf(entries[i].point)) == entries[i].point
  }

  /** What is measured is a point of the key that was asked for. */
  ghost predicate Faithful(at: Key -> Point) {
    forall key :: KeyOf(at(key)) == key
  }

  /** The deadline is found to have passed before all of `done` was asked for again. */
  predicate Interrupted(plan: Plan, phase: Phase, k: nat, expired: nat -> bool, done: seq<Entry>)
    requires InPlan(plan, phase)
    decreases |done|
  {
    && done != [] && !phase.Done?
    && ((Looks(phase) && expired(k)) || Interrupted(plan, Advance(plan, phase, done[0]), k + 1, expired, done[1..]))
  }

  /** A second run does the same for as long as it is given the same points and its
      deadline does not pass; and if that is to the end of the first run, it ends there. */
  lemma {:induction false} SameSoFar(
    plan: Plan, phase: Phase, k: nat, a: Key -> Point, e1: nat -> bool, b: Key -> Point, e2: nat -> bool, done: seq<Entry>)
    requires InPlan(plan, phase) && Faithful(a)
    requires done <= Run(plan, phase, k, a, e1) && Recalls(b, done)
    requires !Interrupted(plan, phase, k, e2, done)
    ensures done <= Run(plan, phase, k, b, e2)
    ensures done == Run(plan, phase, k, a, e1) ==> Run(plan, phase, k, b, e2) == done
    decreases |done|
  {
    if done != [] {
      var e := NextEntry(plan, phase, k, a, e1);
      assert done[0] == e;
      var next := Advance(plan, phase, e);
      assert Run(plan, phase, k, a, e1) == [e] + Run(plan, next, k + 1, a, e1);
      assert NextEntry(plan, phase, k, b, e2) == e;
      SameSoFar(plan, next, k + 1, a, e1, b, e2, done[1..]);
    }
  }

  /** Where a run stands after these entries. */
  function PhaseAfter(plan: Plan, phase: Phase, done: seq<Entry>): (r: Phase)
    requires InPlan(plan, phase)
    ensures InPlan(plan, r)
    decreases |done|
  {
    if done == [] || phase.Done? then phase else PhaseAfter(plan, Advance(plan, phase, done[0]), done[1..])
  }

  lemma {:induction false} RunGoesOn(plan: Plan, phase: Phase, k: nat, at: Key -> Point, expired: nat -> bool, done: seq<Entry>)
    requires InPlan(plan, phase) && done <= Run(plan, phase, k, at, expired)
    ensures Run(plan, phase, k, at, expired) == done + Run(plan, PhaseAfter(plan, phase, done), k + |done|, at, expired)
    decreases |done|
  {
    if done != [] {
      var next, more := Advance(plan, phase, done[0]), done[1..];
      var run := Run(plan, next, k + 1, at, expired);
      BeginningOfRest(done, run, Run(plan, phase, k, at, expired));
      RunGoesOn(plan, next, k + 1, at, expired, more);
      TakenApart(done, run, Run(plan, PhaseAfter(plan, phase, done), k + |done|, at, expired));
    }
  }

  lemma BeginningOfRest<T>(done: seq<T>, rest: seq<T>, run: seq<T>)
    requires done != [] && done <= run && run == [run[0]] + rest
    ensures done[1..] <= rest && run == [done[0]] + rest
  {
    assert run[1..] == rest;
  }

  lemma TakenApart<T>(done: seq<T>, rest: seq<T>, after: seq<T>)
    requires done != [] && rest == done[1..] + after
    ensures [done[0]] + rest == done + after
  {
  }

  /** What a second run asks for next, where the first one measured. */
  lemma SameNext(
    plan: Plan, phase: Phase, k: nat, a: Key -> Point, e1: nat -> bool, b: Key -> Point, e2: nat -> bool, done: seq<Entry>)
    requires InPlan(plan, phase) && Faithful(a) && Faithful(b)
    requires done <= Run(plan, phase, k, a, e1) && |done| < |Run(plan, phase, k, a, e1)| && Recalls(b, done)
    requires !Interrupted(plan, phase, k, e2, done) && !e2(k + |done|)
    ensures |done| < |Run(plan, phase, k, b, e2)|
    ensures var next := Run(plan, phase, k, b, e2)[|done|];
            !next.skipped && KeyOf(next.point) == KeyOf(Run(plan, phase, k, a, e1)[|done|].point)
  {
    SameSoFar(plan, phase, k, a, e1, b, e2, done);
    RunGoesOn(plan, phase, k, a, e1, done);
    RunGoesOn(plan, phase, k, b, e2, done);
    FirstEntry(plan, PhaseAfter(plan, phase, done), k + |done|, a, e1);
    FirstEntry(plan, PhaseAfter(plan, phase, done), k + |done|, b, e2);
  }

  lemma FirstEntry(plan: Plan, phase: Phase, k: nat, at: Key -> Point, expired: nat -> bool)
    requires InPlan(plan, phase) && Faithful(at)
    ensures phase.Done? <==> Run(plan, phase, k, at, expired) == []
    ensures !phase.Done? ==> var e := Run(plan, phase, k, at, expired)[0];
              KeyOf(e.point) == NextKey(plan, phase) && (!expired(k) ==> !e.skipped)
  {
  }

  lemma {:induction false} SameRun(
    plan: Plan, phase: Phase, k: nat, a: Key -> Point, e1: nat -> bool, b: Key -> Point, e2: nat -> bool)
    requires InPlan(plan, phase) && (forall key :: a(key) == b(key)) && (forall j | k <= j :: e1(j) == e2(j))
    ensures Run(plan, phase, k, a, e1) == Run(plan, phase, k, b, e2)
    decreases Rank(phase), Width(plan, phase), Depth(plan, phase)
  {
    if !phase.Done? {
      SameRun(plan, Advance(plan, phase, NextEntry(plan, phase, k, a, e1)), k + 1, a, e1, b, e2);
    }
  }

  // ---- no key is asked for twice ----

  function Keys(points: seq<Point>): set<Key> {
    set p | p in points :: KeyOf(p)
  }

  /** None of the keys that are still to come is in `used`. */
  ghost predicate Unused(plan: Plan, phase: Phase, used: set<Key>)
    requires InPlan(plan, phase)
  {
    match phase
    case Rung(i, _, rungs) =>
      && used == Keys(rungs) && Climbing(plan, i, rungs)
      && forall q | q in used :: q.0 in plan.candidates[..i]
    case Retry(i, _, rungs) =>
      && used == Keys(rungs) && Climbing(plan, i, rungs)
      && forall q | q in used :: q.0 in plan.candidates[..i] || q == (plan.candidates[i], 1)
    case Repeat(todo, _, repetition, rungs) => Increasing(todo) && Remaining(todo, repetition, rungs, used)
    case Done => true
  }

  predicate Climbing(plan: Plan, i: nat, rungs: seq<Point>)
    requires i <= |plan.candidates|
  {
    var passing := PassingRungs(plan.objective, rungs);
    Increasing(passing) && forall c | c in passing :: c in plan.candidates[..i]
  }

  predicate Remaining(todo: seq<nat>, repetition: nat, rungs: seq<Point>, used: set<Key>) {
    && (forall q | q in used && todo != [] && q.0 == todo[0] :: q.1 < repetition)
    && (forall q | q in used && todo != [] && q.0 in todo[1..] :: q.1 <= LastRepetition(rungs, q.0))
  }

  lemma {:induction false} LastRepetitionBounds(points: seq<Point>, p: Point)
    requires p in points
    ensures p.repetition <= LastRepetition(points, p.concurrency)
  {
    if p != points[|points| - 1] {
      LastRepetitionBounds(points[..|points| - 1], p);
    }
  }

  lemma KeysOfOneMore(points: seq<Point>, p: Point)
    ensures Keys(points + [p]) == Keys(points) + {KeyOf(p)}
  {
  }

  lemma PassingOneMore(o: Objective, points: seq<Point>, p: Point)
    ensures PassingRungs(o, points + [p]) == PassingRungs(o, points) + if Passes(o, p) then [p.concurrency] else []
  {
    assert (points + [p])[..|points|] == points;
  }

  lemma UnusedFromRepeat(plan: Plan, todo: seq<nat>, rungs: seq<Point>, used: set<Key>)
    requires Increasing(todo)
    requires forall q | q in used && q.0 in todo :: q.1 <= LastRepetition(rungs, q.0)
    ensures Unused(plan, StartRepeat(plan, todo, rungs), used)
  {
    if todo != [] {
      if PassCount(plan.objective, rungs, todo[0]) < plan.boundaryRepetitions {
        assert todo[0] in todo;
        assert forall c | c in todo[1..] :: c in todo;
      } else {
        UnusedFromRepeat(plan, todo[1..], rungs, used);
      }
    }
  }

  lemma BoundaryIncreasing(o: Objective, rungs: seq<Point>)
    requires Increasing(PassingRungs(o, rungs))
    ensures Increasing(Boundary(o, rungs))
  {
  }

  lemma UnusedAfterRungs(plan: Plan, rungs: seq<Point>)
    requires Increasing(PassingRungs(plan.objective, rungs))
    ensures Unused(plan, AfterRungs(plan, rungs), Keys(rungs))
  {
    BoundaryIncreasing(plan.objective, rungs);
    var todo := Boundary(plan.objective, rungs);
    forall q | q in Keys(rungs) && q.0 in todo ensures q.1 <= LastRepetition(rungs, q.0) {
      var p :| p in rungs && KeyOf(p) == q;
      LastRepetitionBounds(rungs, p);
    }
    UnusedFromRepeat(plan, todo, rungs, Keys(rungs));
  }

  lemma UnusedAfterPass(plan: Plan, i: nat, rates: seq<real>, rungs: seq<Point>, p: Point)
    requires i < |plan.candidates| && Climbing(plan, i + 1, rungs)
    requires forall q | q in Keys(rungs) :: q.0 in plan.candidates[..i + 1]
    ensures Unused(plan, AfterPass(plan, i, rates, rungs, p), Keys(rungs))
  {
    UnusedAfterRungs(plan, rungs);
  }

  /** The points of rung `i` come after those of the rungs before. */
  lemma ClimbOne(plan: Plan, i: nat, rungs: seq<Point>, p: Point)
    requires Increasing(plan.candidates) && i < |plan.candidates| && Climbing(plan, i, rungs)
    requires p.concurrency == plan.candidates[i]
    ensures Climbing(plan, i + 1, rungs + [p])
    ensures !Passes(plan.objective, p) ==> Climbing(plan, i, rungs + [p])
  {
    var passing := PassingRungs(plan.objective, rungs);
    PassingOneMore(plan.objective, rungs, p);
    forall c | c in passing ensures c < plan.candidates[i] && c in plan.candidates[..i + 1] {
      var j :| 0 <= j < i && plan.candidates[j] == c;
      assert plan.candidates[..i + 1][j] == c;
    }
    assert plan.candidates[..i + 1][i] == p.concurrency;
    forall j | 0 <= j < |passing| ensures passing[j] < p.concurrency {
      assert passing[j] in passing;
    }
  }

  lemma UnusedStep(plan: Plan, phase: Phase, used: set<Key>, e: Entry)
    requires Increasing(plan.candidates) && InPlan(plan, phase) && !phase.Done? && Unused(plan, phase, used)
    requires KeyOf(e.point) == NextKey(plan, phase) && (e.skipped ==> !Passes(plan.objective, e.point))
    ensures KeyOf(e.point) !in used
    ensures Unused(plan, Advance(plan, phase, e), used + {KeyOf(e.point)})
  {
    var p := e.point;
    if phase.Repeat? {
      UnusedRepeatStep(plan, phase, used, e);
    } else {
      var i, rungs := phase.i, phase.rungs + [p];
      ClimbOne(plan, i, phase.rungs, p);
      KeysOfOneMore(phase.rungs, p);
      forall q | q in Keys(rungs) ensures q.0 in plan.candidates[..i + 1] {}
      UnusedAfterRungs(plan, rungs);
      UnusedAfterPass(plan, i, phase.rates, rungs, p);
    }
  }

  lemma UnusedRepeatStep(plan: Plan, phase: Phase, used: set<Key>, e: Entry)
    requires InPlan(plan, phase) && phase.Repeat? && Unused(plan, phase, used)
    requires KeyOf(e.point) == NextKey(plan, phase)
    ensures KeyOf(e.point) !in used
    ensures Unused(plan, Advance(plan, phase, e), used + {KeyOf(e.point)})
  {
    var todo, now := phase.todo, used + {KeyOf(e.point)};
    assert forall c | c in todo[1..] :: todo[0] < c;
    assert Increasing(todo[1..]);
    UnusedFromRepeat(plan, todo[1..], phase.rungs, now);
  }

  function EntryKeys(entries: seq<Entry>): set<Key> {
    set e | e in entries :: KeyOf(e.point)
  }

  /** A run asks for each key once. */
  lemma {:induction false} KeysAreNew(
    plan: Plan, phase: Phase, k: nat, at: Key -> Point, expired: nat -> bool, used: set<Key>, i: nat)
    requires Increasing(plan.candidates) && InPlan(plan, phase) && Unused(plan, phase, used) && Faithful(at)
    requires i < |Run(plan, phase, k, at, expired)|
    ensures KeyOf(Run(plan, phase, k, at, expired)[i].point) !in used + EntryKeys(Run(plan, phase, k, at, expired)[..i])
    decreases i
  {
    var e := NextEntry(plan, phase, k, at, expired);
    UnusedStep(plan, phase, used, e);
    if i > 0 {
      var next := Advance(plan, phase, e);
      KeysAreNew(plan, next, k + 1, at, expired, used + {KeyOf(e.point)}, i - 1);
      KeysFromHere(e, Run(plan, next, k + 1, at, expired), i);
    }
  }

  lemma KeysFromHere(e: Entry, rest: seq<Entry>, i: nat)
    requires 0 < i <= |rest| + 1
    ensures EntryKeys(([e] + rest)[..i]) == {KeyOf(e.point)} + EntryKeys(rest[..i - 1])
  {
    assert ([e] + rest)[..i] == [e] + rest[..i - 1];
  }

  // ---- restarts ----

  function Points(entries: seq<Entry>): seq<Point> {
    seq(|entries|, i requires 0 <= i < |entries| => entries[i].point)
  }

  /** `_recovered_point_map`, before its check for repeats. */
  function PointMap(points: seq<Point>): map<Key, Point> {
    if points == [] then map[]
    else PointMap(points[..|points| - 1])[KeyOf(points[|points| - 1]) := points[|points| - 1]]
  }

  /** The recovered keys that a run comes by. */
  function Consumed(recovered: map<Key, Point>, entries: seq<Entry>): set<Key> {
    set e | e in entries && !e.skipped && KeyOf(e.point) in recovered :: KeyOf(e.point)
  }

  /** The evidence a run writes: what it measured itself, and what it skipped. */
  function Written(recovered: map<Key, Point>, entries: seq<Entry>): seq<Entry> {
    if entries == [] then []
    else
      var e := entries[|entries| - 1];
      Written(recovered, entries[..|entries| - 1]) + if e.skipped || KeyOf(e.point) !in recovered then [e] else []
  }

  lemma {:induction false} PointMapHolds(points: seq<Point>)
    requires forall i, j | 0 <= i < j < |points| :: KeyOf(points[i]) != KeyOf(points[j])
    ensures PointMap(points).Keys == Keys(points) && |PointMap(points)| == |points|
    ensures forall p | p in points :: PointMap(points)[KeyOf(p)] == p
  {
    if points != [] {
      var front, last := points[..|points| - 1], points[|points| - 1];
      PointMapHolds(front);
      assert points == front + [last];
      KeysOfOneMore(front, last);
      assert KeyOf(last) !in Keys(front);
      MapOneMore(PointMap(front), KeyOf(last), last);
    }
  }

  lemma MapOneMore<K, V>(m: map<K, V>, k: K, v: V)
    requires k !in m
    ensures |m[k := v]| == |m| + 1 && m[k := v].Keys == m.Keys + {k}
  {
    assert m[k := v].Keys == m.Keys + {k};
    assert |m.Keys + {k}| == |m.Keys| + 1;
  }

  ghost predicate AllNew(entries: seq<Entry>) {
    forall i | 0 <= i < |entries| :: KeyOf(entries[i].point) !in EntryKeys(entries[..i])
  }

  lemma LadderKeysAreNew(plan: Plan, at: Key -> Point, expired: nat -> bool)
    requires Increasing(plan.candidates) && Faithful(at)
    ensures AllNew(Ladder(plan, at, expired))
  {
    assert Unused(plan, Start(plan), {}) by { UnusedAtStart(plan); }
    forall i | 0 <= i < |Ladder(plan, at, expired)|
      ensures KeyOf(Ladder(plan, at, expired)[i].point) !in EntryKeys(Ladder(plan, at, expired)[..i])
    {
      KeysAreNew(plan, Start(plan), 0, at, expired, {}, i);
    }
  }

  lemma UnusedAtStart(plan: Plan)
    requires Increasing(plan.candidates)
    ensures Unused(plan, Start(plan), {})
  {
    UnusedAfterRungs(plan, []);
  }

  /** The map that a restart builds from the points of a stopped run. */
  function RecoveredFrom(done: seq<Entry>): map<Key, Point> {
    PointMap(Points(done))
  }

  lemma RecoveredHolds(done: seq<Entry>)
    requires AllNew(done)
    ensures RecoveredFrom(done).Keys == EntryKeys(done) && |RecoveredFrom(done)| == |done|
    ensures forall i | 0 <= i < |done| :: RecoveredFrom(done)[KeyOf(done[i].point)] == done[i].point
  {
    var points := Points(done);
    forall i, j | 0 <= i < j < |points| ensures KeyOf(points[i]) != KeyOf(points[j]) {
      assert done[i] in done[..j];
    }
    PointMapHolds(points);
    forall e | e in done ensures e.point in points {
      var i :| 0 <= i < |done| && done[i] == e;
      assert points[i] == e.point;
    }
    forall i | 0 <= i < |done| ensures PointMap(points)[KeyOf(done[i].point)] == done[i].point {
      assert points[i] in points;
    }
  }

  lemma {:induction false} NoneRecalled(recovered: map<Key, Point>, front: seq<Entry>, rest: seq<Entry>)
    requires forall e | e in rest :: KeyOf(e.point) !in recovered
    ensures Written(recovered, front + rest) == Written(recovered, front) + rest
  {
    if rest == [] {
      assert front + rest == front;
    } else {
      var less := rest[..|rest| - 1];
      assert (front + rest)[..|front + rest| - 1] == front + less;
      NoneRecalled(recovered, front, less);
      assert rest == less + [rest[|rest| - 1]];
    }
  }

  lemma MoreKeys(a: seq<Entry>, b: seq<Entry>)
    ensures EntryKeys(a) <= EntryKeys(a + b)
  {
  }

  lemma OnlyTheRestIsWritten(recovered: map<Key, Point>, done: seq<Entry>, rest: seq<Entry>)
    requires AllNew(done + rest) && recovered.Keys == EntryKeys(done)
    requires forall i | 0 <= i < |done| :: !done[i].skipped
    ensures Written(recovered, done + rest) == rest
  {
    var run := done + rest;
    AllRecalled(recovered, done);
    forall i | 0 <= i < |rest| ensures KeyOf(rest[i].point) !in recovered {
      assert run[..|done| + i] == done + rest[..i];
      assert run[|done| + i] == rest[i];
      MoreKeys(done, rest[..i]);
    }
    NoneRecalled(recovered, done, rest);
  }

  lemma {:induction false} AllRecalled(recovered: map<Key, Point>, run: seq<Entry>)
    requires forall e | e in run :: !e.skipped && KeyOf(e.point) in recovered
    ensures Written(recovered, run) == []
  {
    if run != [] {
      AllRecalled(recovered, run[..|run| - 1]);
    }
  }

  /** The first points of any ladder run, given back to a later one that is not stopped by
      its deadline before it has used them: it takes all of them in the same order, none of
      them is missed or measured again, and it goes on from there. */
  lemma RestartReplays(
    plan: Plan, a: Key -> Point, e1: nat -> bool, b: Key -> Point, e2: nat -> bool, done: seq<Entry>)
    requires Increasing(plan.candidates) && Faithful(a) && Faithful(b)
    requires done <= Ladder(plan, a, e1) && forall i | 0 <= i < |done| :: !done[i].skipped
    requires !Interrupted(plan, Start(plan), 0, e2, done)
    ensures var recovered := RecoveredFrom(done);
            var again := Ladder(plan, Recalled(recovered, b), e2);
            && |recovered| == |done|
            && done <= again
            && Consumed(recovered, again) == recovered.Keys
            && Written(recovered, again) == again[|done|..]
  {
    var recovered := RecoveredFrom(done);
    var at := Recalled(recovered, b);
    LadderKeysAreNew(plan, a, e1);
    PrefixIsNew(Ladder(plan, a, e1), done);
    RecoveredHolds(done);
    SameSoFar(plan, Start(plan), 0, a, e1, at, e2, done);
    FaithfulRecall(recovered, b);
    LadderKeysAreNew(plan, at, e2);
    AllConsumed(recovered, done, Ladder(plan, at, e2));
  }

  lemma PrefixIsNew(run: seq<Entry>, done: seq<Entry>)
    requires AllNew(run) && done <= run
    ensures AllNew(done)
  {
    forall i | 0 <= i < |done| ensures done[i] == run[i] && done[..i] == run[..i] {}
  }

  lemma AllConsumed(recovered: map<Key, Point>, done: seq<Entry>, run: seq<Entry>)
    requires AllNew(run) && done <= run && recovered.Keys == EntryKeys(done)
    requires forall i | 0 <= i < |done| :: !done[i].skipped
    ensures Consumed(recovered, run) == recovered.Keys
    ensures Written(recovered, run) == run[|done|..]
  {
    assert run == done + run[|done|..];
    OnlyTheRestIsWritten(recovered, done, run[|done|..]);
    forall key | key in recovered ensures key in Consumed(recovered, run) {
      var e :| e in done && KeyOf(e.point) == key;
      assert e in run;
    }
  }

  lemma FaithfulRecall(recovered: map<Key, Point>, at: Key -> Point)
    requires Faithful(at) && forall key | key in recovered :: KeyOf(recovered[key]) == key
    ensures Faithful(Recalled(recovered, at))
  {
  }

  /** With the same measurements and no deadline, the restart is the uninterrupted run. */
  lemma RestartContinues(plan: Plan, a: Key -> Point, expired: nat -> bool, done: seq<Entry>)
    requires Increasing(plan.candidates) && Faithful(a) && done <= Ladder(plan, a, expired)
    requires forall i | 0 <= i < |done| :: !done[i].skipped
    ensures Ladder(plan, Recalled(RecoveredFrom(done), a), expired) == Ladder(plan, a, expired)
  {
    LadderKeysAreNew(plan, a, expired);
    PrefixIsNew(Ladder(plan, a, expired), done);
    RecoveredHolds(done);
    var recovered := RecoveredFrom(done);
    forall i | 0 <= i < |done| ensures done[i].point == a(KeyOf(done[i].point)) {
      MeasuredPoint(plan, Start(plan), 0, a, expired, i);
    }
    SameRun(plan, Start(plan), 0, Recalled(recovered, a), expired, a, expired);
  }

  lemma {:induction false} MeasuredPoint(plan: Plan, phase: Phase, k: nat, at: Key -> Point, expired: nat -> bool, i: nat)
    requires InPlan(plan, phase) && Faithful(at) && i < |Run(plan, phase, k, at, expired)|
    ensures var e := Run(plan, phase, k, at, expired)[i]; !e.skipped ==> e.point == at(KeyOf(e.point))
    decreases i
  {
    var e := NextEntry(plan, phase, k, at, expired);
    if i > 0 {
      MeasuredPoint(plan, Advance(plan, phase, e), k + 1, at, expired, i - 1);
    }
  }

  // ---- a deadline that passes during replay ----

  ghost predicate StaysExpired(expired: nat -> bool) {
    forall i, j | 0 <= i <= j && expired(i) :: expired(j)
  }

  lemma {:induction false} RepetitionsAreSkipped(plan: Plan, phase: Phase, k: nat, at: Key -> Point, expired: nat -> bool)
    requires InPlan(plan, phase) && (phase.Repeat? || phase.Done?) && forall j | k <= j :: expired(j)
    ensures forall e | e in Run(plan, phase, k, at, expired) :: e.skipped
    decreases Width(plan, phase)
  {
    if phase.Repeat? {
      var e := NextEntry(plan, phase, k, at, expired);
      RepetitionsAreSkipped(plan, Advance(plan, phase, e), k + 1, at, expired);
    }
  }

  /** From entry `j` on the run only skips. */
  predicate SkipsFrom(run: seq<Entry>, done: seq<Entry>, j: nat) {
    && j < |done| && j <= |run| && (forall i | 0 <= i < j :: run[i] == done[i])
    && forall i | j <= i < |run| :: run[i].skipped
  }

  lemma SkipsOneLater(e: Entry, run: seq<Entry>, done: seq<Entry>, j: nat)
    requires SkipsFrom(run, done, j)
    ensures SkipsFrom([e] + run, [e] + done, j + 1)
  {
  }

  lemma {:induction false} InterruptionStops(
    plan: Plan, phase: Phase, k: nat, a: Key -> Point, e1: nat -> bool, b: Key -> Point, e2: nat -> bool, done: seq<Entry>)
    returns (j: nat)
    requires InPlan(plan, phase) && Faithful(a) && StaysExpired(e2)
    requires done <= Run(plan, phase, k, a, e1) && Recalls(b, done)
    requires Interrupted(plan, phase, k, e2, done)
    ensures SkipsFrom(Run(plan, phase, k, b, e2), done, j)
    decreases |done|
  {
    var e := NextEntry(plan, phase, k, b, e2);
    var next := Advance(plan, phase, e);
    if Looks(phase) && e2(k) {
      RepetitionsAreSkipped(plan, next, k + 1, b, e2);
      j := 0;
    } else {
      var first := NextEntry(plan, phase, k, a, e1);
      BeginningOfRest(done, Run(plan, next, k + 1, a, e1), Run(plan, phase, k, a, e1));
      assert done[0] == first && first == e;
      j := InterruptionStops(plan, next, k + 1, a, e1, b, e2, done[1..]);
      SkipsOneLater(e, Run(plan, next, k + 1, b, e2), done[1..], j);
      assert [e] + done[1..] == done;
      j := j + 1;
    }
  }

  lemma SkippedAreNotConsumed(recovered: map<Key, Point>, done: seq<Entry>, run: seq<Entry>, j: nat)
    requires AllNew(done) && SkipsFrom(run, done, j)
    ensures KeyOf(done[j].point) !in Consumed(recovered, run)
  {
    forall e | e in run && !e.skipped ensures e in done[..j] {
      var i :| 0 <= i < |run| && run[i] == e;
      assert done[..j][i] == e;
    }
  }

  /** A run that finds its deadline passed at once obtains nothing. */
  lemma NothingIsObtained(plan: Plan, at: Key -> Point, expired: nat -> bool)
    requires StaysExpired(expired) && expired(0)
    ensures forall e | e in Ladder(plan, at, expired) :: e.skipped
  {
    var start := Start(plan);
    if start.Rung? {
      var e := NextEntry(plan, start, 0, at, expired);
      RepetitionsAreSkipped(plan, Advance(plan, start, e), 1, at, expired);
    } else {
      RepetitionsAreSkipped(plan, start, 0, at, expired);
    }
  }

  /** A restart takes all recovered points if and only if it does not find its deadline
      passed on the way; otherwise it reports the points it did not come to as unreachable.
      The deadline is one for all runs of a profile, so it has passed for good once some
      run has skipped a point: the skipped points are recovered too. */
  lemma RestartNeedsTheDeadline(
    plan: Plan, a: Key -> Point, e1: nat -> bool, b: Key -> Point, e2: nat -> bool, done: seq<Entry>)
    requires Increasing(plan.candidates) && Faithful(a) && Faithful(b) && StaysExpired(e2)
    requires done <= Ladder(plan, a, e1) && ((exists e :: e in done && e.skipped) ==> e2(0))
    ensures var recovered := RecoveredFrom(done);
            recovered.Keys <= Consumed(recovered, Ladder(plan, Recalled(recovered, b), e2)) <==>
            !Interrupted(plan, Start(plan), 0, e2, done)
  {
    var recovered := RecoveredFrom(done);
    LadderKeysAreNew(plan, a, e1);
    PrefixIsNew(Ladder(plan, a, e1), done);
    RecoveredHolds(done);
    if exists e :: e in done && e.skipped {
      NothingIsObtained(plan, Recalled(recovered, b), e2);
      StartLooks(plan, a, e1, e2, done);
      assert KeyOf(done[0].point) in recovered;
    } else if !Interrupted(plan, Start(plan), 0, e2, done) {
      assert forall i | 0 <= i < |done| :: done[i] in done;
      RestartReplays(plan, a, e1, b, e2, done);
    } else {
      MeasuredAreRecalled(done, b);
      var j := InterruptionStops(plan, Start(plan), 0, a, e1, Recalled(recovered, b), e2, done);
      SkippedAreNotConsumed(recovered, done, Ladder(plan, Recalled(recovered, b), e2), j);
      assert done[j] in done && KeyOf(done[j].point) in recovered;
    }
  }

  lemma MeasuredAreRecalled(done: seq<Entry>, b: Key -> Point)
    requires AllNew(done) && forall e | e in done :: !e.skipped
    ensures Recalls(Recalled(RecoveredFrom(done), b), done)
  {
    RecoveredHolds(done);
    forall i | 0 <= i < |done| ensures !done[i].skipped && KeyOf(done[i].point) in RecoveredFrom(done) {
      assert done[i] in done;
    }
  }

  lemma StartLooks(plan: Plan, a: Key -> Point, e1: nat -> bool, e2: nat -> bool, done: seq<Entry>)
    requires done != [] && done <= Ladder(plan, a, e1) && e2(0)
    ensures Interrupted(plan, Start(plan), 0, e2, done)
  {
  }
}
