/** The worker's loops over the ladder (profile_worker.py), proved to follow it. */
module ProfileWorker {
  import opened Common
  import opened ProfilePoints
  import opened ProfileLadder
  import opened LadderReading
  import LadderRepeats

  datatype Error = DuplicatePoints | UnreachablePoints | Stopped | Blocked

  /** A point has to be measured whose directory is there without evidence: its archive
      cannot be copied there. */
  ghost predicate IsBlocked(recovered: map<Key, Point>, archived: set<Key>, run: seq<Entry>) {
    exists e | e in run :: IsMeasured(recovered, e) && KeyOf(e.point) in archived
  }

  predicate IsMeasured(recovered: map<Key, Point>, e: Entry) {
    !e.skipped && KeyOf(e.point) !in recovered
  }

  /** The directories that are there: those from before, one for each file of evidence, and
      perhaps that of a point which was archived when the process died. */
  ghost predicate Archives(recovered: map<Key, Point>, before: set<Key>, archived: set<Key>, whole: seq<Entry>, k: nat, written: seq<Entry>) {
    || archived == before + EntryKeys(written)
    || (k < |whole| && IsMeasured(recovered, whole[k])
        && archived == before + EntryKeys(written) + {KeyOf(whole[k].point)})
  }

  /** `rest` and `books` stand for the functions of the ladder, which stay folded until they
      are mentioned. */
  ghost predicate Means(
    plan: Plan, at: Key -> Point, recovered: map<Key, Point>, expired: nat -> bool,
    rest: (Phase, nat) -> seq<Entry>, books: seq<Entry> -> (set<Key>, seq<Entry>))
  {
    && Faithful(at)
    && (forall phase, k {:trigger Run(plan, phase, k, at, expired)} | InPlan(plan, phase) ::
          rest(phase, k) == Run(plan, phase, k, at, expired))
    && (forall t {:trigger Written(recovered, t)} :: books(t) == (Consumed(recovered, t), Written(recovered, t)))
    && (forall t :: EntryKeys(books(t).1) <= EntryKeys(t))
  }

  lemma RestStep(
    plan: Plan, at: Key -> Point, recovered: map<Key, Point>, expired: nat -> bool,
    rest: (Phase, nat) -> seq<Entry>, books: seq<Entry> -> (set<Key>, seq<Entry>), phase: Phase, k: nat)
    requires Means(plan, at, recovered, expired, rest, books) && InPlan(plan, phase) && !phase.Done?
    ensures var e := NextEntry(plan, phase, k, at, expired);
            rest(phase, k) == [e] + rest(Advance(plan, phase, e), k + 1) && KeyOf(e.point) == NextKey(plan, phase)
  {
    var e := NextEntry(plan, phase, k, at, expired);
    assert rest(phase, k) == Run(plan, phase, k, at, expired);
    assert rest(Advance(plan, phase, e), k + 1) == Run(plan, Advance(plan, phase, e), k + 1, at, expired);
  }

  lemma BooksStep(
    plan: Plan, at: Key -> Point, recovered: map<Key, Point>, expired: nat -> bool,
    rest: (Phase, nat) -> seq<Entry>, books: seq<Entry> -> (set<Key>, seq<Entry>), trace: seq<Entry>, e: Entry)
    requires Means(plan, at, recovered, expired, rest, books)
    ensures books(trace + [e]).0 ==
            books(trace).0 + (if !e.skipped && KeyOf(e.point) in recovered then {KeyOf(e.point)} else {})
    ensures books(trace + [e]).1 == books(trace).1 + (if e.skipped || KeyOf(e.point) !in recovered then [e] else [])
    ensures Points(trace + [e]) == Points(trace) + [e.point]
  {
    BookOne(recovered, trace, e);
    assert books(trace) == (Consumed(recovered, trace), Written(recovered, trace));
    assert books(trace + [e]) == (Consumed(recovered, trace + [e]), Written(recovered, trace + [e]));
  }

  ghost function Runner(plan: Plan, at: Key -> Point, expired: nat -> bool): (Phase, nat) -> seq<Entry> {
    (phase: Phase, k: nat) => if InPlan(plan, phase) then Run(plan, phase, k, at, expired) else []
  }

  ghost function Bookkeeper(recovered: map<Key, Point>): seq<Entry> -> (set<Key>, seq<Entry>) {
    (t: seq<Entry>) => (Consumed(recovered, t), Written(recovered, t))
  }

  lemma RunnerMeans(plan: Plan, at: Key -> Point, recovered: map<Key, Point>, expired: nat -> bool)
    requires Faithful(at)
    ensures Means(plan, at, recovered, expired, Runner(plan, at, expired), Bookkeeper(recovered))
    ensures Runner(plan, at, expired)(Start(plan), 0) == Ladder(plan, at, expired)
    ensures Bookkeeper(recovered)([]).0 == {} && Bookkeeper(recovered)([]).1 == []
  {
    forall t ensures EntryKeys(Bookkeeper(recovered)(t).1) <= EntryKeys(t) {
      WrittenKeys(recovered, t);
    }
  }

  lemma RestOfDone(
    plan: Plan, at: Key -> Point, recovered: map<Key, Point>, expired: nat -> bool,
    rest: (Phase, nat) -> seq<Entry>, books: seq<Entry> -> (set<Key>, seq<Entry>), k: nat)
    requires Means(plan, at, recovered, expired, rest, books)
    ensures rest(Done, k) == []
  {
    assert Run(plan, Done, k, at, expired) == [];
  }

  lemma NextIsNew(run: seq<Entry>, done: seq<Entry>, e: Entry)
    requires AllNew(run) && done + [e] <= run
    ensures |done| < |run| && run[|done|] == e && KeyOf(e.point) !in EntryKeys(done)
  {
    assert run[..|done|] == done && run[|done|] == (done + [e])[|done|];
  }

  lemma AppendHead<T>(a: seq<T>, x: T, b: seq<T>)
    ensures a + ([x] + b) == a + [x] + b
  {
  }

  lemma BookOne(recovered: map<Key, Point>, trace: seq<Entry>, e: Entry)
    ensures Written(recovered, trace + [e]) ==
            Written(recovered, trace) + (if e.skipped || KeyOf(e.point) !in recovered then [e] else [])
    ensures Consumed(recovered, trace + [e]) ==
            Consumed(recovered, trace) + (if !e.skipped && KeyOf(e.point) in recovered then {KeyOf(e.point)} else {})
  {
    assert (trace + [e])[..|trace|] == trace;
    ConsumedOne(recovered, trace, e);
  }

  lemma ConsumedOne(recovered: map<Key, Point>, trace: seq<Entry>, e: Entry)
    ensures Consumed(recovered, trace + [e]) ==
            Consumed(recovered, trace) + (if !e.skipped && KeyOf(e.point) in recovered then {KeyOf(e.point)} else {})
  {
    assert forall x :: x in trace + [e] <==> x in trace || x == e;
  }

  lemma {:induction false} RecalledKeys(points: seq<Point>, at: Key -> Point)
    requires Faithful(at)
    ensures Faithful(Recalled(PointMap(points), at))
  {
    if points != [] {
      RecalledKeys(points[..|points| - 1], at);
      var less := PointMap(points[..|points| - 1]);
      forall k | k in less ensures KeyOf(less[k]) == k {
        assert Recalled(less, at)(k) == less[k];
      }
    }
  }

  /** What was written is what the beginning of a run writes, or all of it; and so are the
      directories, but for one more. */
  ghost predicate IsBeginning(
    recovered: map<Key, Point>, whole: seq<Entry>, before: set<Key>, written: seq<Entry>, archived: set<Key>, all: bool)
  {
    exists done :: done <= whole && written == Written(recovered, done) && (all ==> done == whole)
                   && Archives(recovered, before, archived, whole, |done|, written)
  }

  lemma BeginningIsWritten(
    recovered: map<Key, Point>, whole: seq<Entry>, done: seq<Entry>, before: set<Key>, written: seq<Entry>, archived: set<Key>)
    requires done <= whole && written == Written(recovered, done) && Archives(recovered, before, archived, whole, |done|, written)
    ensures IsBeginning(recovered, whole, before, written, archived, done == whole)
    ensures IsBeginning(recovered, whole, before, written, archived, false)
  {
  }

  lemma KeysOneMore(entries: seq<Entry>, e: Entry)
    ensures EntryKeys(entries + [e]) == EntryKeys(entries) + {KeyOf(e.point)}
  {
  }

  lemma {:induction false} WrittenKeys(recovered: map<Key, Point>, run: seq<Entry>)
    ensures EntryKeys(Written(recovered, run)) <= EntryKeys(run)
  {
    if run != [] {
      var front, last := run[..|run| - 1], run[|run| - 1];
      assert run == front + [last];
      WrittenKeys(recovered, front);
      KeysOneMore(front, last);
      KeysOneMore(Written(recovered, front), last);
    }
  }

  /** A worker that died between archiving a point and writing its evidence is blocked when
      it is started again: it asks for the same point next, and finds the directory. */
  lemma CrashBlocksRestart(
    plan: Plan, a: Key -> Point, e1: nat -> bool, b: Key -> Point, e2: nat -> bool, done: seq<Entry>, archived: set<Key>)
    requires Increasing(plan.candidates) && Faithful(a) && Faithful(b)
    requires done <= Ladder(plan, a, e1) && forall i | 0 <= i < |done| :: !done[i].skipped
    requires |done| < |Ladder(plan, a, e1)| && KeyOf(Ladder(plan, a, e1)[|done|].point) in archived
    requires !Interrupted(plan, Start(plan), 0, e2, done) && !e2(|done|)
    ensures IsBlocked(RecoveredFrom(done), archived, Ladder(plan, Recalled(RecoveredFrom(done), b), e2))
  {
    var recovered, next := RecoveredFrom(done), Ladder(plan, a, e1)[|done|];
    var again := Ladder(plan, Recalled(recovered, b), e2);
    NextIsNotRecovered(plan, a, e1, b, done);
    SameNext(plan, Start(plan), 0, a, e1, Recalled(recovered, b), e2, done);
    assert IsMeasured(recovered, again[|done|]);
  }

  lemma NextIsNotRecovered(plan: Plan, a: Key -> Point, e1: nat -> bool, b: Key -> Point, done: seq<Entry>)
    requires Increasing(plan.candidates) && Faithful(a) && Faithful(b)
    requires done <= Ladder(plan, a, e1) && forall i | 0 <= i < |done| :: !done[i].skipped
    requires |done| < |Ladder(plan, a, e1)|
    ensures KeyOf(Ladder(plan, a, e1)[|done|].point) !in RecoveredFrom(done)
    ensures Recalls(Recalled(RecoveredFrom(done), b), done) && Faithful(Recalled(RecoveredFrom(done), b))
  {
    var run := Ladder(plan, a, e1);
    LadderKeysAreNew(plan, a, e1);
    PrefixIsNew(run, done);
    RecoveredHolds(done);
    FaithfulRecall(RecoveredFrom(done), b);
    assert run[..|done|] == done;
  }

  class LadderWorker {
    const plan: Plan
    const measure: Key -> Point    // `_run_point` and `_summarize_point`
    const expired: nat -> bool     // the deadline has passed once so many points were gathered
    const faults: bool             // whether a smoke check or a measurement may fail
    var recovered: map<Key, Point>
    var consumed: set<Key>
    var written: seq<Entry>        // the evidence files this process wrote
    var archived: set<Key>         // the directories of points, with evidence or without
    ghost var before: set<Key>     // the directories that were there at the start
    ghost var trace: seq<Entry>    // the points gathered so far
    ghost var rest: (Phase, nat) -> seq<Entry>              // the rest of the run
    ghost var books: seq<Entry> -> (set<Key>, seq<Entry>)   // what a trace consumes and writes

    constructor (plan: Plan, measure: Key -> Point, expired: nat -> bool, faults: bool, archived: set<Key>)
      ensures this.plan == plan && this.measure == measure && this.expired == expired && this.faults == faults
      ensures written == [] && this.archived == archived
    {
      this.plan, this.measure, this.expired, this.faults := plan, measure, expired, faults;
      recovered, consumed, written, trace := map[], {}, [], [];
      this.archived, before := archived, archived;
    }

    /** The whole run, given what was recovered. */
    ghost function Whole(): seq<Entry>
      reads this
    {
      rest(Start(plan), 0)
    }

    ghost predicate Sound()
      reads this
    {
      Means(plan, Recalled(recovered, measure), recovered, expired, rest, books) && AllNew(Whole())
    }

    /** Nothing that had to be measured so far was in the way of itself. */
    ghost predicate Clear()
      reads this
    {
      forall e | e in trace && IsMeasured(recovered, e) :: KeyOf(e.point) !in before
    }

    ghost predicate Housed()
      reads this
    {
      archived == before + EntryKeys(written)
    }

    /** What may stop the worker. */
    ghost predicate Excused(error: Error)
      reads this
    {
      (error == Stopped && faults) || (error == Blocked && IsBlocked(recovered, before, Whole()))
    }

    ghost predicate Booked()
      reads this
    {
      consumed == books(trace).0 && written == books(trace).1
    }

    /** The points so far are the beginning of the whole run, which goes on from `phase`. */
    ghost predicate Following(phase: Phase)
      reads this
    {
      InPlan(plan, phase) && Booked() && Whole() == trace + rest(phase, |trace|) && Housed() && Clear()
    }

    /** Points are gathered, and none is lost, in the order of the whole run. */
    twostate predicate Grows()
      reads this
    {
      && recovered == old(recovered) && before == old(before) && rest == old(rest) && books == old(books)
      && old(trace) <= trace <= Whole() && Booked() && Clear()
      && Archives(recovered, before, archived, Whole(), |trace|, written)
    }

    lemma FollowingStep(phase: Phase)
      requires Following(phase) && !phase.Done? && Sound()
      ensures var e := NextEntry(plan, phase, |trace|, Recalled(recovered, measure), expired);
              && Whole() == trace + [e] + rest(Advance(plan, phase, e), |trace + [e]|)
              && books(trace + [e]).0 == consumed + (if !e.skipped && KeyOf(e.point) in recovered then {KeyOf(e.point)} else {})
              && books(trace + [e]).1 == written + (if e.skipped || KeyOf(e.point) !in recovered then [e] else [])
              && KeyOf(e.point) == NextKey(plan, phase) && KeyOf(e.point) !in EntryKeys(written)
              && |trace| < |Whole()| && Whole()[|trace|] == e
              && Points(trace + [e]) == Points(trace) + [e.point]
    {
      var at := Recalled(recovered, measure);
      var e := NextEntry(plan, phase, |trace|, at, expired);
      RestStep(plan, at, recovered, expired, rest, books, phase, |trace|);
      BooksStep(plan, at, recovered, expired, rest, books, trace, e);
      AppendHead(trace, e, rest(Advance(plan, phase, e), |trace| + 1));
      NextIsNew(Whole(), trace, e);
    }

    /** `_obtain_point`: a recovered point is used up, any other is measured and written. */
    method ObtainPoint(key: Key, ghost phase: Phase) returns (r: Result<Point, Error>)
      requires Following(phase) && !phase.Done? && key == NextKey(plan, phase)
      requires Looks(phase) ==> !expired(|trace|)
      requires Sound()
      modifies this
      ensures Sound() && Grows() && (r.Err? ==> Excused(r.error))
      ensures r.Ok? ==>
                && KeyOf(r.value) == key
                && trace == old(trace) + [Entry(r.value, false)] && Points(trace) == Points(old(trace)) + [r.value]
                && Following(Advance(plan, phase, Entry(r.value, false)))
    {
      FollowingStep(phase);
      if key in recovered {
        r := Ok(recovered[key]);
        consumed := consumed + {key};
      } else {
        r := Measure(key);
        if r.Err? { return; }
      }
      trace := trace + [Entry(r.value, false)];
    }

    /** `_run_point` and `_write_point`: measuring, archiving and writing evidence; the
        worker may die in between. */
    method Measure(key: Key) returns (r: Result<Point, Error>)
      requires Housed() && key !in EntryKeys(written) && KeyOf(measure(key)) == key
      modifies this`archived, this`written
      ensures r.Ok? ==> key !in before && r.value == measure(key) && Housed() && written == old(written) + [Entry(r.value, false)]
      ensures r.Err? ==> written == old(written) && (r == Err(Stopped) || r == Err(Blocked))
      ensures r == Err(Stopped) ==> faults
      ensures r == Err(Blocked) ==> key in before
      ensures r.Err? ==> archived == old(archived) || (key !in before && archived == old(archived) + {key})
    {
      if faults { if * { return Err(Stopped); } }
      if key in archived { return Err(Blocked); }
      archived := archived + {key};
      if faults { if * { return Err(Stopped); } }
      KeysOneMore(written, Entry(measure(key), false));
      written := written + [Entry(measure(key), false)];
      r := Ok(measure(key));
    }

    /** The deadline has passed: the point is made up and written. */
    method SkipPoint(key: Key, ghost phase: Phase) returns (point: Point)
      requires Following(phase) && !phase.Done? && key == NextKey(plan, phase)
      requires Looks(phase) && expired(|trace|) && Sound()
      modifies this
      ensures Sound() && Grows() && trace == old(trace) + [Entry(point, true)] && Points(trace) == Points(old(trace)) + [point]
      ensures Following(Advance(plan, phase, Entry(point, true))) && KeyOf(point) == key && point.status == Skipped
    {
      FollowingStep(phase);
      point := SkippedPoint(key);
      KeysOneMore(written, Entry(point, true));
      written := written + [Entry(point, true)];
      archived := archived + {key};
      trace := trace + [Entry(point, true)];
    }

    /** The measurements at one rung: the point to go on with, or None to stop. */
    method ClimbRung(i: nat, ghost rates: seq<real>, points: seq<Point>, ghost stands: (Phase, seq<Point>) -> bool)
      returns (r: Result<Option<Point>, Error>, more: seq<Point>)
      requires i < |plan.candidates| && Following(Rung(i, rates, points)) && points == Points(trace)
      requires Sound() && Increasing(plan.candidates) && IsStanding(plan, stands) && stands(Rung(i, rates, points), points)
      modifies this
      ensures Sound() && Grows() && (r.Err? ==> Excused(r.error))
      ensures r.Ok? ==>
                stands(if r.value.Some? then AfterPass(plan, i, rates, more, r.value.value) else AfterRungs(plan, more), more)
      ensures r.Ok? ==> more == Points(trace)
      ensures r.Ok? ==> Following(if r.value.Some? then AfterPass(plan, i, rates, more, r.value.value) else AfterRungs(plan, more))
    {
      var concurrency := plan.candidates[i];
      if expired(|points|) {
        var skipped := SkipPoint((concurrency, 1), Rung(i, rates, points));
        StandingNext(plan, stands, Rung(i, rates, points), points, Entry(skipped, true));
        return Ok(None), points + [skipped];
      }
      var first := ObtainPoint((concurrency, 1), Rung(i, rates, points));
      if first.Err? { return Err(first.error), points; }
      more := points + [first.value];
      StandingNext(plan, stands, Rung(i, rates, points), points, Entry(first.value, false));
      if Passes(plan.objective, first.value) { return Ok(Some(first.value)), more; }
      r, more := RetryRung(i, rates, more, stands);
    }

    /** The second measurement at a rung whose first one did not pass. */
    method RetryRung(i: nat, ghost rates: seq<real>, points: seq<Point>, ghost stands: (Phase, seq<Point>) -> bool)
      returns (r: Result<Option<Point>, Error>, more: seq<Point>)
      requires i < |plan.candidates| && Following(Retry(i, rates, points)) && points == Points(trace)
      requires Sound() && Increasing(plan.candidates) && IsStanding(plan, stands) && stands(Retry(i, rates, points), points)
      modifies this
      ensures Sound() && Grows() && (r.Err? ==> Excused(r.error))
      ensures r.Ok? ==>
                stands(if r.value.Some? then AfterPass(plan, i, rates, more, r.value.value) else AfterRungs(plan, more), more)
      ensures r.Ok? ==> more == Points(trace)
      ensures r.Ok? ==> Following(if r.value.Some? then AfterPass(plan, i, rates, more, r.value.value) else AfterRungs(plan, more))
    {
      if faults { if * { return Err(Stopped), points; } }  // `_verify_smoke`
      var second := ObtainPoint((plan.candidates[i], 2), Retry(i, rates, points));
      if second.Err? { return Err(second.error), points; }
      more := points + [second.value];
      StandingNext(plan, stands, Retry(i, rates, points), points, Entry(second.value, false));
      r := Ok(if Passes(plan.objective, second.value) then Some(second.value) else None);
    }

    /** One candidate: whether to go on to the next one. */
    method ClimbOnce(i: nat, rates: seq<real>, points: seq<Point>, ghost stands: (Phase, seq<Point>) -> bool)
      returns (r: Result<bool, Error>, rates': seq<real>, more: seq<Point>)
      requires i < |plan.candidates| && Following(Rung(i, rates, points)) && points == Points(trace)
      requires Sound() && Increasing(plan.candidates) && IsStanding(plan, stands) && stands(Rung(i, rates, points), points)
      modifies this
      ensures Sound() && Grows() && (r.Err? ==> Excused(r.error))
      ensures r.Ok? ==> more == Points(trace)
      ensures r.Ok? ==> stands(if r.value then NextRung(plan, i + 1, rates', more) else AfterRungs(plan, more), more)
      ensures r.Ok? ==> Following(if r.value then NextRung(plan, i + 1, rates', more) else AfterRungs(plan, more))
    {
      rates' := rates;
      var point;
      point, more := ClimbRung(i, rates, points, stands);
      if point.Err? { return Err(point.error), rates, more; }
      if point.value.None? { return Ok(false), rates, more; }
      var rate := LadderRate(plan, point.value.value);
      if rate.Some? { rates' := rates + [rate.value]; }
      r := Ok(rate.None? || !Flat(rates'));
    }

    /** The first loop of `_run_ladder`: its points climb as far as they should. */
    method ClimbLadder() returns (r: Result<seq<Point>, Error>)
      requires Following(Start(plan)) && trace == []
      requires Sound() && Increasing(plan.candidates)
      modifies this
      ensures Sound() && Grows() && (r.Err? ==> Excused(r.error))
      ensures r.Ok? ==> r.value == Points(trace) && Following(AfterRungs(plan, r.value))
      ensures r.Ok? ==> Climbs(plan, r.value)
    {
      ghost var stands := Standing(plan);
      r := ClimbCandidates(stands);
      if r.Ok? { StandingAtTheEnd(plan, stands, r.value); }
    }

    method ClimbCandidates(ghost stands: (Phase, seq<Point>) -> bool) returns (r: Result<seq<Point>, Error>)
      requires Following(Start(plan)) && trace == []
      requires Sound() && Increasing(plan.candidates) && IsStanding(plan, stands) && stands(Start(plan), [])
      modifies this
      ensures Sound() && Grows() && (r.Err? ==> Excused(r.error))
      ensures r.Ok? ==> r.value == Points(trace) && Following(AfterRungs(plan, r.value))
      ensures r.Ok? ==> stands(AfterRungs(plan, r.value), r.value)
    {
      var points, previousRates, i, goesOn := [], [], 0, true;
      while i < |plan.candidates| && goesOn
        invariant i <= |plan.candidates| && points == Points(trace) && Sound() && Grows()
        invariant stands(if goesOn then NextRung(plan, i, previousRates, points) else AfterRungs(plan, points), points)
        invariant Following(if goesOn then NextRung(plan, i, previousRates, points) else AfterRungs(plan, points))
      {
        var step;
        step, previousRates, points := ClimbOnce(i, previousRates, points, stands);
        if step.Err? { return Err(step.error); }
        goesOn, i := step.value, i + 1;
      }
      r := Ok(points);
    }

    /** The next repetition of a boundary rung; whether it passed. */
    method RepeatOnce(todo: seq<nat>, eligible: nat, repetition: nat, rungs: seq<Point>, points: seq<Point>, ghost next: Phase)
      returns (r: Result<bool, Error>, more: seq<Point>, ghost after: Phase)
      requires todo != [] && Following(Repeat(todo, eligible, repetition, rungs)) && rungs + points == Points(trace)
      requires Sound() && next == StartRepeat(plan, todo[1..], rungs)
      modifies this
      ensures Sound() && Grows() && (r.Err? ==> Excused(r.error))
      ensures r.Ok? ==> rungs + more == Points(trace)
      ensures r.Ok? ==> Following(after)
      ensures r.Ok? ==> after == if r.value && eligible + 1 < plan.boundaryRepetitions then
                                   Repeat(todo, eligible + 1, repetition + 1, rungs) else next
    {
      after := next;
      var concurrency := todo[0];
      if expired(|rungs| + |points|) {
        var skipped := SkipPoint((concurrency, repetition), Repeat(todo, eligible, repetition, rungs));
        assert rungs + (points + [skipped]) == rungs + points + [skipped];
        return Ok(false), points + [skipped], next;
      }
      r, more, after := ObtainRepetition(todo, eligible, repetition, rungs, points, next);
    }

    method ObtainRepetition(todo: seq<nat>, eligible: nat, repetition: nat, rungs: seq<Point>, points: seq<Point>, ghost next: Phase)
      returns (r: Result<bool, Error>, more: seq<Point>, ghost after: Phase)
      requires todo != [] && Following(Repeat(todo, eligible, repetition, rungs)) && rungs + points == Points(trace)
      requires Sound() && next == StartRepeat(plan, todo[1..], rungs) && !expired(|trace|)
      modifies this
      ensures Sound() && Grows() && (r.Err? ==> Excused(r.error))
      ensures r.Ok? ==> rungs + more == Points(trace)
      ensures r.Ok? ==> Following(after)
      ensures r.Ok? ==> after == if r.value && eligible + 1 < plan.boundaryRepetitions then
                                   Repeat(todo, eligible + 1, repetition + 1, rungs) else next
    {
      after := next;
      var point := ObtainPoint((todo[0], repetition), Repeat(todo, eligible, repetition, rungs));
      if point.Err? { return Err(point.error), points, next; }
      assert rungs + (points + [point.value]) == rungs + points + [point.value];
      more := points + [point.value];
      r := Ok(Passes(plan.objective, point.value));
      if r.value && eligible + 1 < plan.boundaryRepetitions { after := Repeat(todo, eligible + 1, repetition + 1, rungs); }
    }

    /** The repetitions of one boundary rung. */
    method RepeatRung(todo: seq<nat>, rungs: seq<Point>, points: seq<Point>) returns (r: Result<bool, Error>, more: seq<Point>)
      requires todo != [] && Following(StartRepeat(plan, todo, rungs)) && rungs + points == Points(trace)
      requires Sound()
      modifies this
      ensures Sound() && Grows() && (r.Err? ==> Excused(r.error))
      ensures r.Ok? ==> rungs + more == Points(trace) && Following(StartRepeat(plan, todo[1..], rungs))
    {
      var eligible, repetition := PassCount(plan.objective, rungs, todo[0]), LastRepetition(rungs, todo[0]) + 1;
      r, more := RepeatFrom(todo, eligible, repetition, rungs, points, StartRepeat(plan, todo[1..], rungs));
    }

    method RepeatFrom(todo: seq<nat>, count: nat, from: nat, rungs: seq<Point>, points: seq<Point>, ghost next: Phase)
      returns (r: Result<bool, Error>, more: seq<Point>)
      requires todo != [] && rungs + points == Points(trace)
      requires Following(if count < plan.boundaryRepetitions then Repeat(todo, count, from, rungs) else next)
      requires Sound() && next == StartRepeat(plan, todo[1..], rungs)
      modifies this
      ensures Sound() && Grows() && (r.Err? ==> Excused(r.error))
      ensures r.Ok? ==> rungs + more == Points(trace) && Following(next)
    {
      more, r := points, Ok(true);
      var eligible, repetition := count, from;
      ghost var phase := if count < plan.boundaryRepetitions then Repeat(todo, count, from, rungs) else next;
      while eligible < plan.boundaryRepetitions
        invariant Sound() && Grows() && rungs + more == Points(trace) && r.Ok? && Following(phase)
        invariant phase == if eligible < plan.boundaryRepetitions then Repeat(todo, eligible, repetition, rungs) else next
        decreases plan.boundaryRepetitions - eligible
      {
        r, more, phase := RepeatOnce(todo, eligible, repetition, rungs, more, next);
        if r.Err? || !r.value { return; }
        eligible := eligible + 1;
        repetition := repetition + 1;
      }
    }

    /** `_run_boundary_repetitions`. */
    method RunBoundaryRepetitions(rungs: seq<Point>) returns (r: Result<seq<Point>, Error>)
      requires Following(AfterRungs(plan, rungs)) && rungs == Points(trace)
      requires Sound()
      modifies this
      ensures Sound() && Grows() && (r.Err? ==> Excused(r.error))
      ensures r.Ok? ==> rungs + r.value == Points(trace) && trace == Whole()
    {
      var points, todo := [], Boundary(plan.objective, rungs);
      while todo != []
        invariant Sound() && Grows() && rungs + points == Points(trace) && Following(StartRepeat(plan, todo, rungs))
        decreases |todo|
      {
        var step;
        step, points := RepeatRung(todo, rungs, points);
        if step.Err? { return Err(step.error); }
        todo := todo[1..];
      }
      RestOfDone(plan, Recalled(recovered, measure), recovered, expired, rest, books, |trace|);
      r := Ok(points);
    }

    /** `_run_ladder`: the whole run and nothing else, in its order; what was recovered is
        used and not measured again; recovered points the run does not come by are an
        error.  A run that is stopped has written the beginning of the same run.  It is
        blocked just when a point has to be measured whose directory was there. */
    method RunLadder(existing: seq<Point>) returns (r: Result<seq<Point>, Error>)
      requires Increasing(plan.candidates) && Faithful(measure) && written == []
      modifies this
      ensures |PointMap(existing)| != |existing| <==> r == Err(DuplicatePoints)
      ensures Outcome(PointMap(existing), r, faults, old(archived))
      ensures r.Ok? ==> Climbs(plan, r.value) && LadderRepeats.Repeats(plan, r.value)
    {
      if |PointMap(existing)| != |existing| {
        BeginningIsWritten(PointMap(existing), Ladder(plan, Recalled(PointMap(existing), measure), expired), [], archived, written, archived);
        return Err(DuplicatePoints);
      }
      RecalledKeys(existing, measure);
      LadderClimbs(plan, Recalled(PointMap(existing), measure), expired);
      LadderRepeats.TopRungsAreRepeated(plan, Recalled(PointMap(existing), measure), expired);
      r := RunRecovered(PointMap(existing));
    }

    /** How `_run_ladder` ends, with these points recovered and these directories there. */
    ghost predicate Outcome(points: map<Key, Point>, r: Result<seq<Point>, Error>, faults: bool, standing: set<Key>)
      reads this
    {
      var whole := Ladder(plan, Recalled(points, measure), expired);
      && (r.Ok? ==> r.value == Points(whole) && points.Keys <= Consumed(points, whole))
      && (r == Err(UnreachablePoints) ==> !(points.Keys <= Consumed(points, whole)))
      && (r == Err(Stopped) ==> faults)
      && (r == Err(Blocked) ==> IsBlocked(points, standing, whole))
      && (r.Ok? || r == Err(UnreachablePoints) ==> !IsBlocked(points, standing, whole))
      && IsBeginning(points, whole, standing, written, archived, r.Ok? || r == Err(UnreachablePoints))
    }

    method RunRecovered(points: map<Key, Point>) returns (r: Result<seq<Point>, Error>)
      requires Increasing(plan.candidates) && Faithful(Recalled(points, measure)) && written == []
      modifies this
      ensures r != Err(DuplicatePoints)
      ensures Outcome(points, r, faults, old(archived))
    {
      Recall(points);
      r := ClimbAndRepeat();
      Concluded(r);
    }

    method Recall(points: map<Key, Point>)
      requires Increasing(plan.candidates) && Faithful(Recalled(points, measure)) && written == []
      modifies this
      ensures Following(Start(plan)) && Sound() && trace == [] && recovered == points
      ensures before == archived == old(archived) && Whole() == Ladder(plan, Recalled(recovered, measure), expired)
    {
      recovered, consumed, trace, before := points, {}, [], archived;
      rest, books := Runner(plan, Recalled(recovered, measure), expired), Bookkeeper(recovered);
      RunnerMeans(plan, Recalled(recovered, measure), recovered, expired);
      LadderKeysAreNew(plan, Recalled(recovered, measure), expired);
    }

    /** A run that kept to the ladder ends as `_run_ladder` does. */
    ghost predicate Ends(r: Result<seq<Point>, Error>)
      reads this
    {
      && (r.Ok? ==> r.value == Points(trace) && recovered.Keys <= consumed)
      && (r == Err(UnreachablePoints) ==> !(recovered.Keys <= consumed))
      && (r.Ok? || r == Err(UnreachablePoints) ==> trace == Whole())
      && (r.Err? && r != Err(UnreachablePoints) ==> Excused(r.error))
    }

    lemma Concluded(r: Result<seq<Point>, Error>)
      requires Sound() && Booked() && Clear() && trace <= Whole() && Ends(r)
      requires Archives(recovered, before, archived, Whole(), |trace|, written)
      requires Whole() == Ladder(plan, Recalled(recovered, measure), expired)
      ensures Outcome(recovered, r, faults, before)
    {
      var whole := Whole();
      assert books(trace) == (Consumed(recovered, trace), Written(recovered, trace));
      BeginningIsWritten(recovered, whole, trace, before, written, archived);
    }

    method ClimbAndRepeat() returns (r: Result<seq<Point>, Error>)
      requires Following(Start(plan)) && Sound() && trace == [] && Increasing(plan.candidates)
      modifies this
      ensures Sound() && Grows() && r != Err(DuplicatePoints) && Ends(r)
    {
      var rungs := ClimbLadder();
      if rungs.Err? { return Err(rungs.error); }
      var repetitions := RunBoundaryRepetitions(rungs.value);
      if repetitions.Err? { return Err(repetitions.error); }
      r := if recovered.Keys <= consumed then Ok(rungs.value + repetitions.value) else Err(UnreachablePoints);
    }
  }
}
