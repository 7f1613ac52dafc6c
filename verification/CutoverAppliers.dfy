/** Several appliers of one cutover plan (catalog_cutover.py), whose requests to the two
    repositories interleave one at a time.  Their leases expire after half an hour, so any
    number of them may be at work; each may stop at any point, and a commit that was sent
    may arrive long after its applier stopped, or never. */
module CutoverAppliers {
  import opened Common
  import opened CatalogCutover

  datatype Cutover = Cutover(plan: Plan, migrate: Migration)

  /** A commit as the repository sees it: it is refused unless its parent is still the head. */
  datatype Flight = NotSent | Flying | Landed | Refused

  /** Where one `_apply_locked` call stands: about to read the index head, about to read the
      result head, about to commit the results, waiting for the answer, about to read the
      index head once more, about to commit the index, waiting for that answer; or over,
      with an answer or without one. */
  datatype Phase =
    | Started | IndexRead | Publishing | ResultsSent | Verified | Indexing | IndexSent
    | Ended(answer: Answer) | Gone

  /** `began` are the lengths of the two histories when the call began. */
  datatype Applier = Applier(phase: Phase, results: Flight, index: Flight, revision: nat, beganResults: nat, beganIndex: nat)

  datatype World = World(repositories: Repositories, appliers: map<nat, Applier>)

  datatype Act =
    | Begin(id: nat)
    | ReadIndex(id: nat)
    | ReadResults(id: nat)
    | SendResults(id: nat)
    | LandResults(id: nat)
    | AnswerResults(id: nat)
    | RecheckIndex(id: nat)
    | SendIndex(id: nat)
    | LandIndex(id: nat)
    | AnswerIndex(id: nat)
    | Leave(id: nat)

  function End(x: Applier, answer: Answer): Applier {
    x.(phase := Ended(answer))
  }

  /** `_completed_cutover` at the index head. */
  ghost function Completion(c: Cutover, r: Repositories): Answer
    requires r.index != []
  {
    var head := |r.index| - 1;
    if exists revision: nat :: IsCompleted(c.plan, r, head, revision) then
      var revision: nat :| IsCompleted(c.plan, r, head, revision);
      Completed(revision, head)
    else Moved
  }

  /** What an applier does with the result head. */
  ghost function ResultsRead(c: Cutover, r: Repositories, x: Applier): Applier
    requires DrawnUp(c.plan, r)
  {
    var head := |r.results| - 1;
    var files := FilesOf(c.plan, c.migrate, r);
    if head != c.plan.expectedResultHead && Lookup(r.results[head].markers, c.plan.cutoverId) != Some(c.plan) then End(x, Moved)
    else if files.None? then End(x, InvalidPlan)
    else if head == c.plan.expectedResultHead then x.(phase := Publishing)
    else if Holds(r.results[head], c.plan, files.value) then x.(phase := Verified, revision := head)
    else End(x, FilesConflict)
  }

  /** One applier moves; the repositories stay as they are. */
  ghost function Moves(c: Cutover, r: Repositories, x: Applier, a: Act): Applier
    requires DrawnUp(c.plan, r) && !a.Begin? && !a.LandResults? && !a.LandIndex?
  {
    match a
    case ReadIndex(_) =>
      if x.phase != Started then x
      else if IndexPending(c.plan, r) then x.(phase := IndexRead)
      else End(x, Completion(c, r))
    case ReadResults(_) => if x.phase == IndexRead then ResultsRead(c, r, x) else x
    case SendResults(_) => if x.phase == Publishing then x.(phase := ResultsSent, results := Flying) else x
    case AnswerResults(_) =>
      if x.phase != ResultsSent || x.results == Flying then x
      else if x.results == Landed then x.(phase := Verified, revision := c.plan.expectedResultHead + 1)
      else End(x, Failure)
    case RecheckIndex(_) =>
      if x.phase != Verified then x else if IndexPending(c.plan, r) then x.(phase := Indexing) else End(x, Moved)
    case SendIndex(_) => if x.phase == Indexing then x.(phase := IndexSent, index := Flying) else x
    case AnswerIndex(_) =>
      if x.phase != IndexSent || x.index == Flying then x
      else if x.index == Landed then End(x, Completed(x.revision, c.plan.expectedIndexHead + 1))
      else End(x, Failure)
    case Leave(_) => if x.phase.Ended? then x else x.(phase := Gone)
  }

  /** A commit arrives: it lands on its parent or it is refused. */
  function Arrives(c: Cutover, r: Repositories, x: Applier, a: Act): (Repositories, Applier)
    requires DrawnUp(c.plan, r) && (a.LandResults? || a.LandIndex?)
  {
    var files := FilesOf(c.plan, c.migrate, r);
    if a.LandResults? then
      if x.results != Flying then (r, x)
      else if ResultsPending(c.plan, r) && files.Some? then
        (r.(results := r.results + [Published(r.results[c.plan.expectedResultHead], c.plan, files.value)]), x.(results := Landed))
      else (r, x.(results := Refused))
    else if x.index != Flying then (r, x)
    else if IndexPending(c.plan, r) then
      (r.(index := r.index + [Indexed(r.index[c.plan.expectedIndexHead], c.plan, x.revision)]), x.(index := Landed))
    else (r, x.(index := Refused))
  }

  /** One act of an applier, or the arrival of one of its commits; nothing happens when the
      applier is not ready for it. */
  ghost function Step(c: Cutover, r: Repositories, x: Applier, a: Act): (Repositories, Applier)
    requires DrawnUp(c.plan, r) && !a.Begin?
  {
    if a.LandResults? || a.LandIndex? then Arrives(c, r, x, a) else (r, Moves(c, r, x, a))
  }

  function Fresh(r: Repositories): Applier {
    Applier(Started, NotSent, NotSent, 0, |r.results|, |r.index|)
  }

  /** The world after one act. */
  ghost function Next(c: Cutover, s: World, a: Act): (t: World)
    requires DrawnUp(c.plan, s.repositories)
    ensures DrawnUp(c.plan, t.repositories)
  {
    if a.Begin? then
      if a.id in s.appliers then s else s.(appliers := s.appliers[a.id := Fresh(s.repositories)])
    else if a.id !in s.appliers then s
    else
      var after := Step(c, s.repositories, s.appliers[a.id], a);
      World(after.0, s.appliers[a.id := after.1])
  }

  ghost function Run(c: Cutover, s: World, acts: seq<Act>): (t: World)
    requires DrawnUp(c.plan, s.repositories)
    ensures DrawnUp(c.plan, t.repositories)
  {
    if acts == [] then s else Next(c, Run(c, s, acts[..|acts| - 1]), acts[|acts| - 1])
  }

  // ---- what every step keeps ----

  predicate HasSentNothing(p: Phase) {
    p in {Started, IndexRead, Publishing}
  }

  predicate HasResults(p: Phase) {
    p in {Verified, Indexing, IndexSent}
  }

  /** The commit of the results was sent by a call that began before it could land. */
  predicate ResultsFit(c: Cutover, r: Repositories, x: Applier) {
    && (HasSentNothing(x.phase) ==> x.results == NotSent)
    && (x.phase == ResultsSent ==> x.results != NotSent)
    && (x.phase in {Publishing, ResultsSent} || x.results != NotSent ==> x.beganResults == c.plan.expectedResultHead + 1)
    && (x.results in {Landed, Refused} ==> ResultsDone(c.plan, c.migrate, r))
  }

  /** The commit of the index names the revision at which the results are. */
  predicate IndexFits(c: Cutover, r: Repositories, x: Applier) {
    && (HasSentNothing(x.phase) || x.phase in {ResultsSent, Verified, Indexing} ==> x.index == NotSent)
    && (x.phase == IndexSent ==> x.index != NotSent)
    && (x.phase in {IndexRead, Publishing, ResultsSent} || HasResults(x.phase) || x.index != NotSent ==>
          x.beganIndex == c.plan.expectedIndexHead + 1)
    && (HasResults(x.phase) || x.index != NotSent ==>
          x.revision == c.plan.expectedResultHead + 1 && ResultsDone(c.plan, c.migrate, r))
    && (x.index in {Landed, Refused} ==> IndexDone(c.plan, r))
  }

  /** Success means that the cutover is finished, and any other end that it got further
      since the call began. */
  predicate EndFits(c: Cutover, r: Repositories, x: Applier) {
    && c.plan.expectedResultHead < x.beganResults <= |r.results| && c.plan.expectedIndexHead < x.beganIndex <= |r.index|
    && (x.phase.Ended? && x.phase.answer.Completed? ==>
          && x.phase.answer == Completed(c.plan.expectedResultHead + 1, c.plan.expectedIndexHead + 1)
          && Finished(c.plan, c.migrate, r))
    && (x.phase.Ended? && !x.phase.answer.Completed? ==> x.beganResults < |r.results| || x.beganIndex < |r.index|)
  }

  predicate Fits(c: Cutover, r: Repositories, x: Applier) {
    ResultsFit(c, r, x) && IndexFits(c, r, x) && EndFits(c, r, x)
  }

  /** What the repositories may do: get no shorter, and no further than the plan. */
  predicate Grows(r: Repositories, u: Repositories) {
    r.results <= u.results && r.index <= u.index
  }

  lemma CompletionOfDone(c: Cutover, r: Repositories)
    requires Resumable(c.plan, c.migrate, r) && !IndexPending(c.plan, r) && c.plan.classifications != map[]
    ensures Completion(c, r) == Completed(c.plan.expectedResultHead + 1, c.plan.expectedIndexHead + 1)
  {
    var head, done := |r.index| - 1, c.plan.expectedResultHead + 1;
    assert IsCompleted(c.plan, r, head, done);
    forall revision: nat | IsCompleted(c.plan, r, head, revision) ensures revision == done {
      OneRevision(r.index[head], c.plan, revision);
      OneRevision(r.index[head], c.plan, done);
      assert revision in {done};
    }
  }

  lemma ResultsReadFits(c: Cutover, r: Repositories, x: Applier)
    requires Resumable(c.plan, c.migrate, r) && Fits(c, r, x) && x.phase == IndexRead
    ensures Fits(c, r, ResultsRead(c, r, x)) && ResultsRead(c, r, x).phase in {Publishing, Verified}
  {
  }

  lemma ReadIndexFits(c: Cutover, r: Repositories, x: Applier)
    requires Resumable(c.plan, c.migrate, r) && Fits(c, r, x) && x.phase == Started && c.plan.classifications != map[]
    ensures Fits(c, r, if IndexPending(c.plan, r) then x.(phase := IndexRead) else End(x, Completion(c, r)))
  {
    if !IndexPending(c.plan, r) { CompletionOfDone(c, r); }
  }

  lemma MovesFits(c: Cutover, r: Repositories, x: Applier, a: Act)
    requires Resumable(c.plan, c.migrate, r) && Fits(c, r, x) && c.plan.classifications != map[]
    requires !a.Begin? && !a.LandResults? && !a.LandIndex?
    ensures Fits(c, r, Moves(c, r, x, a))
  {
    if a.ReadIndex? {
      if x.phase == Started { ReadIndexFits(c, r, x); }
    } else if a.ReadResults? {
      if x.phase == IndexRead { ResultsReadFits(c, r, x); }
    } else {
      LaterMovesFit(c, r, x, a);
    }
  }

  lemma LaterMovesFit(c: Cutover, r: Repositories, x: Applier, a: Act)
    requires Resumable(c.plan, c.migrate, r) && Fits(c, r, x)
    requires !a.Begin? && !a.LandResults? && !a.LandIndex? && !a.ReadIndex? && !a.ReadResults?
    ensures Fits(c, r, Moves(c, r, x, a))
  {
  }

  lemma ArrivesFits(c: Cutover, r: Repositories, x: Applier, a: Act)
    requires Resumable(c.plan, c.migrate, r) && Fits(c, r, x) && (a.LandResults? || a.LandIndex?)
    ensures var after := Arrives(c, r, x, a);
            Resumable(c.plan, c.migrate, after.0) && Grows(r, after.0) && Fits(c, after.0, after.1)
  {
  }

  lemma StepFits(c: Cutover, r: Repositories, x: Applier, a: Act)
    requires Resumable(c.plan, c.migrate, r) && Fits(c, r, x) && !a.Begin? && c.plan.classifications != map[]
    ensures var after := Step(c, r, x, a);
            Resumable(c.plan, c.migrate, after.0) && Grows(r, after.0) && Fits(c, after.0, after.1)
  {
    if a.LandResults? || a.LandIndex? { ArrivesFits(c, r, x, a); } else { MovesFits(c, r, x, a); }
  }

  lemma FitsGrows(c: Cutover, r: Repositories, u: Repositories, x: Applier)
    requires Resumable(c.plan, c.migrate, r) && Resumable(c.plan, c.migrate, u) && Grows(r, u) && Fits(c, r, x)
    ensures Fits(c, u, x)
  {
  }

  /** A step lengthens a history just when it lands a commit there. */
  lemma StepLands(c: Cutover, r: Repositories, x: Applier, a: Act)
    requires DrawnUp(c.plan, r) && ResultsFit(c, r, x) && IndexFits(c, r, x) && !a.Begin?
    ensures var after := Step(c, r, x, a);
            && (x.results == Landed ==> after.1.results == Landed)
            && (x.index == Landed ==> after.1.index == Landed)
            && |after.0.results| == |r.results| + (if after.1.results == Landed && x.results != Landed then 1 else 0)
            && |after.0.index| == |r.index| + (if after.1.index == Landed && x.index != Landed then 1 else 0)
  {
  }

  // ---- every run ----

  ghost predicate AllFit(c: Cutover, s: World) {
    Resumable(c.plan, c.migrate, s.repositories) && forall i | i in s.appliers :: Fits(c, s.repositories, s.appliers[i])
  }

  /** The appliers whose commits landed. */
  function ResultsLanded(s: World): set<nat> {
    Those(s.appliers, (x: Applier) => x.results == Landed)
  }

  function IndexLanded(s: World): set<nat> {
    Those(s.appliers, (x: Applier) => x.index == Landed)
  }

  function Those(appliers: map<nat, Applier>, p: Applier -> bool): set<nat> {
    set i | i in appliers && p(appliers[i])
  }

  /** Every version since `from` is the commit of one applier, and each applier's of one. */
  predicate Counts(from: Repositories, s: World) {
    && |s.repositories.results| == |from.results| + |ResultsLanded(s)|
    && |s.repositories.index| == |from.index| + |IndexLanded(s)|
  }

  /** The cutover as it was before the first of these calls. */
  ghost predicate Initial(c: Cutover, s: World) {
    s.appliers == map[] && Resumable(c.plan, c.migrate, s.repositories) && c.plan.classifications != map[]
  }

  lemma NextFits(c: Cutover, s: World, a: Act)
    requires AllFit(c, s) && c.plan.classifications != map[]
    ensures AllFit(c, Next(c, s, a)) && Grows(s.repositories, Next(c, s, a).repositories)
  {
    if a.id in s.appliers && !a.Begin? {
      StepFits(c, s.repositories, s.appliers[a.id], a);
      var u := Step(c, s.repositories, s.appliers[a.id], a).0;
      forall i | i in s.appliers ensures Fits(c, u, s.appliers[i]) { FitsGrows(c, s.repositories, u, s.appliers[i]); }
    }
  }

  lemma NoneMore(appliers: map<nat, Applier>, p: Applier -> bool, id: nat, x: Applier)
    requires id !in appliers && !p(x)
    ensures Those(appliers[id := x], p) == Those(appliers, p)
  {
  }

  lemma OneMore(appliers: map<nat, Applier>, p: Applier -> bool, id: nat, y: Applier)
    requires id in appliers && (p(appliers[id]) ==> p(y))
    ensures |Those(appliers[id := y], p)| == |Those(appliers, p)| + if p(y) && !p(appliers[id]) then 1 else 0
  {
    var before, after := Those(appliers, p), Those(appliers[id := y], p);
    if p(y) && !p(appliers[id]) {
      assert id !in before && after == before + {id};
    } else {
      assert after == before;
    }
  }

  lemma NextCounts(c: Cutover, from: Repositories, s: World, a: Act)
    requires AllFit(c, s) && Counts(from, s)
    ensures Counts(from, Next(c, s, a))
  {
    if a.id !in s.appliers {
      NoneMore(s.appliers, (x: Applier) => x.results == Landed, a.id, Fresh(s.repositories));
      NoneMore(s.appliers, (x: Applier) => x.index == Landed, a.id, Fresh(s.repositories));
    } else if !a.Begin? {
      StepLands(c, s.repositories, s.appliers[a.id], a);
      var after := Step(c, s.repositories, s.appliers[a.id], a);
      OneMore(s.appliers, (x: Applier) => x.results == Landed, a.id, after.1);
      OneMore(s.appliers, (x: Applier) => x.index == Landed, a.id, after.1);
    }
  }

  lemma {:induction false} RunKeeps(c: Cutover, s: World, acts: seq<Act>)
    requires Initial(c, s)
    ensures AllFit(c, Run(c, s, acts)) && Counts(s.repositories, Run(c, s, acts))
    ensures Grows(s.repositories, Run(c, s, acts).repositories)
  {
    if acts != [] {
      RunKeeps(c, s, acts[..|acts| - 1]);
      NextFits(c, Run(c, s, acts[..|acts| - 1]), acts[|acts| - 1]);
      NextCounts(c, s.repositories, Run(c, s, acts[..|acts| - 1]), acts[|acts| - 1]);
    }
  }

  /** However the appliers interleave and wherever they stop, the cutover stays resumable:
      nothing, the results, or the results and the index are committed, each by one applier
      and once. */
  lemma AppliersStayResumable(c: Cutover, s: World, acts: seq<Act>)
    requires Initial(c, s)
    ensures var t := Run(c, s, acts);
            && Resumable(c.plan, c.migrate, t.repositories)
            && Counts(s.repositories, t) && |ResultsLanded(t)| <= 1 && |IndexLanded(t)| <= 1
            && s.repositories.results <= t.repositories.results && s.repositories.index <= t.repositories.index
  {
    RunKeeps(c, s, acts);
  }

  /** All who report success report the same two revisions, of a finished cutover; and who
      fails, though it did not stop, was overtaken by a commit since it began. */
  lemma AppliersAgree(c: Cutover, s: World, acts: seq<Act>, id: nat)
    requires Initial(c, s) && id in Run(c, s, acts).appliers && Run(c, s, acts).appliers[id].phase.Ended?
    ensures var t := Run(c, s, acts);
            var x := t.appliers[id];
            if x.phase.answer.Completed? then
              && x.phase.answer == Completed(c.plan.expectedResultHead + 1, c.plan.expectedIndexHead + 1)
              && Finished(c.plan, c.migrate, t.repositories)
            else x.beganResults < |t.repositories.results| || x.beganIndex < |t.repositories.index|
  {
    RunKeeps(c, s, acts);
  }

  /** Nothing that is still on its way changes a finished cutover. */
  lemma {:induction false} FinishedStays(c: Cutover, s: World, acts: seq<Act>)
    requires Finished(c.plan, c.migrate, s.repositories)
    ensures Run(c, s, acts).repositories == s.repositories
  {
    if acts != [] { FinishedStays(c, s, acts[..|acts| - 1]); }
  }

  // ---- a lone call ----

  function Opening(id: nat): seq<Act> { [Begin(id), ReadIndex(id)] }

  function Middle(id: nat): seq<Act> { [ReadResults(id), SendResults(id), LandResults(id), AnswerResults(id)] }

  function Closing(id: nat): seq<Act> { [RecheckIndex(id), SendIndex(id), LandIndex(id), AnswerIndex(id)] }

  /** All that a call asks for, each request answered. */
  function LoneCall(id: nat): seq<Act> {
    Opening(id) + Middle(id) + Closing(id)
  }

  lemma {:induction false} RunInTwo(c: Cutover, s: World, a: seq<Act>, b: seq<Act>)
    requires DrawnUp(c.plan, s.repositories)
    ensures Run(c, s, a + b) == Run(c, Run(c, s, a), b)
  {
    if b == [] {
      assert a + b == a;
    } else {
      assert (a + b)[..|a + b| - 1] == a + b[..|b| - 1];
      RunInTwo(c, s, a, b[..|b| - 1]);
    }
  }

  lemma RunOfTwo(c: Cutover, s: World, a1: Act, a2: Act)
    requires DrawnUp(c.plan, s.repositories)
    ensures Run(c, s, [a1, a2]) == Next(c, Next(c, s, a1), a2)
  {
    assert [a1, a2][..1] == [a1];
    assert Run(c, s, [a1]) == Next(c, s, a1);
  }

  lemma RunOfFour(c: Cutover, s: World, a1: Act, a2: Act, a3: Act, a4: Act)
    requires DrawnUp(c.plan, s.repositories)
    ensures Run(c, s, [a1, a2, a3, a4]) == Next(c, Next(c, Next(c, Next(c, s, a1), a2), a3), a4)
  {
    RunOfTwo(c, s, a1, a2);
    RunInTwo(c, s, [a1, a2], [a3, a4]);
    RunOfTwo(c, Run(c, s, [a1, a2]), a3, a4);
    assert [a1, a2] + [a3, a4] == [a1, a2, a3, a4];
  }

  predicate Succeeded(s: World, id: nat) {
    id in s.appliers && s.appliers[id].phase.Ended? && s.appliers[id].phase.answer.Completed?
  }

  /** A call has read the index and goes on, with nothing of its own on the way. */
  predicate GoesOn(c: Cutover, s: World, id: nat, phase: Phase) {
    id in s.appliers && s.appliers[id].phase == phase && IndexPending(c.plan, s.repositories)
  }

  lemma {:induction false} RunFits(c: Cutover, s: World, acts: seq<Act>)
    requires AllFit(c, s) && c.plan.classifications != map[]
    ensures AllFit(c, Run(c, s, acts))
  {
    if acts != [] {
      RunFits(c, s, acts[..|acts| - 1]);
      NextFits(c, Run(c, s, acts[..|acts| - 1]), acts[|acts| - 1]);
    }
  }

  lemma {:induction false} SuccessStays(c: Cutover, s: World, acts: seq<Act>, id: nat)
    requires DrawnUp(c.plan, s.repositories) && Succeeded(s, id)
    ensures Succeeded(Run(c, s, acts), id)
  {
    if acts != [] { SuccessStays(c, s, acts[..|acts| - 1], id); }
  }

  lemma OpeningGoesOn(c: Cutover, s: World, id: nat)
    requires AllFit(c, s) && c.plan.classifications != map[] && id !in s.appliers
    ensures var t := Run(c, s, Opening(id)); Succeeded(t, id) || GoesOn(c, t, id, IndexRead)
  {
    RunOfTwo(c, s, Begin(id), ReadIndex(id));
    if !IndexPending(c.plan, s.repositories) { CompletionOfDone(c, s.repositories); }
  }

  lemma MiddleGoesOn(c: Cutover, s: World, id: nat)
    requires AllFit(c, s) && GoesOn(c, s, id, IndexRead)
    ensures GoesOn(c, Run(c, s, Middle(id)), id, Verified)
  {
    RunOfFour(c, s, ReadResults(id), SendResults(id), LandResults(id), AnswerResults(id));
    ResultsReadFits(c, s.repositories, s.appliers[id]);
    var x := ResultsRead(c, s.repositories, s.appliers[id]);
    var s1 := Next(c, s, ReadResults(id));
    assert s1.appliers[id] == x && s1.repositories == s.repositories;
    if x.phase == Verified { VerifiedWaits(c, s1, id); } else { PublishingLands(c, s1, id); }
  }

  lemma VerifiedWaits(c: Cutover, s: World, id: nat)
    requires DrawnUp(c.plan, s.repositories) && GoesOn(c, s, id, Verified) && s.appliers[id].results != Flying
    ensures GoesOn(c, Next(c, Next(c, Next(c, s, SendResults(id)), LandResults(id)), AnswerResults(id)), id, Verified)
  {
    assert Next(c, s, SendResults(id)).appliers[id] == s.appliers[id];
  }

  lemma PublishingLands(c: Cutover, s: World, id: nat)
    requires DrawnUp(c.plan, s.repositories) && FilesOf(c.plan, c.migrate, s.repositories).Some?
    requires GoesOn(c, s, id, Publishing) && ResultsPending(c.plan, s.repositories)
    ensures GoesOn(c, Next(c, Next(c, Next(c, s, SendResults(id)), LandResults(id)), AnswerResults(id)), id, Verified)
  {
  }

  lemma ClosingSucceeds(c: Cutover, s: World, id: nat)
    requires DrawnUp(c.plan, s.repositories) && GoesOn(c, s, id, Verified)
    ensures Succeeded(Run(c, s, Closing(id)), id)
  {
    RunOfFour(c, s, RecheckIndex(id), SendIndex(id), LandIndex(id), AnswerIndex(id));
  }

  /** Applying a plan with nobody else at work finishes it, wherever other calls left it. */
  lemma LoneCallFinishes(c: Cutover, s: World, acts: seq<Act>, id: nat)
    requires Initial(c, s) && id !in Run(c, s, acts).appliers
    ensures var t := Run(c, s, acts + LoneCall(id));
            && Finished(c.plan, c.migrate, t.repositories) && id in t.appliers
            && t.appliers[id].phase == Ended(Completed(c.plan.expectedResultHead + 1, c.plan.expectedIndexHead + 1))
  {
    RunKeeps(c, s, acts);
    RunInTwo(c, s, acts, LoneCall(id));
    var t := Run(c, s, acts);
    RunFits(c, t, LoneCall(id));
    LoneCallSucceeds(c, t, id);
  }

  lemma LoneCallSucceeds(c: Cutover, s: World, id: nat)
    requires AllFit(c, s) && c.plan.classifications != map[] && id !in s.appliers
    ensures Succeeded(Run(c, s, LoneCall(id)), id)
  {
    RunInTwo(c, s, Opening(id) + Middle(id), Closing(id));
    RunInTwo(c, s, Opening(id), Middle(id));
    var first := Run(c, s, Opening(id));
    var middle := Run(c, first, Middle(id));
    OpeningGoesOn(c, s, id);
    RunFits(c, s, Opening(id));
    if Succeeded(first, id) {
      SuccessStays(c, first, Middle(id), id);
      SuccessStays(c, middle, Closing(id), id);
    } else {
      MiddleGoesOn(c, first, id);
      ClosingSucceeds(c, middle, id);
    }
  }
}
