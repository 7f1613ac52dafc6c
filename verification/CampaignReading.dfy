/** What the projection of a campaign says of its history (control.py, `project_campaign`),
    read off the events without the fold: which histories are accepted, and the status and the
    actions of those that are. */
module CampaignReading {
  import opened Common
  import opened TextOrder
  import opened EventFold

  // ---------- the status ----------

  /** The event calls for an operator, under this name. */
  predicate Calls(e: Event, r: string) {
    e.campaignSubject && e.kind.ManualRequired? && r == if e.kind.parentId == "" then e.eventId else e.kind.parentId
  }

  predicate Answers(e: Event, r: string) {
    e.campaignSubject && e.kind.ManualResolved? && r in e.kind.waveIds
  }

  /** Somebody was called for under this name, and nobody answered since. */
  ghost predicate Outstanding(h: seq<Event>, r: string) {
    exists i :: 0 <= i < |h| && Calls(h[i], r) && forall j | i < j < |h| :: !Answers(h[j], r)
  }

  predicate Drains(e: Event) {
    e.campaignSubject && e.kind.StartDraining?
  }

  predicate Cancels(e: Event) {
    e.campaignSubject && e.kind.CancelRequest?
  }

  /** What makes a queued campaign active: an action, a retry, or an intervention, once over. */
  predicate Starts(e: Event) {
    && e.campaignSubject
    && (e.kind.ActionReserved? || e.kind.ActionOutcome? || e.kind.ShardRetryRequest? || e.kind.ManualRequired?)
  }

  predicate Ends(e: Event) {
    e.campaignSubject && e.kind.Terminal?
  }

  ghost predicate Pending(h: seq<Event>) {
    exists r :: Outstanding(h, r)
  }

  ghost predicate Drained(h: seq<Event>) {
    exists e :: e in h && Drains(e)
  }

  ghost predicate CancelAsked(h: seq<Event>) {
    exists e :: e in h && Cancels(e)
  }

  ghost predicate Started(h: seq<Event>) {
    exists e :: e in h && Starts(e)
  }

  /** The status of a campaign that has not ended. */
  function Live(pending: bool, drained: bool, cancelled: bool, started: bool): Status {
    if pending then ManualIntervention
    else if drained then Draining
    else if cancelled then CancelRequested
    else if started then Active
    else Queued
  }

  /** The status of a campaign with this history. */
  ghost function StatusOf(h: seq<Event>): Status
    requires h != []
  {
    if Ends(h[|h| - 1]) then h[|h| - 1].kind.status
    else Live(Pending(h), Drained(h), CancelAsked(h), Started(h))
  }

  /** Where a paused campaign goes on. */
  predicate Remembers(previous: Option<Status>, drained: bool, cancelled: bool) {
    if drained then previous == Some(Draining)
    else if cancelled then previous == Some(CancelRequested)
    else previous in {Some(Queued), Some(Active)}
  }

  // ---------- the actions ----------

  predicate Reserves(e: Event, id: string) {
    e.campaignSubject && e.kind.ActionReserved? && e.kind.actionId == id
  }

  predicate Reports(e: Event, id: string) {
    e.campaignSubject && e.kind.ActionOutcome? && e.kind.actionId == id
  }

  ghost predicate IsReserved(h: seq<Event>, id: string) {
    exists e :: e in h && Reserves(e, id)
  }

  /** The last report of the action is at this position. */
  predicate LastReport(h: seq<Event>, id: string, k: nat) {
    k < |h| && Reports(h[k], id) && forall j | k < j < |h| :: !Reports(h[j], id)
  }

  /** What the history says of an action: its request is that of its reservation; without a
      report it is reserved; otherwise status and message are those of the last report, and so
      is the remote identity, but for an ambiguous one, which keeps any reported before. */
  ghost predicate Tells(h: seq<Event>, id: string, a: Action) {
    && (exists e :: e in h && Reserves(e, id) && e.kind.request == a.request)
    && ((forall e | e in h :: !Reports(e, id)) ==> a.status == Reserved && a.remoteId == None && a.message == None)
    && (forall k: nat {:trigger LastReport(h, id, k)} | LastReport(h, id, k) ::
          && a.status == h[k].kind.outcome && a.message == h[k].kind.message
          && (a.status != Ambiguous ==> a.remoteId == h[k].kind.remoteId)
          && (a.status == Ambiguous ==>
                forall x :: a.remoteId == Some(x) <==> SeenRemote(h, id, x)))
  }

  // ---------- which histories are accepted ----------

  /** An event of the campaign itself may follow this history. */
  ghost predicate MayFollow(lock: Lock, h: seq<Event>, e: Event) {
    && e.subjectId == lock.campaignId
    && !e.kind.Submitted? && !e.kind.SpendRecorded?
    && (e.kind.ManualResolved? ==> Pending(h))
    && (e.kind.ActionReserved? ==> !IsReserved(h, e.kind.actionId))
    && (e.kind.ActionOutcome? ==>
          && IsReserved(h, e.kind.actionId)
          && forall o | o in h && Reports(o, e.kind.actionId) ::
               && o.kind.outcome == Ambiguous
               && (e.kind.outcome == Ambiguous && o.kind.remoteId.Some? && e.kind.remoteId.Some? ==>
                     o.kind.remoteId == e.kind.remoteId))
  }

  /** The campaign's submission comes first, nothing after its end, and each of its own events
      may follow those before it. */
  ghost predicate Legal(lock: Lock, h: seq<Event>) {
    && h != [] && h[0].campaignSubject && h[0].subjectId == lock.campaignId && h[0].kind == Submitted(lock.planDigest)
    && (forall i | 0 <= i < |h| - 1 :: !Ends(h[i]))
    && (forall i | 0 < i < |h| && h[i].campaignSubject :: MayFollow(lock, h[..i], h[i]))
  }

  // ---------- the fold agrees ----------

  /** The part of the state that says how the campaign is. */
  ghost predicate StatusAgrees(s: State, h: seq<Event>)
    requires h != []
  {
    && s.status == StatusOf(h)
    && (forall r :: r in s.requirements <==> Outstanding(h, r))
    && (s.status == ManualIntervention ==> Remembers(s.previous, Drained(h), CancelAsked(h)))
  }

  ghost predicate IsReported(h: seq<Event>, id: string) {
    exists e :: e in h && Reports(e, id)
  }

  ghost predicate AllAmbiguous(h: seq<Event>, id: string) {
    forall e | e in h && Reports(e, id) :: e.kind.outcome == Ambiguous
  }

  ghost predicate ActionAgrees(a: Option<Action>, h: seq<Event>, id: string) {
    && (a.Some? <==> IsReserved(h, id)) && (a.None? ==> !IsReported(h, id))
    && (a.Some? ==>
          && Tells(h, id, a.value) && (a.value.status == Reserved <==> !IsReported(h, id))
          && (a.value.status in {Reserved, Ambiguous} <==> AllAmbiguous(h, id)))
  }

  ghost predicate ActionsAgree(s: State, h: seq<Event>) {
    forall id :: ActionAgrees(Lookup(s.actions, id), h, id)
  }

  lemma OutstandingNext(h: seq<Event>, e: Event, r: string)
    ensures Outstanding(h + [e], r) <==> Calls(e, r) || (Outstanding(h, r) && !Answers(e, r))
  {
    var next := h + [e];
    if Calls(e, r) { assert Calls(next[|h|], r); }
    if Outstanding(h, r) && !Answers(e, r) {
      var i :| 0 <= i < |h| && Calls(h[i], r) && forall j | i < j < |h| :: !Answers(h[j], r);
      assert Calls(next[i], r) && forall j | i < j < |next| :: !Answers(next[j], r);
    }
    if Outstanding(next, r) && !Calls(e, r) {
      var i :| 0 <= i < |next| && Calls(next[i], r) && forall j | i < j < |next| :: !Answers(next[j], r);
      assert !Answers(next[|h|], r);
      assert Calls(h[i], r) && forall j | i < j < |h| :: !Answers(h[j], r) by {
        forall j | i < j < |h| ensures !Answers(h[j], r) { assert !Answers(next[j], r); }
      }
    }
  }

  lemma OneMoreEvent(h: seq<Event>, e: Event)
    ensures forall x :: x in h + [e] <==> x in h || x == e
  {
  }

  lemma HappenedNext(h: seq<Event>, e: Event)
    ensures Drained(h + [e]) <==> Drained(h) || Drains(e)
    ensures CancelAsked(h + [e]) <==> CancelAsked(h) || Cancels(e)
    ensures Started(h + [e]) <==> Started(h) || Starts(e)
  {
    OneMoreEvent(h, e);
  }

  lemma PendingNext(requirements: set<string>, h: seq<Event>, e: Event)
    requires forall r :: r in requirements <==> Outstanding(h, r)
    ensures Pending(h) <==> requirements != {}
    ensures var next := if e.campaignSubject then UpdateRequirements(e, requirements) else requirements;
            (forall r :: r in next <==> Outstanding(h + [e], r)) && (Pending(h + [e]) <==> next != {})
  {
    var next := if e.campaignSubject then UpdateRequirements(e, requirements) else requirements;
    forall r ensures r in next <==> Outstanding(h + [e], r) {
      OutstandingNext(h, e, r);
    }
    if requirements != {} { var r :| r in requirements; assert Outstanding(h, r); }
    if next != {} { var r :| r in next; assert Outstanding(h + [e], r); }
  }

  /** Whoever is called for makes the campaign active once the intervention is over. */
  lemma PendingHasStarted(h: seq<Event>)
    ensures Pending(h) ==> Started(h)
  {
    if Pending(h) {
      var r :| Outstanding(h, r);
      var i :| 0 <= i < |h| && Calls(h[i], r);
      assert Starts(h[i]);
    }
  }

  lemma LiveNext(lock: Lock, s: State, e: Event, drained: bool, cancelled: bool, started: bool)
    requires Coherent(s) && Step(lock, s, e).Ok? && WellFormed(e) && !Ends(e)
    requires s.status == Live(s.requirements != {}, drained, cancelled, started)
    requires s.status == ManualIntervention ==> started && Remembers(s.previous, drained, cancelled)
    ensures var t := Step(lock, s, e).value;
            && t.status == Live(t.requirements != {}, drained || Drains(e), cancelled || Cancels(e), started || Starts(e))
            && (t.status == ManualIntervention ==> Remembers(t.previous, drained || Drains(e), cancelled || Cancels(e)))
  {
  }

  lemma StepRequirements(lock: Lock, s: State, e: Event)
    requires Step(lock, s, e).Ok?
    ensures Step(lock, s, e).value.requirements == if e.campaignSubject then UpdateRequirements(e, s.requirements) else s.requirements
    ensures Ends(e) ==> Step(lock, s, e).value.status == e.kind.status
  {
  }

  lemma StatusNext(lock: Lock, s: State, h: seq<Event>, e: Event)
    requires h != [] && StatusAgrees(s, h) && Coherent(s) && Step(lock, s, e).Ok? && WellFormed(e) && !Ends(h[|h| - 1])
    ensures StatusAgrees(Step(lock, s, e).value, h + [e])
  {
    PendingNext(s.requirements, h, e);
    HappenedNext(h, e);
    PendingHasStarted(h);
    StepRequirements(lock, s, e);
    assert (h + [e])[|h|] == e;
    if !Ends(e) { LiveNext(lock, s, e, Drained(h), CancelAsked(h), Started(h)); }
  }

  /** Whether a step is accepted, as far as the status goes. */
  lemma StatusAllows(lock: Lock, s: State, h: seq<Event>, e: Event)
    requires h != [] && StatusAgrees(s, h) && Coherent(s) && WellFormed(e)
    ensures e.campaignSubject && e.kind.ManualResolved? && !IsTerminal(s.status) && e.subjectId == lock.campaignId ==>
              (Step(lock, s, e).Ok? <==> Pending(h))
  {
    PendingNext(s.requirements, h, e);
  }

  // ---------- the actions of the fold ----------

  lemma ActionSeenNext(h: seq<Event>, e: Event, id: string)
    ensures IsReserved(h + [e], id) <==> IsReserved(h, id) || Reserves(e, id)
    ensures IsReported(h + [e], id) <==> IsReported(h, id) || Reports(e, id)
    ensures AllAmbiguous(h + [e], id) <==> AllAmbiguous(h, id) && (Reports(e, id) ==> e.kind.outcome == Ambiguous)
  {
    OneMoreEvent(h, e);
  }

  lemma LastReportNext(h: seq<Event>, e: Event, id: string, k: nat)
    ensures LastReport(h + [e], id, k) <==> if Reports(e, id) then k == |h| else LastReport(h, id, k)
  {
    var next := h + [e];
    assert next[|h|] == e;
    if k < |h| && Reports(e, id) { assert Reports(next[|h|], id); }
    if k < |h| && !Reports(e, id) {
      assert next[k] == h[k];
      forall j | k < j < |h| ensures next[j] == h[j] {}
    }
  }

  /** Another event leaves what is told of an action. */
  lemma OtherTellsNothing(h: seq<Event>, e: Event, id: string, a: Action)
    requires Tells(h, id, a) && !Reserves(e, id) && !Reports(e, id)
    ensures Tells(h + [e], id, a)
  {
    OneMoreEvent(h, e);
    forall k: nat | LastReport(h + [e], id, k) ensures LastReport(h, id, k) && (h + [e])[k] == h[k] {
      LastReportNext(h, e, id, k);
    }
  }

  lemma ReservationTells(h: seq<Event>, e: Event, id: string)
    requires Reserves(e, id) && !IsReported(h, id)
    ensures Tells(h + [e], id, Action(e.kind.request, Reserved, None, None))
  {
    OneMoreEvent(h, e);
  }

  lemma {:induction false} HasLastReport(h: seq<Event>, id: string) returns (k: nat)
    requires IsReported(h, id)
    ensures LastReport(h, id, k)
  {
    var front, last := h[..|h| - 1], h[|h| - 1];
    assert h == front + [last];
    OneMoreEvent(front, last);
    if Reports(last, id) {
      k := |front|;
    } else {
      k := HasLastReport(front, id);
      LastReportNext(front, last, id, k);
    }
  }

  /** The remote identity that ambiguous reports agree on. */
  ghost predicate SeenRemote(h: seq<Event>, id: string, x: string) {
    exists e :: e in h && Reports(e, id) && e.kind.remoteId == Some(x)
  }

  lemma AmbiguousRemote(h: seq<Event>, id: string, a: Action, x: string)
    requires ActionAgrees(Some(a), h, id) && a.status in {Reserved, Ambiguous}
    ensures a.remoteId == Some(x) <==> SeenRemote(h, id, x)
  {
    if IsReported(h, id) { var k := HasLastReport(h, id); }
  }

  lemma SeenNext(h: seq<Event>, e: Event, id: string, x: string)
    ensures SeenRemote(h + [e], id, x) <==> SeenRemote(h, id, x) || (Reports(e, id) && e.kind.remoteId == Some(x))
  {
    OneMoreEvent(h, e);
  }

  ghost predicate Consistent(h: seq<Event>, e: Event, id: string)
    requires Reports(e, id)
  {
    forall o | o in h && Reports(o, id) ::
      e.kind.outcome == Ambiguous && o.kind.remoteId.Some? && e.kind.remoteId.Some? ==> o.kind.remoteId == e.kind.remoteId
  }

  /** A report is accepted just when all before it were ambiguous and named no other remote. */
  lemma ReportAllowed(h: seq<Event>, e: Event, id: string, a: Action)
    requires Reports(e, id) && ActionAgrees(Some(a), h, id)
    ensures ActionStep(e.kind, Some(a)).Ok? <==> AllAmbiguous(h, id) && Consistent(h, e, id)
  {
    if a.status in {Reserved, Ambiguous} {
      forall o | o in h && Reports(o, id) && o.kind.remoteId.Some? ensures a.remoteId == o.kind.remoteId {
        AmbiguousRemote(h, id, a, o.kind.remoteId.value);
        assert SeenRemote(h, id, o.kind.remoteId.value);
      }
      if a.remoteId.Some? {
        AmbiguousRemote(h, id, a, a.remoteId.value);
      }
    }
  }

  lemma ReportTells(h: seq<Event>, e: Event, id: string, a: Action)
    requires Reports(e, id) && ActionAgrees(Some(a), h, id) && ActionStep(e.kind, Some(a)).Ok?
    ensures Tells(h + [e], id, ActionStep(e.kind, Some(a)).value)
  {
    var b, next := ActionStep(e.kind, Some(a)).value, h + [e];
    OneMoreEvent(h, e);
    assert next[|h|] == e;
    forall k: nat | LastReport(next, id, k) ensures k == |h| { LastReportNext(h, e, id, k); }
    if b.status == Ambiguous {
      forall x ensures b.remoteId == Some(x) <==> SeenRemote(next, id, x) {
        ReportedRemote(h, e, id, a, x);
      }
    }
  }

  lemma ReportedRemote(h: seq<Event>, e: Event, id: string, a: Action, x: string)
    requires Reports(e, id) && ActionAgrees(Some(a), h, id) && ActionStep(e.kind, Some(a)).Ok? && e.kind.outcome == Ambiguous
    ensures ActionStep(e.kind, Some(a)).value.remoteId == Some(x) <==> SeenRemote(h + [e], id, x)
  {
    SeenNext(h, e, id, x);
    AmbiguousRemote(h, id, a, x);
    ReportAllowed(h, e, id, a);
  }

  lemma ActionNext(h: seq<Event>, e: Event, id: string, before: Option<Action>, after: Option<Action>)
    requires ActionAgrees(before, h, id) && WellFormed(e)
    requires if Reserves(e, id) || Reports(e, id) then ActionStep(e.kind, before).Ok? && after == Some(ActionStep(e.kind, before).value)
             else after == before
    ensures ActionAgrees(after, h + [e], id)
  {
    ActionSeenNext(h, e, id);
    if Reserves(e, id) {
      ReservationTells(h, e, id);
    } else if Reports(e, id) {
      ReportTells(h, e, id, before.value);
      ReportAllowed(h, e, id, before.value);
    } else if before.Some? {
      OtherTellsNothing(h, e, id, before.value);
    }
  }

  lemma StepAction(lock: Lock, s: State, e: Event, id: string)
    requires Step(lock, s, e).Ok?
    ensures var before, after := Lookup(s.actions, id), Lookup(Step(lock, s, e).value.actions, id);
            if Reserves(e, id) || Reports(e, id) then ActionStep(e.kind, before).Ok? && after == Some(ActionStep(e.kind, before).value)
            else after == before
  {
  }

  lemma ActionsNext(lock: Lock, s: State, h: seq<Event>, e: Event)
    requires ActionsAgree(s, h) && Step(lock, s, e).Ok? && WellFormed(e)
    ensures ActionsAgree(Step(lock, s, e).value, h + [e])
  {
    var t := Step(lock, s, e).value;
    forall id ensures ActionAgrees(Lookup(t.actions, id), h + [e], id) {
      StepAction(lock, s, e, id);
      ActionNext(h, e, id, Lookup(s.actions, id), Lookup(t.actions, id));
    }
  }

  /** A step is accepted just when the event may follow. */
  lemma StepAllowed(lock: Lock, s: State, h: seq<Event>, e: Event)
    requires h != [] && StatusAgrees(s, h) && ActionsAgree(s, h) && Coherent(s) && WellFormed(e) && !IsTerminal(s.status)
    ensures Step(lock, s, e).Ok? <==> (e.campaignSubject ==> MayFollow(lock, h, e))
  {
    StatusAllows(lock, s, h, e);
    if e.campaignSubject && (e.kind.ActionReserved? || e.kind.ActionOutcome?) {
      ActionAllows(lock, s, h, e);
    }
  }

  lemma ActionAllows(lock: Lock, s: State, h: seq<Event>, e: Event)
    requires h != [] && ActionsAgree(s, h) && WellFormed(e) && !IsTerminal(s.status)
    requires e.campaignSubject && (e.kind.ActionReserved? || e.kind.ActionOutcome?)
    ensures Step(lock, s, e).Ok? <==> MayFollow(lock, h, e)
  {
    var id := e.kind.actionId;
    assert ActionAgrees(Lookup(s.actions, id), h, id);
    if e.kind.ActionOutcome? && id in s.actions { ReportAllowed(h, e, id, s.actions[id]); }
  }

  lemma LegalNext(lock: Lock, h: seq<Event>, e: Event)
    requires h != []
    ensures Legal(lock, h + [e]) <==> Legal(lock, h) && !Ends(h[|h| - 1]) && (e.campaignSubject ==> MayFollow(lock, h, e))
  {
    var next := h + [e];
    forall i | 0 <= i <= |h| ensures next[..i] == h[..i] && (i < |h| ==> next[i] == h[i]) {}
    assert h[..|h|] == h && next[|h|] == e;
    if Legal(lock, next) {
      assert !Ends(next[|h| - 1]);
      assert e.campaignSubject ==> MayFollow(lock, next[..|h|], next[|h|]);
      forall i | 0 < i < |h| && h[i].campaignSubject ensures MayFollow(lock, h[..i], h[i]) {
        assert MayFollow(lock, next[..i], next[i]);
      }
    }
  }

  /** The histories that are accepted are the legal ones, and status and actions of those are
      what their events say. */
  lemma {:induction false} AcceptedExactly(lock: Lock, h: seq<Event>)
    requires AllWellFormed(h)
    ensures Run(lock, h).Ok? <==> Legal(lock, h)
    ensures Run(lock, h).Ok? ==> StatusAgrees(Run(lock, h).value, h) && ActionsAgree(Run(lock, h).value, h)
  {
    if |h| == 1 {
      OneEvent(lock, h);
    } else if |h| > 1 {
      var front, last := h[..|h| - 1], h[|h| - 1];
      assert h == front + [last];
      AcceptedExactly(lock, front);
      LegalNext(lock, front, last);
      if Run(lock, front).Ok? {
        var s := Run(lock, front).value;
        HistoryIsCoherent(lock, front);
        EndedIsTerminal(s, front);
        if !IsTerminal(s.status) {
          StepAllowed(lock, s, front, last);
          if Step(lock, s, last).Ok? {
            StatusNext(lock, s, front, last);
            ActionsNext(lock, s, front, last);
          }
        }
      }
    }
  }

  lemma EndedIsTerminal(s: State, h: seq<Event>)
    requires h != [] && s.status == StatusOf(h) && AllWellFormed(h)
    ensures IsTerminal(s.status) <==> Ends(h[|h| - 1])
  {
    assert h[|h| - 1] in h;
  }

  lemma OneEvent(lock: Lock, h: seq<Event>)
    requires |h| == 1
    ensures Run(lock, h).Ok? <==> Legal(lock, h)
    ensures Run(lock, h).Ok? ==> StatusAgrees(START, h) && ActionsAgree(START, h)
  {
  }

  // ---------- events in any order ----------

  /** No ID is that of two different records. */
  predicate OneRecordEach(events: seq<Event>) {
    forall a, b | a in events && b in events && a.eventId == b.eventId :: a == b
  }

  /** The same events by time, and by ID where times are equal, each of them once. */
  ghost predicate InOrder(h: seq<Event>, events: seq<Event>) {
    && (forall e :: e in h <==> e in events)
    && (forall i, j | 0 <= i < j < |h| ::
          && h[i].observedAt <= h[j].observedAt
          && (h[i].observedAt == h[j].observedAt ==> StringLess(h[i].eventId, h[j].eventId)))
  }

  /** What a projection says of a history. */
  ghost predicate Shows(p: Projection, lock: Lock, h: seq<Event>) {
    && h != [] && p.status == StatusOf(h) && p.eventCount == |h| && p.lastObservedAt == h[|h| - 1].observedAt
    && p.campaignId == lock.campaignId && p.planDigest == lock.planDigest
    && (forall id :: id in p.actions <==> IsReserved(h, id))
    && (forall id | id in p.actions :: Tells(h, id, p.actions[id]))
  }

  /** The events are projected if and only if there is one record for each ID and they make a
      legal history, and then as that history shows. */
  ghost predicate IsReading(lock: Lock, events: seq<Event>, r: Result<Projection, Error>) {
    && (r.Ok? <==> OneRecordEach(events) && exists h :: InOrder(h, events) && Legal(lock, h))
    && (r.Ok? ==> forall h | InOrder(h, events) :: Shows(r.value, lock, h))
  }

  lemma OrderIsSorting(h: seq<Event>, events: seq<Event>)
    ensures InOrder(h, events) <==> StrictlySorted(h) && forall e :: e in h <==> e in events
  {
  }

  lemma ConflictingExactly(events: seq<Event>)
    ensures Conflicting(events) <==> !OneRecordEach(events)
  {
    if !OneRecordEach(events) {
      var a, b :| a in events && b in events && a.eventId == b.eventId && a != b;
      ConflictWitness(events, a, b);
    }
  }

  lemma OneOrder(a: seq<Event>, b: seq<Event>, events: seq<Event>)
    requires InOrder(a, events) && InOrder(b, events)
    ensures a == b
  {
    OrderIsSorting(a, events);
    OrderIsSorting(b, events);
    SortingIsUnique(a, b);
  }

  /** A history in order decides. */
  lemma ReadingOfOrder(lock: Lock, events: seq<Event>, h: seq<Event>, r: Result<Projection, Error>)
    requires OneRecordEach(events) && InOrder(h, events)
    requires r.Ok? <==> Legal(lock, h)
    requires r.Ok? ==> Shows(r.value, lock, h)
    ensures IsReading(lock, events, r)
  {
    forall other | InOrder(other, events) ensures other == h { OneOrder(other, h, events); }
  }

  lemma ProjectedExactly(lock: Lock, events: seq<Event>)
    requires AllWellFormed(events)
    ensures IsReading(lock, events, Project(lock, events))
  {
    ConflictingExactly(events);
    if OneRecordEach(events) {
      var h := Sort(Unique(events).value);
      SortSorts(Unique(events).value);
      OrderIsSorting(h, events);
      ProjectionShows(lock, events, h);
      ReadingOfOrder(lock, events, h, Project(lock, events));
    }
  }

  lemma ProjectionShows(lock: Lock, events: seq<Event>, h: seq<Event>)
    requires Unique(events).Some? && h == Sort(Unique(events).value) && AllWellFormed(h)
    ensures var r := Project(lock, events);
            && (r.Ok? <==> Legal(lock, h))
            && (r.Ok? ==> Shows(r.value, lock, h))
  {
    AcceptedExactly(lock, h);
    if Run(lock, h).Ok? { RunShows(lock, h, Project(lock, events).value); }
  }

  lemma RunShows(lock: Lock, h: seq<Event>, p: Projection)
    requires Run(lock, h).Ok? && h != [] && AllWellFormed(h)
    requires p == Projection(lock.campaignId, lock.planDigest, Run(lock, h).value.status, |h|, h[|h| - 1].observedAt, Run(lock, h).value.actions)
    ensures Shows(p, lock, h)
  {
    AcceptedExactly(lock, h);
    forall id ensures (id in p.actions <==> IsReserved(h, id)) && (id in p.actions ==> Tells(h, id, p.actions[id])) {
      assert ActionAgrees(Lookup(p.actions, id), h, id);
    }
  }
}
