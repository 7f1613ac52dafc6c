/** The campaign event log (control.py, `HubCampaignStore`): event records, the
    cancellation marker and action reservations of one campaign, written by optimistic
    commits. */
module EventLog {
  import opened Common
  import opened OptimisticRepository
  import opened EventFold

  const MAX_EVENT_BATCH_OPERATIONS := 50

  /** `guarded` is not a record: it names the events committed by guarded batches. */
  datatype Log = Log(events: map<string, Event>, marker: Option<string>, reservations: map<string, string>, guarded: set<string>)

  const EMPTY := Log(map[], None, map[], {})

  /** Kinds that a reconciler may restate with a new clock (control.py:26-37). */
  predicate IsDurable(k: Kind) {
    || k.StartDraining? || k.ManualRequired? || k.ManualResolved? || k.TrialTerminal? || k.ExecutionStopped?
    || (k.Wave? && k.state in {WaveDraining, WaveCleaning, WaveClosed})
  }

  /** `_same_event_request` */
  predicate SameRequest(observed: Event, expected: Event) {
    || observed == expected
    || (expected.producer == Reconciler && IsDurable(expected.kind) && observed.(observedAt := expected.observedAt) == expected)
  }

  predicate Present(log: Log, e: Event) {
    e.eventId in log.events && SameRequest(log.events[e.eventId], e)
  }

  predicate AllPresent(log: Log, events: seq<Event>) {
    forall e | e in events :: Present(log, e)
  }

  predicate Conflicts(log: Log, e: Event) {
    e.eventId in log.events && !SameRequest(log.events[e.eventId], e)
  }

  /** Kinds whose time a reconciler may find changed. */
  predicate MayBeRestated(k: Kind) {
    match k
    case StartDraining => true
    case ManualRequired(_) => true
    case ManualResolved(_) => true
    case TrialTerminal => true
    case ExecutionStopped => true
    case Wave(state) => state != WaveCleanupFailed && state != WaveOther
    case _ => false
  }

  /** The record under the event's ID is the event, but for the time of an event that a
      reconciler restates. */
  predicate Stored(log: Log, e: Event) {
    && e.eventId in log.events
    && var o := log.events[e.eventId];
    && o.eventId == e.eventId && o.campaignSubject == e.campaignSubject && o.subjectId == e.subjectId
    && o.kind == e.kind && o.producer == e.producer && o.payload == e.payload
    && (e.producer == OtherProducer || !MayBeRestated(e.kind) ==> o.observedAt == e.observedAt)
  }

  /** A different record is under the event's ID. */
  predicate Differs(log: Log, e: Event) {
    e.eventId in log.events && !Stored(log, e)
  }

  lemma PresentIsStored(log: Log, e: Event)
    ensures Present(log, e) <==> Stored(log, e)
    ensures Conflicts(log, e) <==> Differs(log, e)
  {
  }

  lemma AllPresentAreStored()
    ensures forall log, e {:trigger Stored(log, e)} :: Present(log, e) <==> Stored(log, e)
    ensures forall log, e {:trigger Differs(log, e)} :: Conflicts(log, e) <==> Differs(log, e)
  {
    forall log, e ensures (Present(log, e) <==> Stored(log, e)) && (Conflicts(log, e) <==> Differs(log, e)) {
      PresentIsStored(log, e);
    }
  }

  /** What one commit may do: add events under their own IDs, never touch what is there,
      add the marker only together with the one cancellation event it names, and add
      guarded events only while there is no marker. */
  predicate LogStep(a: Log, b: Log) {
    && (forall id | id in a.events :: id in b.events && b.events[id] == a.events[id])
    && (forall id | id in a.reservations :: id in b.reservations && b.reservations[id] == a.reservations[id])
    && (forall id | id in b.events && id !in a.events ::
          b.events[id].eventId == id && (b.events[id].kind.CancelRequest? ==> a.marker.None? && b.marker == Some(id)))
    && (a.marker.Some? ==> b.marker == a.marker)
    && (a.marker.None? && b.marker.Some? ==>
          b.marker.value in b.events && b.marker.value !in a.events && b.events[b.marker.value].kind.CancelRequest?)
    && a.guarded <= b.guarded
    && (forall id | id in b.guarded && id !in a.guarded ::
          b.marker.None? && id in b.events && id !in a.events && b.events[id].kind.TrialTerminal?)
  }

  // ---------- every run ----------

  /** `step` is LogStep, looked into only where LogStep is mentioned. */
  ghost predicate Follows(step: (Log, Log) -> bool) {
    forall a, b {:trigger LogStep(a, b)} :: step(a, b) <==> LogStep(a, b)
  }

  /** A stored event or reservation is never overwritten or removed, and the marker never changes. */
  lemma {:induction false} LogIsWriteOnce(step: (Log, Log) -> bool, vs: seq<Log>, i: nat, j: nat, id: string)
    requires Follows(step) && IsHistory(step, vs) && i <= j < |vs|
    ensures id in vs[i].events ==> id in vs[j].events && vs[j].events[id] == vs[i].events[id]
    ensures id in vs[i].reservations ==> id in vs[j].reservations && vs[j].reservations[id] == vs[i].reservations[id]
    ensures vs[i].marker.Some? ==> vs[j].marker == vs[i].marker
    decreases j - i
  {
    if i < j {
      LogIsWriteOnce(step, vs, i, j - 1, id);
      assert StepAt(step, vs, j) && LogStep(vs[j - 1], vs[j]);
    }
  }

  /** In every interleaving the marker exists exactly when a cancellation event does, and
      then it names the only one. */
  lemma {:induction false} MarkerNamesTheCancellation(vs: seq<Log>, i: nat)
    requires IsHistory(LogStep, vs) && i < |vs| && vs[0] == EMPTY
    ensures forall id | id in vs[i].events && vs[i].events[id].kind.CancelRequest? :: vs[i].marker == Some(id)
    ensures vs[i].marker.Some? ==> vs[i].marker.value in vs[i].events && vs[i].events[vs[i].marker.value].kind.CancelRequest?
  {
    if i > 0 {
      MarkerNamesTheCancellation(vs, i - 1);
      assert StepAt(LogStep, vs, i) && LogStep(vs[i - 1], vs[i]);
    }
  }

  /** Once the marker is there, no guarded batch commits anything any more. */
  lemma {:induction false} CancellationStopsGuardedEvents(vs: seq<Log>, i: nat, j: nat)
    requires IsHistory(LogStep, vs) && i <= j < |vs| && vs[i].marker.Some?
    ensures vs[j].marker == vs[i].marker && vs[j].guarded == vs[i].guarded
    decreases j - i
  {
    if i < j {
      CancellationStopsGuardedEvents(vs, i, j - 1);
      assert StepAt(LogStep, vs, j) && LogStep(vs[j - 1], vs[j]);
    }
  }

  /** Events are stored under their own IDs. */
  predicate Keyed(log: Log) {
    forall id | id in log.events :: log.events[id].eventId == id
  }

  lemma {:induction false} VersionsAreKeyed(vs: seq<Log>, i: nat)
    requires IsHistory(LogStep, vs) && i < |vs| && vs[0] == EMPTY
    ensures Keyed(vs[i])
  {
    if i > 0 {
      VersionsAreKeyed(vs, i - 1);
      assert StepAt(LogStep, vs, i) && LogStep(vs[i - 1], vs[i]);
    }
  }

  // ---------- resolutions that name every failure ----------

  /** A resolution that lists every wave whose cleanup has failed in this version; any other
      event is none. */
  ghost predicate NamesFailures(log: Log, e: Event) {
    e.kind.ManualResolved? ==> forall ordered | IsListing(ordered, log) :: CleanupFailedWaves(ordered) <= e.kind.waveIds
  }

  /** A commit whose resolutions name every failure of the version it was made on. */
  ghost predicate ResolutionStep(a: Log, b: Log) {
    forall id | id in b.events && id !in a.events :: NamesFailures(a, b.events[id])
  }

  /** Every commit of ours from the `from`-th on is one. */
  ghost predicate AllResolve(vs: seq<Log>, own: seq<nat>, from: nat) {
    forall k | from <= k < |own| :: 0 < own[k] < |vs| && ResolutionStep(vs[own[k] - 1], vs[own[k]])
  }

  lemma AllResolveJoin(vs0: seq<Log>, own0: seq<nat>, vs: seq<Log>, own: seq<nat>, from: nat)
    requires vs0 <= vs && own0 <= own && AllResolve(vs0, own0, from) && AllResolve(vs, own, |own0|)
    ensures AllResolve(vs, own, from)
  {
  }

  lemma OrdinaryBatchResolves(log: Log, batch: seq<Event>, guard: bool)
    requires forall e | e in batch :: NamesFailures(log, e)
    ensures ResolutionStep(log, WithEvents(log, batch, guard))
  {
  }

  /** Committing one event is such a step exactly when the event names every failure. */
  lemma OneEventResolves(log: Log, e: Event, guard: bool)
    requires e.eventId !in log.events
    ensures ResolutionStep(log, WithEvents(log, [e], guard)) <==> NamesFailures(log, e)
  {
    var next := WithEvents(log, [e], guard);
    assert DistinctIds([e]) && e in [e];
    assert next.events[e.eventId] == e;
    forall id | id in next.events && id !in log.events ensures next.events[id] == e {
      assert next.events[id] in [e];
    }
  }

  /** The one list of a version decides. */
  lemma ListingDecides(log: Log, e: Event, ordered: seq<Event>)
    requires IsListing(ordered, log) && e.kind.ManualResolved?
    ensures NamesFailures(log, e) <==> CleanupFailedWaves(ordered) <= e.kind.waveIds
  {
    forall other | IsListing(other, log) ensures other == ordered {
      SortingIsUnique(other, ordered);
    }
  }

  const FAILURE := Event("evt-00000000000000000000000000000001", false, "w", Wave(WaveCleanupFailed), 0, OtherProducer, "")
  const BLIND := Event("evt-00000000000000000000000000000002", true, "c", ManualResolved({"v"}), 1, OtherProducer, "")
  const FAILED_LOG := Log(map[FAILURE.eventId := FAILURE], None, map[], {})

  /** `append_event` may commit a resolution that names none of the failed waves. */
  lemma AppendMayHideAFailure()
    ensures WellFormed(FAILURE) && WellFormed(BLIND)
    ensures !BLIND.kind.CancelRequest? && BLIND.eventId !in FAILED_LOG.events
    ensures !NamesFailures(FAILED_LOG, BLIND)
    ensures !ResolutionStep(FAILED_LOG, WithEvents(FAILED_LOG, [BLIND], false))
  {
    assert [FAILURE][..0] == [];
    assert WaveStates([FAILURE]) == map["w" := WaveCleanupFailed];
    assert "w" in CleanupFailedWaves([FAILURE]);
    assert FAILURE in FAILED_LOG.events.Values by { assert FAILED_LOG.events[FAILURE.eventId] == FAILURE; }
    assert IsListing([FAILURE], FAILED_LOG);
    OneEventResolves(FAILED_LOG, BLIND, false);
  }

  // ---------- adding events ----------

  function AddAll(m: map<string, Event>, batch: seq<Event>): (r: map<string, Event>)
    ensures forall id :: id in r <==> id in m || exists e :: e in batch && e.eventId == id
    ensures forall id | id in m && (forall e | e in batch :: e.eventId != id) :: r[id] == m[id]
    ensures forall id | id in r && id !in m :: r[id] in batch && r[id].eventId == id
    ensures DistinctIds(batch) ==> forall e | e in batch :: r[e.eventId] == e
  {
    if batch == [] then m else
      var front, last := batch[..|batch| - 1], batch[|batch| - 1];
      assert batch == front + [last];
      var r := AddAll(m, front);
      KeysOneMore(m, front, r, last);
      ValuesOneMore(m, front, r, last);
      r[last.eventId := last]
  }

  lemma KeysOneMore(m: map<string, Event>, front: seq<Event>, r: map<string, Event>, last: Event)
    requires forall id :: id in r <==> id in m || exists e :: e in front && e.eventId == id
    ensures var more, batch := r[last.eventId := last], front + [last];
            forall id :: id in more <==> id in m || exists e :: e in batch && e.eventId == id
  {
    var batch := front + [last];
    assert last in batch && forall e :: e in batch <==> e in front || e == last;
  }

  lemma ValuesOneMore(m: map<string, Event>, front: seq<Event>, r: map<string, Event>, last: Event)
    requires forall id | id in m :: id in r
    requires forall id | id in m && (forall e | e in front :: e.eventId != id) :: r[id] == m[id]
    requires forall id | id in r && id !in m :: r[id] in front && r[id].eventId == id
    requires forall e | e in front :: e.eventId in r
    requires DistinctIds(front) ==> forall e | e in front :: r[e.eventId] == e
    ensures var more, batch := r[last.eventId := last], front + [last];
            && (forall id | id in m && (forall e | e in batch :: e.eventId != id) :: more[id] == m[id])
            && (forall id | id in more && id !in m :: more[id] in batch && more[id].eventId == id)
            && (DistinctIds(batch) ==> forall e | e in batch :: e.eventId in more && more[e.eventId] == e)
  {
    var more, batch := r[last.eventId := last], front + [last];
    assert last in batch && forall e | e in front :: e in batch;
    if DistinctIds(batch) { LastHasNewId(front, last); }
  }

  lemma LastHasNewId(front: seq<Event>, last: Event)
    requires DistinctIds(front + [last])
    ensures DistinctIds(front) && forall e | e in front :: e.eventId != last.eventId
  {
    var batch := front + [last];
    forall i, j | 0 <= i < j < |front| ensures front[i].eventId != front[j].eventId {
      assert batch[i].eventId != batch[j].eventId;
    }
    forall e | e in front ensures e.eventId != last.eventId {
      var i :| 0 <= i < |front| && front[i] == e;
      assert batch[i].eventId != batch[|front|].eventId;
    }
  }

  function WithEvents(log: Log, batch: seq<Event>, guard: bool): Log {
    log.(events := AddAll(log.events, batch),
         guarded := if guard then log.guarded + (set e | e in batch :: e.eventId) else log.guarded)
  }

  lemma MayAddEvents(step: (Log, Log) -> bool, log: Log, batch: seq<Event>, guard: bool)
    requires Follows(step)
    requires forall e | e in batch :: e.eventId !in log.events && !e.kind.CancelRequest?
    requires guard ==> log.marker.None? && forall e | e in batch :: e.kind.TrialTerminal?
    ensures step(log, WithEvents(log, batch, guard))
  {
    var next := WithEvents(log, batch, guard);
    forall id | id in next.guarded && id !in log.guarded
      ensures next.marker.None? && id in next.events && id !in log.events && next.events[id].kind.TrialTerminal?
    {
      var e :| e in batch && e.eventId == id;
      assert next.events[id] in batch;
    }
    assert LogStep(log, next);
  }

  // ---------- the operations ----------

  /** The one commit of a reservation and its event. */
  function WithReservation(log: Log, actionId: string, action: string, event: Event): Log {
    log.(events := log.events[event.eventId := event], reservations := log.reservations[actionId := action])
  }

  /** No other event has this event's ID. */
  predicate MayStore(log: Log, event: Event) {
    event.eventId in log.events ==> log.events[event.eventId] == event
  }

  /** `reserve_action` does not look at its event's ID: it keeps the log write-once if and
      only if no other event has it. */
  lemma ReservationKeepsTheLog(log: Log, actionId: string, action: string, event: Event)
    requires actionId !in log.reservations && event.kind.ActionReserved?
    ensures LogStep(log, WithReservation(log, actionId, action, event)) <==> MayStore(log, event)
  {
    var next := WithReservation(log, actionId, action, event);
    assert next.events[event.eventId] == event;
  }

  predicate AllTrialTerminal(events: seq<Event>) {
    forall e | e in events :: e.kind.TrialTerminal?
  }

  datatype Answer = Changed | Unchanged | Conflict | Incomplete | Refused | CancellationWon | IdTaken | Contended | Failure

  class CampaignStore {
    const repo: Repository<Log>

    ghost predicate Valid()
      reads repo
    {
      repo.Valid() && Follows(repo.step)
    }

    constructor (repo: Repository<Log>)
      requires repo.Valid() && Follows(repo.step)
      ensures Valid() && this.repo == repo
    {
      this.repo := repo;
    }

    ghost function Latest(): (log: Log)
      requires repo.versions != []
      reads repo
    {
      repo.versions[|repo.versions| - 1]
    }

    /** One commit of events that are new at `head`. */
    method CommitEvents(head: nat, batch: seq<Event>, guard: bool) returns (outcome: Outcome)
      requires Valid() && head < |repo.versions|
      requires forall e | e in batch :: e.eventId !in repo.versions[head].events && !e.kind.CancelRequest?
      requires guard ==> repo.versions[head].marker.None? && forall e | e in batch :: e.kind.TrialTerminal?
      modifies repo
      ensures Valid() && old(repo.versions) <= repo.versions
      ensures outcome == Committed ==> repo.own == old(repo.own) + [head + 1]
      ensures outcome == ParentConflict ==> repo.own == old(repo.own)
      ensures repo.own == old(repo.own) || repo.own == old(repo.own) + [head + 1]
      ensures repo.own != old(repo.own) ==>
                head + 1 < |repo.versions| && repo.versions[head + 1] == WithEvents(repo.versions[head], batch, guard)
      ensures repo.Quiet() && |old(repo.versions)| == head + 1 ==>
                outcome == Committed && repo.versions == old(repo.versions) + [WithEvents(repo.versions[head], batch, guard)]
      ensures (forall e | e in batch :: NamesFailures(repo.versions[head], e)) ==>
                AllResolve(repo.versions, repo.own, old(|repo.own|))
    {
      var log := repo.versions[head];
      MayAddEvents(repo.step, log, batch, guard);
      if forall e | e in batch :: NamesFailures(log, e) { OrdinaryBatchResolves(log, batch, guard); }
      outcome := CommitNext(head, WithEvents(log, batch, guard));
    }

    /** One commit on `head`. */
    method CommitNext(head: nat, next: Log) returns (outcome: Outcome)
      requires Valid() && head < |repo.versions| && repo.step(repo.versions[head], next)
      modifies repo
      ensures Valid() && old(repo.versions) <= repo.versions
      ensures outcome == Committed ==> repo.own == old(repo.own) + [head + 1]
      ensures outcome == ParentConflict ==> repo.own == old(repo.own)
      ensures repo.own == old(repo.own) || repo.own == old(repo.own) + [head + 1]
      ensures repo.own != old(repo.own) ==> head + 1 < |repo.versions| && repo.versions[head + 1] == next
      ensures repo.Quiet() && |old(repo.versions)| == head + 1 ==>
                outcome == Committed && repo.versions == old(repo.versions) + [next]
      ensures ResolutionStep(repo.versions[head], next) ==> AllResolve(repo.versions, repo.own, old(|repo.own|))
    {
      outcome := repo.CreateCommit(head, next);
    }

    /** What our last commit, if this call made one, says of resolutions. */
    twostate predicate ResolvesIf(event: Event)
      reads repo
    {
      repo.own != old(repo.own) ==>
        && repo.own != [] && 0 < repo.own[|repo.own| - 1] < |repo.versions|
        && (AllResolve(repo.versions, repo.own, old(|repo.own|)) <==>
            NamesFailures(repo.versions[repo.own[|repo.own| - 1] - 1], event))
    }

    /** `append_event`: refuses an ID that is already there, equal or not; a resolution it
        commits names every failure only if the caller saw to that. */
    method AppendEvent(event: Event) returns (answer: Answer)
      requires Valid()
      modifies repo
      ensures Valid() && old(repo.versions) <= repo.versions
      ensures answer == Refused <==> event.kind.CancelRequest?
      ensures answer == Changed ==> Present(Latest(), event) && repo.own != old(repo.own)
      ensures answer == Conflict ==> event.eventId in Latest().events
      ensures answer !in {Changed, Failure} ==> repo.own == old(repo.own)
      ensures answer in {Changed, Conflict, Refused, Contended, Failure}
      ensures repo.Quiet() && !event.kind.CancelRequest? ==>
                if event.eventId in old(Latest()).events then answer == Conflict && repo.versions == old(repo.versions)
                else answer == Changed && Latest() == WithEvents(old(Latest()), [event], false)
      ensures ResolvesIf(event)
    {
      if event.kind.CancelRequest? { return Refused; }
      for attempt := 0 to MAX_COMMIT_ATTEMPTS
        invariant Valid() && old(repo.versions) <= repo.versions && repo.own == old(repo.own)
        invariant repo.Quiet() ==> attempt == 0 && repo.versions == old(repo.versions)
      {
        answer := TryAppend(event);
        if answer != Contended { return; }
      }
      answer := Contended;
    }

    method TryAppend(event: Event) returns (answer: Answer)
      requires Valid() && !event.kind.CancelRequest?
      modifies repo
      ensures Valid() && old(repo.versions) <= repo.versions
      ensures answer == Changed ==> Present(Latest(), event) && repo.own != old(repo.own)
      ensures answer == Conflict ==> event.eventId in Latest().events
      ensures answer !in {Changed, Failure} ==> repo.own == old(repo.own)
      ensures answer in {Changed, Conflict, Contended, Failure}
      ensures repo.Quiet() ==>
                if event.eventId in old(Latest()).events then answer == Conflict && repo.versions == old(repo.versions)
                else answer == Changed && Latest() == WithEvents(old(Latest()), [event], false)
      ensures ResolvesIf(event)
    {
      var head := repo.Head();
      if event.eventId in repo.versions[head].events { return Conflict; }
      answer := CommitOne(head, event);
    }

    /** The commit of one new event on the head that was read. */
    method CommitOne(head: nat, event: Event) returns (answer: Answer)
      requires Valid() && !event.kind.CancelRequest? && head < |repo.versions| && event.eventId !in repo.versions[head].events
      modifies repo
      ensures Valid() && old(repo.versions) <= repo.versions
      ensures answer == Changed ==> Present(Latest(), event) && repo.own != old(repo.own)
      ensures answer !in {Changed, Failure} ==> repo.own == old(repo.own)
      ensures answer in {Changed, Contended, Failure}
      ensures repo.Quiet() && head == old(|repo.versions|) - 1 ==>
                answer == Changed && Latest() == WithEvents(old(Latest()), [event], false)
      ensures ResolvesIf(event)
    {
      OneEventResolves(repo.versions[head], event, false);
      var outcome := CommitEvents(head, [event], false);
      if outcome == Committed {
        assert DistinctIds([event]) && event in [event];
        LogIsWriteOnce(repo.step, repo.versions, head + 1, |repo.versions| - 1, event.eventId);
      }
      answer := match outcome case Committed => Changed case ParentConflict => Contended case Failed => Failure;
    }

    /** `ensure_event` for every kind without an operation of its own. */
    method EnsurePlainEvent(event: Event) returns (answer: Answer)
      requires Valid() && !event.kind.CancelRequest? && !event.kind.ManualResolved?
      modifies repo
      ensures Valid() && old(repo.versions) <= repo.versions
      ensures answer in {Changed, Unchanged} ==> Present(Latest(), event)
      ensures answer == Changed ==> repo.own != old(repo.own)
      ensures answer == Conflict ==> Conflicts(Latest(), event)
      ensures answer !in {Changed, Failure} ==> repo.own == old(repo.own)
      ensures answer in {Changed, Unchanged, Conflict, Contended, Failure}
      ensures repo.Quiet() ==>
                && answer == (if Present(old(Latest()), event) then Unchanged
                              else if Conflicts(old(Latest()), event) then Conflict else Changed)
                && (answer == Changed ==> Latest() == WithEvents(old(Latest()), [event], false))
                && (answer != Changed ==> repo.versions == old(repo.versions))
      ensures AllResolve(repo.versions, repo.own, old(|repo.own|))
    {
      for attempt := 0 to MAX_COMMIT_ATTEMPTS
        invariant Valid() && old(repo.versions) <= repo.versions && repo.own == old(repo.own)
        invariant repo.Quiet() ==> attempt == 0 && repo.versions == old(repo.versions)
      {
        var head := repo.Head();
        var log := repo.versions[head];
        if event.eventId in log.events {
          return if SameRequest(log.events[event.eventId], event) then Unchanged else Conflict;
        }
        var outcome := CommitEvents(head, [event], false);
        if outcome == Committed {
          assert DistinctIds([event]) && event in [event];
          LogIsWriteOnce(repo.step, repo.versions, head + 1, |repo.versions| - 1, event.eventId);
          return Changed;
        }
        if outcome == Outcome.Failed { return Failure; }
      }
      answer := Contended;
    }

    /** `_ensure_cancellation_event`: event and marker in one commit. */
    method EnsureCancellation(event: Event) returns (answer: Answer)
      requires Valid() && event.kind.CancelRequest?
      modifies repo
      ensures Valid() && old(repo.versions) <= repo.versions
      ensures answer in {Changed, Unchanged} ==> Present(Latest(), event) && Latest().marker == Some(event.eventId)
      ensures answer in {Changed, Unchanged} ==> Stored(Latest(), event)
      ensures answer == Changed ==> repo.own != old(repo.own)
      ensures answer == Conflict ==> Differs(Latest(), event) || Latest().marker != Some(event.eventId)
      ensures answer == Incomplete ==> Latest().marker.Some? != (event.eventId in Latest().events)
      ensures answer == Conflict ==> Conflicts(Latest(), event) || Latest().marker != Some(event.eventId)
      ensures answer !in {Changed, Failure} ==> repo.own == old(repo.own)
      ensures answer in {Changed, Unchanged, Conflict, Incomplete, Contended, Failure}
      ensures repo.Quiet() ==>
                && (answer == Incomplete <==> old(Latest()).marker.Some? != (event.eventId in old(Latest()).events))
                && (answer == Changed <==> old(Latest()).marker.None? && event.eventId !in old(Latest()).events)
                && (answer == Unchanged <==> old(Latest()).marker == Some(event.eventId) && Present(old(Latest()), event))
                && (answer == Changed ==> Latest() == old(Latest()).(events := old(Latest()).events[event.eventId := event],
                                                                     marker := Some(event.eventId)))
                && (answer != Changed ==> repo.versions == old(repo.versions))
      ensures AllResolve(repo.versions, repo.own, old(|repo.own|))
    {
      AllPresentAreStored();
      for attempt := 0 to MAX_COMMIT_ATTEMPTS
        invariant Valid() && old(repo.versions) <= repo.versions && repo.own == old(repo.own)
        invariant repo.Quiet() ==> attempt == 0 && repo.versions == old(repo.versions)
      {
        var head := repo.Head();
        var log := repo.versions[head];
        if (event.eventId in log.events) != log.marker.Some? { return Incomplete; }
        if event.eventId in log.events {
          if !SameRequest(log.events[event.eventId], event) { return Conflict; }
          if log.marker != Some(event.eventId) { return Conflict; }
          return Unchanged;
        }
        answer := CommitCancellation(head, event);
        if answer != Contended { return; }
      }
      answer := Contended;
    }

    /** The commit of the cancellation and its marker on the head that was read. */
    method CommitCancellation(head: nat, event: Event) returns (answer: Answer)
      requires Valid() && event.kind.CancelRequest? && head < |repo.versions|
      requires event.eventId !in repo.versions[head].events && repo.versions[head].marker.None?
      modifies repo
      ensures Valid() && old(repo.versions) <= repo.versions
      ensures answer == Changed ==>
                Present(Latest(), event) && Latest().marker == Some(event.eventId) && repo.own != old(repo.own)
      ensures answer !in {Changed, Failure} ==> repo.own == old(repo.own)
      ensures answer in {Changed, Contended, Failure}
      ensures repo.Quiet() && head == old(|repo.versions|) - 1 ==>
                && answer == Changed
                && Latest() == old(Latest()).(events := old(Latest()).events[event.eventId := event], marker := Some(event.eventId))
      ensures AllResolve(repo.versions, repo.own, old(|repo.own|))
    {
      var log := repo.versions[head];
      var next := log.(events := log.events[event.eventId := event], marker := Some(event.eventId));
      assert LogStep(log, next);
      var outcome := repo.CreateCommit(head, next);
      if outcome == Committed {
        LogIsWriteOnce(repo.step, repo.versions, head + 1, |repo.versions| - 1, event.eventId);
      }
      answer := match outcome case Committed => Changed case ParentConflict => Contended case Failed => Failure;
    }

    /** `_missing_events` and `_missing_events_from_listing` */
    method MissingEvents(events: seq<Event>, log: Log) returns (conflict: bool, missing: seq<Event>)
      requires DistinctIds(events)
      ensures conflict <==> exists e :: e in events && Conflicts(log, e)
      ensures !conflict ==> DistinctIds(missing) && forall e :: e in missing <==> e in events && e.eventId !in log.events
      ensures missing == [] && !conflict <==> forall e | e in events :: Present(log, e)
    {
      missing := [];
      for i := 0 to |events|
        invariant forall k | 0 <= k < i :: !Conflicts(log, events[k])
        invariant forall e :: e in missing <==> e in events[..i] && e.eventId !in log.events
        invariant DistinctIds(missing)
      {
        var e := events[i];
        if e.eventId !in log.events {
          forall x | x in missing ensures x.eventId != e.eventId {
            var k :| 0 <= k < i && events[k] == x;
          }
          missing := missing + [e];
        } else if !SameRequest(log.events[e.eventId], e) {
          assert e in events;
          return true, [];
        }
        assert events[..i + 1] == events[..i] + [events[i]];
      }
      assert events[..|events|] == events;
      conflict := false;
      NothingMissing(events, log, missing);
    }

    /** `ensure_events_unless_cancelled` */
    method EnsureEventsUnlessCancelled(events: seq<Event>) returns (answer: Answer)
      requires Valid()
      modifies repo
      ensures Valid() && old(repo.versions) <= repo.versions
      ensures events == [] || !AllTrialTerminal(events) ==> answer == Refused
      ensures answer in {Changed, Unchanged} ==> forall e | e in events :: Present(Latest(), e)
      ensures answer in {Changed, Unchanged} ==> forall e | e in events :: Stored(Latest(), e)
      ensures answer == CancellationWon ==> Latest().marker.Some?
      ensures answer == Changed ==>
                exists v :: repo.own == old(repo.own) + [v] && 0 < v < |repo.versions| && repo.versions[v].marker.None?
      ensures answer !in {Changed, Failure} ==> repo.own == old(repo.own)
      ensures repo.Quiet() && events != [] && AllTrialTerminal(events) && DistinctIds(events) ==>
                && (answer == Conflict <==> exists e :: e in events && Differs(old(Latest()), e))
                && (answer == Unchanged <==> forall e | e in events :: Stored(old(Latest()), e))
      ensures repo.Quiet() && events != [] && AllTrialTerminal(events) && DistinctIds(events) ==>
                && (answer == Conflict <==> exists e :: e in events && Conflicts(old(Latest()), e))
                && (answer == Unchanged <==> forall e | e in events :: Present(old(Latest()), e))
                && (answer in {Changed, CancellationWon} ==> (answer == Changed <==> old(Latest()).marker.None?))
                && answer in {Conflict, Unchanged, Changed, CancellationWon}
      ensures AllResolve(repo.versions, repo.own, old(|repo.own|))
    {
      AllPresentAreStored();
      if events == [] || !AllTrialTerminal(events) { return Refused; }
      if !DistinctIds(events) { return Conflict; }
      for attempt := 0 to MAX_COMMIT_ATTEMPTS
        invariant Valid() && old(repo.versions) <= repo.versions && repo.own == old(repo.own)
        invariant repo.Quiet() ==> attempt == 0 && repo.versions == old(repo.versions)
      {
        answer := TryGuarded(events);
        if answer != Contended { return; }
      }
      answer := Contended;
    }

    /** One turn of that loop, from reading the head to the answer of the commit. */
    method TryGuarded(events: seq<Event>) returns (answer: Answer)
      requires Valid() && AllTrialTerminal(events) && DistinctIds(events)
      modifies repo
      ensures Valid() && old(repo.versions) <= repo.versions
      ensures answer in {Changed, Unchanged} ==> forall e | e in events :: Present(Latest(), e)
      ensures answer == CancellationWon ==> Latest().marker.Some?
      ensures answer == Changed ==>
                exists v :: repo.own == old(repo.own) + [v] && 0 < v < |repo.versions| && repo.versions[v].marker.None?
      ensures answer !in {Changed, Failure} ==> repo.own == old(repo.own)
      ensures repo.Quiet() ==>
                && (answer == Conflict <==> exists e :: e in events && Conflicts(old(Latest()), e))
                && (answer == Unchanged <==> forall e | e in events :: Present(old(Latest()), e))
                && (answer in {Changed, CancellationWon} ==> (answer == Changed <==> old(Latest()).marker.None?))
                && answer in {Conflict, Unchanged, Changed, CancellationWon}
      ensures AllResolve(repo.versions, repo.own, old(|repo.own|))
    {
      var head := repo.Head();
      var log := repo.versions[head];
      var conflict, missing := MissingEvents(events, log);
      if conflict { return Conflict; }
      if missing == [] { return Unchanged; }
      if log.marker.Some? { return CancellationWon; }
      answer := CommitMissing(head, events, missing);
    }

    method CommitMissing(head: nat, ghost events: seq<Event>, missing: seq<Event>) returns (answer: Answer)
      requires Valid() && AllTrialTerminal(events) && DistinctIds(missing) && head < |repo.versions|
      requires repo.versions[head].marker.None?
      requires forall e :: e in missing <==> e in events && e.eventId !in repo.versions[head].events
      requires forall e | e in events :: !Conflicts(repo.versions[head], e)
      modifies repo
      ensures Valid() && old(repo.versions) <= repo.versions && answer in {Changed, Contended, Failure}
      ensures answer == Changed ==> repo.own == old(repo.own) + [head + 1] && head + 1 < |repo.versions|
      ensures answer == Changed ==> repo.versions[head + 1].marker.None? && AllPresent(Latest(), events)
      ensures answer == Contended ==> repo.own == old(repo.own)
      ensures repo.Quiet() && |old(repo.versions)| == head + 1 ==> answer == Changed
      ensures AllResolve(repo.versions, repo.own, old(|repo.own|))
    {
      GuardedCommit(repo.step, events, repo.versions[head], missing);
      answer := CommitGuarded(head, events, WithEvents(repo.versions[head], missing, true));
    }

    method CommitGuarded(head: nat, ghost events: seq<Event>, next: Log) returns (answer: Answer)
      requires Valid() && head < |repo.versions| && repo.step(repo.versions[head], next)
      requires next.marker.None? && AllPresent(next, events) && ResolutionStep(repo.versions[head], next)
      modifies repo
      ensures Valid() && old(repo.versions) <= repo.versions && answer in {Changed, Contended, Failure}
      ensures answer == Changed ==> repo.own == old(repo.own) + [head + 1] && head + 1 < |repo.versions|
      ensures answer == Changed ==> repo.versions[head + 1].marker.None? && AllPresent(Latest(), events)
      ensures answer == Contended ==> repo.own == old(repo.own)
      ensures repo.Quiet() && |old(repo.versions)| == head + 1 ==> answer == Changed
      ensures AllResolve(repo.versions, repo.own, old(|repo.own|))
    {
      var outcome := repo.CreateCommit(head, next);
      if outcome == Committed { PresentFrom(repo.step, repo.versions, head + 1, events); }
      answer := match outcome case Committed => Changed case ParentConflict => Contended case Failed => Failure;
    }

    /** `ensure_events`: batches of at most 50, each on the head the last one created; any
        parent conflict in between starts over from a new head. */
    method EnsureEvents(events: seq<Event>) returns (answer: Answer)
      requires Valid()
      modifies repo
      ensures Valid() && old(repo.versions) <= repo.versions
      ensures events == [] || (exists e :: e in events && (e.kind.CancelRequest? || e.kind.ManualResolved?)) ==> answer == Refused
      ensures answer in {Changed, Unchanged} ==> forall e | e in events :: Present(Latest(), e)
      ensures answer in {Changed, Unchanged} ==> forall e | e in events :: Stored(Latest(), e)
      ensures answer == Changed ==> repo.own != old(repo.own)
      ensures answer in {Unchanged, Refused} ==> repo.own == old(repo.own)
      ensures answer in {Changed, Unchanged, Refused, Conflict, Contended, Failure}
      ensures repo.Quiet() && answer != Refused && DistinctIds(events) ==>
                && (answer == Conflict <==> exists e :: e in events && Differs(old(Latest()), e))
                && (answer == Unchanged <==> forall e | e in events :: Stored(old(Latest()), e))
      ensures repo.Quiet() && answer != Refused && DistinctIds(events) ==>
                && (answer == Conflict <==> exists e :: e in events && Conflicts(old(Latest()), e))
                && (answer == Unchanged <==> forall e | e in events :: Present(old(Latest()), e))
                && answer in {Conflict, Unchanged, Changed}
      ensures AllResolve(repo.versions, repo.own, old(|repo.own|))
    {
      AllPresentAreStored();
      if events == [] || exists e :: e in events && (e.kind.CancelRequest? || e.kind.ManualResolved?) { return Refused; }
      if !DistinctIds(events) { return Conflict; }
      var changed := false;
      for attempt := 0 to MAX_COMMIT_ATTEMPTS
        invariant Valid() && old(repo.versions) <= repo.versions
        invariant old(repo.own) <= repo.own && (changed <==> repo.own != old(repo.own))
        invariant repo.Quiet() ==> attempt == 0 && repo.versions == old(repo.versions) && !changed
        invariant AllResolve(repo.versions, repo.own, old(|repo.own|))
      {
        ghost var versions, own := repo.versions, repo.own;
        var committed;
        answer, committed := TryEvents(events);
        AllResolveJoin(versions, own, repo.versions, repo.own, |old(repo.own)|);
        changed := changed || committed;
        if answer == Unchanged { return if changed then Changed else Unchanged; }
        if answer != Contended { return; }
      }
      answer := Contended;
    }

    /** One turn of that loop; on a parent conflict some batches may have been committed. */
    method TryEvents(events: seq<Event>) returns (answer: Answer, committed: bool)
      requires Valid() && DistinctIds(events) && forall e | e in events :: !e.kind.CancelRequest? && !e.kind.ManualResolved?
      modifies repo
      ensures Valid() && old(repo.versions) <= repo.versions && old(repo.own) <= repo.own
      ensures answer in {Changed, Unchanged} ==> forall e | e in events :: Present(Latest(), e)
      ensures answer != Failure ==> (committed <==> repo.own != old(repo.own))
      ensures answer == Changed ==> committed
      ensures answer in {Unchanged, Conflict} ==> !committed
      ensures answer in {Changed, Unchanged, Conflict, Contended, Failure}
      ensures repo.Quiet() ==>
                && (answer == Conflict <==> exists e :: e in events && Conflicts(old(Latest()), e))
                && (answer == Unchanged <==> forall e | e in events :: Present(old(Latest()), e))
                && answer in {Conflict, Unchanged, Changed}
      ensures AllResolve(repo.versions, repo.own, old(|repo.own|))
    {
      var head := repo.Head();
      var conflict, missing := MissingEvents(events, repo.versions[head]);
      if conflict { return Conflict, false; }
      if missing == [] { return Unchanged, false; }
      var outcome, last := CommitBatches(head, missing);
      committed := last != head;
      if outcome == Committed { PresentFrom(repo.step, repo.versions, last, events); }
      answer := match outcome case Committed => Changed case ParentConflict => Contended case Failed => Failure;
    }

    method CommitBatches(head: nat, missing: seq<Event>) returns (outcome: Outcome, last: nat)
      requires Valid() && head < |repo.versions| && DistinctIds(missing) && missing != []
      requires forall e | e in missing :: e.eventId !in repo.versions[head].events && !e.kind.CancelRequest? && !e.kind.ManualResolved?
      modifies repo
      ensures Valid() && old(repo.versions) <= repo.versions
      ensures head <= last < |repo.versions| && old(repo.own) <= repo.own
      ensures |old(repo.own)| + (last - head) <= |repo.own|
      ensures outcome != Outcome.Failed ==> |old(repo.own)| + (last - head) == |repo.own|
      ensures outcome == Committed ==>
                && last != head
                && (forall id | id in repo.versions[head].events ::
                      id in repo.versions[last].events && repo.versions[last].events[id] == repo.versions[head].events[id])
                && (forall e | e in missing :: e.eventId in repo.versions[last].events && repo.versions[last].events[e.eventId] == e)
      ensures repo.Quiet() && |old(repo.versions)| == head + 1 ==> outcome == Committed
      ensures AllResolve(repo.versions, repo.own, old(|repo.own|))
    {
      last := head;
      var offset := 0;
      ghost var start := repo.versions[head].events;
      while offset < |missing|
        invariant Valid() && old(repo.versions) <= repo.versions
        invariant 0 <= offset <= |missing| && head <= last < |repo.versions|
        invariant old(repo.own) <= repo.own && |repo.own| == |old(repo.own)| + (last - head) && (offset > 0 ==> last != head)
        invariant Carries(repo.versions[last], start, missing, offset)
        invariant repo.Quiet() && |old(repo.versions)| == head + 1 ==> |repo.versions| == last + 1
        invariant AllResolve(repo.versions, repo.own, old(|repo.own|))
        decreases |missing| - offset
      {
        ghost var versions, own := repo.versions, repo.own;
        outcome, offset := CommitBatch(last, start, missing, offset);
        AllResolveJoin(versions, own, repo.versions, repo.own, |old(repo.own)|);
        if outcome != Committed { return; }
        last := last + 1;
      }
      outcome := Committed;
    }

    method CommitBatch(last: nat, ghost start: map<string, Event>, missing: seq<Event>, offset: nat)
      returns (outcome: Outcome, end: nat)
      requires Valid() && last < |repo.versions| && DistinctIds(missing) && offset < |missing|
      requires forall e | e in missing :: !e.kind.CancelRequest? && !e.kind.ManualResolved?
      requires Carries(repo.versions[last], start, missing, offset)
      modifies repo
      ensures Valid() && old(repo.versions) <= repo.versions
      ensures offset < end <= |missing|
      ensures outcome == Committed ==> repo.own == old(repo.own) + [last + 1]
      ensures outcome == ParentConflict ==> repo.own == old(repo.own)
      ensures repo.own == old(repo.own) || repo.own == old(repo.own) + [last + 1]
      ensures repo.own != old(repo.own) ==>
                last + 1 < |repo.versions| && Carries(repo.versions[last + 1], start, missing, end)
      ensures repo.Quiet() && |old(repo.versions)| == last + 1 ==> outcome == Committed && |repo.versions| == last + 2
      ensures AllResolve(repo.versions, repo.own, old(|repo.own|))
    {
      end := if offset + MAX_EVENT_BATCH_OPERATIONS < |missing| then offset + MAX_EVENT_BATCH_OPERATIONS else |missing|;
      BatchCarries(repo.versions[last], start, missing, offset, end);
      outcome := CommitEvents(last, missing[offset..end], false);
    }

    /** `_ensure_manual_resolution_event`: committed only on a version whose every
        cleanup-failed wave the resolution lists. */
    method EnsureManualResolution(event: Event) returns (answer: Answer)
      requires Valid() && event.kind.ManualResolved?
      modifies repo
      ensures Valid() && old(repo.versions) <= repo.versions
      ensures answer in {Changed, Unchanged} ==> Present(Latest(), event)
      ensures answer == Changed ==>
                exists v, ordered :: repo.own == old(repo.own) + [v] && 0 < v < |repo.versions|
                                     && IsListing(ordered, repo.versions[v - 1]) && CleanupFailedWaves(ordered) <= event.kind.waveIds
      ensures answer == Conflict ==>
                || Conflicts(Latest(), event)
                || exists ordered :: IsListing(ordered, Latest()) && !(CleanupFailedWaves(ordered) <= event.kind.waveIds)
      ensures answer !in {Changed, Failure} ==> repo.own == old(repo.own)
      ensures repo.Quiet() ==>
                && (answer == Unchanged <==> Present(old(Latest()), event))
                && (answer == Changed ==> event.eventId !in old(Latest()).events && Latest() == WithEvents(old(Latest()), [event], false))
      ensures repo.Quiet() && Keyed(old(Latest())) ==>
                && (answer == Changed <==> event.eventId !in old(Latest()).events && NamesFailures(old(Latest()), event))
                && (answer == Conflict <==> Conflicts(old(Latest()), event) ||
                                            (event.eventId !in old(Latest()).events && !NamesFailures(old(Latest()), event)))
      ensures AllResolve(repo.versions, repo.own, old(|repo.own|))
    {
      for attempt := 0 to MAX_COMMIT_ATTEMPTS
        invariant Valid() && old(repo.versions) <= repo.versions && repo.own == old(repo.own)
        invariant repo.Quiet() ==> attempt == 0 && repo.versions == old(repo.versions)
      {
        var head := repo.Head();
        var log := repo.versions[head];
        if event.eventId in log.events {
          return if SameRequest(log.events[event.eventId], event) then Unchanged else Conflict;
        }
        var ordered := LoadOrdered(log);
        if ordered.Err? { return Failure; }
        ListingDecides(log, event, ordered.value);
        if !(CleanupFailedWaves(ordered.value) <= event.kind.waveIds) { return Conflict; }
        var outcome := CommitEvents(head, [event], false);
        if outcome == Committed {
          assert DistinctIds([event]) && event in [event];
          LogIsWriteOnce(repo.step, repo.versions, head + 1, |repo.versions| - 1, event.eventId);
          assert repo.own == old(repo.own) + [head + 1] && IsListing(ordered.value, repo.versions[head]);
          return Changed;
        }
        if outcome == Outcome.Failed { return Failure; }
      }
      answer := Contended;
    }

    /** `ensure_event`: one event, by the rules of its kind. */
    method EnsureEvent(event: Event) returns (answer: Answer)
      requires Valid()
      modifies repo
      ensures Valid() && old(repo.versions) <= repo.versions
      ensures answer in {Changed, Unchanged} ==> Present(Latest(), event)
      ensures answer in {Changed, Unchanged} && event.kind.CancelRequest? ==> Latest().marker == Some(event.eventId)
      ensures answer == Changed ==> repo.own != old(repo.own)
      ensures answer == Conflict && !event.kind.CancelRequest? && !event.kind.ManualResolved? ==> Conflicts(Latest(), event)
      ensures answer !in {Changed, Failure} ==> repo.own == old(repo.own)
      ensures repo.Quiet() ==>
                && (answer == Unchanged <==> Present(old(Latest()), event) &&
                                             (event.kind.CancelRequest? ==> old(Latest()).marker == Some(event.eventId)))
                && (answer == Changed ==> event.eventId !in old(Latest()).events && Present(Latest(), event))
      ensures answer in {Changed, Unchanged} ==> Stored(Latest(), event)
      ensures answer == Conflict && !event.kind.CancelRequest? && !event.kind.ManualResolved? ==> Differs(Latest(), event)
      ensures repo.Quiet() && !event.kind.CancelRequest? && !event.kind.ManualResolved? ==>
                && (answer == Conflict <==> Differs(old(Latest()), event))
                && (answer == Unchanged <==> Stored(old(Latest()), event))
                && (answer == Changed <==> event.eventId !in old(Latest()).events)
      ensures repo.Quiet() && !event.kind.CancelRequest? && Keyed(old(Latest())) ==>
                (answer == Changed <==> event.eventId !in old(Latest()).events && NamesFailures(old(Latest()), event))
      ensures AllResolve(repo.versions, repo.own, old(|repo.own|))
    {
      if event.kind.CancelRequest? {
        answer := EnsureCancellation(event);
      } else if event.kind.ManualResolved? {
        answer := EnsureManualResolution(event);
        if answer == Changed {
          ghost var v, ordered :| repo.own == old(repo.own) + [v] && 0 < v < |repo.versions|
                                  && IsListing(ordered, repo.versions[v - 1]) && CleanupFailedWaves(ordered) <= event.kind.waveIds;
        }
      } else {
        answer := EnsurePlainEvent(event);
      }
      AllPresentAreStored();
    }

    /** `reserve_action`: the reservation is checked, and its event has an ID that no other
        event has. */
    method ReserveAction(actionId: string, action: string, event: Event) returns (answer: Answer)
      requires Valid() && event.kind.ActionReserved?
      modifies repo
      ensures Valid() && old(repo.versions) <= repo.versions
      ensures answer == Changed ==> repo.own != old(repo.own)
      ensures answer == Changed ==> exists v :: ReservedBy(v, actionId, action, event)
      ensures answer == Unchanged ==> Lookup(Latest().reservations, actionId) == Some(action)
      ensures answer == Conflict ==> actionId in Latest().reservations && Latest().reservations[actionId] != action
      ensures answer !in {Changed, Failure} ==> repo.own == old(repo.own)
      ensures repo.Quiet() ==>
                && (answer == Unchanged <==> Lookup(old(Latest()).reservations, actionId) == Some(action))
                && (answer == Changed <==> actionId !in old(Latest()).reservations && MayStore(old(Latest()), event))
                && (answer == Changed ==>
                      Latest() == WithReservation(old(Latest()), actionId, action, event))
      ensures AllResolve(repo.versions, repo.own, old(|repo.own|))
    {
      for attempt := 0 to MAX_COMMIT_ATTEMPTS
        invariant Valid() && old(repo.versions) <= repo.versions && repo.own == old(repo.own)
        invariant repo.Quiet() ==> attempt == 0 && repo.versions == old(repo.versions)
      {
        var head := repo.Head();
        var log := repo.versions[head];
        if actionId in log.reservations {
          return if log.reservations[actionId] == action then Unchanged else Conflict;
        }
        if !MayStore(log, event) { return IdTaken; }
        answer := CommitReservation(head, actionId, action, event);
        if answer != Contended { return; }
      }
      answer := Contended;
    }

    /** Some version reserved the action together with its event. */
    ghost predicate ReservedBy(v: nat, actionId: string, action: string, event: Event)
      reads repo
    {
      && 0 < v < |repo.versions| && actionId !in repo.versions[v - 1].reservations
      && Lookup(repo.versions[v].reservations, actionId) == Some(action) && Present(repo.versions[v], event)
    }

    /** The commit of the reservation and its event on the head that was read. */
    method CommitReservation(head: nat, actionId: string, action: string, event: Event) returns (answer: Answer)
      requires Valid() && event.kind.ActionReserved? && head < |repo.versions|
      requires actionId !in repo.versions[head].reservations && MayStore(repo.versions[head], event)
      modifies repo
      ensures Valid() && old(repo.versions) <= repo.versions
      ensures answer == Changed ==> repo.own != old(repo.own) && exists v :: ReservedBy(v, actionId, action, event)
      ensures answer !in {Changed, Failure} ==> repo.own == old(repo.own)
      ensures answer in {Changed, Contended, Failure}
      ensures repo.Quiet() && head == old(|repo.versions|) - 1 ==>
                answer == Changed && Latest() == WithReservation(old(Latest()), actionId, action, event)
      ensures AllResolve(repo.versions, repo.own, old(|repo.own|))
    {
      ReservationKeepsTheLog(repo.versions[head], actionId, action, event);
      var outcome := repo.CreateCommit(head, WithReservation(repo.versions[head], actionId, action, event));
      if outcome == Committed { assert ReservedBy(head + 1, actionId, action, event); }
      answer := match outcome case Committed => Changed case ParentConflict => Contended case Failed => Failure;
    }
  }

  /** The events of a version in their order; there is only one such list. */
  ghost predicate IsListing(ordered: seq<Event>, log: Log) {
    StrictlySorted(ordered) && forall e :: e in ordered <==> e in log.events.Values
  }

  /** `_load_events_at` followed by `ordered_events` */
  method LoadOrdered(log: Log) returns (r: Result<seq<Event>, Error>)
    ensures r.Ok? ==> IsListing(r.value, log)
    ensures Keyed(log) ==> r.Ok?
  {
    var remaining, loaded: seq<Event> := log.events.Keys, [];
    while remaining != {}
      invariant remaining <= log.events.Keys
      invariant forall e :: e in loaded <==> exists id :: id in log.events && id !in remaining && log.events[id] == e
      decreases |remaining|
    {
      var id :| id in remaining;
      ghost var before := remaining;
      remaining := remaining - {id};
      loaded := loaded + [log.events[id]];
      assert forall k :: k in log.events && k !in remaining <==> (k in log.events && k !in before) || k == id;
    }
    LoadedAreKeyed(log, loaded);
    r := OrderedEvents(loaded);
    if r.Ok? {
      SortSorts(Unique(loaded).value);
    }
  }

  lemma LoadedAreKeyed(log: Log, loaded: seq<Event>)
    requires forall e :: e in loaded <==> exists id :: id in log.events && log.events[id] == e
    ensures Keyed(log) ==> !Conflicting(loaded)
  {
    if Keyed(log) {
      forall i, j | 0 <= i < |loaded| && 0 <= j < |loaded| && loaded[i].eventId == loaded[j].eventId
        ensures loaded[i] == loaded[j]
      {
        assert loaded[i] in loaded && loaded[j] in loaded;
      }
    }
  }

  /** The loop of `_cleanup_failed_wave_ids`. */
  function WaveStates(ordered: seq<Event>): map<string, WaveState> {
    if ordered == [] then map[] else
      var states, e := WaveStates(ordered[..|ordered| - 1]), ordered[|ordered| - 1];
      match e.kind
      case Wave(state) => states[e.subjectId := state]
      case ManualResolved(waves) =>
        map w | w in states :: if w in waves && states[w] == WaveCleanupFailed then WaveClosed else states[w]
      case _ => states
  }

  /** `_cleanup_failed_wave_ids` */
  function CleanupFailedWaves(ordered: seq<Event>): set<string> {
    var states := WaveStates(ordered);
    set w | w in states && states[w] == WaveCleanupFailed
  }

  predicate Reports(e: Event, w: string) {
    (e.kind.Wave? && e.subjectId == w) || (e.kind.ManualResolved? && w in e.kind.waveIds)
  }

  /** A wave still needs an operator exactly when its cleanup failed and nothing later
      reported on that wave: neither a new state of it nor a resolution that lists it. */
  lemma {:induction false} CleanupFailedMeansUnresolved(ordered: seq<Event>, w: string)
    ensures w in CleanupFailedWaves(ordered) <==>
            exists i :: 0 <= i < |ordered| && ordered[i].kind == Wave(WaveCleanupFailed) && ordered[i].subjectId == w
                        && forall j | i < j < |ordered| :: !Reports(ordered[j], w)
  {
    if ordered != [] {
      var front, last := ordered[..|ordered| - 1], ordered[|ordered| - 1];
      CleanupFailedMeansUnresolved(front, w);
      if last.kind == Wave(WaveCleanupFailed) && last.subjectId == w {
        assert ordered[|ordered| - 1].subjectId == w;
      } else if w in CleanupFailedWaves(front) && !Reports(last, w) {
        var i :| 0 <= i < |front| && front[i].kind == Wave(WaveCleanupFailed) && front[i].subjectId == w
                 && forall j | i < j < |front| :: !Reports(front[j], w);
        assert ordered[i] == front[i];
        assert forall j | i < j < |ordered| :: ordered[j] == if j < |front| then front[j] else last;
      } else {
        forall i | 0 <= i < |ordered| && ordered[i].kind == Wave(WaveCleanupFailed) && ordered[i].subjectId == w
          ensures exists j :: i < j < |ordered| && Reports(ordered[j], w)
        {
          assert ordered[i] == front[i];
          if !Reports(last, w) {
            var j :| i < j < |front| && Reports(front[j], w);
            assert ordered[j] == front[j];
          } else {
            assert Reports(ordered[|ordered| - 1], w);
          }
        }
      }
    }
  }

  /** The first `offset` missing events are in, the others are not, and nothing that was
      there at the start has changed. */
  ghost predicate Carries(log: Log, start: map<string, Event>, missing: seq<Event>, offset: nat) {
    && (forall id | id in start :: id in log.events && log.events[id] == start[id])
    && (forall k | 0 <= k < |missing| :: missing[k].eventId in log.events <==> k < offset)
    && (forall k | 0 <= k < |missing| && k < offset :: log.events[missing[k].eventId] == missing[k])
  }

  lemma BatchCarries(log: Log, start: map<string, Event>, missing: seq<Event>, offset: nat, end: nat)
    requires DistinctIds(missing) && offset <= end <= |missing| && Carries(log, start, missing, offset)
    ensures forall e | e in missing[offset..end] :: e in missing && e.eventId !in log.events
    ensures Carries(WithEvents(log, missing[offset..end], false), start, missing, end)
  {
    BatchIsNew(log, start, missing, offset, end);
    var next := WithEvents(log, missing[offset..end], false);
    forall k | 0 <= k < |missing|
      ensures missing[k].eventId in next.events <==> k < end
      ensures k < end ==> next.events[missing[k].eventId] == missing[k]
    {
      BatchAdds(log, start, missing, offset, end, k);
    }
  }

  lemma BatchIsNew(log: Log, start: map<string, Event>, missing: seq<Event>, offset: nat, end: nat)
    requires offset <= end <= |missing| && Carries(log, start, missing, offset)
    ensures forall e | e in missing[offset..end] :: e in missing && e.eventId !in log.events
  {
    var batch := missing[offset..end];
    forall e | e in batch ensures e in missing && e.eventId !in log.events {
      var k :| 0 <= k < |batch| && batch[k] == e;
      assert missing[offset + k] == e;
    }
  }

  lemma BatchAdds(log: Log, start: map<string, Event>, missing: seq<Event>, offset: nat, end: nat, k: nat)
    requires DistinctIds(missing) && offset <= end <= |missing| && Carries(log, start, missing, offset) && k < |missing|
    ensures var next := WithEvents(log, missing[offset..end], false);
            && (missing[k].eventId in next.events <==> k < end)
            && (k < end ==> next.events[missing[k].eventId] == missing[k])
  {
    BatchHas(missing, offset, end, k);
    BatchIsDistinct(missing, offset, end);
  }

  lemma BatchIsDistinct(missing: seq<Event>, offset: nat, end: nat)
    requires DistinctIds(missing) && offset <= end <= |missing|
    ensures DistinctIds(missing[offset..end])
  {
    var batch := missing[offset..end];
    forall i, j | 0 <= i < j < |batch| ensures batch[i].eventId != batch[j].eventId {
      assert batch[i] == missing[offset + i] && batch[j] == missing[offset + j];
    }
  }

  lemma BatchHas(missing: seq<Event>, offset: nat, end: nat, k: nat)
    requires DistinctIds(missing) && offset <= end <= |missing| && k < |missing|
    ensures missing[k] in missing[offset..end] <==> offset <= k < end
    ensures !(offset <= k < end) ==> forall e | e in missing[offset..end] :: e.eventId != missing[k].eventId
  {
    var batch := missing[offset..end];
    if offset <= k < end { assert batch[k - offset] == missing[k]; }
    forall e | e in batch ensures exists l :: offset <= l < end && missing[l] == e {
      var l :| 0 <= l < |batch| && batch[l] == e;
      assert missing[offset + l] == e;
    }
  }

  lemma NothingMissing(events: seq<Event>, log: Log, missing: seq<Event>)
    requires forall e | e in events :: !Conflicts(log, e)
    requires forall e :: e in missing <==> e in events && e.eventId !in log.events
    ensures missing == [] <==> forall e | e in events :: Present(log, e)
  {
    if missing != [] { assert missing[0] in missing && !Present(log, missing[0]); }
  }

  /** After the missing events are added, every requested one is there. */
  lemma MissingAdded(events: seq<Event>, log: Log, missing: seq<Event>, guard: bool)
    requires DistinctIds(missing)
    requires forall e :: e in missing <==> e in events && e.eventId !in log.events
    requires forall e | e in events :: !Conflicts(log, e)
    ensures forall e | e in events :: Present(WithEvents(log, missing, guard), e)
  {
    forall e | e in events ensures Present(WithEvents(log, missing, guard), e) {
      if e.eventId in log.events {
        assert forall x | x in missing :: x.eventId != e.eventId;
      }
    }
  }

  lemma GuardedCommit(step: (Log, Log) -> bool, events: seq<Event>, log: Log, missing: seq<Event>)
    requires Follows(step) && DistinctIds(missing) && AllTrialTerminal(events) && log.marker.None?
    requires forall e :: e in missing <==> e in events && e.eventId !in log.events
    requires forall e | e in events :: !Conflicts(log, e)
    ensures var next := WithEvents(log, missing, true);
            step(log, next) && next.marker.None? && AllPresent(next, events) && ResolutionStep(log, next)
  {
    MissingAdded(events, log, missing, true);
    MayAddEvents(step, log, missing, true);
    OrdinaryBatchResolves(log, missing, true);
  }

  /** Every event that a version holds, under its own record or an equal request, is still
      there at the latest version. */
  lemma PresentFrom(step: (Log, Log) -> bool, vs: seq<Log>, i: nat, events: seq<Event>)
    requires Follows(step) && IsHistory(step, vs) && i < |vs|
    requires AllPresent(vs[i], events)
    ensures AllPresent(vs[|vs| - 1], events)
  {
    forall e | e in events ensures Present(vs[|vs| - 1], e) {
      LogIsWriteOnce(step, vs, i, |vs| - 1, e.eventId);
    }
  }
}
