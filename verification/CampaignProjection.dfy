/** The loops of `project_campaign` and `ordered_events` (control.py), proved to compute the
    fold, and so what its reading says. */
module CampaignProjection {
  import opened Common
  import opened EventFold
  import opened CampaignReading

  /** The body of the loop of `project_campaign`. */
  method ProjectOne(
    lock: Lock, event: Event, status: Status, previous: Option<Status>, requirements: set<string>, actions: map<string, Action>)
    returns (error: Option<Error>, status': Status, previous': Option<Status>, requirements': set<string>, actions': map<string, Action>)
    ensures Step(lock, State(status, previous, requirements, actions), event) ==
            if error.Some? then Err(error.value) else Ok(State(status', previous', requirements', actions'))
  {
    error, status', previous', requirements', actions' := None, status, previous, requirements, actions;
    if IsTerminal(status) { return Some(AfterTerminal), status, previous, requirements, actions; }
    if !event.campaignSubject { return; }
    previous' := ManualReturnStatus(event.kind, status, previous);
    requirements' := UpdateRequirements(event, requirements);
    var applied := ApplyEvent(lock, event, status, actions, previous', requirements' != {});
    if applied.Err? {
      error := Some(applied.error);
      return;
    }
    status', actions' := applied.value.0, applied.value.1;
    if event.kind.ManualResolved? && requirements' == {} { previous' := None; }
  }

  /** The dictionary loop of `ordered_events`. */
  method CollectUnique(events: seq<Event>) returns (r: Option<seq<Event>>)
    ensures r == Unique(events)
  {
    var unique: map<string, Event> := map[];
    var values: seq<Event> := [];
    for i := 0 to |events|
      invariant Unique(events[..i]) == Some(values)
      invariant forall e | e in values :: e.eventId in unique && unique[e.eventId] == e
      invariant forall id | id in unique :: unique[id] in values && unique[id].eventId == id
    {
      var event := events[i];
      if event.eventId in unique && unique[event.eventId] != event {
        SecondRecord(events, i, values, unique[event.eventId]);
        return None;
      }
      NoSecondRecord(events, i, values);
      if event.eventId !in unique {
        values := values + [event];
      }
      unique := unique[event.eventId := event];
    }
    assert events[..|events|] == events;
    r := Some(values);
  }

  lemma SecondRecord(events: seq<Event>, i: nat, values: seq<Event>, other: Event)
    requires i < |events| && Unique(events[..i]) == Some(values)
    requires other in values && other.eventId == events[i].eventId && other != events[i]
    ensures Unique(events) == None
  {
    assert events[..i + 1][..i] == events[..i];
    var k :| 0 <= k < |values| && values[k] == other;
    StaysConflicting(events, i + 1);
  }

  lemma NoSecondRecord(events: seq<Event>, i: nat, values: seq<Event>)
    requires i < |events| && Unique(events[..i]) == Some(values)
    requires forall e | e in values && e.eventId == events[i].eventId :: e == events[i]
    ensures Unique(events[..i + 1]) == Some(if events[i] in values then values else values + [events[i]])
  {
    assert events[..i + 1][..i] == events[..i];
  }

  lemma {:induction false} StaysConflicting(events: seq<Event>, i: nat)
    requires i <= |events| && Unique(events[..i]) == None
    ensures Unique(events) == None
  {
    if i == |events| {
      assert events[..i] == events;
    } else {
      assert events[..|events| - 1][..i] == events[..i];
      StaysConflicting(events[..|events| - 1], i);
    }
  }

  /** `project_campaign`: the fold of the ordered events, which reads them as `IsReading` says. */
  method ProjectCampaign(lock: Lock, events: seq<Event>) returns (r: Result<Projection, Error>)
    ensures r == Project(lock, events)
    ensures AllWellFormed(events) ==> IsReading(lock, events, r)
  {
    if AllWellFormed(events) { ProjectedExactly(lock, events); }
    var unique := CollectUnique(events);
    if unique.None? { return Err(ConflictingRecords); }
    var ordered := Sort(unique.value);
    if ordered == [] { return Err(NoSubmission); }
    if !Opens(lock, ordered[0]) {
      OpeningDecides(lock, ordered);
      return Err(SubmissionMismatch);
    }
    var error, status, actions := ProjectOrdered(lock, ordered);
    if error.Some? { return Err(error.value); }
    r := Ok(Projection(lock.campaignId, lock.planDigest, status, |ordered|, ordered[|ordered| - 1].observedAt, actions));
  }

  /** The loop of `project_campaign`. */
  method ProjectOrdered(lock: Lock, ordered: seq<Event>)
    returns (error: Option<Error>, status: Status, actions: map<string, Action>)
    requires ordered != [] && Opens(lock, ordered[0])
    ensures error.Some? ==> Run(lock, ordered) == Err(error.value)
    ensures error.None? ==>
              Run(lock, ordered).Ok? && Run(lock, ordered).value.status == status && Run(lock, ordered).value.actions == actions
  {
    var previous, requirements: set<string> := None, {};
    error, status, actions := None, Queued, map[];
    assert ordered[..1] == [ordered[0]];
    for i := 1 to |ordered|
      invariant error.None? && Run(lock, ordered[..i]) == Ok(State(status, previous, requirements, actions))
    {
      RunOneMore(lock, ordered, i, State(status, previous, requirements, actions));
      error, status, previous, requirements, actions := ProjectOne(lock, ordered[i], status, previous, requirements, actions);
      if error.Some? {
        ErrorsStay(lock, ordered, i + 1);
        return;
      }
    }
    assert ordered[..|ordered|] == ordered;
  }

  lemma {:induction false} OpeningDecides(lock: Lock, ordered: seq<Event>)
    requires ordered != [] && !Opens(lock, ordered[0])
    ensures Run(lock, ordered) == Err(SubmissionMismatch)
  {
    if |ordered| > 1 { OpeningDecides(lock, ordered[..|ordered| - 1]); }
  }

  lemma {:induction false} ErrorsStay(lock: Lock, ordered: seq<Event>, i: nat)
    requires 1 <= i <= |ordered| && Run(lock, ordered[..i]).Err?
    ensures Run(lock, ordered) == Run(lock, ordered[..i])
  {
    if i == |ordered| {
      assert ordered[..i] == ordered;
    } else {
      assert ordered[..|ordered| - 1][..i] == ordered[..i];
      ErrorsStay(lock, ordered[..|ordered| - 1], i);
    }
  }
}
