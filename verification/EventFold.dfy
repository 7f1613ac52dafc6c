/** `project_campaign` (control.py): the campaign state machine folded over events that
    arrive in any order and with repeats. */
module EventFold {
  import opened Common
  import opened TextOrder

  datatype Status =
    | Queued | Active | CancelRequested | Draining | ManualIntervention
    | Completed | Partial | Failed | Cancelled

  datatype ActionStatus = Reserved | Succeeded | ActionFailed | Ambiguous

  datatype Action = Action(request: string, status: ActionStatus, remoteId: Option<string>, message: Option<string>)

  /** An event kind with the part of its payload that the fold reads. */
  datatype Kind =
    | Submitted(planDigest: string)
    | CancelRequest
    | ShardRetryRequest
    | StartDraining
    | ManualRequired(parentId: string)  // "" when the payload names no parent
    | ManualResolved(waveIds: set<string>)
    | Terminal(status: Status)
    | ActionReserved(actionId: string, request: string)
    | ActionOutcome(actionId: string, outcome: ActionStatus, remoteId: Option<string>, message: Option<string>)
    | SpendRecorded
    | Wave(state: WaveState)
    | TrialTerminal  // trial.invalid or trial.failed-infrastructure
    | ExecutionStopped  // execution.failed or execution.cancelled
    | Lifecycle  // the other run, shard, trial and execution events

  datatype WaveState = WaveDraining | WaveCleaning | WaveClosed | WaveCleanupFailed | WaveOther

  datatype Producer = Reconciler | OtherProducer

  /** `payload` is the part of the payload and of the kind that nothing below depends on. */
  datatype Event = Event(
    eventId: string, campaignSubject: bool, subjectId: string, kind: Kind, observedAt: int,
    producer: Producer, payload: string)

  datatype Lock = Lock(campaignId: string, planDigest: string)

  datatype Error =
    | ConflictingRecords | NoSubmission | SubmissionMismatch | AfterTerminal | WrongSubject
    | MultipleSubmissions | NotRequired | ReservedTwice | NoReservation | MultipleOutcomes
    | RemoteChanged | PayloadHasNoAction

  datatype State = State(
    status: Status, previous: Option<Status>, requirements: set<string>, actions: map<string, Action>)

  datatype Projection = Projection(
    campaignId: string, planDigest: string, status: Status, eventCount: nat, lastObservedAt: int,
    actions: map<string, Action>)

  /** What the event model's own validation guarantees (control.py:157-246). */
  predicate WellFormed(e: Event) {
    match e.kind
    case Wave(_) => !e.campaignSubject
    case TrialTerminal => !e.campaignSubject
    case ExecutionStopped => !e.campaignSubject
    case Lifecycle => !e.campaignSubject
    case ManualResolved(waveIds) => e.campaignSubject && waveIds != {}
    case SpendRecorded => true
    case Terminal(s) => e.campaignSubject && IsTerminal(s)
    case ActionOutcome(_, o, _, _) => e.campaignSubject && o != Reserved
    case _ => e.campaignSubject
  }

  predicate IsTerminal(s: Status) {
    s in {Completed, Partial, Failed, Cancelled}
  }

  // ---------- one event ----------

  /** `_manual_return_status` */
  function ManualReturnStatus(kind: Kind, status: Status, previous: Option<Status>): Option<Status> {
    if kind.ManualRequired? && status != ManualIntervention then Some(status)
    else if kind.CancelRequest? && status == ManualIntervention && previous != Some(Draining) then Some(CancelRequested)
    else if kind.StartDraining? && status == ManualIntervention then Some(Draining)
    else previous
  }

  /** `_update_manual_requirements` */
  function UpdateRequirements(e: Event, requirements: set<string>): set<string> {
    match e.kind
    case ManualRequired(parent) => requirements + {if parent != "" then parent else e.eventId}
    case ManualResolved(waves) => requirements - waves
    case _ => requirements
  }

  /** `_resolve_manual_intervention` */
  function ResolveManual(status: Status, previous: Option<Status>): Result<Status, Error> {
    if status != ManualIntervention then Err(NotRequired)
    else if previous == Some(CancelRequested) || previous == Some(Draining) then Ok(previous.value)
    else Ok(Active)
  }

  /** `_apply_action_event` */
  function ApplyAction(kind: Kind, actions: map<string, Action>): Result<map<string, Action>, Error>
    requires kind.ActionReserved? || kind.ActionOutcome?
  {
    match ActionStep(kind, Lookup(actions, kind.actionId))
    case Ok(action) => Ok(actions[kind.actionId := action])
    case Err(e) => Err(e)
  }

  /** The automaton of one action. */
  function ActionStep(kind: Kind, action: Option<Action>): Result<Action, Error>
    requires kind.ActionReserved? || kind.ActionOutcome?
  {
    if kind.ActionReserved? then
      if action.Some? then Err(ReservedTwice) else Ok(Action(kind.request, Reserved, None, None))
    else if action.None? then Err(NoReservation)
    else if action.value.status !in {Reserved, Ambiguous} then Err(MultipleOutcomes)
    else if action.value.status == Ambiguous && kind.outcome == Ambiguous then
      if action.value.remoteId.Some? && kind.remoteId.Some? && action.value.remoteId != kind.remoteId then Err(RemoteChanged)
      else Ok(action.value.(message := kind.message, remoteId := if kind.remoteId.Some? then kind.remoteId else action.value.remoteId))
    else Ok(action.value.(status := kind.outcome, message := kind.message, remoteId := kind.remoteId))
  }

  /** `_apply_event`, with the status and actions it leaves. */
  function ApplyEvent(
    lock: Lock, e: Event, status: Status, actions: map<string, Action>, previous: Option<Status>, remaining: bool
  ): Result<(Status, map<string, Action>), Error>
  {
    if !e.campaignSubject || e.subjectId != lock.campaignId then Err(WrongSubject)
    else match e.kind
      case Submitted(_) => Err(MultipleSubmissions)
      case ShardRetryRequest => Ok((if status == Queued then Active else status, actions))
      case CancelRequest =>
        Ok((if status == Draining || status == ManualIntervention then status else CancelRequested, actions))
      case StartDraining => Ok((if status == ManualIntervention then status else Draining, actions))
      case ManualRequired(_) => Ok((ManualIntervention, actions))
      case ManualResolved(_) =>
        if remaining then Ok((ManualIntervention, actions))
        else (match ResolveManual(status, previous)
          case Ok(s) => Ok((s, actions))
          case Err(error) => Err(error))
      case Terminal(s) => Ok((s, actions))
      case SpendRecorded => Err(PayloadHasNoAction)
      case Wave(_) => Err(PayloadHasNoAction)
      case TrialTerminal => Err(PayloadHasNoAction)
      case ExecutionStopped => Err(PayloadHasNoAction)
      case Lifecycle => Err(PayloadHasNoAction)
      case _ =>
        match ApplyAction(e.kind, actions)
        case Ok(next) => Ok((if status == Queued then Active else status, next))
        case Err(error) => Err(error)
  }

  /** One turn of the loop of `project_campaign`. */
  function Step(lock: Lock, s: State, e: Event): Result<State, Error> {
    if IsTerminal(s.status) then Err(AfterTerminal)
    else if !e.campaignSubject then Ok(s)
    else
      var previous := ManualReturnStatus(e.kind, s.status, s.previous);
      var requirements := UpdateRequirements(e, s.requirements);
      match ApplyEvent(lock, e, s.status, s.actions, previous, requirements != {})
      case Err(error) => Err(error)
      case Ok(r) =>
        var resolved := e.kind.ManualResolved? && requirements == {};
        Ok(State(r.0, if resolved then None else previous, requirements, r.1))
  }

  // ---------- a whole history ----------

  const START := State(Queued, None, {}, map[])

  predicate Opens(lock: Lock, e: Event) {
    e.kind == Submitted(lock.planDigest) && e.campaignSubject && e.subjectId == lock.campaignId
  }

  /** The state after an ordered history. */
  function Run(lock: Lock, ordered: seq<Event>): Result<State, Error> {
    if ordered == [] then Err(NoSubmission)
    else if |ordered| == 1 then (if Opens(lock, ordered[0]) then Ok(START) else Err(SubmissionMismatch))
    else
      match Run(lock, ordered[..|ordered| - 1])
      case Ok(s) => Step(lock, s, ordered[|ordered| - 1])
      case Err(e) => Err(e)
  }

  lemma RunOneMore(lock: Lock, ordered: seq<Event>, i: nat, s: State)
    requires 1 <= i < |ordered| && Run(lock, ordered[..i]) == Ok(s)
    ensures Run(lock, ordered[..i + 1]) == Step(lock, s, ordered[i])
  {
    assert ordered[..i + 1][..i] == ordered[..i];
  }

  /** The status that counts underneath a manual intervention. */
  function Effective(s: State): Status {
    if s.status == ManualIntervention && s.previous.Some? then s.previous.value else s.status
  }

  function Rank(s: Status): nat {
    match s
    case Queued => 0
    case Active => 1
    case CancelRequested => 2
    case Draining => 3
    case _ => 4
  }

  /** A campaign waits for an operator exactly while some requirement is outstanding, and
      only then remembers the live status to go back to. */
  predicate Coherent(s: State) {
    !IsTerminal(s.status) ==>
      && (s.status == ManualIntervention <==> s.requirements != {})
      && (s.status == ManualIntervention <==> s.previous.Some?)
      && (s.previous.Some? ==> s.previous.value in {Queued, Active, CancelRequested, Draining})
  }

  lemma StepKeeps(lock: Lock, s: State, e: Event)
    requires Coherent(s) && Step(lock, s, e).Ok? && WellFormed(e)
    ensures Coherent(Step(lock, s, e).value)
    ensures Rank(Effective(s)) <= Rank(Effective(Step(lock, s, e).value))
  {
    if e.campaignSubject {
      match e.kind
      case ManualRequired(parent) =>
        assert (if parent != "" then parent else e.eventId) in UpdateRequirements(e, s.requirements);
      case _ =>
    }
  }

  predicate AllWellFormed(events: seq<Event>) {
    forall e | e in events :: WellFormed(e)
  }

  lemma {:induction false} HistoryIsCoherent(lock: Lock, ordered: seq<Event>)
    requires Run(lock, ordered).Ok? && AllWellFormed(ordered)
    ensures Coherent(Run(lock, ordered).value)
  {
    if |ordered| > 1 {
      HistoryIsCoherent(lock, ordered[..|ordered| - 1]);
      StepKeeps(lock, Run(lock, ordered[..|ordered| - 1]).value, ordered[|ordered| - 1]);
    }
  }

  lemma {:induction false} PrefixAccepted(lock: Lock, ordered: seq<Event>, i: nat)
    requires Run(lock, ordered).Ok? && 1 <= i <= |ordered|
    ensures Run(lock, ordered[..i]).Ok?
    ensures i < |ordered| ==> !IsTerminal(Run(lock, ordered[..i]).value.status)
  {
    if i == |ordered| {
      assert ordered[..i] == ordered;
    } else {
      var front := ordered[..|ordered| - 1];
      PrefixAccepted(lock, front, i);
      assert front[..i] == ordered[..i];
    }
  }

  /** Later events never undo progress: over any accepted history the effective status
      moves queued, active, cancel requested, draining, terminal in that order only. */
  lemma {:induction false} EffectiveStatusNeverFallsBack(lock: Lock, ordered: seq<Event>, i: nat)
    requires Run(lock, ordered).Ok? && AllWellFormed(ordered) && 1 <= i <= |ordered|
    ensures Run(lock, ordered[..i]).Ok?
    ensures Rank(Effective(Run(lock, ordered[..i]).value)) <= Rank(Effective(Run(lock, ordered).value))
  {
    if i == |ordered| {
      assert ordered[..i] == ordered;
    } else {
      var front := ordered[..|ordered| - 1];
      EffectiveStatusNeverFallsBack(lock, front, i);
      assert front[..i] == ordered[..i];
      HistoryIsCoherent(lock, front);
      StepKeeps(lock, Run(lock, front).value, ordered[|ordered| - 1]);
    }
  }

  /** Once cancellation is requested or draining begins, the campaign is never queued or
      active again, through any nesting of manual interventions; and when the last
      requirement is resolved it returns to the cancellation or the drain. */
  lemma CancellationSticks(lock: Lock, ordered: seq<Event>, i: nat)
    requires Run(lock, ordered).Ok? && AllWellFormed(ordered)
    requires 1 <= i < |ordered| && ordered[i].campaignSubject
    requires ordered[i].kind.CancelRequest? || ordered[i].kind.StartDraining?
    ensures var s := Run(lock, ordered).value;
            && s.status != Queued && s.status != Active
            && (s.status == ManualIntervention ==> s.previous == Some(CancelRequested) || s.previous == Some(Draining))
            && (ordered[i].kind.StartDraining? && !IsTerminal(s.status) ==> Effective(s) == Draining)
  {
    PrefixAccepted(lock, ordered, i);
    PrefixAccepted(lock, ordered, i + 1);
    RunOneMore(lock, ordered, i, Run(lock, ordered[..i]).value);
    HistoryIsCoherent(lock, ordered[..i]);
    HistoryIsCoherent(lock, ordered);
    RequestRaises(lock, Run(lock, ordered[..i]).value, ordered[i]);
    EffectiveStatusNeverFallsBack(lock, ordered, i + 1);
    RankedStatus(Run(lock, ordered).value);
  }

  lemma RequestRaises(lock: Lock, s: State, e: Event)
    requires Coherent(s) && Step(lock, s, e).Ok? && e.campaignSubject && (e.kind.CancelRequest? || e.kind.StartDraining?)
    ensures Rank(Effective(Step(lock, s, e).value)) >= if e.kind.StartDraining? then 3 else 2
  {
  }

  /** What a coherent state of such a rank can be. */
  lemma RankedStatus(s: State)
    requires Coherent(s)
    ensures Rank(Effective(s)) >= 2 ==> s.status != Queued && s.status != Active
    ensures Rank(Effective(s)) >= 2 && s.status == ManualIntervention ==> s.previous == Some(CancelRequested) || s.previous == Some(Draining)
    ensures Rank(Effective(s)) >= 3 && !IsTerminal(s.status) ==> Effective(s) == Draining
  {
  }

  // ---------- spending reports ----------

  /** A spending report about the campaign itself has no action to read. */
  predicate StopsProjection(e: Event) {
    e.kind.SpendRecorded? && e.campaignSubject
  }

  /** No history with such a report is ever accepted. */
  lemma {:induction false} CampaignSpendIsNeverAccepted(lock: Lock, ordered: seq<Event>, i: nat)
    requires i < |ordered| && StopsProjection(ordered[i])
    ensures Run(lock, ordered).Err?
  {
    if |ordered| > 1 {
      if i < |ordered| - 1 {
        CampaignSpendIsNeverAccepted(lock, ordered[..|ordered| - 1], i);
      }
    }
  }

  /** A spending report about anything else, put anywhere after the submission, changes no
      status, action or error; but at the very end of a finished campaign it is one event
      too many, as any other event would be. */
  lemma {:induction false} OtherSpendChangesNothing(lock: Lock, before: seq<Event>, e: Event, after: seq<Event>)
    requires before != [] && !e.campaignSubject
    ensures Run(lock, before + [e] + after) == Run(lock, before + after) <==>
            !(after == [] && Run(lock, before).Ok? && IsTerminal(Run(lock, before).value.status))
  {
    if after == [] {
      assert (before + [e])[..|before|] == before;
      assert before + [e] + after == before + [e] && before + after == before;
    } else {
      var less, last := after[..|after| - 1], after[|after| - 1];
      assert (before + [e] + after)[..|before + [e] + after| - 1] == before + [e] + less;
      assert (before + after)[..|before + after| - 1] == before + less;
      OtherSpendChangesNothing(lock, before, e, less);
      if less == [] {
        assert before + [e] + less == before + [e] && before + less == before;
        assert (before + [e])[..|before|] == before;
      }
    }
  }

  const LOCK := Lock("c", "p")
  const SUBMISSION := Event("evt-00000000000000000000000000000001", true, "c", Submitted("p"), 0, OtherProducer, "")
  const SPEND := Event("evt-00000000000000000000000000000002", true, "c", SpendRecorded, 1, OtherProducer, "")

  /** A well-formed log of two events that cannot be projected. */
  lemma CampaignSpendStopsTheProjection()
    ensures WellFormed(SUBMISSION) && WellFormed(SPEND)
    ensures Run(LOCK, [SUBMISSION, SPEND]) == Err(PayloadHasNoAction)
  {
    assert [SUBMISSION, SPEND][..1] == [SUBMISSION];
  }

  // ---------- one action inside a history ----------

  predicate Concerns(e: Event, id: string) {
    && e.campaignSubject
    && (e.kind.ActionReserved? || e.kind.ActionOutcome?)
    && e.kind.actionId == id
  }

  /** The events of one action, in order. */
  function Trace(ordered: seq<Event>, id: string): (t: seq<Event>)
    ensures forall e | e in t :: Concerns(e, id)
  {
    if ordered == [] then [] else
      var last := ordered[|ordered| - 1];
      Trace(ordered[..|ordered| - 1], id) + (if Concerns(last, id) then [last] else [])
  }

  /** One reservation first, then ambiguous reports about one remote identity, then at
      most one final outcome. */
  predicate LegalTrace(t: seq<Event>) {
    && (t != [] ==> t[0].kind.ActionReserved?)
    && (forall k | 0 < k < |t| :: t[k].kind.ActionOutcome? && t[k].kind.outcome != Reserved)
    && (forall k | 0 < k < |t| - 1 :: t[k].kind.outcome == Ambiguous)
  }

  /** What a legal trace leaves of its action. */
  predicate Summarises(a: Option<Action>, t: seq<Event>) {
    && (a.None? <==> t == [])
    && (a.Some? && |t| == 1 && t[0].kind.ActionReserved? ==> a.value.status == Reserved && a.value.remoteId == None)
    && (a.Some? && |t| > 1 && t[|t| - 1].kind.ActionOutcome? ==> a.value.status == t[|t| - 1].kind.outcome)
    && (a.Some? && t[0].kind.ActionReserved? ==> a.value.request == t[0].kind.request)
  }

  /** Every accepted history gives every action a legal life, read off its own events
      alone, whatever else happened in between. */
  lemma {:induction false} ActionsLiveLegally(lock: Lock, ordered: seq<Event>, id: string)
    requires Run(lock, ordered).Ok?
    requires AllWellFormed(ordered)
    ensures LegalTrace(Trace(ordered, id))
    ensures Summarises(Lookup(Run(lock, ordered).value.actions, id), Trace(ordered, id))
  {
    if |ordered| == 1 {
      assert Trace(ordered[..0], id) == [];
    } else {
      var front, last := ordered[..|ordered| - 1], ordered[|ordered| - 1];
      ActionsLiveLegally(lock, front, id);
      ActionStepKeeps(lock, Run(lock, front).value, last, id, Trace(front, id));
    }
  }

  lemma ActionStepKeeps(lock: Lock, s: State, e: Event, id: string, t: seq<Event>)
    requires Step(lock, s, e).Ok? && WellFormed(e)
    requires LegalTrace(t) && Summarises(Lookup(s.actions, id), t)
    ensures var t' := t + (if Concerns(e, id) then [e] else []);
            LegalTrace(t') && Summarises(Lookup(Step(lock, s, e).value.actions, id), t')
  {
    if Concerns(e, id) {
      assert ActionStep(e.kind, Lookup(s.actions, id)).Ok?;
      assert (t + [e])[|t|] == e;
    } else {
      assert t + [] == t;
      assert Lookup(Step(lock, s, e).value.actions, id) == Lookup(s.actions, id);
    }
  }

  // ---------- the order of events ----------

  /** Events in (observed_at, event_id) order. */
  predicate Before(a: Event, b: Event) {
    a.observedAt < b.observedAt || (a.observedAt == b.observedAt && StringLess(a.eventId, b.eventId))
  }

  ghost predicate StrictlySorted(s: seq<Event>) {
    forall i, j | 0 <= i < j < |s| :: Before(s[i], s[j])
  }

  /** Two strictly sorted lists of the same events are the same list. */
  lemma {:induction false} SortingIsUnique(a: seq<Event>, b: seq<Event>)
    requires StrictlySorted(a) && StrictlySorted(b)
    requires forall e :: e in a <==> e in b
    ensures a == b
    decreases |a|
  {
    assert b == [] || b[0] in a;
    if a != [] {
      assert a[0] in b;
      var i :| 0 <= i < |b| && b[i] == a[0];
      var j :| 0 <= j < |a| && a[j] == b[0];
      if i > 0 {
        Asymmetric(a[0], b[0]);
      }
      assert a[0] == b[0];
      forall e ensures e in a[1..] <==> e in b[1..] {
        TailMembers(a, e);
        TailMembers(b, e);
      }
      SortingIsUnique(a[1..], b[1..]);
      assert a == [a[0]] + a[1..] && b == [b[0]] + b[1..];
    }
  }

  lemma Asymmetric(a: Event, b: Event)
    ensures !(Before(a, b) && Before(b, a)) && !Before(a, a)
  {
    StringOrder(a.eventId, b.eventId, a.eventId);
  }

  lemma TailMembers(s: seq<Event>, e: Event)
    requires s != [] && StrictlySorted(s)
    ensures e in s[1..] <==> e in s && e != s[0]
  {
    Asymmetric(e, e);
    if e in s && e != s[0] {
      var k :| 0 <= k < |s| && s[k] == e;
      assert s[1..][k - 1] == e;
    }
  }

  /** The dictionary pass of `ordered_events`: the first copy of each event, or nothing
      when one ID carries two different records. */
  function Unique(events: seq<Event>): (r: Option<seq<Event>>)
    ensures r.Some? <==> !Conflicting(events)
    ensures r.Some? ==> (forall e :: e in r.value <==> e in events) && DistinctIds(r.value)
  {
    if events == [] then Some([]) else
      var last := events[|events| - 1];
      assert events == events[..|events| - 1] + [last];
      var front := Unique(events[..|events| - 1]);
      if front.None? then None
      else if exists k :: 0 <= k < |front.value| && front.value[k].eventId == last.eventId && front.value[k] != last then
        var k :| 0 <= k < |front.value| && front.value[k].eventId == last.eventId && front.value[k] != last;
        ConflictWitness(events, front.value[k], last);
        None
      else
        NoNewConflict(events[..|events| - 1], front.value, last);
        if last in front.value then front else Some(front.value + [last])
  }

  lemma NoNewConflict(front: seq<Event>, values: seq<Event>, last: Event)
    requires !Conflicting(front) && forall e | e in front :: e in values
    requires forall k | 0 <= k < |values| :: values[k].eventId == last.eventId ==> values[k] == last
    ensures !Conflicting(front + [last])
  {
    forall i, j | 0 <= i < |front + [last]| && 0 <= j < |front + [last]|
      ensures (front + [last])[i].eventId == (front + [last])[j].eventId ==> (front + [last])[i] == (front + [last])[j]
    {
      if i < |front| { assert front[i] in values; }
      if j < |front| { assert front[j] in values; }
    }
  }

  lemma ConflictWitness(events: seq<Event>, a: Event, b: Event)
    requires a in events && b in events && a.eventId == b.eventId && a != b
    ensures Conflicting(events)
  {
    var i :| 0 <= i < |events| && events[i] == a;
    var j :| 0 <= j < |events| && events[j] == b;
  }

  predicate Conflicting(events: seq<Event>) {
    exists i, j :: 0 <= i < |events| && 0 <= j < |events| && events[i].eventId == events[j].eventId && events[i] != events[j]
  }

  predicate DistinctIds(events: seq<Event>) {
    forall i, j | 0 <= i < j < |events| :: events[i].eventId != events[j].eventId
  }

  function Insert(e: Event, s: seq<Event>): (r: seq<Event>)
    ensures forall x :: x in r <==> x in s || x == e
  {
    if s == [] || Before(e, s[0]) then [e] + s else
      assert s == [s[0]] + s[1..];
      [s[0]] + Insert(e, s[1..])
  }

  function Sort(s: seq<Event>): (r: seq<Event>)
    ensures forall x :: x in r <==> x in s
  {
    if s == [] then [] else
      assert s == s[..|s| - 1] + [s[|s| - 1]];
      Insert(s[|s| - 1], Sort(s[..|s| - 1]))
  }

  lemma {:induction false} InsertSorts(e: Event, s: seq<Event>)
    requires StrictlySorted(s) && forall x | x in s :: x.eventId != e.eventId
    ensures StrictlySorted(Insert(e, s))
  {
    if s != [] {
      StringOrder(e.eventId, s[0].eventId, e.eventId);
      if Before(e, s[0]) {
        forall x | x in s ensures Before(e, x) {
          var k :| 0 <= k < |s| && s[k] == x;
          StringOrder(e.eventId, s[0].eventId, x.eventId);
        }
      } else {
        InsertSorts(e, s[1..]);
        forall x | x in Insert(e, s[1..]) ensures Before(s[0], x) {
          StringOrder(s[0].eventId, e.eventId, s[0].eventId);
          if x != e { var k :| 0 <= k < |s[1..]| && s[1..][k] == x; assert s[k + 1] == x; }
        }
      }
    }
  }

  lemma {:induction false} SortSorts(s: seq<Event>)
    requires DistinctIds(s)
    ensures StrictlySorted(Sort(s))
  {
    if s != [] {
      SortSorts(s[..|s| - 1]);
      InsertSorts(s[|s| - 1], Sort(s[..|s| - 1]));
    }
  }

  /** `ordered_events` */
  function OrderedEvents(events: seq<Event>): Result<seq<Event>, Error> {
    match Unique(events)
    case None => Err(ConflictingRecords)
    case Some(values) => Ok(Sort(values))
  }

  /** `project_campaign` */
  function Project(lock: Lock, events: seq<Event>): Result<Projection, Error> {
    match OrderedEvents(events)
    case Err(e) => Err(e)
    case Ok(ordered) =>
      match Run(lock, ordered)
      case Err(e) => Err(e)
      case Ok(s) =>
        assert ordered != [];
        Ok(Projection(lock.campaignId, lock.planDigest, s.status, |ordered|, ordered[|ordered| - 1].observedAt, s.actions))
  }

  /** Any two lists holding the same events, in any order and with any repeats, project to
      the same result: the same projection or the same error. */
  lemma OrderAndRepeatsDoNotMatter(lock: Lock, a: seq<Event>, b: seq<Event>)
    requires forall e :: e in a <==> e in b
    ensures Project(lock, a) == Project(lock, b)
  {
    SameConflicts(a, b);
    SameConflicts(b, a);
    if !Conflicting(a) {
      SortSorts(Unique(a).value);
      SortSorts(Unique(b).value);
      SortingIsUnique(Sort(Unique(a).value), Sort(Unique(b).value));
    }
  }

  lemma SameConflicts(a: seq<Event>, b: seq<Event>)
    requires forall e :: e in a <==> e in b
    ensures Conflicting(a) ==> Conflicting(b)
  {
    if Conflicting(a) {
      var i, j :| 0 <= i < |a| && 0 <= j < |a| && a[i].eventId == a[j].eventId && a[i] != a[j];
      ConflictWitness(b, a[i], a[j]);
    }
  }

  /** Whatever else a campaign's log holds, such a report makes it unreadable. */
  lemma CampaignSpendIsNeverProjected(lock: Lock, events: seq<Event>, e: Event)
    requires e in events && StopsProjection(e)
    ensures Project(lock, events).Err?
  {
    if !Conflicting(events) {
      var ordered := Sort(Unique(events).value);
      assert e in ordered;
      var i :| 0 <= i < |ordered| && ordered[i] == e;
      CampaignSpendIsNeverAccepted(lock, ordered, i);
    }
  }
}
