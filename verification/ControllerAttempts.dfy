/** Physical controller attempts of one campaign: immutable reservations and recovery
    decisions (controller_status.py), and the watchdog that writes both
    (campaign_watchdog.py). */
module ControllerAttempts {
  import opened Common
  import opened OptimisticRepository

  /** `contract` is everything in a reservation that a replacement must carry over. */
  datatype Record =
    | Reservation(contract: string, attempt: nat, reservedAt: int)
    | Recovery(priorJobId: string, priorAttempt: nat, replacementAttempt: nat, checkpoint: string, decidedAt: int)

  datatype Path = AttemptPath(attempt: nat) | RecoveryPath(replacement: nat)

  /** The records of the campaign, its attempt limit, and (for the statements below, not a
      record) which reservations a watchdog committed. */
  datatype Tree = Tree(records: map<Path, Record>, maxAttempts: nat, watchdogMade: set<nat>)

  /** A watchdog reservation repeats its predecessor's contract and carries the time of an
      immutable decision to replace exactly that predecessor. */
  predicate Paired(t: Tree, n: nat, r: Record) {
    && r.Reservation? && 2 <= n <= t.maxAttempts
    && RecoveryPath(n) in t.records && t.records[RecoveryPath(n)].Recovery?
    && t.records[RecoveryPath(n)].priorAttempt == n - 1
    && t.records[RecoveryPath(n)].decidedAt == r.reservedAt
    && AttemptPath(n - 1) in t.records && t.records[AttemptPath(n - 1)].Reservation?
    && t.records[AttemptPath(n - 1)].contract == r.contract
  }

  /** What may be written at a path that is still free. */
  predicate Permitted(t: Tree, path: Path, r: Record, byWatchdog: bool) {
    match path
    case AttemptPath(n) =>
      && 1 <= n && r.Reservation? && r.attempt == n
      && (n == 1 || AttemptPath(n - 1) in t.records)
      && (byWatchdog ==> Paired(t, n, r))
    case RecoveryPath(n) =>
      2 <= n && r.Recovery? && r.replacementAttempt == n && r.priorAttempt == n - 1
  }

  predicate AttemptsStep(a: Tree, b: Tree) {
    && a.maxAttempts == b.maxAttempts && a.watchdogMade <= b.watchdogMade
    && (forall p | p in a.records :: p in b.records && b.records[p] == a.records[p])
    && (forall p | p in b.records && p !in a.records ::
          Permitted(a, p, b.records[p], p.AttemptPath? && p.attempt in b.watchdogMade - a.watchdogMade))
    && (forall n | n in b.watchdogMade && n !in a.watchdogMade :: AttemptPath(n) in b.records && AttemptPath(n) !in a.records)
  }

  // ---------- every run ----------

  /** `step` is AttemptsStep, looked into only where AttemptsStep is mentioned. */
  ghost predicate Follows(step: (Tree, Tree) -> bool) {
    forall a, b {:trigger AttemptsStep(a, b)} :: step(a, b) <==> AttemptsStep(a, b)
  }

  /** Records are never changed or removed. */
  lemma {:induction false} RecordStays(step: (Tree, Tree) -> bool, vs: seq<Tree>, i: nat, j: nat, p: Path)
    requires Follows(step) && IsHistory(step, vs) && i <= j < |vs|
    ensures vs[j].maxAttempts == vs[i].maxAttempts
    ensures p in vs[i].records ==> p in vs[j].records && vs[j].records[p] == vs[i].records[p]
    decreases j - i
  {
    if i < j {
      RecordStays(step, vs, i, j - 1, p);
      assert StepAt(step, vs, j) && AttemptsStep(vs[j - 1], vs[j]);
    }
  }

  /** In every interleaving the reserved attempts are 1..m without a gap, although each
      writer looked for the predecessor at an older head than the one it committed on. */
  lemma {:induction false} AttemptsHaveNoGap(vs: seq<Tree>, i: nat) returns (m: nat)
    requires IsHistory(AttemptsStep, vs) && i < |vs| && vs[0].records == map[]
    ensures forall n: nat :: AttemptPath(n) in vs[i].records <==> 1 <= n <= m
  {
    m := 0;
    if i > 0 {
      m := AttemptsHaveNoGap(vs, i - 1);
      var a, b := vs[i - 1], vs[i];
      assert StepAt(AttemptsStep, vs, i) && AttemptsStep(a, b);
      forall n: nat | AttemptPath(n) in b.records && AttemptPath(n) !in a.records ensures n == m + 1 {
        assert Permitted(a, AttemptPath(n), b.records[AttemptPath(n)], n in b.watchdogMade - a.watchdogMade);
        if n > 1 { assert AttemptPath(n - 1) in a.records; }
      }
      if AttemptPath(m + 1) in b.records { m := m + 1; }
    }
  }

  /** Every reservation a watchdog ever committed stays within the limit and paired with
      its recovery decision. */
  lemma {:induction false} WatchdogReservationsArePaired(vs: seq<Tree>, i: nat, n: nat)
    requires IsHistory(AttemptsStep, vs) && i < |vs| && vs[0].watchdogMade == {}
    requires n in vs[i].watchdogMade
    ensures AttemptPath(n) in vs[i].records && Paired(vs[i], n, vs[i].records[AttemptPath(n)])
  {
    if i > 0 {
      var a, b := vs[i - 1], vs[i];
      assert StepAt(AttemptsStep, vs, i) && AttemptsStep(a, b);
      if n in a.watchdogMade {
        WatchdogReservationsArePaired(vs, i - 1, n);
      } else {
        assert Permitted(a, AttemptPath(n), b.records[AttemptPath(n)], true);
      }
    }
  }

  // ---------- the operations ----------

  datatype Answer = Done | NothingToDo | NoPredecessor | ImmutableConflict | Contended | Failure

  datatype RecoveryResult = Recovered(recovery: Record, replacement: Record) | Stopped(reason: Answer)

  datatype JobState = Job(jobId: string, terminal: bool)

  datatype ControllerState =
    | Starting | Running | WaitingRetry | Finalizing | Completed
    | PausedCapacity | PausedPolicy | FailedInfrastructure | FailedDeterministic

  datatype Status = Status(jobId: string, attempt: nat, state: ControllerState)

  datatype Decision = NoAction | Operator | Recover(replacement: nat)

  /** `plan_controller_watchdog` with `_status_recovery_decision`; `claimExpiresAt` and
      `maxAttempts` are None when there is no claim or no controller policy. */
  function PlanWatchdog(
    maxAttempts: Option<nat>, status: Option<Status>, claimExpiresAt: Option<int>, jobs: seq<JobState>,
    campaignTerminal: bool, now: int): (d: Decision)
    ensures d.Recover? <==>
              && maxAttempts.Some? && !campaignTerminal && status.Some?
              && status.value.state in {Starting, Running, WaitingRetry, Finalizing, FailedInfrastructure}
              && status.value.attempt < maxAttempts.value
              && (forall j | j in jobs :: j.terminal)
              && (claimExpiresAt.Some? ==> claimExpiresAt.value <= now)
    ensures d.Recover? ==> d.replacement == status.value.attempt + 1 <= maxAttempts.value
    ensures d.Operator? <==>
              && maxAttempts.Some? && !campaignTerminal
              && (forall j | j in jobs :: j.terminal)
              && (claimExpiresAt.Some? ==> claimExpiresAt.value <= now)
              && (status.Some? ==>
                    || status.value.state in {PausedCapacity, PausedPolicy, FailedDeterministic}
                    || (status.value.state != Completed &&
                        (status.value.attempt >= maxAttempts.value ||
                         status.value.state !in {Starting, Running, WaitingRetry, Finalizing, FailedInfrastructure})))
  {
    if maxAttempts.None? then NoAction
    else if campaignTerminal || (status.Some? && status.value.state == Completed) then NoAction
    else if exists j :: j in jobs && !j.terminal then NoAction
    else if claimExpiresAt.Some? && claimExpiresAt.value > now then NoAction
    else if status.None? then Operator
    else if status.value.state in {PausedCapacity, PausedPolicy, FailedDeterministic} then Operator
    else if status.value.attempt >= maxAttempts.value then Operator
    else if status.value.state !in {Starting, Running, WaitingRetry, Finalizing, FailedInfrastructure} then Operator
    else Recover(status.value.attempt + 1)
  }

  /** What a watchdog that died at any point leaves: the prior attempt, and of its two
      records none, the decision, or both. */
  predicate Resumable(t: Tree, status: Status) {
    var n := status.attempt + 1;
    var prior, recovery, replacement :=
      Lookup(t.records, AttemptPath(status.attempt)), Lookup(t.records, RecoveryPath(n)), Lookup(t.records, AttemptPath(n));
    && prior.Some? && prior.value.Reservation?
    && (recovery.Some? ==>
          && recovery.value.Recovery? && recovery.value.priorJobId == status.jobId
          && recovery.value.priorAttempt == status.attempt && recovery.value.replacementAttempt == n)
    && (replacement.Some? ==>
          && replacement.value.Reservation? && replacement.value.contract == prior.value.contract && replacement.value.attempt == n
          && (recovery.Some? ==> replacement.value.reservedAt == recovery.value.decidedAt))
  }

  class AttemptStore {
    const repo: Repository<Tree>

    ghost predicate Valid()
      reads repo
    {
      repo.Valid() && Follows(repo.step)
    }

    constructor (repo: Repository<Tree>)
      requires repo.Valid() && Follows(repo.step)
      ensures Valid() && this.repo == repo
    {
      this.repo := repo;
    }

    ghost function Latest(): Tree
      requires repo.versions != []
      reads repo
    {
      repo.versions[|repo.versions| - 1]
    }

    /** What the head holds now, and therefore holds from now on. */
    ghost predicate Stored(path: Path, r: Record)
      reads repo
    {
      repo.versions != [] && Lookup(repo.versions[|repo.versions| - 1].records, path) == Some(r)
    }

    /** `_write_immutable`: adopt an equal record, refuse a different one, else add it. */
    method WriteImmutable(path: Path, value: Record, byWatchdog: bool) returns (answer: Answer)
      requires Valid() && Permitted(repo.versions[|repo.versions| - 1], path, value, byWatchdog)
      modifies repo
      ensures Valid() && old(repo.versions) <= repo.versions
      ensures answer == Done ==> Stored(path, value)
      ensures answer == ImmutableConflict ==> !Stored(path, value) && path in repo.versions[|repo.versions| - 1].records
      ensures answer !in {Done, Failure} ==> repo.own == old(repo.own)
      ensures answer != NoPredecessor
      ensures repo.own != old(repo.own) ==> |repo.own| == |old(repo.own)| + 1 && Stored(path, value)
      ensures repo.Quiet() ==>
                if path in old(Latest()).records then
                  answer == (if old(Latest()).records[path] == value then Done else ImmutableConflict) && repo.versions == old(repo.versions)
                else answer == Done && Latest() == Added(old(Latest()), path, value, byWatchdog)
    {
      ghost var known := |repo.versions| - 1;
      for attempt := 0 to MAX_COMMIT_ATTEMPTS
        invariant Valid() && old(repo.versions) <= repo.versions && repo.own == old(repo.own)
        invariant repo.Quiet() ==> attempt == 0 && repo.versions == old(repo.versions)
      {
        answer := TryWrite(known, path, value, byWatchdog);
        if answer != Contended { return; }
      }
      answer := Contended;
    }

    /** One turn of that loop, from reading the head to the answer of the commit. */
    method TryWrite(ghost known: nat, path: Path, value: Record, byWatchdog: bool) returns (answer: Answer)
      requires Valid() && known < |repo.versions| && Permitted(repo.versions[known], path, value, byWatchdog)
      modifies repo
      ensures Valid() && old(repo.versions) <= repo.versions
      ensures answer == Done ==> Stored(path, value)
      ensures answer == ImmutableConflict ==> !Stored(path, value) && path in repo.versions[|repo.versions| - 1].records
      ensures answer !in {Done, Failure} ==> repo.own == old(repo.own)
      ensures answer != NoPredecessor
      ensures repo.own != old(repo.own) ==> |repo.own| == |old(repo.own)| + 1 && Stored(path, value)
      ensures repo.Quiet() ==>
                if path in old(Latest()).records then
                  answer == (if old(Latest()).records[path] == value then Done else ImmutableConflict) && repo.versions == old(repo.versions)
                else answer == Done && Latest() == Added(old(Latest()), path, value, byWatchdog)
    {
      var head := repo.Head();
      var tree := repo.versions[head];
      if path in tree.records {
        return if tree.records[path] == value then Done else ImmutableConflict;
      }
      MayAdd(repo.step, repo.versions, known, head, path, value, byWatchdog);
      var outcome := repo.CreateCommit(head, Added(tree, path, value, byWatchdog));
      if repo.own != old(repo.own) {
        RecordStays(repo.step, repo.versions, head + 1, |repo.versions| - 1, path);
      }
      answer := match outcome case Committed => Done case ParentConflict => Contended case Failed => Failure;
    }

    method ReadRecord(path: Path) returns (r: Option<Record>)
      requires Valid()
      modifies repo
      ensures Valid() && old(repo.versions) <= repo.versions && repo.own == old(repo.own)
      ensures r == Lookup(repo.versions[|repo.versions| - 1].records, path)
      ensures repo.Quiet() ==> repo.versions == old(repo.versions)
    {
      var head := repo.Head();
      r := Lookup(repo.versions[head].records, path);
    }

    /** `reserve_attempt`: the predecessor is read at one head, the write decided at others. */
    method ReserveAttempt(reservation: Record, byWatchdog: bool) returns (answer: Answer)
      requires Valid() && reservation.Reservation? && 1 <= reservation.attempt
      requires byWatchdog ==> Paired(repo.versions[|repo.versions| - 1], reservation.attempt, reservation)
      modifies repo
      ensures Valid() && old(repo.versions) <= repo.versions
      ensures answer == Done ==> Stored(AttemptPath(reservation.attempt), reservation)
      ensures answer == ImmutableConflict ==>
                !Stored(AttemptPath(reservation.attempt), reservation)
                && AttemptPath(reservation.attempt) in repo.versions[|repo.versions| - 1].records
      ensures answer == NoPredecessor ==>
                reservation.attempt > 1 && AttemptPath(reservation.attempt - 1) !in repo.versions[|repo.versions| - 1].records
      ensures answer !in {Done, Failure} ==> repo.own == old(repo.own)
      ensures repo.Quiet() && (reservation.attempt == 1 || AttemptPath(reservation.attempt - 1) in old(Latest()).records) ==>
                (answer == Done <==> Lookup(old(Latest()).records, AttemptPath(reservation.attempt)) in {None, Some(reservation)})
    {
      var n := reservation.attempt;
      ghost var known := |repo.versions| - 1;
      if n > 1 {
        var previous := ReadRecord(AttemptPath(n - 1));
        RecordStays(repo.step, repo.versions, known, |repo.versions| - 1, AttemptPath(n - 1));
        RecordStays(repo.step, repo.versions, known, |repo.versions| - 1, RecoveryPath(n));
        if previous.None? { return NoPredecessor; }
      }
      answer := WriteImmutable(AttemptPath(n), reservation, byWatchdog);
    }

    /** The writing part of `run_campaign_watchdog`, after a decision to recover. */
    method RecoverCampaign(status: Status, maxAttempts: nat, checkpoint: string, clock: int) returns (r: RecoveryResult)
      requires Valid() && 1 <= status.attempt < maxAttempts
      requires maxAttempts == repo.versions[|repo.versions| - 1].maxAttempts
      modifies repo
      ensures Valid() && old(repo.versions) <= repo.versions
      ensures r.Recovered? ==>
                && Stored(RecoveryPath(status.attempt + 1), r.recovery)
                && Stored(AttemptPath(status.attempt + 1), r.replacement)
                && r.recovery.Recovery? && r.replacement.Reservation?
                && r.recovery.priorJobId == status.jobId && r.recovery.priorAttempt == status.attempt
                && r.recovery.decidedAt == r.replacement.reservedAt && r.replacement.attempt == status.attempt + 1
      ensures repo.Quiet() ==>
                && (r.Recovered? <==> Resumable(old(Latest()), status))
                && (r.Stopped? ==> repo.own == old(repo.own))
      ensures repo.Quiet() && r.Recovered? ==>
                && Lookup(old(Latest()).records, AttemptPath(status.attempt)).value.contract == r.replacement.contract
                && (RecoveryPath(status.attempt + 1) !in old(Latest()).records ==> r.recovery.checkpoint == checkpoint)
                && (RecoveryPath(status.attempt + 1) !in old(Latest()).records && AttemptPath(status.attempt + 1) !in old(Latest()).records ==>
                      r.recovery.decidedAt == clock)
    {
      ghost var start := |repo.versions| - 1;
      var n := status.attempt + 1;
      var prior := ReadRecord(AttemptPath(status.attempt));
      if prior.None? || !prior.value.Reservation? { return Stopped(NoPredecessor); }
      ghost var atPrior := |repo.versions| - 1;
      RecordStays(repo.step, repo.versions, start, atPrior, AttemptPath(n));
      var existingRecovery := ReadRecord(RecoveryPath(n));
      var existingReplacement := ReadRecord(AttemptPath(n));
      var recovery, replacement := PlanRecovery(status, prior.value, existingRecovery, existingReplacement, checkpoint, clock);
      if existingRecovery.Some? && existingRecovery.value != recovery { return Stopped(ImmutableConflict); }
      if existingReplacement.Some? && existingReplacement.value != replacement { return Stopped(ImmutableConflict); }
      r := WritePair(atPrior, prior.value, recovery, replacement);
    }

    /** `run_campaign_watchdog`, given what it observed: it writes nothing unless its plan
        says to recover. */
    method RunWatchdog(
      maxAttempts: Option<nat>, status: Option<Status>, claimExpiresAt: Option<int>, jobs: seq<JobState>,
      campaignTerminal: bool, now: int, checkpoint: string, dryRun: bool)
      returns (decision: Decision, r: RecoveryResult)
      requires Valid()
      requires maxAttempts.Some? ==> maxAttempts.value == repo.versions[|repo.versions| - 1].maxAttempts
      requires status.Some? ==> 1 <= status.value.attempt
      modifies repo
      ensures Valid() && old(repo.versions) <= repo.versions
      ensures decision == PlanWatchdog(maxAttempts, status, claimExpiresAt, jobs, campaignTerminal, now)
      ensures !decision.Recover? || dryRun ==> r == Stopped(NothingToDo) && repo.own == old(repo.own)
      ensures r.Recovered? ==>
                && r.replacement.Reservation? && r.replacement.attempt == decision.replacement
                && Stored(AttemptPath(decision.replacement), r.replacement)
                && Stored(RecoveryPath(decision.replacement), r.recovery)
      ensures repo.Quiet() && decision.Recover? && !dryRun ==>
                && (r.Recovered? <==> Resumable(old(Latest()), status.value))
                && (r.Stopped? ==> repo.own == old(repo.own))
    {
      decision := PlanWatchdog(maxAttempts, status, claimExpiresAt, jobs, campaignTerminal, now);
      if !decision.Recover? || dryRun { return decision, Stopped(NothingToDo); }
      r := RecoverCampaign(status.value, maxAttempts.value, checkpoint, now);
    }

    /** The decision is written before the reservation it justifies. */
    method WritePair(ghost atPrior: nat, ghost prior: Record, recovery: Record, replacement: Record)
      returns (r: RecoveryResult)
      requires Valid() && recovery.Recovery? && replacement.Reservation? && prior.Reservation?
      requires atPrior < |repo.versions| && 1 <= recovery.priorAttempt < repo.versions[atPrior].maxAttempts
      requires recovery.replacementAttempt == replacement.attempt == recovery.priorAttempt + 1
      requires recovery.decidedAt == replacement.reservedAt && replacement.contract == prior.contract
      requires Lookup(repo.versions[atPrior].records, AttemptPath(recovery.priorAttempt)) == Some(prior)
      modifies repo
      ensures Valid() && old(repo.versions) <= repo.versions
      ensures r.Recovered? ==>
                && r.recovery == recovery && r.replacement == replacement
                && Stored(RecoveryPath(recovery.replacementAttempt), recovery)
                && Stored(AttemptPath(replacement.attempt), replacement)
      ensures repo.Quiet() ==>
                Lookup(old(Latest()).records, RecoveryPath(replacement.attempt)) in {None, Some(recovery)} ==>
                  Lookup(old(Latest()).records, AttemptPath(replacement.attempt)) in {None, Some(replacement)} ==> r.Recovered?
    {
      var n := replacement.attempt;
      var answer := WriteImmutable(RecoveryPath(n), recovery, false);
      if answer != Done { return Stopped(answer); }
      ghost var before := repo.versions;
      PairedNow(repo.step, repo.versions, atPrior, prior, recovery, replacement);
      answer := ReserveAttempt(replacement, true);
      StoredStays(repo.step, before, repo.versions, RecoveryPath(n), recovery);
      if answer != Done { return Stopped(answer); }
      r := Recovered(recovery, replacement);
    }
  }

  /** The two records a recovery writes: both carry the time of whichever record exists
      already, so that a crashed or racing watchdog is continued, not contradicted. */
  method PlanRecovery(
    status: Status, prior: Record, existingRecovery: Option<Record>, existingReplacement: Option<Record>,
    checkpoint: string, clock: int) returns (recovery: Record, replacement: Record)
    requires prior.Reservation?
    ensures recovery.Recovery? && replacement.Reservation?
    ensures recovery.priorJobId == status.jobId && recovery.priorAttempt == status.attempt
    ensures recovery.replacementAttempt == replacement.attempt == status.attempt + 1
    ensures recovery.decidedAt == replacement.reservedAt && replacement.contract == prior.contract
    ensures existingRecovery.Some? && existingRecovery.value.Recovery? ==>
              recovery.decidedAt == existingRecovery.value.decidedAt && recovery.checkpoint == existingRecovery.value.checkpoint
    ensures existingRecovery.None? && existingReplacement.Some? && existingReplacement.value.Reservation? ==>
              replacement.reservedAt == existingReplacement.value.reservedAt
    ensures existingRecovery.None? ==> recovery.checkpoint == checkpoint
    ensures existingRecovery.None? && existingReplacement.None? ==> recovery.decidedAt == clock
  {
    var recordedAt, basis := clock, checkpoint;
    if existingReplacement.Some? && existingReplacement.value.Reservation? {
      recordedAt := existingReplacement.value.reservedAt;
    }
    if existingRecovery.Some? && existingRecovery.value.Recovery? {
      recordedAt := existingRecovery.value.decidedAt;
      basis := existingRecovery.value.checkpoint;
    }
    replacement := Reservation(prior.contract, status.attempt + 1, recordedAt);
    recovery := Recovery(status.jobId, status.attempt, status.attempt + 1, basis, recordedAt);
  }

  function Added(t: Tree, path: Path, value: Record, byWatchdog: bool): Tree {
    t.(records := t.records[path := value],
       watchdogMade := if byWatchdog && path.AttemptPath? then t.watchdogMade + {path.attempt} else t.watchdogMade)
  }

  lemma StoredStays(step: (Tree, Tree) -> bool, before: seq<Tree>, after: seq<Tree>, p: Path, r: Record)
    requires Follows(step) && IsHistory(step, after) && before != [] && before <= after
    requires Lookup(before[|before| - 1].records, p) == Some(r)
    ensures Lookup(after[|after| - 1].records, p) == Some(r)
  {
    RecordStays(step, after, |before| - 1, |after| - 1, p);
  }

  lemma PairedNow(step: (Tree, Tree) -> bool, vs: seq<Tree>, atPrior: nat, prior: Record, recovery: Record, replacement: Record)
    requires Follows(step) && IsHistory(step, vs) && atPrior < |vs|
    requires recovery.Recovery? && replacement.Reservation? && prior.Reservation?
    requires 1 <= recovery.priorAttempt < vs[atPrior].maxAttempts
    requires recovery.replacementAttempt == replacement.attempt == recovery.priorAttempt + 1
    requires recovery.decidedAt == replacement.reservedAt && replacement.contract == prior.contract
    requires Lookup(vs[atPrior].records, AttemptPath(recovery.priorAttempt)) == Some(prior)
    requires Lookup(vs[|vs| - 1].records, RecoveryPath(replacement.attempt)) == Some(recovery)
    ensures Paired(vs[|vs| - 1], replacement.attempt, replacement)
  {
    RecordStays(step, vs, atPrior, |vs| - 1, AttemptPath(recovery.priorAttempt));
  }

  /** What was permitted when the write was decided is still a legal step at the head. */
  lemma MayAdd(step: (Tree, Tree) -> bool, vs: seq<Tree>, known: nat, head: nat, path: Path, value: Record, byWatchdog: bool)
    requires Follows(step) && IsHistory(step, vs) && known <= head < |vs|
    requires Permitted(vs[known], path, value, byWatchdog) && path !in vs[head].records
    ensures step(vs[head], Added(vs[head], path, value, byWatchdog))
  {
    if path.AttemptPath? && path.attempt > 1 {
      RecordStays(step, vs, known, head, AttemptPath(path.attempt - 1));
      RecordStays(step, vs, known, head, RecoveryPath(path.attempt));
    }
    assert Permitted(vs[head], path, value, byWatchdog);
    assert AttemptsStep(vs[head], Added(vs[head], path, value, byWatchdog));
  }
}
