/** The campaign controller lease (controller_status.py): one claim record per campaign,
    taken, renewed and released by optimistic commits. */
module ControllerLease {
  import opened Common
  import opened OptimisticRepository

  datatype Claim = Claim(
    campaignId: string, jobId: string, planDigest: string, attempt: nat,
    acquiredAt: int, heartbeatAt: int, expiresAt: int)

  /** The model validators of `ControllerClaim`. */
  predicate ValidClaim(c: Claim) {
    1 <= c.attempt && c.acquiredAt <= c.heartbeatAt < c.expiresAt
  }

  /** The claim record of each campaign. */
  type Tree = map<string, Claim>

  predicate Expired(observed: Claim, claim: Claim) {
    observed.expiresAt <= claim.acquiredAt
  }

  predicate SameTenure(a: Claim, b: Claim) {
    (a.campaignId, a.jobId, a.planDigest, a.attempt, a.acquiredAt) ==
    (b.campaignId, b.jobId, b.planDigest, b.attempt, b.acquiredAt)
  }

  predicate Takeover(a: Claim, b: Claim) {
    Expired(a, b) && b.attempt == a.attempt + 1
  }

  predicate Renewal(a: Claim, b: Claim) {
    SameTenure(a, b) && a.heartbeatAt < b.heartbeatAt
  }

  /** What one commit may do to one record: nothing, take it when free or expired, renew
      it, or release it. */
  predicate RecordStep(a: Option<Claim>, b: Option<Claim>) {
    || a == b
    || b.None?
    || (ValidClaim(b.value) && (a.None? || Takeover(a.value, b.value) || Renewal(a.value, b.value)))
  }

  predicate LeaseStep(a: Tree, b: Tree) {
    forall c | c in a.Keys + b.Keys :: RecordStep(Lookup(a, c), Lookup(b, c))
  }

  /** Who gets the lease: the owner again, anyone when it is free, or the next attempt once
      it has expired and its Job has ended. */
  function MayAcquire(observed: Option<Claim>, claim: Claim, priorJobTerminal: bool): Answer {
    if observed.None? || observed.value == claim then Done
    else if observed.value.expiresAt > claim.acquiredAt || !priorJobTerminal then OwnershipConflict
    else if observed.value.attempt + 1 != claim.attempt then NotSequential
    else Done
  }

  datatype Answer = Done | OwnershipConflict | NotSequential | InvalidHeartbeat | ChangedConcurrently | Contended | Failure

  class ControllerStateStore {
    const repo: Repository<Tree>

    ghost predicate Valid()
      reads repo
    {
      repo.Valid() && repo.step == LeaseStep
    }

    constructor (repo: Repository<Tree>)
      requires repo.Valid() && repo.step == LeaseStep
      ensures Valid() && this.repo == repo
    {
      this.repo := repo;
    }

    /** The record of a campaign at a version that was the head during this call. */
    ghost predicate Seen(before: nat, v: nat, campaignId: string, record: Option<Claim>)
      reads repo
    {
      before <= v + 1 && v < |repo.versions| && Lookup(repo.versions[v], campaignId) == record
    }

    ghost function Latest(): Tree
      requires repo.versions != []
      reads repo
    {
      repo.versions[|repo.versions| - 1]
    }

    /** `acquire` */
    method Acquire(claim: Claim, priorJobTerminal: bool) returns (answer: Answer)
      requires Valid() && ValidClaim(claim)
      modifies repo
      ensures Valid() && old(repo.versions) <= repo.versions
      ensures answer == Done ==>
                exists v :: Seen(old(|repo.versions|), v, claim.campaignId, Some(claim))
                            && (repo.own == old(repo.own) || repo.own == old(repo.own) + [v])
      ensures answer == OwnershipConflict ==>
                exists v, o :: Seen(old(|repo.versions|), v, claim.campaignId, Some(o))
                               && o != claim && (!Expired(o, claim) || !priorJobTerminal)
      ensures answer == NotSequential ==>
                exists v, o :: Seen(old(|repo.versions|), v, claim.campaignId, Some(o))
                               && o != claim && Expired(o, claim) && priorJobTerminal && claim.attempt != o.attempt + 1
      ensures answer !in {Done, Failure} ==> repo.own == old(repo.own)
      ensures answer in {Done, OwnershipConflict, NotSequential, Contended, Failure}
      ensures repo.Quiet() ==>
                && answer == MayAcquire(Lookup(old(Latest()), claim.campaignId), claim, priorJobTerminal)
                && (answer == Done ==> Latest() == old(Latest())[claim.campaignId := claim])
                && (answer != Done ==> repo.versions == old(repo.versions))
    {
      for attempt := 0 to MAX_COMMIT_ATTEMPTS
        invariant Valid() && old(repo.versions) <= repo.versions && repo.own == old(repo.own)
        invariant repo.Quiet() ==> attempt == 0 && repo.versions == old(repo.versions)
      {
        var head := repo.Head();
        var tree := repo.versions[head];
        var observed := Lookup(tree, claim.campaignId);
        assert Seen(old(|repo.versions|), head, claim.campaignId, observed);
        if observed.Some? {
          if observed.value == claim { return Done; }
          if !Expired(observed.value, claim) || !priorJobTerminal { return OwnershipConflict; }
          if claim.attempt != observed.value.attempt + 1 { return NotSequential; }
        }
        var outcome := repo.CreateCommit(head, tree[claim.campaignId := claim]);
        if outcome == Committed {
          assert Seen(old(|repo.versions|), head + 1, claim.campaignId, Some(claim));
          return Done;
        }
        if outcome == Outcome.Failed { return Failure; }
      }
      answer := Contended;
    }

    /** `heartbeat`, through `_replace_exact` */
    method Heartbeat(previous: Claim, renewed: Claim) returns (answer: Answer)
      requires Valid() && ValidClaim(previous) && ValidClaim(renewed)
      modifies repo
      ensures Valid() && old(repo.versions) <= repo.versions
      ensures answer == InvalidHeartbeat <==> !Renewal(previous, renewed)
      ensures answer == Done ==>
                exists v :: Seen(old(|repo.versions|), v, previous.campaignId, Some(previous))
                            && Seen(old(|repo.versions|), v + 1, previous.campaignId, Some(renewed))
                            && repo.own == old(repo.own) + [v + 1]
      ensures answer == ChangedConcurrently ==>
                exists v, o :: Seen(old(|repo.versions|), v, previous.campaignId, o) && o != Some(previous)
      ensures answer !in {Done, Failure} ==> repo.own == old(repo.own)
      ensures repo.Quiet() && Renewal(previous, renewed) ==>
                if Lookup(old(Latest()), previous.campaignId) == Some(previous) then
                  answer == Done && Latest() == old(Latest())[previous.campaignId := renewed]
                else answer == ChangedConcurrently && repo.versions == old(repo.versions)
    {
      if !SameTenure(previous, renewed) || renewed.heartbeatAt <= previous.heartbeatAt { return InvalidHeartbeat; }
      for attempt := 0 to MAX_COMMIT_ATTEMPTS
        invariant Valid() && old(repo.versions) <= repo.versions && repo.own == old(repo.own)
        invariant repo.Quiet() ==> attempt == 0 && repo.versions == old(repo.versions)
      {
        var head := repo.Head();
        var tree := repo.versions[head];
        var observed := Lookup(tree, previous.campaignId);
        assert Seen(old(|repo.versions|), head, previous.campaignId, observed);
        if observed != Some(previous) { return ChangedConcurrently; }
        var outcome := repo.CreateCommit(head, tree[previous.campaignId := renewed]);
        if outcome == Committed {
          assert Seen(old(|repo.versions|), head, previous.campaignId, Some(previous));
          assert Seen(old(|repo.versions|), head + 1, previous.campaignId, Some(renewed));
          return Done;
        }
        if outcome == Outcome.Failed { return Failure; }
      }
      answer := Contended;
    }

    /** `release` */
    method Release(claim: Claim) returns (answer: Answer)
      requires Valid()
      modifies repo
      ensures Valid() && old(repo.versions) <= repo.versions
      ensures answer == Done ==>
                exists v :: Seen(old(|repo.versions|), v, claim.campaignId, None)
                            && (repo.own == old(repo.own)
                                || (repo.own == old(repo.own) + [v] && v > 0
                                    && Lookup(repo.versions[v - 1], claim.campaignId) == Some(claim)))
      ensures answer == ChangedConcurrently ==>
                exists v, o :: Seen(old(|repo.versions|), v, claim.campaignId, Some(o)) && o != claim
      ensures answer !in {Done, Failure} ==> repo.own == old(repo.own)
      ensures repo.Quiet() ==>
                && (answer == Done <==> Lookup(old(Latest()), claim.campaignId) in {None, Some(claim)})
                && (answer == Done ==> Latest() == old(Latest()) - {claim.campaignId})
                && (answer != Done ==> answer == ChangedConcurrently && repo.versions == old(repo.versions))
    {
      for attempt := 0 to MAX_COMMIT_ATTEMPTS
        invariant Valid() && old(repo.versions) <= repo.versions && repo.own == old(repo.own)
        invariant repo.Quiet() ==> attempt == 0 && repo.versions == old(repo.versions)
      {
        var head := repo.Head();
        var tree := repo.versions[head];
        var observed := Lookup(tree, claim.campaignId);
        assert Seen(old(|repo.versions|), head, claim.campaignId, observed);
        if observed.None? { return Done; }
        if observed.value != claim { return ChangedConcurrently; }
        var outcome := repo.CreateCommit(head, tree - {claim.campaignId});
        if outcome == Committed {
          assert Seen(old(|repo.versions|), head + 1, claim.campaignId, None);
          return Done;
        }
        if outcome == Outcome.Failed { return Failure; }
      }
      answer := Contended;
    }
  }

  // ---------- every run of these operations ----------

  ghost predicate IsRun(vs: seq<Tree>) {
    IsHistory(LeaseStep, vs)
  }

  /** The record of campaign c is there, and well formed, at every version from i to j. */
  ghost predicate HeldThroughout(vs: seq<Tree>, c: string, i: nat, j: nat) {
    i <= j < |vs| && forall k | i <= k <= j :: c in vs[k] && ValidClaim(vs[k][c])
  }

  /** While the record stays present, every change of it strictly increases
      (attempt, heartbeat), and in fact never lowers either. */
  lemma {:induction false} LeaseOnlyAdvances(vs: seq<Tree>, c: string, i: nat, j: nat)
    requires IsRun(vs) && HeldThroughout(vs, c, i, j)
    ensures vs[i][c] == vs[j][c] ||
            (vs[i][c].attempt <= vs[j][c].attempt && vs[i][c].heartbeatAt < vs[j][c].heartbeatAt)
    ensures vs[i][c].acquiredAt <= vs[j][c].acquiredAt
    decreases j - i
  {
    if i < j {
      LeaseOnlyAdvances(vs, c, i, j - 1);
      assert StepAt(LeaseStep, vs, j) && LeaseStep(vs[j - 1], vs[j]);
      assert RecordStep(Lookup(vs[j - 1], c), Lookup(vs[j], c));
    }
  }

  /** No value of the record ever comes back, so an owner displaced at version k finds its
      claim at no later version: `Heartbeat` and `Release`, which act only on an exact
      match, can then neither renew nor delete the new owner's claim. */
  lemma DisplacedOwnerIsPowerless(vs: seq<Tree>, c: string, i: nat, k: nat, j: nat)
    requires IsRun(vs) && HeldThroughout(vs, c, i, j) && i <= k <= j
    requires vs[k][c] != vs[i][c]
    ensures Lookup(vs[j], c) != Some(vs[i][c])
  {
    LeaseOnlyAdvances(vs, c, i, k);
    LeaseOnlyAdvances(vs, c, k, j);
  }

  /** Successive owners are numbered consecutively and their tenures do not overlap: the
      next one starts no earlier than the displaced claim's last expiry. */
  lemma {:induction false} TenuresDoNotOverlap(vs: seq<Tree>, c: string, i: nat, j: nat)
    returns (k: nat)
    requires IsRun(vs) && HeldThroughout(vs, c, i, j)
    requires vs[i][c].attempt < vs[j][c].attempt
    ensures i <= k < j
    ensures SameTenure(vs[i][c], vs[k][c]) && vs[i][c].heartbeatAt <= vs[k][c].heartbeatAt
    ensures vs[k + 1][c].attempt == vs[i][c].attempt + 1
    ensures vs[k][c].expiresAt <= vs[k + 1][c].acquiredAt <= vs[j][c].acquiredAt
    decreases j - i
  {
    assert StepAt(LeaseStep, vs, i + 1) && LeaseStep(vs[i], vs[i + 1]);
    assert RecordStep(Lookup(vs[i], c), Lookup(vs[i + 1], c));
    if vs[i + 1][c].attempt == vs[i][c].attempt {
      k := TenuresDoNotOverlap(vs, c, i + 1, j);
    } else {
      k := i;
      LeaseOnlyAdvances(vs, c, i + 1, j);
    }
  }

  /** The premise is needed: once a claim was released, the very same claim can be
      acquired again, and an owner that held the old copy matches it. */
  lemma ReleasedClaimCanReappear(claim: Claim)
    requires ValidClaim(claim)
    ensures IsRun([map[claim.campaignId := claim], map[], map[claim.campaignId := claim]])
  {
    var held: Tree, free: Tree := map[claim.campaignId := claim], map[];
    assert LeaseStep(held, free) && LeaseStep(free, held);
  }
}
