/** A repository changed by optimistic commits: every client reads a head, decides on
    what it read there, and commits with that head as parent.

    `versions` is the whole history of the main branch; the index of a version is its
    commit identity, so reading "at a revision" is reading `versions[revision]`.  Other
    clients may commit any number of versions, each allowed by `step`, before every
    request of ours. */
module OptimisticRepository {

  const MAX_COMMIT_ATTEMPTS := 8

  /** How `create_commit` ends: with a new head, with a 409/412 parent conflict, or with
      any other error, after which the commit may or may not have been applied. */
  datatype Outcome = Committed | ParentConflict | Failed

  predicate StepAt<Tree>(step: (Tree, Tree) -> bool, versions: seq<Tree>, i: nat) {
    0 < i < |versions| && step(versions[i - 1], versions[i])
  }

  /** A sequence of versions, each of which may follow the one before it. */
  predicate IsHistory<Tree>(step: (Tree, Tree) -> bool, versions: seq<Tree>) {
    forall i | 0 < i < |versions| :: StepAt(step, versions, i)
  }

  lemma HistoriesJoin<Tree>(step: (Tree, Tree) -> bool, a: seq<Tree>, b: seq<Tree>)
    requires IsHistory(step, a) && IsHistory(step, b) && a != [] && b != []
    requires a[|a| - 1] == b[0]
    ensures IsHistory(step, a + b[1..])
  {
    var c := a + b[1..];
    forall i | 0 < i < |c| ensures StepAt(step, c, i) {
      if i < |a| {
        assert StepAt(step, a, i);
      } else {
        assert StepAt(step, b, i - |a| + 1);
        assert c[i - 1] == b[i - |a|] && c[i] == b[i - |a| + 1];
      }
    }
  }

  class Repository<Tree(==,!new)> {
    const step: (Tree, Tree) -> bool
    const others: bool  // whether other clients may commit
    const faults: bool  // whether requests and responses may be lost
    var versions: seq<Tree>
    ghost var own: seq<nat>  // the versions this client committed, in order

    ghost predicate Valid()
      reads this
    {
      && versions != []
      && IsHistory(step, versions)
      && (forall k | k in own :: 0 < k < |versions|)
    }

    /** Nobody else commits and no request is lost. */
    predicate Quiet() {
      !others && !faults
    }

    constructor (step: (Tree, Tree) -> bool, first: Tree, others: bool, faults: bool)
      ensures Valid() && this.step == step && versions == [first] && own == []
      ensures this.others == others && this.faults == faults
    {
      this.step, this.others, this.faults := step, others, faults;
      versions := [first];
      own := [];
    }

    /** Whatever the other clients commit in the meantime. */
    method Interfere()
      requires Valid()
      modifies this
      ensures Valid() && old(versions) <= versions && own == old(own)
      ensures !others ==> versions == old(versions)
    {
      if !others { return; }
      var last := versions[|versions| - 1];
      assert IsHistory(step, [last]);
      var more: seq<Tree> :| more != [] && more[0] == last && IsHistory(step, more);
      HistoriesJoin(step, versions, more);
      versions := versions + more[1..];
    }

    method Head() returns (head: nat)
      requires Valid()
      modifies this
      ensures Valid() && old(versions) <= versions && own == old(own)
      ensures head == |versions| - 1
      ensures !others ==> versions == old(versions)
    {
      Interfere();
      head := |versions| - 1;
    }

    method CreateCommit(head: nat, tree: Tree) returns (outcome: Outcome)
      requires Valid() && head < |versions| && step(versions[head], tree)
      modifies this
      ensures Valid() && old(versions) <= versions
      ensures outcome == Committed ==> own == old(own) + [head + 1]
      ensures outcome == ParentConflict ==> own == old(own)
      ensures own == old(own) || own == old(own) + [head + 1]
      ensures own != old(own) ==> head + 1 < |versions| && versions[head + 1] == tree
      ensures !others ==> versions == if own == old(own) then old(versions) else old(versions) + [tree]
      ensures !others && |old(versions)| == head + 1 ==> outcome != ParentConflict
      ensures !faults ==> outcome != Failed
    {
      Interfere();
      if |versions| != head + 1 { return ParentConflict; }
      if faults { if * { return Failed; } }  // the request never arrived
      HistoriesJoin(step, versions, [versions[head], tree]);
      versions := versions + [tree];
      own := own + [head + 1];
      if faults { if * { return Failed; } }  // the response never arrived
      outcome := Committed;
    }
  }
}
