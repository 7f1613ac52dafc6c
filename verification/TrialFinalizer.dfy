/** Finishing one scored trial (campaign_finalizer.py): recovery, lock, summary, checksums
    and success marker are written in this order, each immutable, and a finalizer that
    starts again after a crash anywhere between them ends in the same tree. */
module TrialFinalizer {
  import opened Common

  type Bytes = string
  type Digest = string

  /** File names, those with a meaning here apart from any other. */
  datatype Name = ExecutionLock | Checksums | Success | Failed | Cancelled | TrialLock | TrialSummary | Recovery | Other(text: string)

  /** A path below the trial's prefix. */
  datatype Path = Path(parent: seq<string>, name: Name)
  type Tree = map<Path, Bytes>
  type Manifest = map<Path, Digest>

  const RECOVERY := Path([], Recovery)
  const LOCK := Path([], TrialLock)
  const SUMMARY := Path([], TrialSummary)
  const CHECKSUMS := Path([], Checksums)
  const MARKER := Path([], Success)
  const ENVELOPE := {RECOVERY, LOCK, SUMMARY, CHECKSUMS, MARKER}
  const TERMINAL_MARKERS := {MARKER, Path([], Failed), Path([], Cancelled)}

  /** A trial summary; fields that are missing or not text read as empty, but for the execution. */
  datatype Summary = Summary(trialId: string, executionId: Option<string>, executionChecksum: Digest)

  datatype Error = SummaryMissing | SummaryMalformed | SummaryMismatch | AmbiguousExecution | LockMissing
    | LockMismatch | EvidenceOmitted | NotCanonical | NotCovered | Conflict | Unavailable

  /** A locked shard of the run. */
  datatype Shard = Shard(id: string, trialIds: set<string>)

  /** The IDs of the shards that hold a trial. */
  function ShardIds(trialId: string, shards: seq<Shard>): seq<string> {
    if shards == [] then []
    else
      var last := shards[|shards| - 1];
      ShardIds(trialId, shards[..|shards| - 1]) + if trialId in last.trialIds then [last.id] else []
  }

  /** The trial and the encodings around it.  `examine` validates one execution's evidence
      and its identity, the shard included, and says whether it succeeded. */
  datatype Trial = Trial(
    id: string,
    lock: Bytes,
    digest: Bytes -> Digest,
    manifest: Manifest -> Bytes,
    readManifest: Bytes -> Option<Manifest>,
    summary: Summary -> Bytes,
    readSummary: Bytes -> Option<Summary>,
    recovery: (string, Digest) -> Bytes,
    shards: seq<Shard>,
    examine: (string, seq<string>, Tree) -> Option<bool>)
  {
    predicate HasOneShard() {
      |ShardIds(id, shards)| == 1
    }

    function Examine(prefix: seq<string>, executions: Tree): Option<bool> {
      if HasOneShard() then examine(ShardIds(id, shards)[0], prefix, executions) else None
    }

    ghost predicate Lawful() {
      forall s: Summary {:trigger summary(s)} :: readSummary(summary(s)) == Some(s)
    }
  }

  // ---- the executions of a trial ----

  function Executions(tree: Tree): Tree {
    map p | p in tree && p.parent != [] && p.parent[0] == "executions" :: tree[p]
  }

  /** The directories that hold an execution lock. */
  function ExecutionPrefixes(executions: Tree): set<seq<string>> {
    set p | p in executions && p.name == ExecutionLock && p.parent != [] :: p.parent
  }

  function ExecutionChecksums(id: string): Path {
    Path(["executions", id], Checksums)
  }

  /** Every execution is valid evidence and just this one succeeded. */
  predicate OnlySuccess(t: Trial, executions: Tree, id: string) {
    && (forall q | q in ExecutionPrefixes(executions) :: t.Examine(q, executions).Some?)
    && (exists q | q in ExecutionPrefixes(executions) ::
          && q != [] && q[|q| - 1] == id && t.Examine(q, executions) == Some(true)
          && forall r | r in ExecutionPrefixes(executions) && t.Examine(r, executions) == Some(true) :: r == q)
    && ExecutionChecksums(id) in executions
  }

  /** The trial is in this shard and in no other. */
  ghost predicate OnlyIn(trialId: string, shards: seq<Shard>, i: nat) {
    && i < |shards| && trialId in shards[i].trialIds
    && forall j | 0 <= j < |shards| && j != i :: trialId !in shards[j].trialIds
  }

  /** An execution directory, somewhere below "executions". */
  predicate HoldsExecution(tree: Tree, q: seq<string>) {
    q != [] && q[0] == "executions" && Path(q, ExecutionLock) in tree
  }

  /** What the files below "executions" say of one execution, of this shard. */
  function Examined(t: Trial, tree: Tree, shard: string, q: seq<string>): Option<bool> {
    t.examine(shard, q, map p | p in tree && p.parent != [] && p.parent[0] == "executions" :: tree[p])
  }

  /** The trial has one locked shard; every execution is valid evidence for it, and of all of
      them just the one in a directory of this name succeeded. */
  ghost predicate Selects(t: Trial, tree: Tree, id: string) {
    exists i: nat, q :: OnlyIn(t.id, t.shards, i) && SelectsIn(t, tree, t.shards[i].id, q) && q[|q| - 1] == id
  }

  ghost predicate SelectsIn(t: Trial, tree: Tree, shard: string, q: seq<string>) {
    && HoldsExecution(tree, q) && Examined(t, tree, shard, q) == Some(true)
    && forall r | HoldsExecution(tree, r) && r != q :: Examined(t, tree, shard, r) == Some(false)
  }

  lemma {:induction false} ShardIdsHold(trialId: string, shards: seq<Shard>)
    ensures ShardIds(trialId, shards) == [] <==> forall s | s in shards :: trialId !in s.trialIds
    ensures forall i: nat | OnlyIn(trialId, shards, i) :: ShardIds(trialId, shards) == [shards[i].id]
    ensures |ShardIds(trialId, shards)| == 1 ==> exists i: nat :: OnlyIn(trialId, shards, i)
  {
    if shards != [] {
      var front, last := shards[..|shards| - 1], shards[|shards| - 1];
      assert shards == front + [last] && last in shards;
      assert forall s :: s in shards <==> s in front || s == last;
      ShardIdsHold(trialId, front);
      forall i: nat | OnlyIn(trialId, shards, i) ensures ShardIds(trialId, shards) == [shards[i].id] {
        OnlyInFront(trialId, front, last, i);
      }
      if |ShardIds(trialId, shards)| == 1 { OnlyInOne(trialId, front, last); }
    }
  }

  lemma OnlyInFront(trialId: string, front: seq<Shard>, last: Shard, i: nat)
    requires OnlyIn(trialId, front + [last], i)
    ensures if i == |front| then trialId in last.trialIds && forall s | s in front :: trialId !in s.trialIds
            else OnlyIn(trialId, front, i) && (front + [last])[i] == front[i] && trialId !in last.trialIds
  {
    var shards := front + [last];
    assert shards[|front|] == last;
    forall j | 0 <= j < |front| ensures shards[j] == front[j] {}
  }

  lemma OnlyInOne(trialId: string, front: seq<Shard>, last: Shard)
    requires if trialId in last.trialIds then forall s | s in front :: trialId !in s.trialIds
             else exists i: nat :: OnlyIn(trialId, front, i)
    ensures exists i: nat :: OnlyIn(trialId, front + [last], i)
  {
    var shards := front + [last];
    if trialId in last.trialIds {
      assert shards[|front|] == last;
      assert OnlyIn(trialId, shards, |front|);
    } else {
      var i: nat :| OnlyIn(trialId, front, i);
      assert OnlyIn(trialId, shards, i);
    }
  }

  lemma ExaminedHere(t: Trial, tree: Tree, i: nat, q: seq<string>)
    requires OnlyIn(t.id, t.shards, i)
    ensures t.HasOneShard() && t.Examine(q, Executions(tree)) == Examined(t, tree, t.shards[i].id, q)
    ensures q in ExecutionPrefixes(Executions(tree)) <==> HoldsExecution(tree, q)
  {
    ShardIdsHold(t.id, t.shards);
    if HoldsExecution(tree, q) { assert Path(q, ExecutionLock) in Executions(tree); }
  }

  /** A trial selects an execution exactly when its files say so. */
  lemma SelectedExactly(t: Trial, tree: Tree, id: string)
    ensures OnlySuccess(t, Executions(tree), id) <==> Selects(t, tree, id) && ExecutionChecksums(id) in tree
  {
    ShardIdsHold(t.id, t.shards);
    if t.HasOneShard() {
      var i: nat :| OnlyIn(t.id, t.shards, i);
      forall q ensures t.Examine(q, Executions(tree)) == Examined(t, tree, t.shards[i].id, q)
               ensures q in ExecutionPrefixes(Executions(tree)) <==> HoldsExecution(tree, q)
      {
        ExaminedHere(t, tree, i, q);
      }
      SelectedHere(t, tree, i, id);
      forall j: nat | OnlyIn(t.id, t.shards, j) ensures j == i {}
    }
  }

  lemma SelectedHere(t: Trial, tree: Tree, i: nat, id: string)
    requires OnlyIn(t.id, t.shards, i)
    requires forall q :: t.Examine(q, Executions(tree)) == Examined(t, tree, t.shards[i].id, q)
    requires forall q :: q in ExecutionPrefixes(Executions(tree)) <==> HoldsExecution(tree, q)
    ensures OnlySuccess(t, Executions(tree), id) <==>
              (exists q :: SelectsIn(t, tree, t.shards[i].id, q) && q[|q| - 1] == id) && ExecutionChecksums(id) in tree
  {
    var executions, shard := Executions(tree), t.shards[i].id;
    forall q ensures SelectsIn(t, tree, shard, q) <==> SucceedsAlone(t, executions, q) {
      SucceedsAloneHere(t, tree, i, q);
    }
    assert ExecutionChecksums(id) in executions <==> ExecutionChecksums(id) in tree;
    OnlySuccessIsAlone(t, executions, id);
  }

  /** One execution succeeded, and all others are valid evidence but did not. */
  ghost predicate SucceedsAlone(t: Trial, executions: Tree, q: seq<string>) {
    && q in ExecutionPrefixes(executions) && t.Examine(q, executions) == Some(true)
    && forall r | r in ExecutionPrefixes(executions) && r != q :: t.Examine(r, executions) == Some(false)
  }

  lemma SucceedsAloneHere(t: Trial, tree: Tree, i: nat, q: seq<string>)
    requires OnlyIn(t.id, t.shards, i)
    requires forall r :: t.Examine(r, Executions(tree)) == Examined(t, tree, t.shards[i].id, r)
    requires forall r :: r in ExecutionPrefixes(Executions(tree)) <==> HoldsExecution(tree, r)
    ensures SelectsIn(t, tree, t.shards[i].id, q) <==> SucceedsAlone(t, Executions(tree), q)
  {
  }

  lemma NotTrue(answer: Option<bool>)
    requires answer.Some? && answer != Some(true)
    ensures answer == Some(false)
  {
    assert answer.value ==> answer == Some(true);
  }

  lemma OnlySuccessIsAlone(t: Trial, executions: Tree, id: string)
    ensures OnlySuccess(t, executions, id) <==>
              (exists q :: SucceedsAlone(t, executions, q) && q != [] && q[|q| - 1] == id) && ExecutionChecksums(id) in executions
  {
    if OnlySuccess(t, executions, id) {
      var q :| q in ExecutionPrefixes(executions) && q != [] && q[|q| - 1] == id && t.Examine(q, executions) == Some(true) &&
               forall r | r in ExecutionPrefixes(executions) && t.Examine(r, executions) == Some(true) :: r == q;
      forall r | r in ExecutionPrefixes(executions) && r != q ensures t.Examine(r, executions) == Some(false) {
        NotTrue(t.Examine(r, executions));
      }
      assert SucceedsAlone(t, executions, q);
    }
  }

  // ---- checksums ----

  predicate IsChildManifest(p: Path) {
    p.name == Checksums && p.parent != []
  }

  /** What a path in a child's manifest means for the trial. */
  function Below(child: Path, relative: Path): Path {
    Path(child.parent + relative.parent, relative.name)
  }

  function Evidence(tree: Tree): set<Path> {
    (set p | p in tree) - {CHECKSUMS} - TERMINAL_MARKERS
  }

  function Digests(t: Trial, tree: Tree): Manifest {
    map p | p in Evidence(tree) :: t.digest(tree[p])
  }

  predicate Within(a: Manifest, b: Manifest) {
    forall p | p in a :: p in b && a[p] == b[p]
  }

  /** A child's manifest, seen from the trial, is part of `whole`. */
  predicate Claims(child: Path, manifest: Manifest, whole: Manifest) {
    forall relative | relative in manifest ::
      Below(child, relative) in whole && whole[Below(child, relative)] == manifest[relative]
  }

  predicate ChildAgrees(t: Trial, tree: Tree, child: Path)
    requires child in tree
  {
    var m := t.readManifest(tree[child]);
    m.Some? && Claims(child, m.value, Digests(t, tree))
  }

  /** What every child manifest says is so. */
  predicate ChildrenAgree(t: Trial, tree: Tree) {
    forall child | child in tree && IsChildManifest(child) :: ChildAgrees(t, tree, child)
  }

  // ---- where a trial is heading ----

  /** A finished trial. */
  predicate Finished(t: Trial, final: Tree, id: string) {
    && {LOCK, SUMMARY, CHECKSUMS, MARKER} <= final.Keys
    && final[MARKER] == "\n" && final[LOCK] == t.lock
    && OnlySuccess(t, Executions(final), id)
    && t.readSummary(final[SUMMARY]) == Some(Summary(t.id, Some(id), t.digest(final[ExecutionChecksums(id)])))
    && Summed(t, final)
  }

  /** The checksums are those of all the evidence, and no child manifest says otherwise. */
  predicate Summed(t: Trial, tree: Tree)
    requires CHECKSUMS in tree
  {
    ChildrenAgree(t, tree) && tree[CHECKSUMS] == t.manifest(Digests(t, tree))
  }

  predicate Part(tree: Tree, final: Tree) {
    tree.Keys <= final.Keys && forall p | p in tree :: tree[p] == final[p]
  }

  /** A crash between the writes on the way to `final` can leave `tree`. */
  predicate Heading(t: Trial, tree: Tree, final: Tree, id: string) {
    Finished(t, final, id) && OnTheWay(t, tree, final, id, t.digest(final[ExecutionChecksums(id)]))
  }

  /** Every file that is there is right, and the missing ones are the last to be written. */
  predicate OnTheWay(t: Trial, tree: Tree, final: Tree, id: string, checksum: Digest) {
    && Part(tree, final) && final.Keys - tree.Keys <= ENVELOPE
    && {LOCK, SUMMARY, CHECKSUMS, MARKER} <= final.Keys && final[LOCK] == t.lock
    && (MARKER in tree ==> tree == final)
    && (CHECKSUMS in tree ==> final.Keys - tree.Keys <= {MARKER})
    && (CHECKSUMS !in tree ==> RECOVERY in final && final[RECOVERY] == EnvelopeBytes(t, id, checksum, RECOVERY))
    && (SUMMARY !in tree ==> final[SUMMARY] == EnvelopeBytes(t, id, checksum, SUMMARY))
  }

  /** The content of the files written before the checksums. */
  function EnvelopeBytes(t: Trial, id: string, checksum: Digest, p: Path): Bytes
    requires p in {RECOVERY, LOCK, SUMMARY}
  {
    if p == RECOVERY then t.recovery(id, checksum)
    else if p == LOCK then t.lock
    else t.summary(Summary(t.id, Some(id), checksum))
  }

  lemma SameExecutions(tree: Tree, final: Tree)
    requires Part(tree, final) && final.Keys - tree.Keys <= ENVELOPE
    ensures Executions(tree) == Executions(final)
  {
    forall p | p in final && p.parent != [] ensures p in tree {
      assert p !in ENVELOPE;
    }
  }

  /** The digests of all files but the checksums and the markers. */
  function Inventory(t: Trial, tree: Tree): Manifest {
    map p | p in tree && !(p.parent == [] && p.name in {Checksums, Success, Failed, Cancelled}) :: t.digest(tree[p])
  }

  lemma DigestsAreInventory(t: Trial, tree: Tree)
    ensures Digests(t, tree) == Inventory(t, tree)
  {
    assert forall p :: p in Evidence(tree) <==> p in Inventory(t, tree);
  }

  /** Every manifest below the trial says of each file it lists what the trial's will say. */
  predicate ManifestsAgree(t: Trial, tree: Tree) {
    forall p | p in tree && p.name == Checksums && p.parent != [] ::
      t.readManifest(tree[p]).Some? && ManifestAgrees(t, tree, p.parent, t.readManifest(tree[p]).value)
  }

  predicate ManifestAgrees(t: Trial, tree: Tree, parent: seq<string>, m: Manifest) {
    forall q | q in m ::
      var p := Path(parent + q.parent, q.name);
      p in Inventory(t, tree) && Inventory(t, tree)[p] == m[q]
  }

  lemma ManifestsAgreeExactly(t: Trial, tree: Tree)
    ensures ChildrenAgree(t, tree) <==> ManifestsAgree(t, tree)
  {
    DigestsAreInventory(t, tree);
  }

  /** The files around the evidence of a finished trial.  All name the selected execution and
      the digest of its checksums; what was there before is as it was. */
  ghost predicate Envelope(t: Trial, before: Tree, tree: Tree, id: string) {
    && Selects(t, tree, id) && ManifestsAgree(t, tree)
    && ExecutionChecksums(id) in tree && {LOCK, SUMMARY, CHECKSUMS, MARKER} <= tree.Keys
    && var checksum := t.digest(tree[ExecutionChecksums(id)]);
    && tree[LOCK] == t.lock && tree[MARKER] == "\n" && tree[CHECKSUMS] == t.manifest(Inventory(t, tree))
    && (CHECKSUMS !in before ==> RECOVERY in tree && tree[RECOVERY] == t.recovery(id, checksum))
    && (SUMMARY !in before ==> tree[SUMMARY] == t.summary(Summary(t.id, Some(id), checksum)))
    && t.readSummary(tree[SUMMARY]) == Some(Summary(t.id, Some(id), checksum))
    && (forall p | p in before :: p in tree && tree[p] == before[p])
  }

  lemma EnvelopeOfTheEnd(t: Trial, before: Tree, final: Tree, id: string, checksum: Digest)
    requires Finished(t, final, id) && Part(before, final) && checksum == t.digest(final[ExecutionChecksums(id)])
    requires CHECKSUMS !in before ==> RECOVERY in final && final[RECOVERY] == t.recovery(id, checksum)
    requires SUMMARY !in before ==> final[SUMMARY] == t.summary(Summary(t.id, Some(id), checksum))
    ensures Envelope(t, before, final, id)
  {
    DigestsAreInventory(t, final);
    SelectedExactly(t, final, id);
    ManifestsAgreeExactly(t, final);
  }

  function EndKeys(tree: Tree): set<Path> {
    tree.Keys + (if MARKER in tree then {} else if CHECKSUMS in tree then {MARKER} else ENVELOPE)
  }

  lemma KeysOfTheEnd(t: Trial, tree: Tree, final: Tree, id: string, checksum: Digest)
    requires OnTheWay(t, tree, final, id, checksum)
    ensures final.Keys == EndKeys(tree)
  {
  }

  lemma SameSelection(t: Trial, tree: Tree, final: Tree, id: string)
    requires Heading(t, tree, final, id)
    ensures OnlySuccess(t, Executions(tree), id)
    ensures final[ExecutionChecksums(id)] == Executions(tree)[ExecutionChecksums(id)]
  {
    SameExecutions(tree, final);
    assert final[ExecutionChecksums(id)] == Executions(final)[ExecutionChecksums(id)];
  }

  lemma SameDigests(t: Trial, a: Tree, b: Tree)
    requires a.Keys == b.Keys && forall p | p in a && p !in {CHECKSUMS, MARKER} :: a[p] == b[p]
    ensures Digests(t, a) == Digests(t, b)
  {
    forall p | p in Evidence(a) ensures a[p] == b[p] {
      assert MARKER in TERMINAL_MARKERS;
    }
  }

  lemma OneSelection(t: Trial, executions: Tree, i: string, j: string)
    requires OnlySuccess(t, executions, i) && OnlySuccess(t, executions, j)
    ensures i == j
  {
    var p :| p in ExecutionPrefixes(executions) && p != [] && p[|p| - 1] == i && t.Examine(p, executions) == Some(true);
    var q :| q in ExecutionPrefixes(executions) && q != [] && q[|q| - 1] == j && t.Examine(q, executions) == Some(true);
    assert p == q;
  }

  lemma BytesOfTheEnd(t: Trial, tree: Tree, final: Tree, id: string, checksum: Digest, p: Path)
    requires OnTheWay(t, tree, final, id, checksum)
    requires p in tree || (CHECKSUMS !in tree && p in {RECOVERY, LOCK, SUMMARY})
    ensures p in final && final[p] == if p in tree then tree[p] else EnvelopeBytes(t, id, checksum, p)
  {
  }

  lemma StillMissing(tree: Tree, p: Path)
    requires p in EndKeys(tree) && p !in {CHECKSUMS, MARKER}
    requires MARKER in tree ==> CHECKSUMS in tree
    ensures p in tree || (CHECKSUMS !in tree && p in {RECOVERY, LOCK, SUMMARY})
  {
  }

  lemma SameBytes(t: Trial, tree: Tree, a: Tree, b: Tree, id: string, p: Path)
    requires Heading(t, tree, a, id) && Heading(t, tree, b, id)
    requires p in a && p !in {CHECKSUMS, MARKER}
    ensures p in b && a[p] == b[p]
  {
    SameSelection(t, tree, a, id);
    SameSelection(t, tree, b, id);
    var checksum := t.digest(Executions(tree)[ExecutionChecksums(id)]);
    KeysOfTheEnd(t, tree, a, id, checksum);
    KeysOfTheEnd(t, tree, b, id, checksum);
    StillMissing(tree, p);
    BytesOfTheEnd(t, tree, a, id, checksum, p);
    BytesOfTheEnd(t, tree, b, id, checksum, p);
  }

  /** One tree heads for one end only, byte for byte. */
  lemma EndIsDetermined(t: Trial, tree: Tree, a: Tree, b: Tree, i: string, j: string)
    requires Heading(t, tree, a, i) && Heading(t, tree, b, j)
    ensures a == b && i == j
  {
    SameSelection(t, tree, a, i);
    SameSelection(t, tree, b, j);
    OneSelection(t, Executions(tree), i, j);
    forall p | p in a && p !in {CHECKSUMS, MARKER} ensures p in b && a[p] == b[p] {
      SameBytes(t, tree, a, b, i, p);
    }
    KeysOfTheEnd(t, tree, a, i, t.digest(a[ExecutionChecksums(i)]));
    KeysOfTheEnd(t, tree, b, i, t.digest(b[ExecutionChecksums(i)]));
    SameDigests(t, a, b);
    FinishedTwins(t, a, b, i);
  }

  lemma FinishedTwins(t: Trial, a: Tree, b: Tree, id: string)
    requires Finished(t, a, id) && Finished(t, b, id) && a.Keys == b.Keys && Digests(t, a) == Digests(t, b)
    requires forall p | p in a && p !in {CHECKSUMS, MARKER} :: a[p] == b[p]
    ensures a == b
  {
  }

  /** `successful` has each successful execution once, and all executions are valid. */
  ghost predicate Lists(t: Trial, executions: Tree, successful: seq<seq<string>>) {
    && (forall q | q in ExecutionPrefixes(executions) :: t.Examine(q, executions).Some?)
    && (forall q :: q in successful <==> q in ExecutionPrefixes(executions) && t.Examine(q, executions) == Some(true))
    && (forall i, j | 0 <= i < j < |successful| :: successful[i] != successful[j])
  }

  lemma JustOne<T>(s: seq<T>, x: T)
    requires x in s && forall y | y in s :: y == x
    requires forall i, j | 0 <= i < j < |s| :: s[i] != s[j]
    ensures s == [x]
  {
    forall i | 0 <= i < |s| ensures s[i] == x {
      assert s[i] in s;
    }
    assert |s| == 1 by {
      if |s| > 1 { var a, b := s[0], s[1]; }
    }
  }

  lemma OnlySuccessIsListed(t: Trial, executions: Tree, id: string, successful: seq<seq<string>>)
    requires Lists(t, executions, successful) && OnlySuccess(t, executions, id)
    ensures |successful| == 1 && successful[0] != [] && successful[0][|successful[0]| - 1] == id
  {
    var q :| q in ExecutionPrefixes(executions) && q != [] && q[|q| - 1] == id && t.Examine(q, executions) == Some(true) &&
             forall r | r in ExecutionPrefixes(executions) && t.Examine(r, executions) == Some(true) :: r == q;
    JustOne(successful, q);
  }

  lemma ListedAlone(t: Trial, executions: Tree, q: seq<string>)
    requires Lists(t, executions, [q]) && q != [] && ExecutionChecksums(q[|q| - 1]) in executions
    ensures OnlySuccess(t, executions, q[|q| - 1])
  {
    assert q in [q];
  }

  lemma OneMoreFile(t: Trial, tree: Tree, final: Tree, id: string, checksum: Digest, p: Path)
    requires OnTheWay(t, tree, final, id, checksum) && CHECKSUMS !in tree && MARKER !in tree
    requires p in {RECOVERY, LOCK, SUMMARY} && (p == SUMMARY ==> SUMMARY !in tree)
    ensures final[p] == EnvelopeBytes(t, id, checksum, p)
    ensures OnTheWay(t, tree[p := final[p]], final, id, checksum)
  {
  }

  /** All but the marker. */
  predicate Sealable(t: Trial, tree: Tree, id: string, checksum: Digest) {
    && {LOCK, SUMMARY, CHECKSUMS} <= tree.Keys && MARKER !in tree
    && tree[LOCK] == t.lock
    && t.readSummary(tree[SUMMARY]) == Some(Summary(t.id, Some(id), checksum))
    && Summed(t, tree)
  }

  lemma MarkerChangesNoEvidence(t: Trial, tree: Tree)
    ensures Digests(t, tree[MARKER := "\n"]) == Digests(t, tree)
    ensures ChildrenAgree(t, tree[MARKER := "\n"]) <==> ChildrenAgree(t, tree)
  {
    var sealed := tree[MARKER := "\n"];
    assert Evidence(sealed) == Evidence(tree);
    forall child | child in tree && IsChildManifest(child) ensures ChildAgrees(t, sealed, child) <==> ChildAgrees(t, tree, child) {}
  }

  lemma SealFinishes(t: Trial, tree: Tree, id: string, checksum: Digest)
    requires Sealable(t, tree, id, checksum)
    requires OnlySuccess(t, Executions(tree), id) && checksum == t.digest(tree[ExecutionChecksums(id)])
    ensures Finished(t, tree[MARKER := "\n"], id)
    ensures tree[MARKER := "\n"][ExecutionChecksums(id)] == tree[ExecutionChecksums(id)]
  {
    MarkerChangesNoEvidence(t, tree);
    SameExecutions(tree, tree[MARKER := "\n"]);
  }

  lemma HeadingForTheSeal(t: Trial, tree: Tree, final: Tree, id: string, checksum: Digest)
    requires OnTheWay(t, tree, final, id, checksum) && CHECKSUMS in tree && MARKER !in tree && final[MARKER] == "\n"
    ensures final == tree[MARKER := "\n"] && LOCK in tree && SUMMARY in tree
    ensures Summed(t, final) <==> Summed(t, tree)
  {
    KeysOfTheEnd(t, tree, final, id, checksum);
    assert final == tree[MARKER := "\n"];
    MarkerChangesNoEvidence(t, tree);
  }

  /** Recovery, lock and summary are there, the missing ones as a finalizer writes them. */
  predicate Filled(t: Trial, before: Tree, after: Tree, id: string, checksum: Digest) {
    && after.Keys == before.Keys + {RECOVERY, LOCK, SUMMARY} && Part(before, after)
    && after[RECOVERY] == EnvelopeBytes(t, id, checksum, RECOVERY)
    && forall p | p in {RECOVERY, LOCK, SUMMARY} && p !in before :: after[p] == EnvelopeBytes(t, id, checksum, p)
  }

  function WithChecksums(t: Trial, tree: Tree): Tree {
    tree[CHECKSUMS := t.manifest(Digests(t, tree))]
  }

  lemma ChecksumsChangeNoEvidence(t: Trial, tree: Tree, content: Bytes)
    requires CHECKSUMS !in tree
    ensures Digests(t, tree[CHECKSUMS := content]) == Digests(t, tree)
    ensures ChildrenAgree(t, tree[CHECKSUMS := content]) <==> ChildrenAgree(t, tree)
  {
    var more := tree[CHECKSUMS := content];
    assert Evidence(more) == Evidence(tree);
    forall child | child in tree && IsChildManifest(child) ensures ChildAgrees(t, more, child) <==> ChildAgrees(t, tree, child) {}
  }

  /** The tree before the marker, when the checksums have been added. */
  lemma ChecksumsSeal(t: Trial, before: Tree, tree: Tree, id: string, checksum: Digest)
    requires Filled(t, before, tree, id, checksum) && CHECKSUMS !in before && MARKER !in before
    requires tree[LOCK] == t.lock && t.Lawful() && ChildrenAgree(t, tree)
    requires SUMMARY in before ==> t.readSummary(before[SUMMARY]) == Some(Summary(t.id, Some(id), checksum))
    ensures Sealable(t, WithChecksums(t, tree), id, checksum)
  {
    assert SUMMARY !in before ==> tree[SUMMARY] == t.summary(Summary(t.id, Some(id), checksum));
    ChecksumsChangeNoEvidence(t, tree, t.manifest(Digests(t, tree)));
  }

  lemma FromTheStart(t: Trial, before: Tree, tree: Tree, id: string, checksum: Digest)
    requires Filled(t, before, tree, id, checksum) && CHECKSUMS !in before && MARKER !in before && tree[LOCK] == t.lock
    ensures OnTheWay(t, before, WithChecksums(t, tree)[MARKER := "\n"], id, checksum)
  {
  }

  /** With everything else in place, the end's checksums are those of what is there. */
  lemma HeadingForChecksums(t: Trial, tree: Tree, final: Tree, id: string, checksum: Digest)
    requires OnTheWay(t, tree, final, id, checksum) && {RECOVERY, LOCK, SUMMARY} <= tree.Keys
    requires CHECKSUMS !in tree && MARKER !in tree && final[MARKER] == "\n"
    ensures Digests(t, final) == Digests(t, tree)
    ensures ChildrenAgree(t, tree) <==> ChildrenAgree(t, final)
    ensures OnTheWay(t, tree[CHECKSUMS := final[CHECKSUMS]], final, id, checksum)
  {
    var middle := tree[CHECKSUMS := final[CHECKSUMS]];
    KeysOfTheEnd(t, tree, final, id, checksum);
    assert final == middle[MARKER := "\n"];
    MarkerChangesNoEvidence(t, middle);
    ChecksumsChangeNoEvidence(t, tree, final[CHECKSUMS]);
  }

  predicate HeadsAs(t: Trial, tree: Tree, final: Tree, jd: string, id: string, checksum: Digest) {
    && jd == id && OnTheWay(t, tree, final, id, checksum) && final[MARKER] == "\n" && Summed(t, final)
    && Finished(t, final, id) && checksum == t.digest(final[ExecutionChecksums(id)])
  }

  lemma SameEnd(t: Trial, tree: Tree, final: Tree, jd: string, id: string, checksum: Digest)
    requires Heading(t, tree, final, jd)
    requires OnlySuccess(t, Executions(tree), id) && checksum == t.digest(tree[ExecutionChecksums(id)])
    ensures HeadsAs(t, tree, final, jd, id, checksum)
  {
    SameSelection(t, tree, final, jd);
    OneSelection(t, Executions(tree), id, jd);
    assert Executions(tree)[ExecutionChecksums(id)] == tree[ExecutionChecksums(id)];
  }

  /** A summary, if there is one, selects this execution. */
  predicate SelectedBy(t: Trial, tree: Tree, id: string) {
    SUMMARY in tree ==>
      && ExecutionChecksums(id) in tree
      && t.readSummary(tree[SUMMARY]) == Some(Summary(t.id, Some(id), t.digest(tree[ExecutionChecksums(id)])))
  }

  lemma SummaryOfTheEnd(t: Trial, tree: Tree, final: Tree, id: string)
    requires Heading(t, tree, final, id)
    ensures OnlySuccess(t, Executions(tree), id) && SelectedBy(t, tree, id)
  {
    SameSelection(t, tree, final, id);
    assert Executions(tree)[ExecutionChecksums(id)] == tree[ExecutionChecksums(id)];
  }

  lemma Accepted(t: Trial, before: Tree, tree: Tree, id: string, checksum: Digest)
    requires OnlySuccess(t, Executions(before), id) && checksum == t.digest(before[ExecutionChecksums(id)])
    requires OnTheWay(t, before, tree[MARKER := "\n"], id, checksum) && Sealable(t, tree, id, checksum)
    ensures Heading(t, before, tree[MARKER := "\n"], id)
  {
    var final := tree[MARKER := "\n"];
    SameExecutions(before, final);
    SameExecutions(tree, final);
    assert Executions(before)[ExecutionChecksums(id)] == Executions(final)[ExecutionChecksums(id)];
    SealFinishes(t, tree, id, checksum);
  }

  class CampaignFinalizer {
    const t: Trial
    const faults: bool             // whether requests and responses may be lost
    var stored: Tree               // the bucket, below the trial's prefix
    var staged: Tree               // what this process wrote
    var runPaths: set<Path>        // the listing, kept up to date

    ghost predicate Valid()
      reads this
    {
      Part(staged, stored) && t.Lawful()
    }

    ghost predicate Listed()
      reads this
    {
      runPaths == stored.Keys
    }

    /** A finalizer process starts on whatever is in the bucket. */
    constructor (t: Trial, stored: Tree, faults: bool)
      requires t.Lawful()
      ensures Valid() && Listed() && this.t == t && this.stored == stored && this.faults == faults
    {
      this.t, this.faults, this.stored := t, faults, stored;
      staged, runPaths := map[], stored.Keys;
    }

    method Read(path: Path) returns (content: Bytes)
      requires Valid() && path in stored
      ensures content == stored[path]
    {
      content := if path in staged then staged[path] else stored[path];
    }

    /** `_stage_immutable` and `write_immutable`. */
    method StageImmutable(path: Path, content: Bytes) returns (error: Option<Error>)
      requires Valid()
      modifies this`stored, this`staged
      ensures Valid() && Part(old(stored), stored)
      ensures stored == old(stored) || stored == old(stored)[path := content]
      ensures error.None? ==> stored == old(stored)[path := content] && staged == old(staged)[path := content]
      ensures error.Some? ==> staged == old(staged)
      ensures path in old(stored) && old(stored)[path] != content ==> error.Some?
      ensures !faults && (path in old(stored) ==> old(stored)[path] == content) ==> error.None?
    {
      if path in staged && staged[path] != content { return Some(Conflict); }
      if faults { if * { return Some(Unavailable); } }
      if path in stored && stored[path] != content { return Some(Conflict); }
      stored := stored[path := content];
      if faults { if * { return Some(Unavailable); } }
      staged := staged[path := content];
      error := None;
    }

    method StageTrialFile(path: Path, content: Bytes) returns (error: Option<Error>)
      requires Valid() && Listed()
      modifies this
      ensures Valid() && Part(old(stored), stored)
      ensures stored == old(stored) || stored == old(stored)[path := content]
      ensures error.None? ==> Listed() && stored == old(stored)[path := content]
      ensures path in old(stored) && old(stored)[path] != content ==> error.Some?
      ensures !faults && (path in old(stored) ==> old(stored)[path] == content) ==> error.None?
    {
      error := StageImmutable(path, content);
      if error.None? { runPaths := runPaths + {path}; }
    }

    /** Adds one child's manifest; fails exactly when no manifest extends both. */
    method Merge(covered: Manifest, child: Path, manifest: Manifest) returns (r: Option<Manifest>)
      ensures r.Some? ==> Within(covered, r.value) && Claims(child, manifest, r.value)
      ensures forall whole | Within(covered, whole) && Claims(child, manifest, whole) :: r.Some? && Within(r.value, whole)
    {
      var merged, todo := covered, manifest.Keys;
      while todo != {}
        invariant todo <= manifest.Keys && Within(covered, merged)
        invariant forall p | p in manifest && p !in todo :: Below(child, p) in merged && merged[Below(child, p)] == manifest[p]
        invariant forall whole | Within(covered, whole) && Claims(child, manifest, whole) :: Within(merged, whole)
      {
        var relative :| relative in todo;
        var key := Below(child, relative);
        if key in merged && merged[key] != manifest[relative] { return None; }
        merged := merged[key := manifest[relative]];
        todo := todo - {relative};
      }
      r := Some(merged);
    }

    /** `_child_checksums`: the least manifest that holds what every child claims. */
    method ChildChecksums() returns (r: Result<Manifest, Error>)
      requires Valid() && Listed()
      ensures r.Err? ==> !ChildrenAgree(t, stored)
      ensures r.Ok? ==> forall child | child in stored && IsChildManifest(child) ::
                t.readManifest(stored[child]).Some? && Claims(child, t.readManifest(stored[child]).value, r.value)
      ensures r.Ok? && ChildrenAgree(t, stored) ==> Within(r.value, Digests(t, stored))
    {
      var covered: Manifest := map[];
      var todo := set child | child in runPaths && IsChildManifest(child);
      while todo != {}
        invariant forall child | child in todo :: child in stored && IsChildManifest(child)
        invariant forall child | child in stored && IsChildManifest(child) && child !in todo ::
            t.readManifest(stored[child]).Some? && Claims(child, t.readManifest(stored[child]).value, covered)
        invariant ChildrenAgree(t, stored) ==> Within(covered, Digests(t, stored))
      {
        var child :| child in todo;
        var content := Read(child);
        var manifest := t.readManifest(content);
        if manifest.None? { return Err(NotCovered); }
        var merged := Merge(covered, child, manifest.value);
        if merged.None? { return Err(NotCovered); }
        covered := merged.value;
        todo := todo - {child};
      }
      r := Ok(covered);
    }

    /** `_aggregate_checksums`: succeeds exactly when every child manifest is right, and is
        then the digests of all the evidence. */
    method AggregateChecksums() returns (r: Result<Manifest, Error>)
      requires Valid() && Listed()
      ensures r.Ok? <==> ChildrenAgree(t, stored)
      ensures r.Ok? ==> r.value == Digests(t, stored)
    {
      var children := ChildChecksums();
      if children.Err? { return children; }
      var covered := children.value;
      var expected := runPaths - {CHECKSUMS} - TERMINAL_MARKERS;
      assert expected == Evidence(stored);
      covered := CoverRest(covered, expected);
      if covered.Keys != expected { return Err(NotCovered); }
      var todo := expected;
      while todo != {}
        invariant todo <= expected
        invariant forall p | p in expected - todo :: covered[p] == t.digest(stored[p])
      {
        var path :| path in todo;
        var content := Read(path);
        if t.digest(content) != covered[path] { return Err(NotCovered); }
        todo := todo - {path};
      }
      assert covered == Digests(t, stored);
      r := Ok(covered);
    }

    /** Adds the digest of all expected evidence that no child covers. */
    method CoverRest(covered: Manifest, expected: set<Path>) returns (r: Manifest)
      requires Valid() && expected <= stored.Keys
      ensures r.Keys == covered.Keys + expected
      ensures forall p | p in r :: r[p] == if p in covered then covered[p] else t.digest(stored[p])
    {
      r := covered;
      var todo := expected - covered.Keys;
      while todo != {}
        invariant todo <= expected - covered.Keys
        invariant r.Keys == covered.Keys + (expected - todo)
        invariant forall p | p in r :: p in covered || p in expected
        invariant forall p | p in r :: r[p] == if p in covered then covered[p] else t.digest(stored[p])
      {
        var path :| path in todo;
        var content := Read(path);
        r := r[path := t.digest(content)];
        todo := todo - {path};
      }
    }

    /** `_successful_execution_ids`, with the directories that hold them. */
    method SuccessfulExecutions() returns (r: Option<seq<seq<string>>>)
      requires Valid() && Listed()
      ensures r.Some? <==>
                t.HasOneShard() && forall q | q in ExecutionPrefixes(Executions(stored)) :: t.Examine(q, Executions(stored)).Some?
      ensures r.Some? ==> Lists(t, Executions(stored), r.value)
    {
      if !t.HasOneShard() { return None; }
      var executions := Executions(stored);
      var todo, successful := ExecutionPrefixes(executions), [];
      ghost var all := todo;
      while todo != {}
        invariant todo <= all
        invariant forall q | q in all - todo :: t.Examine(q, executions).Some?
        invariant forall q :: q in successful <==> q in all - todo && t.Examine(q, executions) == Some(true)
        invariant forall i, j | 0 <= i < j < |successful| :: successful[i] != successful[j]
      {
        var prefix :| prefix in todo;
        var examined := t.Examine(prefix, executions);
        if examined.None? { return None; }
        if examined.value { successful := successful + [prefix]; }
        todo := todo - {prefix};
      }
      r := Some(successful);
    }

    /** The one successful execution and the digest of its checksums, if there is just one. */
    method OnlySuccessful() returns (r: Option<(string, Digest)>)
      requires Valid() && Listed()
      ensures r.Some? ==> OnlySuccess(t, Executions(stored), r.value.0) &&
                          r.value.1 == t.digest(stored[ExecutionChecksums(r.value.0)])
      ensures forall id | OnlySuccess(t, Executions(stored), id) :: r.Some? && r.value.0 == id
    {
      var successful := SuccessfulExecutions();
      ghost var executions := Executions(stored);
      forall id | successful.Some? && OnlySuccess(t, executions, id)
        ensures |successful.value| == 1 && successful.value[0] != []
        ensures successful.value[0][|successful.value[0]| - 1] == id
      {
        OnlySuccessIsListed(t, executions, id, successful.value);
      }
      if successful.None? || |successful.value| != 1 { return None; }
      var prefix := successful.value[0];
      assert prefix in successful.value;
      assert successful.value == [prefix];
      var id := prefix[|prefix| - 1];
      var path := ExecutionChecksums(id);
      if path !in stored { return None; }
      ListedAlone(t, executions, prefix);
      r := Some((id, t.digest(stored[path])));
    }

    /** Writes one file of the envelope. */
    method StageEnvelopeFile(path: Path, id: string, checksum: Digest) returns (error: Option<Error>)
      requires Valid() && Listed() && CHECKSUMS !in stored && MARKER !in stored
      requires path in {RECOVERY, LOCK, SUMMARY} && (path == SUMMARY ==> SUMMARY !in stored)
      modifies this
      ensures Valid() && Part(old(stored), stored)
      ensures stored == old(stored) || stored == old(stored)[path := EnvelopeBytes(t, id, checksum, path)]
      ensures error.None? ==> Listed() && stored == old(stored)[path := EnvelopeBytes(t, id, checksum, path)]
      ensures forall final | OnTheWay(t, old(stored), final, id, checksum) ::
                OnTheWay(t, stored, final, id, checksum) && (!faults ==> error.None?)
    {
      forall final | OnTheWay(t, stored, final, id, checksum)
        ensures final[path] == EnvelopeBytes(t, id, checksum, path)
        ensures OnTheWay(t, stored[path := final[path]], final, id, checksum) && Part(stored, final)
      {
        OneMoreFile(t, stored, final, id, checksum, path);
      }
      error := StageTrialFile(path, EnvelopeBytes(t, id, checksum, path));
    }

    /** The additions of `_stage_trial_envelope`: recovery, then lock and summary if missing. */
    method StageAdditions(id: string, checksum: Digest) returns (error: Option<Error>)
      requires Valid() && Listed() && CHECKSUMS !in stored && MARKER !in stored
      modifies this
      ensures Valid() && Part(old(stored), stored)
      ensures stored.Keys <= old(stored).Keys + {RECOVERY, LOCK, SUMMARY}
      ensures error.None? ==> Listed() && Filled(t, old(stored), stored, id, checksum)
      ensures forall final | OnTheWay(t, old(stored), final, id, checksum) ::
                OnTheWay(t, stored, final, id, checksum) && (!faults ==> error.None?)
    {
      error := StageEnvelopeFile(RECOVERY, id, checksum);
      if error.Some? { return; }
      if LOCK !in runPaths {
        error := StageEnvelopeFile(LOCK, id, checksum);
        if error.Some? { return; }
      }
      if SUMMARY !in runPaths {
        error := StageEnvelopeFile(SUMMARY, id, checksum);
        if error.Some? { return; }
      }
    }

    /** Everything before the marker, for a trial without checksums. */
    method StageEvidence(id: string, checksum: Digest) returns (error: Option<Error>)
      requires Valid() && Listed() && CHECKSUMS !in stored && MARKER !in stored
      requires LOCK in stored ==> stored[LOCK] == t.lock
      requires SUMMARY in stored ==> t.readSummary(stored[SUMMARY]) == Some(Summary(t.id, Some(id), checksum))
      modifies this
      ensures Valid() && Part(old(stored), stored)
      ensures error.None? ==> Listed() && Sealable(t, stored, id, checksum)
      ensures error.None? ==> OnTheWay(t, old(stored), stored[MARKER := "\n"], id, checksum)
      ensures forall final | OnTheWay(t, old(stored), final, id, checksum) && final[MARKER] == "\n" && Summed(t, final) ::
                OnTheWay(t, stored, final, id, checksum) && (!faults ==> error.None?)
    {
      error := StageAdditions(id, checksum);
      if error.Some? { return; }
      ghost var before := stored;
      forall final | OnTheWay(t, stored, final, id, checksum) && final[MARKER] == "\n" && Summed(t, final)
        ensures ChildrenAgree(t, stored) && OnTheWay(t, WithChecksums(t, stored), final, id, checksum)
      {
        HeadingForChecksums(t, stored, final, id, checksum);
      }
      var checksums := AggregateChecksums();
      if checksums.Err? { return Some(checksums.error); }
      ChecksumsSeal(t, old(stored), stored, id, checksum);
      FromTheStart(t, old(stored), stored, id, checksum);
      error := StageTrialFile(CHECKSUMS, t.manifest(checksums.value));
    }

    /** `_complete_marker_only_trial`: accepts exactly the checksums a finalizer would write. */
    method ValidateChecksums() returns (error: Option<Error>)
      requires Valid() && Listed() && CHECKSUMS in stored
      ensures error.None? <==> SUMMARY in stored && Summed(t, stored)
    {
      if SUMMARY !in runPaths { return Some(EvidenceOmitted); }
      var observed := Read(CHECKSUMS);
      var expected := AggregateChecksums();
      if expected.Err? { return Some(expected.error); }
      error := if t.manifest(expected.value) == observed then None else Some(NotCanonical);
    }

    /** `_trial_lock_missing`: a missing lock is allowed until there are checksums. */
    method CheckLock() returns (error: Option<Error>)
      requires Valid() && Listed()
      ensures error.None? <==> if LOCK in stored then stored[LOCK] == t.lock else CHECKSUMS !in stored
    {
      if LOCK !in runPaths {
        return if CHECKSUMS in runPaths then Some(LockMissing) else None;
      }
      var lock := Read(LOCK);
      error := if lock != t.lock then Some(LockMismatch) else None;
    }

    /** `_stage_trial_envelope`: the summary is written only when there is none yet. */
    method StageTrialEnvelope(id: string, checksum: Digest) returns (error: Option<Error>)
      requires Valid() && Listed() && MARKER !in stored
      requires SUMMARY in stored ==> t.readSummary(stored[SUMMARY]) == Some(Summary(t.id, Some(id), checksum))
      modifies this
      ensures Valid() && Part(old(stored), stored)
      ensures forall final | OnTheWay(t, old(stored), final, id, checksum) && final[MARKER] == "\n" && Summed(t, final) ::
                OnTheWay(t, stored, final, id, checksum) && (!faults ==> error.None?)
      ensures error.None? ==>
                && OnTheWay(t, old(stored), stored, id, checksum)
                && stored == (stored - {MARKER})[MARKER := "\n"] && Sealable(t, stored - {MARKER}, id, checksum)
      ensures error.None? && CHECKSUMS !in old(stored) ==>
                RECOVERY in stored && stored[RECOVERY] == t.recovery(id, checksum)
      ensures error.None? && SUMMARY !in old(stored) ==>
                SUMMARY in stored && stored[SUMMARY] == t.summary(Summary(t.id, Some(id), checksum))
      ensures error.None? ==> LOCK in stored && stored[LOCK] == t.lock
    {
      forall final | CHECKSUMS in stored && OnTheWay(t, stored, final, id, checksum) && final[MARKER] == "\n"
        ensures LOCK in stored && SUMMARY in stored && (Summed(t, final) <==> Summed(t, stored))
      {
        HeadingForTheSeal(t, stored, final, id, checksum);
      }
      error := CheckLock();
      if error.Some? { return; }
      if CHECKSUMS in runPaths {
        error := ValidateChecksums();
      } else {
        error := StageEvidence(id, checksum);
      }
      if error.Some? { return; }
      forall final | OnTheWay(t, stored, final, id, checksum) && final[MARKER] == "\n"
        ensures final == stored[MARKER := "\n"]
      {
        HeadingForTheSeal(t, stored, final, id, checksum);
      }
      assert stored[MARKER := "\n"] - {MARKER} == stored;
      error := StageTrialFile(MARKER, "\n");
    }

    /** The execution that a trial without a marker selects. */
    method SelectExecution() returns (r: Result<(string, Digest), Error>)
      requires Valid() && Listed()
      ensures r.Ok? ==> OnlySuccess(t, Executions(stored), r.value.0) &&
                        r.value.1 == t.digest(stored[ExecutionChecksums(r.value.0)])
      ensures r.Ok? && SUMMARY in stored ==>
                t.readSummary(stored[SUMMARY]) == Some(Summary(t.id, Some(r.value.0), r.value.1))
      ensures forall id | OnlySuccess(t, Executions(stored), id) && SelectedBy(t, stored, id) :: r.Ok?
    {
      var selected := OnlySuccessful();
      if SUMMARY in runPaths {
        var content := Read(SUMMARY);
        var summary := t.readSummary(content);
        if summary.None? || summary.value.executionId.None? { return Err(SummaryMalformed); }
        if selected.None? || summary.value.executionId != Some(selected.value.0) { return Err(AmbiguousExecution); }
        if summary.value != Summary(t.id, Some(selected.value.0), selected.value.1) { return Err(SummaryMismatch); }
      }
      if selected.None? { return Err(AmbiguousExecution); }
      r := Ok(selected.value);
    }

    /** Finishes a trial that has no marker: exactly the trials that head for some end. */
    method FinishTrial() returns (r: Result<string, Error>)
      requires Valid() && Listed() && MARKER !in stored
      modifies this
      ensures Valid() && Part(old(stored), stored)
      ensures forall final, id | Heading(t, old(stored), final, id) ::
                && Heading(t, stored, final, id)
                && (r.Ok? ==> stored == final && r.value == id)
                && (!faults ==> r.Ok?)
      ensures r.Ok? ==> Heading(t, old(stored), stored, r.value)
      ensures r.Ok? ==> Envelope(t, old(stored), stored, r.value)
    {
      forall final, id | Heading(t, stored, final, id)
        ensures OnlySuccess(t, Executions(stored), id) && SelectedBy(t, stored, id)
      {
        SummaryOfTheEnd(t, stored, final, id);
      }
      var selected := SelectExecution();
      if selected.Err? { return Err(selected.error); }
      var (id, checksum) := selected.value;
      forall final, jd | Heading(t, stored, final, jd) ensures HeadsAs(t, stored, final, jd, id, checksum) {
        SameEnd(t, stored, final, jd, id, checksum);
      }
      var error := StageTrialEnvelope(id, checksum);
      if error.Some? { return Err(error.value); }
      Accepted(t, old(stored), stored - {MARKER}, id, checksum);
      EnvelopeOfTheEnd(t, old(stored), stored, id, checksum);
      r := Ok(id);
    }

    /** `_complete_trial_selection`, with `_finish_interrupted_trial`.  Wherever a crashed
        finalizer left the trial, this one raises no conflict and ends where that one was
        heading; if it fails itself, the trial still heads there.  A trial without a
        marker is completed exactly when it heads for some end. */
    method CompleteTrialSelection() returns (r: Result<string, Error>)
      requires Valid() && Listed()
      modifies this
      ensures Valid() && Part(old(stored), stored)
      ensures forall final, id | Heading(t, old(stored), final, id) ::
                && Heading(t, stored, final, id)
                && (r.Ok? ==> stored == final && r.value == id)
                && (!faults ==> r.Ok?)
      ensures r.Ok? && MARKER !in old(stored) ==> Heading(t, old(stored), stored, r.value)
      ensures r.Ok? && MARKER !in old(stored) ==> Envelope(t, old(stored), stored, r.value)
      ensures MARKER in old(stored) ==>
                && stored == old(stored)
                && (r.Ok? <==>
                      SUMMARY in stored && t.readSummary(stored[SUMMARY]).Some? && t.readSummary(stored[SUMMARY]).value.executionId.Some?)
                && (r.Ok? ==> t.readSummary(stored[SUMMARY]).value.executionId == Some(r.value))
    {
      if MARKER !in runPaths {
        r := FinishTrial();
        return;
      }
      if SUMMARY !in runPaths { return Err(SummaryMissing); }
      var content := Read(SUMMARY);
      var summary := t.readSummary(content);
      if summary.None? || summary.value.executionId.None? { return Err(SummaryMalformed); }
      r := Ok(summary.value.executionId.value);
    }
  }
}
