/** Trimming a private bundle until it and the record of what was removed both fit
    (private_artifacts.py). */
module BundleTrimming {
  import opened Common
  import opened TextOrder
  import opened Permutations
  import opened RejectionRecord

  datatype Kind = Other | ExecutionLog | AgentLog | Verifier | Trajectory | Session | Runtime | Configuration | ResultFile | Lock

  datatype File = File(path: string, size: nat, kind: Kind)

  function RetentionPriority(k: Kind): nat {
    match k
    case Other => 0 case ExecutionLog => 1 case AgentLog => 2 case Verifier => 3 case Trajectory => 4
    case Session => 5 case Runtime => 6 case Configuration => 7 case ResultFile => 8 case Lock => 9
  }

  /** `a` is removed before `b`: a less important kind, then a larger file, then by path. */
  predicate Before(a: File, b: File) {
    var p, q := RetentionPriority(a.kind), RetentionPriority(b.kind);
    p < q || (p == q && (a.size > b.size || (a.size == b.size && StringLess(a.path, b.path))))
  }

  /** The lock is the last to go, and a file of no known kind the first. */
  lemma KindsInOrder()
    ensures RetentionPriority(Other) < RetentionPriority(ExecutionLog) < RetentionPriority(AgentLog) < RetentionPriority(Verifier)
    ensures RetentionPriority(Verifier) < RetentionPriority(Trajectory) < RetentionPriority(Session) < RetentionPriority(Runtime)
    ensures RetentionPriority(Runtime) < RetentionPriority(Configuration) < RetentionPriority(ResultFile) < RetentionPriority(Lock)
  {
  }

  /** The kinds from the most expendable to the most important one. */
  const KINDS := [Other, ExecutionLog, AgentLog, Verifier, Trajectory, Session, Runtime, Configuration, ResultFile, Lock]

  /** Among files of different kinds the kind decides, among those of one kind the larger size,
      and among those of one size the lesser path. */
  lemma RemovalReads(i: nat, j: nat, a: File, b: File)
    requires i < |KINDS| && j < |KINDS| && a.kind == KINDS[i] && b.kind == KINDS[j]
    ensures i < j ==> Before(a, b)
    ensures i == j && a.size > b.size ==> Before(a, b)
    ensures i == j && a.size == b.size ==> (Before(a, b) <==> StringLess(a.path, b.path))
    ensures i > j || (i == j && a.size < b.size) ==> !Before(a, b)
  {
    KindsInOrder();
  }

  lemma BeforeOrders(a: File, b: File, c: File)
    ensures a.path != b.path ==> Before(a, b) || Before(b, a)
    ensures Before(a, b) && Before(b, c) ==> Before(a, c)
  {
    StringOrder(a.path, b.path, c.path);
  }

  predicate DistinctPaths(files: seq<File>) {
    forall i, j | 0 <= i < j < |files| :: files[i].path != files[j].path
  }

  predicate RemovalOrder(files: seq<File>) {
    forall i, j | 0 <= i < j < |files| :: Before(files[i], files[j])
  }

  function Insert(x: File, s: seq<File>): (r: seq<File>)
    ensures multiset(r) == multiset(s) + multiset{x}
  {
    if s == [] || Before(x, s[0]) then [x] + s
    else
      assert s == [s[0]] + s[1..];
      [s[0]] + Insert(x, s[1..])
  }

  /** `removal_order` */
  function SortForRemoval(s: seq<File>): (r: seq<File>)
    ensures multiset(r) == multiset(s)
  {
    if s == [] then []
    else
      assert s == s[..|s| - 1] + [s[|s| - 1]];
      Insert(s[|s| - 1], SortForRemoval(s[..|s| - 1]))
  }

  lemma {:induction false} InsertSorts(x: File, s: seq<File>)
    requires RemovalOrder(s) && forall y | y in s :: y.path != x.path
    ensures RemovalOrder(Insert(x, s))
  {
    if s != [] {
      if Before(x, s[0]) {
        forall i | 0 <= i < |s| ensures Before(x, s[i]) {
          BeforeOrders(x, s[0], s[i]);
        }
      } else {
        InsertSorts(x, s[1..]);
        BeforeOrders(x, s[0], x);
        var rest := Insert(x, s[1..]);
        forall i | 0 <= i < |rest| ensures Before(s[0], rest[i]) {
          assert rest[i] in multiset(rest);
          if rest[i] != x {
            assert rest[i] in multiset(s[1..]);
            var k :| 0 <= k < |s[1..]| && s[1..][k] == rest[i];
            assert s[k + 1] == rest[i];
          }
        }
      }
    }
  }

  lemma {:induction false} SortingOrders(s: seq<File>)
    requires DistinctPaths(s)
    ensures RemovalOrder(SortForRemoval(s))
  {
    if s != [] {
      var front, last := s[..|s| - 1], s[|s| - 1];
      SortingOrders(front);
      forall y | y in SortForRemoval(front) ensures y.path != last.path {
        assert y in multiset(SortForRemoval(front)) && y in multiset(front);
      }
      InsertSorts(last, SortForRemoval(front));
    }
  }

  function TotalSize(files: seq<File>): nat {
    if files == [] then 0 else files[0].size + TotalSize(files[1..])
  }

  lemma {:induction false} SizeJoin(a: seq<File>, b: seq<File>)
    ensures TotalSize(a + b) == TotalSize(a) + TotalSize(b)
  {
    if a == [] {
      assert a + b == b;
    } else {
      assert (a + b)[1..] == a[1..] + b;
      SizeJoin(a[1..], b);
    }
  }

  lemma SizeOfPermutation(a: seq<File>, b: seq<File>)
    requires multiset(a) == multiset(b)
    ensures TotalSize(a) == TotalSize(b) && |a| == |b|
  {
    assert |multiset(a)| == |a| && |multiset(b)| == |b|;
    var f := (s: seq<File>) => TotalSize(s);
    forall x, y ensures AddsUp(f, x, y) { SizeJoin(x, y); }
    AdditiveOnPermutation(f, a, b);
  }

  predicate Fits(files: seq<File>, maxBytes: nat, maxCount: nat) {
    TotalSize(files) <= maxBytes && |files| <= maxCount
  }

  function FilePaths(files: seq<File>): set<string> {
    set f | f in files :: f.path
  }

  function TooMuch(f: File): Rejection {
    Rejection(f.path, BundleSize, Some(f.size))
  }

  function Rejections(files: seq<File>): seq<Rejection> {
    seq(|files|, i requires 0 <= i < |files| => TooMuch(files[i]))
  }

  /** The shortest beginning of an order whose removal makes the rest fit. */
  predicate IsTrimmed(order: seq<File>, removed: seq<File>, maxBytes: nat, maxCount: nat) {
    && removed <= order
    && Fits(order[|removed|..], maxBytes, maxCount)
    && (removed != [] ==> !Fits(order[|removed| - 1..], maxBytes, maxCount))
  }

  function RecordBytes(record: Option<string>): nat {
    if record.Some? then |record.value| else 0
  }

  /** The files that are still there, in the order they had. */
  function OnDisk(files: seq<File>, present: set<string>): seq<File> {
    if files == [] then []
    else (if files[0].path in present then [files[0]] else []) + OnDisk(files[1..], present)
  }

  ghost function StillPresent(files: seq<File>, gone: set<string>): seq<File> {
    if files == [] then []
    else (if files[0].path in gone then [] else [files[0]]) + StillPresent(files[1..], gone)
  }

  lemma {:induction false} KeptAreThere(files: seq<File>, present: set<string>, gone: set<string>)
    requires forall f | f in files :: f.path in present
    ensures OnDisk(files, present - gone) == StillPresent(files, gone)
  {
    if files != [] { KeptAreThere(files[1..], present, gone); }
  }

  lemma {:induction false} OnDiskIsThere(files: seq<File>, present: set<string>)
    ensures FilePaths(OnDisk(files, present)) <= present
  {
    if files != [] { OnDiskIsThere(files[1..], present); }
  }

  lemma NothingTrimmed(files: seq<File>, removed: seq<File>, maxBytes: nat, maxCount: nat)
    requires IsTrimmed(SortForRemoval(files), removed, maxBytes, maxCount) && Rejections(removed) == []
    ensures removed == [] && Fits(files, maxBytes, maxCount)
  {
    assert SortForRemoval(files)[0..] == SortForRemoval(files);
    SizeOfPermutation(SortForRemoval(files), files);
  }

  lemma {:induction false} PresentJoin(a: seq<File>, b: seq<File>, gone: set<string>)
    ensures StillPresent(a + b, gone) == StillPresent(a, gone) + StillPresent(b, gone)
  {
    if a == [] {
      assert a + b == b;
    } else {
      assert (a + b)[1..] == a[1..] + b;
      PresentJoin(a[1..], b, gone);
    }
  }

  lemma PresentOfPermutation(a: seq<File>, b: seq<File>, gone: set<string>)
    requires multiset(a) == multiset(b)
    ensures multiset(StillPresent(a, gone)) == multiset(StillPresent(b, gone))
  {
    forall file ensures multiset(StillPresent(a, gone))[file] == multiset(StillPresent(b, gone))[file] {
      var f := (s: seq<File>) => multiset(StillPresent(s, gone))[file];
      forall x, y ensures AddsUp(f, x, y) { PresentJoin(x, y, gone); }
      AdditiveOnPermutation(f, a, b);
    }
  }

  lemma {:induction false} AllGone(files: seq<File>, gone: set<string>)
    requires forall f | f in files :: f.path in gone
    ensures StillPresent(files, gone) == []
  {
    if files != [] { AllGone(files[1..], gone); }
  }

  lemma {:induction false} NoneGone(files: seq<File>, gone: set<string>)
    requires forall f | f in files :: f.path !in gone
    ensures StillPresent(files, gone) == files
  {
    if files != [] { NoneGone(files[1..], gone); }
  }

  lemma {:induction false} PresentDistinct(files: seq<File>, gone: set<string>)
    requires DistinctPaths(files)
    ensures DistinctPaths(StillPresent(files, gone))
    ensures forall f | f in StillPresent(files, gone) :: f in files
  {
    if files != [] {
      var rest := files[1..];
      PresentDistinct(rest, gone);
      forall f | f in StillPresent(rest, gone) ensures f.path != files[0].path {
        var i :| 0 <= i < |rest| && rest[i] == f;
        assert files[i + 1] == f;
      }
    }
  }

  lemma RestIsPresent(now: seq<File>, rest: seq<File>)
    requires DistinctPaths(now + rest)
    ensures StillPresent(now + rest, FilePaths(now)) == rest
  {
    var order, gone := now + rest, FilePaths(now);
    forall f | f in rest ensures f.path !in gone {
      var j :| 0 <= j < |rest| && rest[j] == f;
      forall r | r in now ensures r.path != f.path {
        var i :| 0 <= i < |now| && now[i] == r;
        assert order[i].path != order[|now| + j].path;
      }
    }
    AllGone(now, gone);
    NoneGone(rest, gone);
    PresentJoin(now, rest, gone);
  }

  lemma RankedApart(now: seq<File>, rest: seq<File>, r: File, k: File)
    requires RemovalOrder(now + rest) && r in now && k in rest
    ensures Before(r, k)
  {
    var i :| 0 <= i < |now| && now[i] == r;
    var j :| 0 <= j < |rest| && rest[j] == k;
    assert Before((now + rest)[i], (now + rest)[|now| + j]);
  }

  /** Kept and removed files are the files there were, and nothing removed ranks above
      anything kept. */
  predicate Parted(files: seq<File>, kept: seq<File>, removed: seq<File>) {
    && DistinctPaths(kept) && multiset(kept) + multiset(removed) == multiset(files)
    && forall r, k | r in removed && k in kept :: Before(r, k)
  }

  lemma TrimmedKeeps(current: seq<File>, now: seq<File>)
    requires DistinctPaths(current) && now <= SortForRemoval(current)
    ensures var kept := StillPresent(current, FilePaths(now));
            && DistinctPaths(kept) && |kept| == |current| - |now|
            && multiset(kept) == multiset(SortForRemoval(current)[|now|..])
            && multiset(kept) + multiset(now) == multiset(current)
  {
    var order, kept := SortForRemoval(current), StillPresent(current, FilePaths(now));
    var rest := order[|now|..];
    assert order == now + rest;
    PermutationDistinct(current, order);
    RestIsPresent(now, rest);
    PresentOfPermutation(current, order, FilePaths(now));
    SizeOfPermutation(current, order);
    SizeOfPermutation(kept, rest);
    PresentDistinct(current, FilePaths(now));
  }

  lemma TrimmedRanks(current: seq<File>, now: seq<File>, r: File, k: File)
    requires DistinctPaths(current) && now <= SortForRemoval(current)
    requires r in now && k in multiset(SortForRemoval(current)[|now|..])
    ensures Before(r, k)
  {
    SortingOrders(current);
    assert SortForRemoval(current) == now + SortForRemoval(current)[|now|..];
    RankedApart(now, SortForRemoval(current)[|now|..], r, k);
  }

  /** One round of trimming: the rest is what stays, and everything removed ranks below it. */
  lemma Trimmed(files: seq<File>, current: seq<File>, removed: seq<File>, now: seq<File>)
    requires Parted(files, current, removed) && now <= SortForRemoval(current)
    ensures Parted(files, StillPresent(current, FilePaths(now)), removed + now)
    ensures |StillPresent(current, FilePaths(now))| == |current| - |now|
  {
    var kept := StillPresent(current, FilePaths(now));
    TrimmedKeeps(current, now);
    assert multiset(removed + now) == multiset(removed) + multiset(now);
    forall r, k | r in removed + now && k in kept ensures Before(r, k) {
      assert k in multiset(kept) && k in multiset(current);
      if r in now { TrimmedRanks(current, now, r, k); }
    }
  }

  lemma PermutationDistinct(a: seq<File>, b: seq<File>)
    requires multiset(a) == multiset(b) && DistinctPaths(a)
    ensures DistinctPaths(b)
  {
    PermutationHasNoRepeats(a, b);
    forall i, j | 0 <= i < j < |b| ensures b[i].path != b[j].path {
      assert b[i] in multiset(a) && b[j] in multiset(a);
      var x :| 0 <= x < |a| && a[x] == b[i];
      var y :| 0 <= y < |a| && a[y] == b[j];
    }
  }

  lemma BookMore(before: seq<Rejection>, removed: seq<File>, now: seq<File>)
    ensures before + Rejections(removed) + Rejections(now) == before + Rejections(removed + now)
  {
    RejectionsJoin(removed, now);
  }

  lemma RejectionsJoin(a: seq<File>, b: seq<File>)
    ensures Rejections(a + b) == Rejections(a) + Rejections(b)
  {
  }

  lemma PathsJoin(a: seq<File>, b: seq<File>)
    ensures FilePaths(a + b) == FilePaths(a) + FilePaths(b)
  {
    assert forall x :: x in a + b <==> x in a || x in b;
  }

  lemma RecordFits(quote: string -> string, rejected: seq<Rejection>, omitted: nat, limit: nat,
                   retained: seq<Rejection>, record: Option<string>)
    requires IsRecord(quote, rejected, omitted, limit, retained, record)
    ensures RecordBytes(record) <= limit
  {
  }

  /** The directory and its record. */
  class PrivateBundle {
    const quote: string -> string
    var present: set<string>
    var record: Option<string>

    constructor (quote: string -> string, present: set<string>)
      ensures this.quote == quote && this.present == present
    {
      this.quote, this.present, record := quote, present, None;
    }

    /** `_trim_bundle`: removes the shortest beginning of the removal order that makes the
        rest fit. */
    method TrimBundle(files: seq<File>, maxBytes: nat, maxCount: nat) returns (rejected: seq<Rejection>, ghost removed: seq<File>)
      modifies this`present
      ensures IsTrimmed(SortForRemoval(files), removed, maxBytes, maxCount) && rejected == Rejections(removed)
      ensures present == old(present) - FilePaths(removed)
    {
      var order := SortForRemoval(files);
      var total := SumOfSizes(files);
      SizeOfPermutation(order, files);
      rejected, removed := TrimInOrder(order, total, maxBytes, maxCount);
    }

    method TrimInOrder(order: seq<File>, size: nat, maxBytes: nat, maxCount: nat)
      returns (rejected: seq<Rejection>, ghost removed: seq<File>)
      requires size == TotalSize(order)
      modifies this`present
      ensures IsTrimmed(order, removed, maxBytes, maxCount) && rejected == Rejections(removed)
      ensures present == old(present) - FilePaths(removed)
    {
      var total, count, i := size, |order|, 0;
      rejected, removed := [], [];
      assert order[0..] == order;
      while total > maxBytes || count > maxCount
        invariant i <= |order| && removed == order[..i] && rejected == Rejections(removed)
        invariant total == TotalSize(order[i..]) && count == |order| - i
        invariant present == old(present) - FilePaths(removed)
        invariant i > 0 ==> !Fits(order[i - 1..], maxBytes, maxCount)
        decreases count
      {
        var file := order[i];
        assert order[i..][1..] == order[i + 1..];
        PathsOfOneMore(removed, file);
        present := present - {file.path};
        total := total - file.size;
        count := count - 1;
        rejected := rejected + [TooMuch(file)];
        removed := removed + [file];
        i := i + 1;
      }
    }

    /** `_finalize_bounded_rejections`.  What is kept and what is newly removed are the files
        that were given; nothing removed ranks above anything kept; the kept files and the
        record fit together; and the record is that of all rejections. */
    method FinalizeBoundedRejections(
      files: seq<File>, before: seq<Rejection>, omitted: nat, maxFileBytes: nat, maxBundleBytes: nat, maxCount: nat)
      returns (retained: seq<Rejection>, ghost kept: seq<File>, ghost removed: seq<File>, ghost all: seq<Rejection>)
      requires DistinctPaths(files) && FilePaths(files) <= present
      modifies this
      ensures Parted(files, kept, removed) && all == before + Rejections(removed)
      ensures present == old(present) - FilePaths(removed)
      ensures TotalSize(kept) + RecordBytes(record) <= maxBundleBytes && |kept| <= maxCount && RecordBytes(record) <= maxFileBytes
      ensures IsRecord(quote, all, omitted, Smaller(maxFileBytes, maxBundleBytes), retained, record)
    {
      var limit := Smaller(maxFileBytes, maxBundleBytes);
      var rejected, current := before, files;
      removed := [];
      assert before + Rejections([]) == before;
      while true
        invariant rejected == before + Rejections(removed) && Parted(files, current, removed)
        invariant present == old(present) - FilePaths(removed) && FilePaths(current) <= present
        decreases |current|
      {
        ghost var now: seq<File>;
        var trimmed: seq<Rejection>;
        kept, all := current, rejected;
        retained, current, trimmed, now := RecordAndTrim(rejected, omitted, limit, maxBundleBytes, maxCount, files, current, removed);
        if trimmed == [] { return; }
        BookMore(before, removed, now);
        PathsJoin(removed, now);
        rejected := rejected + trimmed;
        removed := removed + now;
      }
    }

    /** One turn of the loop: the record is written, and the files are trimmed to the rest. */
    method RecordAndTrim(
      rejected: seq<Rejection>, omitted: nat, limit: nat, maxBundleBytes: nat, maxCount: nat,
      ghost files: seq<File>, current: seq<File>, ghost removed: seq<File>)
      returns (retained: seq<Rejection>, more: seq<File>, trimmed: seq<Rejection>, ghost now: seq<File>)
      requires limit <= maxBundleBytes && Parted(files, current, removed) && FilePaths(current) <= present
      modifies this
      ensures IsRecord(quote, rejected, omitted, limit, retained, record) && RecordBytes(record) <= limit
      ensures trimmed == Rejections(now) && present == old(present) - FilePaths(now)
      ensures FilePaths(more) <= present && Parted(files, more, removed + now)
      ensures trimmed == [] ==> TotalSize(current) + RecordBytes(record) <= maxBundleBytes && |current| <= maxCount
      ensures trimmed != [] ==> |more| < |current|
    {
      retained, record := WriteRejections(quote, rejected, limit, omitted);
      RecordFits(quote, rejected, omitted, limit, retained, record);
      more, trimmed, now := TrimOnce(files, current, removed, maxBundleBytes - RecordBytes(record), maxCount);
    }

    /** One turn of the loop after the record was written. */
    method TrimOnce(ghost files: seq<File>, current: seq<File>, ghost removed: seq<File>, maxBytes: nat, maxCount: nat)
      returns (more: seq<File>, trimmed: seq<Rejection>, ghost now: seq<File>)
      requires Parted(files, current, removed) && FilePaths(current) <= present
      modifies this`present
      ensures trimmed == Rejections(now) && present == old(present) - FilePaths(now)
      ensures FilePaths(more) <= present && Parted(files, more, removed + now)
      ensures trimmed == [] ==> Fits(current, maxBytes, maxCount)
      ensures trimmed != [] ==> |more| < |current|
    {
      trimmed, now := TrimBundle(current, maxBytes, maxCount);
      if trimmed == [] { NothingTrimmed(current, now, maxBytes, maxCount); }
      KeptAreThere(current, old(present), FilePaths(now));
      more := OnDisk(current, present);
      Trimmed(files, current, removed, now);
      OnDiskIsThere(current, present);
    }

    method SumOfSizes(files: seq<File>) returns (total: nat)
      ensures total == TotalSize(files)
    {
      total := 0;
      for i := 0 to |files|
        invariant total + TotalSize(files[i..]) == TotalSize(files)
      {
        assert files[i..][1..] == files[i + 1..];
        total := total + files[i].size;
      }
    }
  }

  lemma PathsOfOneMore(files: seq<File>, f: File)
    ensures FilePaths(files + [f]) == FilePaths(files) + {f.path}
  {
    assert forall x :: x in files + [f] <==> x in files || x == f;
  }
}
