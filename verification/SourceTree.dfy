/** Listing and scanning a benchmark directory (benchmark_bundle.py).  Paths are the bytes
    of their text, with "/" between the parts; the root is the empty path. */
module SourceTree {
  import opened Common
  import opened TextOrder
  import opened Permutations
  import opened Redaction

  datatype Node = Directory | Regular(content: Bytes, executable: bool) | Symlink | Special

  type Tree = map<string, Node>

  const MAX_ENTRIES := 1_000_000
  const MAX_FILE_BYTES := 8 * 1024 * 1024 * 1024
  const MAX_TOTAL_BYTES := 32 * 1024 * 1024 * 1024

  datatype Error = Unsafe | Unsupported | TooManyEntries | FileTooLarge | Credential | TotalTooLarge | Empty
    | Changed | NotCanonical | Inventory | MemberMismatch | CannotCreate | PastLimit | TreeMismatch
    | ManifestTooLarge | PayloadTooLarge | DigestMismatch

  /** The directory that a path is in. */
  function Parent(p: string): (r: string)
    ensures p != [] ==> |r| < |p| && r <= p
    ensures p == [] ==> r == []
  {
    if p == [] then [] else if p[|p| - 1] == '/' then p[..|p| - 1] else Parent(p[..|p| - 1])
  }

  /** A tree on disk: every node is in the root or in a directory of the tree. */
  predicate IsTree(tree: Tree) {
    "" !in tree && forall p | p in tree :: Parent(p) == "" || (Parent(p) in tree && tree[Parent(p)].Directory?)
  }

  /** What `_source_node` accepts; `safe` is `_validated_relative_path`. */
  predicate Acceptable(safe: string -> bool, p: string, node: Node) {
    safe(p) && (node.Directory? || (node.Regular? && |node.content| <= MAX_FILE_BYTES))
  }

  function Children(tree: Tree, d: string): set<string> {
    set p | p in tree && Parent(p) == d
  }

  function Members(s: seq<string>): set<string> {
    set p | p in s
  }

  /** The nodes below the directories listed so far. */
  function Listed(tree: Tree, done: set<string>): set<string> {
    set p | p in tree && Parent(p) in done
  }

  /** A traversal from which no directory is missing. */
  ghost predicate Traversing(tree: Tree, done: set<string>, pending: seq<string>, nodes: seq<string>) {
    && NoRepeats(nodes) && Members(nodes) == Listed(tree, done)
    && NoRepeats(pending) && Members(pending) !! done && done <= tree.Keys + {""}
    && (forall d :: d in done || d in pending <==> d == "" || (d in Listed(tree, done) && tree[d].Directory?))
  }

  /** When no directory is pending, every node has been listed. */
  lemma {:induction false} TraversalIsComplete(tree: Tree, done: set<string>, nodes: seq<string>, p: string)
    requires IsTree(tree) && Traversing(tree, done, [], nodes) && p in tree
    ensures p in Listed(tree, done)
    decreases |p|
  {
    if Parent(p) != "" {
      TraversalIsComplete(tree, done, nodes, Parent(p));
    }
  }

  lemma ListOneMore(tree: Tree, done: set<string>, d: string)
    requires d !in done
    ensures Listed(tree, done + {d}) == Listed(tree, done) + Children(tree, d)
    ensures Listed(tree, done) !! Children(tree, d)
  {
  }

  lemma JoinMembers(a: seq<string>, b: seq<string>)
    ensures Members(a + b) == Members(a) + Members(b)
    ensures NoRepeats(a) && NoRepeats(b) && Members(a) !! Members(b) ==> NoRepeats(a + b)
  {
    assert forall x :: x in a + b <==> x in a || x in b;
    if NoRepeats(a) && NoRepeats(b) && Members(a) !! Members(b) {
      forall i, j | 0 <= i < j < |a + b| ensures (a + b)[i] != (a + b)[j] {
        if i < |a| <= j {
          assert a[i] in Members(a) && b[j - |a|] in Members(b);
        }
      }
    }
  }

  /** `nodes` are the paths in `seen`, once each, and `directories` those of directories. */
  ghost predicate Lists(tree: Tree, seen: set<string>, nodes: seq<string>, directories: seq<string>) {
    && seen <= tree.Keys && NoRepeats(nodes) && Members(nodes) == seen
    && NoRepeats(directories) && Members(directories) == set p | p in seen && tree[p].Directory?
  }

  /** The listing of a directory, as far as `seen`. */
  ghost predicate Listing(safe: string -> bool, tree: Tree, seen: set<string>, nodes: seq<string>, directories: seq<string>, listed: nat) {
    && Lists(tree, seen, nodes, directories)
    && (forall p | p in seen :: Acceptable(safe, p, tree[p]))
    && (nodes != [] ==> listed + |nodes| <= MAX_ENTRIES)
  }

  lemma ListOneNode(
    safe: string -> bool, tree: Tree, seen: set<string>, nodes: seq<string>, directories: seq<string>, listed: nat, p: string)
    requires Listing(safe, tree, seen, nodes, directories, listed) && p in tree && p !in seen && Acceptable(safe, p, tree[p])
    ensures var more := if tree[p].Directory? then directories + [p] else directories;
            && Lists(tree, seen + {p}, nodes + [p], more)
            && (listed + |nodes + [p]| <= MAX_ENTRIES ==> Listing(safe, tree, seen + {p}, nodes + [p], more, listed))
  {
    JoinMembers(nodes, [p]);
    JoinMembers(directories, [p]);
  }

  lemma NothingListed(safe: string -> bool, tree: Tree, listed: nat)
    ensures Listing(safe, tree, {}, [], [], listed)
  {
  }

  function Check(safe: string -> bool, p: string, node: Node): (r: Option<Error>)
    ensures r.None? <==> Acceptable(safe, p, node)
  {
    if !safe(p) then Some(Unsafe)
    else if node.Symlink? || node.Special? then Some(Unsupported)
    else if node.Regular? && |node.content| > MAX_FILE_BYTES then Some(FileTooLarge)
    else None
  }

  /** What stops a traversal at a directory. */
  ghost predicate Unlistable(safe: string -> bool, tree: Tree, d: string, listed: nat) {
    || (exists p :: p in Children(tree, d) && !Acceptable(safe, p, tree[p]))
    || listed + |Children(tree, d)| > MAX_ENTRIES
  }

  /** One child: the body of the loop over a directory. */
  method ListChild(
    safe: string -> bool, tree: Tree, ghost d: string, listed: nat, ghost all: set<string>, ghost seen: set<string>,
    nodes: seq<string>, directories: seq<string>, child: string)
    returns (r: Result<(seq<string>, seq<string>), Error>)
    requires Listing(safe, tree, seen, nodes, directories, listed)
    requires all == Children(tree, d) && child in all && child !in seen && seen <= all
    ensures r.Ok? ==> Listing(safe, tree, seen + {child}, r.value.0, r.value.1, listed)
    ensures r.Err? ==> Unlistable(safe, tree, d, listed)
  {
    var error := Check(safe, child, tree[child]);
    if error.Some? { return Err(error.value); }
    ListOneNode(safe, tree, seen, nodes, directories, listed, child);
    var more := nodes + [child];
    if listed + |more| > MAX_ENTRIES {
      MembersCount(more);
      SmallerSet(Members(more), all);
      return Err(TooManyEntries);
    }
    r := Ok((more, if tree[child].Directory? then directories + [child] else directories));
  }

  lemma SeeOneMore(all: set<string>, seen: set<string>, todo: set<string>, child: string)
    requires seen !! todo && seen + todo == all && child in todo
    ensures child in all && child !in seen && seen <= all
    ensures (seen + {child}) !! (todo - {child}) && (seen + {child}) + (todo - {child}) == all
  {
  }

  /** The children of one directory, in any order. */
  method ListDirectory(safe: string -> bool, tree: Tree, d: string, listed: nat)
    returns (r: Result<(seq<string>, seq<string>), Error>)
    ensures r.Ok? ==> Listing(safe, tree, Children(tree, d), r.value.0, r.value.1, listed)
    ensures r.Err? ==> Unlistable(safe, tree, d, listed)
  {
    var nodes: seq<string>, directories: seq<string>, todo := [], [], Children(tree, d);
    ghost var all, seen: set<string> := todo, {};
    NothingListed(safe, tree, listed);
    while todo != {}
      invariant seen !! todo && seen + todo == all
      invariant Listing(safe, tree, seen, nodes, directories, listed)
    {
      var child :| child in todo;
      SeeOneMore(all, seen, todo, child);
      var step := ListChild(safe, tree, d, listed, all, seen, nodes, directories, child);
      if step.Err? { return Err(step.error); }
      nodes, directories := step.value.0, step.value.1;
      todo, seen := todo - {child}, seen + {child};
    }
    assert seen == all;
    r := Ok((nodes, directories));
  }

  lemma TraverseOneMore(
    tree: Tree, done: set<string>, pending: seq<string>, nodes: seq<string>, d: string, more: seq<string>, directories: seq<string>)
    requires Traversing(tree, done, pending + [d], nodes) && Lists(tree, Children(tree, d), more, directories)
    requires "" !in tree
    ensures Traversing(tree, done + {d}, pending + directories, nodes + more)
  {
    PendingLosesOne(pending, d);
    JoinMembers(pending, directories);
    JoinMembers(nodes, more);
    ListOneMore(tree, done, d);
    assert d in Members(pending + [d]);
    forall p | p in directories ensures p !in done && p != d && p !in pending {
      assert p in Members(directories) && Parent(p) == d;
      assert p in pending ==> p in pending + [d];
    }
  }

  lemma PendingLosesOne(pending: seq<string>, d: string)
    requires NoRepeats(pending + [d])
    ensures NoRepeats(pending) && d !in pending && Members(pending + [d]) == Members(pending) + {d}
  {
    var all := pending + [d];
    forall i, j | 0 <= i < j < |pending| ensures pending[i] != pending[j] {
      assert all[i] != all[j];
    }
    forall i | 0 <= i < |pending| ensures pending[i] != d {
      assert all[i] != all[|pending|];
    }
    JoinMembers(pending, [d]);
  }

  predicate AllAcceptable(safe: string -> bool, tree: Tree) {
    forall p | p in tree :: Acceptable(safe, p, tree[p])
  }

  lemma {:induction false} MembersCount(s: seq<string>)
    requires NoRepeats(s)
    ensures |Members(s)| == |s|
  {
    if s != [] {
      var front, last := s[..|s| - 1], s[|s| - 1];
      assert s == front + [last];
      PendingLosesOne(front, last);
      MembersCount(front);
    }
  }

  /** Nothing unacceptable so far. */
  ghost predicate Fine(safe: string -> bool, tree: Tree, done: set<string>) {
    forall p | p in Listed(tree, done) :: Acceptable(safe, p, tree[p])
  }

  /** One turn of the loop: the last pending directory is listed. */
  method VisitDirectory(safe: string -> bool, tree: Tree, pending: seq<string>, nodes: seq<string>, ghost done: set<string>)
    returns (r: Result<(seq<string>, seq<string>), Error>)
    requires IsTree(tree) && pending != [] && Traversing(tree, done, pending, nodes) && |nodes| <= MAX_ENTRIES && Fine(safe, tree, done)
    ensures r.Ok? ==> Traversing(tree, done + {pending[|pending| - 1]}, r.value.0, r.value.1) && |r.value.1| <= MAX_ENTRIES
    ensures r.Ok? ==> Fine(safe, tree, done + {pending[|pending| - 1]})
    ensures r.Err? ==> !AllAcceptable(safe, tree) || |tree| > MAX_ENTRIES
    ensures pending[|pending| - 1] !in done && pending[|pending| - 1] in tree.Keys + {""}
  {
    var last := |pending| - 1;
    var directory, rest := pending[last], pending[..last];
    assert pending == rest + [directory];
    assert directory in Members(pending);
    ListOneMore(tree, done, directory);
    ListedFits(tree, done, nodes, directory);
    var listed := ListDirectory(safe, tree, directory, |nodes|);
    if listed.Err? { return Err(listed.error); }
    TraverseOneMore(tree, done, rest, nodes, directory, listed.value.0, listed.value.1);
    r := Ok((rest + listed.value.1, nodes + listed.value.0));
  }

  lemma TraversalStarts(safe: string -> bool, tree: Tree)
    ensures Traversing(tree, {}, [""], []) && Fine(safe, tree, {})
  {
  }

  lemma TraversalEnds(safe: string -> bool, tree: Tree, done: set<string>, nodes: seq<string>)
    requires IsTree(tree) && Traversing(tree, done, [], nodes) && Fine(safe, tree, done)
    ensures NoRepeats(nodes) && Members(nodes) == tree.Keys && |nodes| == |tree| && AllAcceptable(safe, tree)
  {
    forall p | p in tree ensures p in Listed(tree, done) {
      TraversalIsComplete(tree, done, nodes, p);
    }
    assert Listed(tree, done) == tree.Keys;
    MembersCount(nodes);
    KeysCount(tree);
  }

  /** The loop of `_source_nodes`: every node once, however the directories list them. */
  method Traverse(safe: string -> bool, tree: Tree) returns (r: Result<seq<string>, Error>)
    requires IsTree(tree)
    ensures r.Ok? <==> AllAcceptable(safe, tree) && |tree| <= MAX_ENTRIES
    ensures r.Ok? ==> NoRepeats(r.value) && Members(r.value) == tree.Keys
  {
    var pending: seq<string>, nodes: seq<string> := [""], [];
    ghost var done: set<string> := {};
    TraversalStarts(safe, tree);
    while pending != []
      invariant Traversing(tree, done, pending, nodes) && |nodes| <= MAX_ENTRIES && Fine(safe, tree, done)
      decreases tree.Keys + {""} - done
    {
      ghost var directory := pending[|pending| - 1];
      var visited := VisitDirectory(safe, tree, pending, nodes, done);
      if visited.Err? { return Err(visited.error); }
      pending, nodes := visited.value.0, visited.value.1;
      done := done + {directory};
    }
    TraversalEnds(safe, tree, done, nodes);
    r := Ok(nodes);
  }

  lemma KeysCount(tree: Tree)
    ensures |tree.Keys| == |tree|
  {
  }

  lemma ListedFits(tree: Tree, done: set<string>, nodes: seq<string>, d: string)
    requires NoRepeats(nodes) && Members(nodes) == Listed(tree, done) && d !in done
    ensures |nodes| + |Children(tree, d)| <= |tree|
  {
    MembersCount(nodes);
    ListOneMore(tree, done, d);
    SmallerSet(Listed(tree, done) + Children(tree, d), tree.Keys);
  }

  lemma {:induction false} SmallerSet(a: set<string>, b: set<string>)
    requires a <= b
    ensures |a| <= |b|
  {
    if a != {} {
      var x :| x in a;
      SmallerSet(a - {x}, b - {x});
    }
  }

  // ---- the order of paths ----

  lemma {:induction false} ExtensionIsLater(a: string, b: string)
    requires b != []
    ensures StringLess(a, a + b)
  {
    if a != [] {
      assert (a + b)[1..] == a[1..] + b;
      ExtensionIsLater(a[1..], b);
    }
  }

  /** In byte order a directory comes before everything in it. */
  lemma DirectoryBeforeContents(p: string)
    requires p != []
    ensures StringLess(Parent(p), p)
  {
    assert p == Parent(p) + p[|Parent(p)|..];
    ExtensionIsLater(Parent(p), p[|Parent(p)|..]);
  }

  lemma {:induction false} OneAscending(a: seq<string>, b: seq<string>)
    requires forall i, j | 0 <= i < j < |a| :: StringLess(a[i], a[j])
    requires forall i, j | 0 <= i < j < |b| :: StringLess(b[i], b[j])
    requires Members(a) == Members(b)
    ensures a == b
  {
    if a == [] {
      FirstIsMember(b);
    } else {
      assert a[0] in Members(b);
      assert b != [] && b[0] in Members(a);
      FirstIsLeast(a, b[0]);
      FirstIsLeast(b, a[0]);
      StringOrder(a[0], b[0], a[0]);
      TailWithoutFirst(a);
      TailWithoutFirst(b);
      OneAscending(a[1..], b[1..]);
    }
  }

  lemma FirstIsMember(s: seq<string>)
    ensures s != [] ==> s[0] in Members(s)
  {
  }

  lemma FirstIsLeast(a: seq<string>, x: string)
    requires a != [] && forall i, j | 0 <= i < j < |a| :: StringLess(a[i], a[j])
    requires x in Members(a)
    ensures x == a[0] || StringLess(a[0], x)
  {
    var i :| 0 <= i < |a| && a[i] == x;
  }

  lemma TailWithoutFirst(a: seq<string>)
    requires a != [] && forall i, j | 0 <= i < j < |a| :: StringLess(a[i], a[j])
    ensures Members(a[1..]) == Members(a) - {a[0]}
  {
    forall x | x in a[1..] ensures x != a[0] {
      var i :| 0 <= i < |a| - 1 && a[i + 1] == x;
      StringOrder(a[0], x, a[0]);
    }
    assert forall x :: x in a <==> x == a[0] || x in a[1..];
  }

  /** Sorting the nodes gives one list, whatever order they were found in. */
  lemma SortedNodes(nodes: seq<string>)
    requires NoRepeats(nodes)
    ensures SortByKey((p: string) => p, nodes) == Ascending(Members(nodes))
  {
    var key := (p: string) => p;
    var sorted := SortByKey(key, nodes);
    SortSortsByKey(key, nodes);
    assert forall x :: x in sorted <==> x in multiset(sorted);
    assert forall x :: x in nodes <==> x in multiset(nodes);
    PermutationHasNoRepeats(nodes, sorted);
    forall i, j | 0 <= i < j < |sorted| ensures StringLess(sorted[i], sorted[j]) {
      StringOrder(sorted[i], sorted[j], sorted[i]);
      assert !StringLess(key(sorted[j]), key(sorted[i]));
    }
    OneAscending(sorted, Ascending(Members(nodes)));
  }

  /** `_source_nodes` */
  method SourceNodes(safe: string -> bool, tree: Tree) returns (r: Result<seq<string>, Error>)
    requires IsTree(tree)
    ensures r.Ok? <==> AllAcceptable(safe, tree) && |tree| <= MAX_ENTRIES
    ensures r.Ok? ==> r.value == Ascending(tree.Keys)
  {
    r := Traverse(safe, tree);
    if r.Err? { return; }
    SortedNodes(r.value);
    r := Ok(SortByKey((p: string) => p, r.value));
  }
}
