/** Building a benchmark bundle and extracting it again (benchmark_bundle.py). */
module BenchmarkBundle {
  import opened Common
  import opened Decimal
  import opened TarFormat
  import opened TextOrder
  import opened Redaction
  import opened EvidenceFiles
  import opened SourceTree

  /** A manifest entry; the modes are 0755 when executable and 0644 otherwise. */
  datatype Entry = DirectoryEntry(path: string) | FileEntry(path: string, executable: bool, size: nat, digest: string)

  /** A tar member; `normalized` says that owner and time are blank. */
  datatype Member = Member(path: string, node: Node, normalized: bool)

  /** A manifest, with what it says of its payload, and the members of the payload. */
  datatype Bundle = Bundle(
    entries: seq<Entry>, contentDigest: string, payloadBytes: nat, payloadDigest: string, members: seq<Member>)

  /** The environment: path rules, digests, the private key markers, the JSON text of a
      path, and what compression makes of an archive. */
  datatype World = World(
    safe: string -> bool, digest: Bytes -> string, markers: seq<Bytes>, quote: string -> string,
    contentDigest: seq<Entry> -> string, compressed: seq<Member> -> nat, payloadDigest: seq<Member> -> string)

  const MIB := 1024 * 1024
  const MAX_MANIFEST_BYTES := 256 * MIB
  const MAX_PAYLOAD_BYTES := MAX_TOTAL_BYTES + 1024 * MIB

  predicate Plain(node: Node) {
    node.Directory? || node.Regular?
  }

  function EntryOf(w: World, p: string, node: Node): Entry {
    if node.Regular? then FileEntry(p, node.executable, |node.content|, w.digest(node.content)) else DirectoryEntry(p)
  }

  function EntriesOf(w: World, tree: Tree, order: seq<string>): seq<Entry>
    requires forall p | p in order :: p in tree
  {
    seq(|order|, i requires 0 <= i < |order| => EntryOf(w, order[i], tree[order[i]]))
  }

  /** One entry for each node, in byte order of the paths. */
  function Entries(w: World, tree: Tree): seq<Entry> {
    EntriesOf(w, tree, Ascending(tree.Keys))
  }

  function SizeOf(e: Entry): nat {
    if e.FileEntry? then e.size else 0
  }

  function TotalBytes(entries: seq<Entry>): nat {
    if entries == [] then 0 else TotalBytes(entries[..|entries| - 1]) + SizeOf(entries[|entries| - 1])
  }

  ghost predicate Secret(patterns: seq<Bytes>, node: Node) {
    node.Regular? && ContainsAny(node.content, patterns)
  }

  ghost predicate Clean(patterns: seq<Bytes>, tree: Tree) {
    forall p | p in tree :: !Secret(patterns, tree[p])
  }

  /** What `_scan_source` accepts. */
  ghost predicate Scannable(w: World, patterns: seq<Bytes>, tree: Tree) {
    && AllAcceptable(w.safe, tree) && |tree| <= MAX_ENTRIES && tree != map[]
    && Clean(patterns, tree) && TotalBytes(Entries(w, tree)) <= MAX_TOTAL_BYTES
  }

  lemma {:induction false} TotalGrows(entries: seq<Entry>, i: nat)
    requires i <= |entries|
    ensures TotalBytes(entries[..i]) <= TotalBytes(entries)
  {
    if i < |entries| {
      assert entries[..|entries| - 1][..i] == entries[..i];
      TotalGrows(entries[..|entries| - 1], i);
    } else {
      assert entries[..i] == entries;
    }
  }

  /** `_scan_source` */
  method ScanSource(w: World, patterns: seq<Bytes>, tree: Tree) returns (r: Result<seq<Entry>, Error>)
    requires IsTree(tree)
    ensures r.Ok? <==> Scannable(w, patterns, tree)
    ensures r.Ok? ==> r.value == Entries(w, tree)
  {
    var nodes := SourceNodes(w.safe, tree);
    if nodes.Err? { return Err(nodes.error); }
    EveryPathIsListed(tree);
    r := ScanNodes(w, patterns, tree, nodes.value);
  }

  lemma EveryPathIsListed(tree: Tree)
    ensures Ascending(tree.Keys) == [] <==> tree == map[]
  {
    if tree != map[] {
      var p :| p in tree;
      assert p in Ascending(tree.Keys);
    }
  }

  method ScanNodes(w: World, patterns: seq<Bytes>, tree: Tree, order: seq<string>) returns (r: Result<seq<Entry>, Error>)
    requires forall p | p in order :: p in tree
    ensures r.Ok? <==>
              && (forall p | p in order :: !Secret(patterns, tree[p]))
              && TotalBytes(EntriesOf(w, tree, order)) <= MAX_TOTAL_BYTES && order != []
    ensures r.Ok? ==> r.value == EntriesOf(w, tree, order)
  {
    var entries: seq<Entry>, total := [], 0;
    ghost var all := EntriesOf(w, tree, order);
    for i := 0 to |order|
      invariant entries == all[..i] && total == TotalBytes(entries) && total <= MAX_TOTAL_BYTES
      invariant forall j | 0 <= j < i :: !Secret(patterns, tree[order[j]])
    {
      assert order[i] in order;
      ListedSoFar(all, i);
      var entry := ScanNode(w, patterns, order[i], tree[order[i]], entries, total);
      if entry.Err? { return Err(entry.error); }
      entries, total := entries + [entry.value], total + SizeOf(entry.value);
    }
    assert entries == all;
    r := if entries == [] then Err(Empty) else Ok(entries);
  }

  /** One node: the body of the loop over the nodes. */
  method ScanNode(w: World, patterns: seq<Bytes>, p: string, node: Node, entries: seq<Entry>, total: nat)
    returns (r: Result<Entry, Error>)
    requires total == TotalBytes(entries)
    ensures r.Ok? <==> !Secret(patterns, node) && TotalBytes(entries + [EntryOf(w, p, node)]) <= MAX_TOTAL_BYTES
    ensures r.Ok? ==> r.value == EntryOf(w, p, node) && total + SizeOf(r.value) == TotalBytes(entries + [r.value])
  {
    if node.Regular? && AnyFound(node.content, patterns) { return Err(Credential); }
    var entry := EntryOf(w, p, node);
    TotalOneMore(entries, entry);
    if total + SizeOf(entry) > MAX_TOTAL_BYTES { return Err(TotalTooLarge); }
    r := Ok(entry);
  }

  lemma ListedSoFar(all: seq<Entry>, i: nat)
    requires i < |all|
    ensures all[..i + 1] == all[..i] + [all[i]] && TotalBytes(all[..i + 1]) <= TotalBytes(all)
  {
    OneMoreListed(all, i);
    TotalGrows(all, i + 1);
  }

  lemma OneMoreListed<T>(all: seq<T>, i: nat)
    requires i < |all|
    ensures all[..i + 1] == all[..i] + [all[i]]
  {
  }

  lemma TotalOneMore(entries: seq<Entry>, e: Entry)
    ensures TotalBytes(entries + [e]) == TotalBytes(entries) + SizeOf(e)
  {
    assert (entries + [e])[..|entries|] == entries;
  }

  // ---- writing to an empty directory ----

  function MakeDirectories(disk: Tree, d: string): Option<Tree>
    decreases |d|
  {
    if d == "" then Some(disk)
    else if d in disk then if disk[d].Directory? then Some(disk) else None
    else
      match MakeDirectories(disk, Parent(d))
      case None => None
      case Some(made) => Some(made[d := Directory])
  }

  predicate HasParent(disk: Tree, p: string) {
    Parent(p) == "" || (Parent(p) in disk && disk[Parent(p)].Directory?)
  }

  /** Creating a node: a directory only in a directory that is there, a file also with the
      directories that are missing, and nothing over what is there. */
  function Create(disk: Tree, p: string, node: Node): (r: Option<Tree>)
    ensures p != "" && p !in disk && Plain(node) && HasParent(disk, p) ==> r == Some(disk[p := node])
  {
    if p == "" || p in disk || !Plain(node) then None
    else if node.Directory? then if HasParent(disk, p) then Some(disk[p := node]) else None
    else
      match MakeDirectories(disk, Parent(p))
      case None => None
      case Some(made) => Some(made[p := node])
  }

  lemma {:induction false} MakeDirectoriesKeepsTree(disk: Tree, d: string)
    requires IsTree(disk) && MakeDirectories(disk, d).Some?
    ensures var made := MakeDirectories(disk, d).value;
            && IsTree(made) && disk.Keys <= made.Keys && (forall p | p in disk :: made[p] == disk[p])
            && (forall p | p in made :: p in disk || p <= d)
            && (d == "" || (d in made && made[d].Directory?))
    decreases |d|
  {
    if d != "" && d !in disk {
      MakeDirectoriesKeepsTree(disk, Parent(d));
    }
  }

  lemma CreateKeepsTree(disk: Tree, p: string, node: Node)
    requires IsTree(disk) && Create(disk, p, node).Some?
    ensures IsTree(Create(disk, p, node).value)
  {
    if !node.Directory? {
      MakeDirectoriesKeepsTree(disk, Parent(p));
    }
  }

  // ---- the archive ----

  /** `_write_tar` */
  function MembersOf(tree: Tree, entries: seq<Entry>): seq<Member>
    requires forall e | e in entries :: e.path in tree
  {
    seq(|entries|, i requires 0 <= i < |entries| => Member(entries[i].path, tree[entries[i].path], true))
  }

  function NodesOf(members: seq<Member>): Tree {
    if members == [] then map[]
    else NodesOf(members[..|members| - 1])[members[|members| - 1].path := members[|members| - 1].node]
  }

  /** A member can be created on what the members before it left. */
  predicate CreatableAt(members: seq<Member>, i: nat)
    requires i < |members|
  {
    var disk := NodesOf(members[..i]);
    members[i].path != "" && Plain(members[i].node) && members[i].path !in disk && HasParent(disk, members[i].path)
  }

  /** Every member but for top-level ones comes after its directory, and none comes twice. */
  predicate ParentsFirst(members: seq<Member>) {
    forall i | 0 <= i < |members| :: CreatableAt(members, i)
  }

  /** What `_extract_member` checks of a member. */
  predicate Matches(w: World, m: Member, e: Entry) {
    && m.path == e.path && m.normalized && Plain(m.node)
    && (e.DirectoryEntry? ==> m.node.Directory?)
    && (e.FileEntry? ==> m.node.Regular? && m.node.executable == e.executable && |m.node.content| == e.size &&
                         w.digest(m.node.content) == e.digest)
  }

  /** A member matches just the entry that a scan would list for its node. */
  lemma MatchesExactly(w: World, m: Member, e: Entry)
    ensures Matches(w, m, e) <==>
              m.normalized && (m.node.Directory? || m.node.Regular?) &&
              e == (match m.node
                    case Regular(content, executable) => FileEntry(m.path, executable, |content|, w.digest(content))
                    case _ => DirectoryEntry(m.path))
  {
  }

  predicate AllMatch(w: World, members: seq<Member>, entries: seq<Entry>) {
    |members| == |entries| && forall i | 0 <= i < |members| :: Matches(w, members[i], entries[i])
  }

  /** `_extract_member` */
  method ExtractMember(w: World, disk: Tree, member: Member, entry: Entry) returns (r: Result<Tree, Error>)
    requires IsTree(disk)
    ensures r.Ok? ==> IsTree(r.value) && Matches(w, member, entry)
    ensures Matches(w, member, entry) && member.path != "" && member.path !in disk && HasParent(disk, member.path) ==>
              r == Ok(disk[member.path := member.node])
  {
    if !Matches(w, member, entry) { return Err(MemberMismatch); }
    var created := Create(disk, member.path, member.node);
    if created.None? { return Err(CannotCreate); }
    CreateKeepsTree(disk, member.path, member.node);
    r := Ok(created.value);
  }

  lemma NodesOneMore(members: seq<Member>, i: nat)
    requires i < |members|
    ensures NodesOf(members[..i + 1]) == NodesOf(members[..i])[members[i].path := members[i].node]
  {
    assert members[..i + 1][..i] == members[..i];
  }

  /** `_extract_tar`: never over or outside what it created, and all of an archive whose
      members match and come after their directories. */
  method ExtractTar(w: World, members: seq<Member>, entries: seq<Entry>) returns (r: Result<Tree, Error>)
    ensures r.Ok? ==> IsTree(r.value) && AllMatch(w, members, entries)
    ensures AllMatch(w, members, entries) && ParentsFirst(members) ==> r == Ok(NodesOf(members))
  {
    if |members| != |entries| || exists i | 0 <= i < |members| :: members[i].path != entries[i].path {
      return Err(Inventory);
    }
    var disk: Tree := map[];
    for i := 0 to |members|
      invariant IsTree(disk) && forall j | 0 <= j < i :: Matches(w, members[j], entries[j])
      invariant ParentsFirst(members) ==> disk == NodesOf(members[..i])
    {
      NodesOneMore(members, i);
      assert ParentsFirst(members) ==> CreatableAt(members, i);
      var extracted := ExtractMember(w, disk, members[i], entries[i]);
      if extracted.Err? { return extracted; }
      disk := extracted.value;
    }
    assert members[..|members|] == members;
    r := Ok(disk);
  }

  // ---- a bundle of a tree ----

  /** The members are the nodes at these paths, in this order. */
  predicate Packs(tree: Tree, order: seq<string>, members: seq<Member>) {
    |members| == |order| && forall i | 0 <= i < |order| :: order[i] in tree && members[i] == Member(order[i], tree[order[i]], true)
  }

  lemma {:induction false} NodesOfOrder(tree: Tree, order: seq<string>, members: seq<Member>, p: string)
    requires Packs(tree, order, members)
    ensures p in NodesOf(members) <==> p in order
    ensures p in NodesOf(members) ==> NodesOf(members)[p] == tree[p]
  {
    if order != [] {
      var front := order[..|order| - 1];
      assert order == front + [order[|order| - 1]];
      NodesOfOrder(tree, front, members[..|members| - 1], p);
    }
  }

  lemma MembersInOrder(w: World, tree: Tree, order: seq<string>)
    requires forall p | p in order :: p in tree
    ensures forall e | e in EntriesOf(w, tree, order) :: e.path in tree
    ensures Packs(tree, order, MembersOf(tree, EntriesOf(w, tree, order)))
  {
  }

  lemma PackedMatch(w: World, tree: Tree, order: seq<string>, members: seq<Member>)
    requires Packs(tree, order, members) && AllAcceptable(w.safe, tree)
    ensures AllMatch(w, members, EntriesOf(w, tree, order))
  {
  }

  lemma PackedNodes(tree: Tree, order: seq<string>, members: seq<Member>)
    requires Packs(tree, order, members) && forall p | p in tree :: p in order
    ensures NodesOf(members) == tree
  {
    forall p ensures p in NodesOf(members) <==> p in tree
             ensures p in tree ==> NodesOf(members)[p] == tree[p] {
      NodesOfOrder(tree, order, members, p);
    }
  }

  lemma EarlierByOrder(s: set<string>, i: nat, j: nat)
    requires i < |Ascending(s)| && j < |Ascending(s)| && StringLess(Ascending(s)[j], Ascending(s)[i])
    ensures j < i
  {
    StringOrder(Ascending(s)[i], Ascending(s)[j], Ascending(s)[i]);
  }

  /** Sorting by path puts each directory before its contents, so no member lacks one. */
  lemma PackedParentsFirst(w: World, tree: Tree, order: seq<string>, members: seq<Member>)
    requires IsTree(tree) && AllAcceptable(w.safe, tree) && order == Ascending(tree.Keys) && Packs(tree, order, members)
    ensures ParentsFirst(members)
  {
    forall i | 0 <= i < |members| ensures CreatableAt(members, i) {
      MemberHasParent(tree, order, members, i);
      assert order[i] in tree && members[i].path == order[i];
      assert Acceptable(w.safe, order[i], tree[order[i]]);
    }
  }

  lemma MemberHasParent(tree: Tree, order: seq<string>, members: seq<Member>, i: nat)
    requires IsTree(tree) && order == Ascending(tree.Keys) && Packs(tree, order, members) && i < |order|
    ensures order[i] !in NodesOf(members[..i]) && HasParent(NodesOf(members[..i]), order[i])
  {
    var p, earlier := order[i], order[..i];
    NodesOfOrder(tree, earlier, members[..i], p);
    forall j | 0 <= j < i ensures order[j] != p {
      AscendingHasNoRepeats(tree.Keys, j, i);
    }
    if Parent(p) != "" {
      assert Parent(p) in order;
      var j :| 0 <= j < |order| && order[j] == Parent(p);
      DirectoryBeforeContents(p);
      EarlierByOrder(tree.Keys, i, j);
      assert earlier[j] == Parent(p);
      NodesOfOrder(tree, earlier, members[..i], Parent(p));
    }
  }

  // ---- manifests ----

  predicate IsDirectoryEntry(entries: seq<Entry>, p: string) {
    exists e | e in entries :: e.DirectoryEntry? && e.path == p
  }

  /** `entries_are_canonical`, with the bounds on counts and sizes. */
  predicate Canonical(w: World, entries: seq<Entry>) {
    && 1 <= |entries| <= MAX_ENTRIES && TotalBytes(entries) <= MAX_TOTAL_BYTES
    && (forall i, j | 0 <= i < j < |entries| :: StringLess(entries[i].path, entries[j].path))
    && (forall e | e in entries :: w.safe(e.path) && SizeOf(e) <= MAX_FILE_BYTES)
    && (forall e | e in entries :: Parent(e.path) == "" || IsDirectoryEntry(entries, Parent(e.path)))
  }

  /** The manifests that are accepted: sizes and number within the limits, safe paths each later
      than the one before, and the entry of each path's directory among them. */
  lemma CanonicalExactly(w: World, entries: seq<Entry>)
    ensures Canonical(w, entries) <==>
              && entries != [] && |entries| <= 1_000_000 && TotalBytes(entries) <= 34_359_738_368
              && (forall i, j | 0 <= i < j < |entries| :: StringLess(entries[i].path, entries[j].path))
              && (forall e | e in entries :: w.safe(e.path))
              && (forall e | e in entries && e.FileEntry? :: e.size <= 8_589_934_592)
              && (forall e | e in entries && Parent(e.path) != "" :: DirectoryEntry(Parent(e.path)) in entries)
  {
    forall p ensures IsDirectoryEntry(entries, p) <==> DirectoryEntry(p) in entries {
      if IsDirectoryEntry(entries, p) {
        var e :| e in entries && e.DirectoryEntry? && e.path == p;
        assert e == DirectoryEntry(p);
      }
    }
  }

  lemma EntryIn(w: World, tree: Tree, order: seq<string>, p: string)
    requires (forall q | q in order :: q in tree) && p in order
    ensures EntryOf(w, p, tree[p]) in EntriesOf(w, tree, order)
  {
    var i :| 0 <= i < |order| && order[i] == p;
    assert EntriesOf(w, tree, order)[i] == EntryOf(w, p, tree[p]);
  }

  lemma EntryIsFine(w: World, tree: Tree, order: seq<string>, i: nat)
    requires (forall q :: q in order <==> q in tree) && i < |order| && IsTree(tree) && AllAcceptable(w.safe, tree)
    ensures var entries := EntriesOf(w, tree, order);
            && w.safe(entries[i].path) && SizeOf(entries[i]) <= MAX_FILE_BYTES
            && (Parent(entries[i].path) == "" || IsDirectoryEntry(entries, Parent(entries[i].path)))
  {
    var p := order[i];
    assert p in order && Acceptable(w.safe, p, tree[p]);
    if Parent(p) != "" { EntryIn(w, tree, order, Parent(p)); }
  }

  lemma EntriesAreFine(w: World, tree: Tree, order: seq<string>, e: Entry)
    requires (forall q :: q in order <==> q in tree) && IsTree(tree) && AllAcceptable(w.safe, tree)
    requires e in EntriesOf(w, tree, order)
    ensures w.safe(e.path) && SizeOf(e) <= MAX_FILE_BYTES
    ensures Parent(e.path) == "" || IsDirectoryEntry(EntriesOf(w, tree, order), Parent(e.path))
  {
    var i :| 0 <= i < |order| && EntriesOf(w, tree, order)[i] == e;
    EntryIsFine(w, tree, order, i);
  }

  lemma EntriesAreSorted(w: World, tree: Tree)
    ensures |Entries(w, tree)| == |tree|
    ensures forall i, j | 0 <= i < j < |Entries(w, tree)| ::
              StringLess(Entries(w, tree)[i].path, Entries(w, tree)[j].path)
  {
    AscendingCounts(tree.Keys);
    KeysCount(tree);
    PathsOfEntries(w, tree, Ascending(tree.Keys));
  }

  lemma PathsOfEntries(w: World, tree: Tree, order: seq<string>)
    requires forall p | p in order :: p in tree
    ensures |EntriesOf(w, tree, order)| == |order|
    ensures forall i | 0 <= i < |order| :: EntriesOf(w, tree, order)[i].path == order[i]
  {
  }

  /** What a scan lists is a manifest that validation accepts. */
  lemma ScannedIsCanonical(w: World, patterns: seq<Bytes>, tree: Tree)
    requires IsTree(tree) && Scannable(w, patterns, tree)
    ensures Canonical(w, Entries(w, tree))
  {
    EntriesAreSorted(w, tree);
    forall e | e in Entries(w, tree)
      ensures w.safe(e.path) && SizeOf(e) <= MAX_FILE_BYTES
      ensures Parent(e.path) == "" || IsDirectoryEntry(Entries(w, tree), Parent(e.path))
    {
      EntriesAreFine(w, tree, Ascending(tree.Keys), e);
    }
  }

  // ---- building and extracting ----

  /** How much `extract_benchmark_bundle` is ready to decompress. */
  function MaximumRaw(entries: seq<Entry>): nat {
    TotalBytes(entries) + |entries| * 2048 + MIB
  }

  /** The archive that `_write_tar` writes. */
  function TarBytes(members: seq<Member>): nat {
    ArchiveSize(MemberBytes(members))
  }

  function MemberBytes(members: seq<Member>): nat {
    if members == [] then 0
    else
      var m := members[|members| - 1];
      MemberBytes(members[..|members| - 1]) + MemberSize(TarName(m), if m.node.Regular? then |m.node.content| else 0)
  }

  function TarName(m: Member): string {
    if m.node.Directory? then m.path + "/" else m.path
  }

  /** One entry in canonical JSON. */
  function EntryText(w: World, e: Entry): string {
    match e
    case DirectoryEntry(path) => "{\"mode\":493,\"path\":" + w.quote(path) + ",\"type\":\"directory\"}"
    case FileEntry(path, executable, size, digest) =>
      "{\"bytes\":" + Number(size) + ",\"mode\":" + (if executable then "493" else "420") + ",\"path\":" + w.quote(path) +
      ",\"sha256\":\"" + digest + "\",\"type\":\"file\"}"
  }

  function EntriesText(w: World, entries: seq<Entry>): string {
    if entries == [] then ""
    else
      EntriesText(w, entries[..|entries| - 1]) + (if |entries| > 1 then "," else "") + EntryText(w, entries[|entries| - 1])
  }

  /** `bundle_manifest_bytes` */
  function ManifestText(w: World, b: Bundle): string {
    "{\"content_digest\":\"" + b.contentDigest + "\",\"entries\":[" + EntriesText(w, b.entries) +
    "],\"payload\":{\"bytes\":" + Number(b.payloadBytes) +
    ",\"filename\":\"payload.tar.zst\",\"media_type\":\"application/vnd.harbor-hf.benchmark-bundle.tar+zstd\"" +
    ",\"sha256\":\"" + b.payloadDigest + "\"},\"schema_version\":\"harbor-hf/benchmark-bundle/v1alpha1\"}\n"
  }

  const FRAME := 219
  const DIRECTORY_FRAME := 39
  const FILE_FRAME := 55

  function EntrySize(w: World, e: Entry): nat {
    match e
    case DirectoryEntry(path) => DIRECTORY_FRAME + |w.quote(path)|
    case FileEntry(path, _, size, digest) => FILE_FRAME + |Number(size)| + |w.quote(path)| + |digest|
  }

  function EntriesSize(w: World, entries: seq<Entry>): nat {
    if entries == [] then 0
    else
      EntriesSize(w, entries[..|entries| - 1]) + (if |entries| > 1 then 1 else 0) + EntrySize(w, entries[|entries| - 1])
  }

  /** The size of a manifest. */
  function ManifestBytes(w: World, b: Bundle): nat {
    FRAME + |b.contentDigest| + EntriesSize(w, b.entries) + |Number(b.payloadBytes)| + |b.payloadDigest|
  }

  lemma EntrySizeIsRight(w: World, e: Entry)
    ensures |EntryText(w, e)| == EntrySize(w, e)
  {
  }

  lemma {:induction false} EntriesSizeIsRight(w: World, entries: seq<Entry>)
    ensures |EntriesText(w, entries)| == EntriesSize(w, entries)
  {
    if entries != [] {
      EntriesSizeIsRight(w, entries[..|entries| - 1]);
      EntrySizeIsRight(w, entries[|entries| - 1]);
    }
  }

  lemma ManifestSizeIsRight(w: World, b: Bundle)
    ensures |ManifestText(w, b)| == ManifestBytes(w, b)
  {
    EntriesSizeIsRight(w, b.entries);
  }

  /** The three limits on sizes that the limits on the source do not imply. */
  predicate WithinLimits(w: World, b: Bundle) {
    && ManifestBytes(w, b) <= MAX_MANIFEST_BYTES
    && 1 <= b.payloadBytes <= MAX_PAYLOAD_BYTES
    && TarBytes(b.members) <= MaximumRaw(b.entries)
  }

  /** The limits in bytes, on what is really there. */
  lemma LimitsAre(w: World, b: Bundle)
    ensures WithinLimits(w, b) <==>
              && |ManifestText(w, b)| <= 268_435_456
              && 0 < b.payloadBytes <= 35_433_480_192
              && TarBytes(b.members) <= TotalBytes(b.entries) + 2048 * |b.entries| + 1_048_576
  {
    ManifestSizeIsRight(w, b);
  }

  /** Directories and executable files have mode 0755, other files 0644. */
  lemma EntriesRead(w: World, p: string, size: nat, digest: string)
    ensures EntryText(w, DirectoryEntry(p)) == "{\"mode\":493,\"path\":" + w.quote(p) + ",\"type\":\"directory\"}"
    ensures EntryText(w, FileEntry(p, true, size, digest)) ==
            "{\"bytes\":" + Number(size) + ",\"mode\":" + "493" + ",\"path\":" + w.quote(p) +
            ",\"sha256\":\"" + digest + "\",\"type\":\"file\"}"
    ensures EntryText(w, FileEntry(p, false, size, digest)) ==
            "{\"bytes\":" + Number(size) + ",\"mode\":" + "420" + ",\"path\":" + w.quote(p) +
            ",\"sha256\":\"" + digest + "\",\"type\":\"file\"}"
  {
  }

  lemma EntriesTextOneMore(w: World, s: seq<Entry>, x: Entry)
    ensures EntriesText(w, s + [x]) == if s == [] then EntryText(w, x) else EntriesText(w, s) + "," + EntryText(w, x)
  {
    assert (s + [x])[..|s|] == s;
  }

  lemma CommasRegroup(a: string, b: string, c: string)
    ensures a + "," + b + "," + c == a + "," + (b + "," + c)
  {
  }

  /** Entries stand one after the other with commas in between. */
  lemma {:induction false} EntriesTextJoin(w: World, a: seq<Entry>, b: seq<Entry>)
    requires a != [] && b != []
    ensures EntriesText(w, a + b) == EntriesText(w, a) + "," + EntriesText(w, b)
  {
    var front, last := b[..|b| - 1], b[|b| - 1];
    assert b == front + [last] && a + b == a + front + [last];
    EntriesTextOneMore(w, front, last);
    EntriesTextOneMore(w, a + front, last);
    if front == [] {
      assert a + front == a;
    } else {
      EntriesTextJoin(w, a, front);
      CommasRegroup(EntriesText(w, a), EntriesText(w, front), EntryText(w, last));
    }
  }

  /** The tar's members take the place of each, and a directory has a slash and no content. */
  lemma {:induction false} MemberBytesJoin(a: seq<Member>, b: seq<Member>)
    ensures MemberBytes(a + b) == MemberBytes(a) + MemberBytes(b)
  {
    if b == [] {
      assert a + b == a;
    } else {
      assert (a + b)[..|a + b| - 1] == a + b[..|b| - 1];
      MemberBytesJoin(a, b[..|b| - 1]);
    }
  }

  lemma OneMemberTakes(m: Member)
    ensures m.node.Directory? ==> MemberBytes([m]) == MemberSize(m.path + "/", 0)
    ensures m.node.Regular? ==> MemberBytes([m]) == MemberSize(m.path, |m.node.content|)
  {
    assert [m][..0] == [];
    assert MemberBytes([m][..0]) == 0;
  }

  lemma EntriesAreOfTree(w: World, tree: Tree)
    ensures forall e | e in Entries(w, tree) :: e.path in tree
  {
    MembersInOrder(w, tree, Ascending(tree.Keys));
  }

  function BundleOf(w: World, tree: Tree): Bundle {
    EntriesAreOfTree(w, tree);
    var entries := Entries(w, tree);
    var members := MembersOf(tree, entries);
    Bundle(entries, w.contentDigest(entries), w.compressed(members), w.payloadDigest(members), members)
  }

  /** The bundle of a tree passes every check but perhaps those on sizes. */
  lemma BundleIsExtractable(w: World, patterns: seq<Bytes>, tree: Tree)
    requires IsTree(tree) && Scannable(w, patterns, tree)
    ensures var b := BundleOf(w, tree);
            && Canonical(w, b.entries) && AllMatch(w, b.members, b.entries)
            && ParentsFirst(b.members) && NodesOf(b.members) == tree
  {
    var order := Ascending(tree.Keys);
    ScannedIsCanonical(w, patterns, tree);
    MembersInOrder(w, tree, order);
    EntriesAreOfTree(w, tree);
    var members := MembersOf(tree, Entries(w, tree));
    PackedMatch(w, tree, order, members);
    PackedNodes(tree, order, members);
    PackedParentsFirst(w, tree, order, members);
  }

  /** `validate_benchmark_bundle` */
  method ValidateBundle(w: World, bundle: Bundle) returns (error: Option<Error>)
    ensures error.None? <==>
              && ManifestBytes(w, bundle) <= MAX_MANIFEST_BYTES && Canonical(w, bundle.entries)
              && 1 <= bundle.payloadBytes <= MAX_PAYLOAD_BYTES && bundle.contentDigest == w.contentDigest(bundle.entries)
              && bundle.payloadBytes == w.compressed(bundle.members) && bundle.payloadDigest == w.payloadDigest(bundle.members)
  {
    if ManifestBytes(w, bundle) > MAX_MANIFEST_BYTES { return Some(ManifestTooLarge); }
    if !Canonical(w, bundle.entries) { return Some(NotCanonical); }
    if bundle.payloadBytes < 1 || bundle.payloadBytes > MAX_PAYLOAD_BYTES { return Some(PayloadTooLarge); }
    if bundle.contentDigest != w.contentDigest(bundle.entries) { return Some(DigestMismatch); }
    if bundle.payloadBytes != w.compressed(bundle.members) { return Some(DigestMismatch); }
    error := if bundle.payloadDigest != w.payloadDigest(bundle.members) then Some(DigestMismatch) else None;
  }

  /** `extract_benchmark_bundle`.  Whatever the archive, what is extracted is a tree that
      scans to the manifest; and the bundle of a tree gives back just that tree, if and only
      if it is within the limits on sizes. */
  method ExtractBundle(w: World, bundle: Bundle) returns (r: Result<Tree, Error>)
    ensures r.Ok? ==> IsTree(r.value) && Canonical(w, bundle.entries) && Entries(w, r.value) == bundle.entries
    ensures r.Ok? ==> WithinLimits(w, bundle)
    ensures forall tree | IsTree(tree) && Scannable(w, w.markers, tree) && bundle == BundleOf(w, tree) ::
              WithinLimits(w, bundle) ==> r == Ok(tree)
  {
    forall tree | IsTree(tree) && Scannable(w, w.markers, tree) && bundle == BundleOf(w, tree)
      ensures Canonical(w, bundle.entries) && AllMatch(w, bundle.members, bundle.entries)
      ensures ParentsFirst(bundle.members) && NodesOf(bundle.members) == tree
    {
      BundleIsExtractable(w, w.markers, tree);
    }
    var error := ValidateBundle(w, bundle);
    if error.Some? { return Err(error.value); }
    if TarBytes(bundle.members) > MaximumRaw(bundle.entries) { return Err(PastLimit); }
    r := ExtractTar(w, bundle.members, bundle.entries);
    if r.Err? { return; }
    var scanned := ScanSource(w, w.markers, r.value);
    if scanned.Err? { return Err(scanned.error); }
    if scanned.value != bundle.entries { return Err(TreeMismatch); }
  }

  /** The snapshot that the first scan writes, in the order of its nodes. */
  method WriteSnapshot(w: World, tree: Tree, order: seq<string>) returns (r: Option<Tree>)
    requires IsTree(tree) && AllAcceptable(w.safe, tree) && order == Ascending(tree.Keys)
    ensures r == Some(tree)
  {
    ghost var members := MembersOf(tree, EntriesOf(w, tree, order));
    MembersInOrder(w, tree, order);
    PackedParentsFirst(w, tree, order, members);
    PackedNodes(tree, order, members);
    r := CopyNodes(tree, order, members);
  }

  method CopyNodes(tree: Tree, order: seq<string>, ghost members: seq<Member>) returns (r: Option<Tree>)
    requires Packs(tree, order, members) && ParentsFirst(members)
    ensures r == Some(NodesOf(members))
  {
    var disk: Tree := map[];
    for i := 0 to |order|
      invariant disk == NodesOf(members[..i])
    {
      SnapshotStep(tree, order, members, i);
      var created := Create(disk, order[i], tree[order[i]]);
      if created.None? { return None; }
      disk := created.value;
    }
    assert members[..|members|] == members;
    r := Some(disk);
  }

  lemma SnapshotStep(tree: Tree, order: seq<string>, members: seq<Member>, i: nat)
    requires Packs(tree, order, members) && ParentsFirst(members) && i < |order|
    ensures order[i] in tree && Create(NodesOf(members[..i]), order[i], tree[order[i]]) == Some(NodesOf(members[..i + 1]))
  {
    NodesOneMore(members, i);
    assert CreatableAt(members, i) && members[i] == Member(order[i], tree[order[i]], true);
  }

  /** `build_benchmark_bundle`; `later` is the source when it is scanned again.  A build
      succeeds exactly when both scans do and agree and the bundle is within the limits. */
  method BuildBundle(w: World, needles: seq<Bytes>, source: Tree, later: Tree) returns (r: Result<Bundle, Error>)
    requires IsTree(source) && IsTree(later)
    ensures r.Ok? <==>
              && Scannable(w, w.markers + needles, source) && Scannable(w, w.markers + needles, later)
              && Entries(w, later) == Entries(w, source) && WithinLimits(w, BundleOf(w, source))
    ensures r.Ok? ==> r.value == BundleOf(w, source)
  {
    var patterns := w.markers + needles;
    var first := ScanSource(w, patterns, source);
    if first.Err? { return Err(first.error); }
    var snapshot := WriteSnapshot(w, source, Ascending(source.Keys));
    if snapshot.None? { return Err(CannotCreate); }
    var second := ScanSource(w, patterns, later);
    if second.Err? { return Err(second.error); }
    if first.value != second.value { return Err(Changed); }
    EntriesAreOfTree(w, source);
    FewerPatterns(w, needles, source);
    r := FinishBundle(w, source, first.value);
  }

  /** The archive and the manifest of a snapshot, and their verification. */
  method FinishBundle(w: World, snapshot: Tree, entries: seq<Entry>) returns (r: Result<Bundle, Error>)
    requires IsTree(snapshot) && Scannable(w, w.markers, snapshot) && entries == Entries(w, snapshot)
    requires forall e | e in entries :: e.path in snapshot
    ensures r.Ok? <==> WithinLimits(w, BundleOf(w, snapshot))
    ensures r.Ok? ==> r.value == BundleOf(w, snapshot)
  {
    var members := MembersOf(snapshot, entries);
    var bundle := Bundle(entries, w.contentDigest(entries), w.compressed(members), w.payloadDigest(members), members);
    if bundle.payloadBytes < 1 || bundle.payloadBytes > MAX_PAYLOAD_BYTES { return Err(PayloadTooLarge); }
    if ManifestBytes(w, bundle) > MAX_MANIFEST_BYTES { return Err(ManifestTooLarge); }
    var verified := ExtractBundle(w, bundle);
    r := if verified.Err? then Err(verified.error) else Ok(bundle);
  }

  lemma FewerPatterns(w: World, needles: seq<Bytes>, tree: Tree)
    requires Scannable(w, w.markers + needles, tree)
    ensures Scannable(w, w.markers, tree)
  {
    forall p | p in tree ensures !Secret(w.markers, tree[p]) {
      assert !Secret(w.markers + needles, tree[p]);
      assert forall s | s in w.markers :: s in w.markers + needles;
    }
  }
}
