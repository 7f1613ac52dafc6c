/** Source trees within every limit of a scan whose bundles are not within the limits on
    sizes (benchmark_bundle.py): many long paths, and very many files. */
module BundleLimits {
  import opened Common
  import opened Decimal
  import opened TarFormat
  import opened TextOrder
  import opened Redaction
  import opened EvidenceFiles
  import opened SourceTree
  import opened BenchmarkBundle

  const EMPTY_FILE := Regular([], false)

  predicate HasNoSlash(name: string) {
    forall i | 0 <= i < |name| :: name[i] != '/'
  }

  lemma {:induction false} ParentOfName(name: string)
    requires HasNoSlash(name)
    ensures Parent(name) == ""
  {
    if name != "" { ParentOfName(name[..|name| - 1]); }
  }

  lemma {:induction false} ParentOfChild(d: string, name: string)
    requires HasNoSlash(name)
    ensures Parent(d + "/" + name) == d
  {
    var p := d + "/" + name;
    if name == "" {
      assert p[..|p| - 1] == d;
    } else {
      assert p[..|p| - 1] == d + "/" + name[..|name| - 1];
      assert p[|p| - 1] == name[|name| - 1];
      ParentOfChild(d, name[..|name| - 1]);
    }
  }

  /** The file with this number. */
  function FileName(prefix: string, i: nat): string {
    prefix + Number(i)
  }

  /** A tree with so many empty files added, the names of which begin with `prefix`. */
  function WithFiles(base: Tree, prefix: string, n: nat): Tree {
    if n == 0 then base else WithFiles(base, prefix, n - 1)[FileName(prefix, n - 1) := EMPTY_FILE]
  }

  lemma FileNamesDiffer(prefix: string, i: nat, j: nat)
    requires FileName(prefix, i) == FileName(prefix, j)
    ensures i == j
  {
    assert FileName(prefix, i)[|prefix|..] == Number(i);
    assert FileName(prefix, j)[|prefix|..] == Number(j);
    NumbersDiffer(i, j);
  }

  predicate IsFileOf(prefix: string, n: nat, p: string) {
    exists i :: 0 <= i < n && p == FileName(prefix, i)
  }

  lemma {:induction false} FilesAdded(base: Tree, prefix: string, n: nat, p: string)
    ensures p in WithFiles(base, prefix, n) <==> p in base || IsFileOf(prefix, n, p)
    ensures p in WithFiles(base, prefix, n) ==>
              WithFiles(base, prefix, n)[p] == if IsFileOf(prefix, n, p) then EMPTY_FILE else base[p]
  {
    if n > 0 {
      FilesAdded(base, prefix, n - 1, p);
      FilesOneMore(prefix, n, p);
    }
  }

  lemma FilesOneMore(prefix: string, n: nat, p: string)
    requires n > 0
    ensures IsFileOf(prefix, n, p) <==> IsFileOf(prefix, n - 1, p) || p == FileName(prefix, n - 1)
  {
    if p == FileName(prefix, n - 1) { assert IsFileOf(prefix, n, p); }
  }

  ghost predicate Outside(base: Tree, prefix: string, d: string) {
    forall i: nat :: var p := FileName(prefix, i); p !in base && p != "" && Parent(p) == d
  }

  lemma {:induction false} FilesCount(base: Tree, prefix: string, n: nat, d: string)
    requires Outside(base, prefix, d)
    ensures |WithFiles(base, prefix, n)| == |base| + n
  {
    if n > 0 {
      FilesCount(base, prefix, n - 1, d);
      NextFileIsNew(base, prefix, n - 1, d);
      OneMoreFile(WithFiles(base, prefix, n - 1), FileName(prefix, n - 1));
    }
  }

  lemma NextFileIsNew(base: Tree, prefix: string, n: nat, d: string)
    requires Outside(base, prefix, d)
    ensures FileName(prefix, n) !in WithFiles(base, prefix, n)
  {
    var name := FileName(prefix, n);
    FilesAdded(base, prefix, n, name);
    if IsFileOf(prefix, n, name) {
      var i :| 0 <= i < n && name == FileName(prefix, i);
      FileNamesDiffer(prefix, n, i);
      assert false;
    }
  }

  lemma OneMoreFile(tree: Tree, name: string)
    requires name !in tree
    ensures |tree[name := EMPTY_FILE]| == |tree| + 1
  {
    assert tree[name := EMPTY_FILE].Keys == tree.Keys + {name};
    KeysCount(tree);
    KeysCount(tree[name := EMPTY_FILE]);
  }

  lemma FilesMakeTree(base: Tree, prefix: string, n: nat, d: string)
    requires IsTree(base) && Outside(base, prefix, d) && (d == "" || (d in base && base[d].Directory?))
    ensures IsTree(WithFiles(base, prefix, n))
  {
    var tree := WithFiles(base, prefix, n);
    FilesAdded(base, prefix, n, "");
    forall p | p in tree ensures Parent(p) == "" || (Parent(p) in tree && tree[Parent(p)].Directory?) {
      FilesAdded(base, prefix, n, p);
      if Parent(p) != "" {
        FilesAdded(base, prefix, n, Parent(p));
        BaseStays(base, prefix, n, d, Parent(p));
      }
    }
  }

  lemma BaseStays(base: Tree, prefix: string, n: nat, d: string, p: string)
    requires Outside(base, prefix, d) && p in base
    ensures !IsFileOf(prefix, n, p)
  {
  }

  // ---- empty trees scan ----

  predicate AllEmpty(tree: Tree) {
    forall p | p in tree :: tree[p].Directory? || tree[p] == EMPTY_FILE
  }

  lemma {:induction false} NoBytes(w: World, tree: Tree, order: seq<string>)
    requires (forall p | p in order :: p in tree) && AllEmpty(tree)
    ensures TotalBytes(EntriesOf(w, tree, order)) == 0
  {
    if order != [] {
      var front, last := order[..|order| - 1], order[|order| - 1];
      NoBytes(w, tree, front);
      var entries := EntriesOf(w, tree, order);
      assert entries[..|entries| - 1] == EntriesOf(w, tree, front);
      assert last in order;
    }
  }

  lemma EmptyTreeScans(w: World, patterns: seq<Bytes>, tree: Tree)
    requires IsTree(tree) && AllEmpty(tree) && 0 < |tree| <= MAX_ENTRIES && NonEmptySecrets(patterns)
    requires forall p | p in tree :: w.safe(p)
    ensures Scannable(w, patterns, tree) && TotalBytes(Entries(w, tree)) == 0
  {
    NoBytes(w, tree, Ascending(tree.Keys));
    NothingInNothing(patterns);
  }

  lemma NothingInNothing(patterns: seq<Bytes>)
    requires NonEmptySecrets(patterns)
    ensures !ContainsAny([], patterns)
  {
    forall s, i | s in patterns ensures !OccursAt([], s, i) {}
  }

  // ---- sums over the entries ----

  /** How many of the paths are among the short ones. */
  function Shorts(order: seq<string>, short: set<string>): nat {
    if order == [] then 0 else Shorts(order[..|order| - 1], short) + if order[|order| - 1] in short then 1 else 0
  }

  const LONG_MEMBER := 2560

  predicate TakesLong(tree: Tree, p: string) {
    p in tree && tree[p] == EMPTY_FILE && MemberSize(p, 0) >= LONG_MEMBER
  }

  /** The tar takes at least so much for each path that is not among the short ones. */
  lemma {:induction false} MembersAtLeast(tree: Tree, order: seq<string>, members: seq<Member>, short: set<string>)
    requires Packs(tree, order, members)
    requires forall p | p in order && p !in short :: TakesLong(tree, p)
    ensures MemberBytes(members) + LONG_MEMBER * Shorts(order, short) >= LONG_MEMBER * |order|
  {
    if order != [] {
      var front, last := order[..|order| - 1], order[|order| - 1];
      assert last in order;
      LastMember(tree, order, members);
      MembersAtLeast(tree, front, members[..|front|], short);
    }
  }

  lemma {:induction false} FewShorts(order: seq<string>, short: set<string>)
    requires NoRepeats(order)
    ensures Shorts(order, short) <= |short|
  {
    if order != [] {
      var front, last := order[..|order| - 1], order[|order| - 1];
      assert order == front + [last];
      PendingLosesOne(front, last);
      ShortsWithout(front, short, last);
      FewShorts(front, short - {last});
      OneFewer(short, last);
    }
  }

  lemma OneFewer(short: set<string>, last: string)
    ensures |short - {last}| == if last in short then |short| - 1 else |short|
  {
    if last !in short { assert short - {last} == short; }
  }

  lemma {:induction false} ShortsWithout(order: seq<string>, short: set<string>, p: string)
    requires p !in order
    ensures Shorts(order, short) == Shorts(order, short - {p})
  {
    if order != [] {
      assert order[|order| - 1] in order;
      ShortsWithout(order[..|order| - 1], short, p);
    }
  }

  lemma LastMember(tree: Tree, order: seq<string>, members: seq<Member>)
    requires Packs(tree, order, members) && order != []
    ensures Packs(tree, order[..|order| - 1], members[..|order| - 1])
    ensures MemberBytes(members) >= MemberBytes(members[..|order| - 1])
    ensures TakesLong(tree, order[|order| - 1]) ==> MemberBytes(members) >= MemberBytes(members[..|order| - 1]) + LONG_MEMBER
  {
    assert order[|order| - 1] in order;
  }

  lemma TimesOneMore(size: nat, n: nat)
    ensures size * (n + 1) == size * n + size
  {
  }

  /** The tar takes just so much when each member does. */
  lemma {:induction false} MembersExactly(tree: Tree, order: seq<string>, members: seq<Member>, size: nat)
    requires Packs(tree, order, members)
    requires forall p | p in order :: tree[p] == EMPTY_FILE && MemberSize(p, 0) == size
    ensures MemberBytes(members) == size * |order|
  {
    if order != [] {
      var front, last := order[..|order| - 1], order[|order| - 1];
      assert last in order;
      TimesOneMore(size, |front|);
      MembersExactly(tree, front, members[..|front|], size);
    }
  }

  lemma {:induction false} EntriesAtLeast(w: World, entries: seq<Entry>, size: nat)
    requires forall e | e in entries :: EntrySize(w, e) >= size
    ensures EntriesSize(w, entries) >= size * |entries|
  {
    if entries != [] {
      EntriesAtLeast(w, entries[..|entries| - 1], size);
      TimesOneMore(size, |entries| - 1);
    }
  }

  lemma MembersInPathOrder(w: World, tree: Tree)
    ensures Packs(tree, Ascending(tree.Keys), BundleOf(w, tree).members) && NoRepeats(Ascending(tree.Keys))
    ensures |Ascending(tree.Keys)| == |tree| && BundleOf(w, tree).entries == Entries(w, tree) && |Entries(w, tree)| == |tree|
  {
    EntriesAreOfTree(w, tree);
    MembersInOrder(w, tree, Ascending(tree.Keys));
    AscendingWorks(tree.Keys);
    AscendingCounts(tree.Keys);
    KeysCount(tree);
  }

  // ---- many long paths: the tar is too large ----

  function Letters(n: nat): (s: string)
    ensures |s| == n && HasNoSlash(s)
  {
    seq(n, i => 'a')
  }

  /** A name of 255 bytes, the most that a file system takes. */
  const LONG := Letters(255)

  const D1 := LONG
  const D2 := D1 + "/" + LONG
  const D3 := D2 + "/" + LONG
  const D4 := D3 + "/" + LONG
  const NESTED: Tree := map[D1 := Directory, D2 := Directory, D3 := Directory, D4 := Directory]

  /** Files four directories deep. */
  function DeepTree(n: nat): Tree {
    WithFiles(NESTED, D4 + "/", n)
  }

  lemma NestedLengths()
    ensures |D1| == 255 && |D2| == 511 && |D3| == 767 && |D4| == 1023
  {
  }

  lemma NestedIsTree()
    ensures IsTree(NESTED) && |NESTED| == 4
  {
    NestedLengths();
    ParentOfName(D1);
    ParentOfChild(D1, LONG);
    ParentOfChild(D2, LONG);
    ParentOfChild(D3, LONG);
    assert NESTED.Keys == {D1, D2, D3, D4};
    KeysCount(NESTED);
  }

  lemma DeepFile(i: nat)
    ensures var p := FileName(D4 + "/", i);
            p !in NESTED && |p| >= 1025 && Parent(p) == D4
  {
    NestedLengths();
    DigitsOnly(i);
    ParentOfChild(D4, Number(i));
    assert FileName(D4 + "/", i) == D4 + "/" + Number(i);
  }

  const SHORT := {D1, D2, D3, D4}

  lemma DeepFilesAreOutside()
    ensures Outside(NESTED, D4 + "/", D4)
  {
    forall i: nat ensures var p := FileName(D4 + "/", i); p !in NESTED && p != "" && Parent(p) == D4 {
      DeepFile(i);
    }
  }

  lemma DeepTreeIsTree(n: nat)
    ensures IsTree(DeepTree(n)) && |DeepTree(n)| == n + 4
  {
    NestedIsTree();
    DeepFilesAreOutside();
    FilesCount(NESTED, D4 + "/", n, D4);
    FilesMakeTree(NESTED, D4 + "/", n, D4);
  }

  lemma DeepTreePath(n: nat, p: string)
    requires p in DeepTree(n)
    ensures DeepTree(n)[p].Directory? || DeepTree(n)[p] == EMPTY_FILE
    ensures p !in SHORT ==> TakesLong(DeepTree(n), p)
  {
    FilesAdded(NESTED, D4 + "/", n, p);
    if IsFileOf(D4 + "/", n, p) {
      var i :| 0 <= i < n && p == FileName(D4 + "/", i);
      DeepFile(i);
      LongName(p);
    }
  }

  lemma DeepTarBytes(w: World, n: nat)
    ensures MemberBytes(BundleOf(w, DeepTree(n)).members) >= LONG_MEMBER * n
  {
    var tree := DeepTree(n);
    var order, members := Ascending(tree.Keys), BundleOf(w, tree).members;
    DeepTreeIsTree(n);
    MembersInPathOrder(w, tree);
    FourShort();
    forall p | p in order && p !in SHORT ensures TakesLong(tree, p) {
      DeepTreePath(n, p);
    }
    MembersAtLeast(tree, order, members, SHORT);
    FewShorts(order, SHORT);
  }

  /** From 2100 such files on, the tar is more than extraction is ready to decompress. */
  lemma LongPathsExceedTheTarLimit(w: World, patterns: seq<Bytes>, n: nat)
    requires 2100 <= n <= MAX_ENTRIES - 4 && NonEmptySecrets(patterns) && forall p | p in DeepTree(n) :: w.safe(p)
    ensures IsTree(DeepTree(n)) && Scannable(w, patterns, DeepTree(n))
    ensures TarBytes(BundleOf(w, DeepTree(n)).members) > MaximumRaw(BundleOf(w, DeepTree(n)).entries)
  {
    var tree := DeepTree(n);
    DeepTreeIsTree(n);
    forall p | p in tree ensures tree[p].Directory? || tree[p] == EMPTY_FILE { DeepTreePath(n, p); }
    EmptyTreeScans(w, patterns, tree);
    MembersInPathOrder(w, tree);
    DeepTarBytes(w, n);
    RoundUpBounds(MemberBytes(BundleOf(w, tree).members) + 2 * BLOCK, RECORD);
  }

  lemma FourShort()
    ensures |SHORT| == 4
  {
    NestedIsTree();
    assert NESTED.Keys == SHORT;
    KeysCount(NESTED);
  }

  // ---- very many files: the manifest is too large ----

  const MIDDLING := Letters(150)

  function ManyFiles(n: nat): Tree {
    WithFiles(map[], MIDDLING, n)
  }

  lemma ManyFile(i: nat)
    ensures var p := FileName(MIDDLING, i); p != "" && Parent(p) == "" && |p| >= 151
    ensures i < MAX_ENTRIES ==> |FileName(MIDDLING, i)| <= 156
  {
    DigitsOnly(i);
    ParentOfName(FileName(MIDDLING, i));
    if i < MAX_ENTRIES {
      assert Power(6) == MAX_ENTRIES by { assert Power(2) == 100 && Power(4) == 10_000; }
      NumberLength(i, 6);
    }
  }

  lemma ManyFilesAreTree(n: nat)
    ensures IsTree(ManyFiles(n)) && |ManyFiles(n)| == n
  {
    forall i: nat ensures var p := FileName(MIDDLING, i); p != "" && Parent(p) == "" {
      ManyFile(i);
    }
    assert Outside(map[], MIDDLING, "");
    FilesCount(map[], MIDDLING, n, "");
    FilesMakeTree(map[], MIDDLING, n, "");
  }

  lemma ManyFilesPath(n: nat, p: string)
    requires n <= MAX_ENTRIES && p in ManyFiles(n)
    ensures ManyFiles(n)[p] == EMPTY_FILE && 151 <= |p| <= 156
  {
    FilesAdded(map[], MIDDLING, n, p);
    var i :| 0 <= i < n && p == FileName(MIDDLING, i);
    ManyFile(i);
  }

  /** JSON text quotes a path, and digests are hexadecimal. */
  ghost predicate Realistic(w: World) {
    (forall p :: |w.quote(p)| >= |p| + 2) && forall content :: |w.digest(content)| == 64
  }

  /** From 983,281 files on with names of about 150 bytes, the manifest is over its limit
      while the tar is within its own. */
  lemma ManyFilesExceedTheManifestLimit(w: World, patterns: seq<Bytes>, n: nat)
    requires 983_281 <= n <= MAX_ENTRIES && NonEmptySecrets(patterns) && Realistic(w) && forall p | p in ManyFiles(n) :: w.safe(p)
    ensures IsTree(ManyFiles(n)) && Scannable(w, patterns, ManyFiles(n))
    ensures TarBytes(BundleOf(w, ManyFiles(n)).members) <= MaximumRaw(BundleOf(w, ManyFiles(n)).entries)
    ensures ManifestBytes(w, BundleOf(w, ManyFiles(n))) > MAX_MANIFEST_BYTES
  {
    var tree := ManyFiles(n);
    ManyFilesAreTree(n);
    forall p | p in tree ensures tree[p] == EMPTY_FILE && 151 <= |p| <= 156 { ManyFilesPath(n, p); }
    EmptyTreeScans(w, patterns, tree);
    MembersInPathOrder(w, tree);
    forall p | p in Ascending(tree.Keys) ensures tree[p] == EMPTY_FILE && MemberSize(p, 0) == 1536 {
      MiddlingName(p);
    }
    MembersExactly(tree, Ascending(tree.Keys), BundleOf(w, tree).members, 1536);
    RoundUpBounds(MemberBytes(BundleOf(w, tree).members) + 2 * BLOCK, RECORD);
    forall e | e in Entries(w, tree) ensures EntrySize(w, e) >= 273 {
      ManyFileEntry(w, tree, Ascending(tree.Keys), e);
    }
    EntriesAtLeast(w, Entries(w, tree), 273);
  }

  lemma ManyFileEntry(w: World, tree: Tree, order: seq<string>, e: Entry)
    requires (forall p | p in order :: p in tree && tree[p] == EMPTY_FILE && |p| >= 151) && Realistic(w)
    requires e in EntriesOf(w, tree, order)
    ensures EntrySize(w, e) >= 273
  {
    var i :| 0 <= i < |order| && EntriesOf(w, tree, order)[i] == e;
    assert order[i] in order;
  }
}
