/** Taking a snapshot of a library skill: a bounded read of its directory and a third computation
    of the artifact digest. */
module LibrarySnapshots {
  import opened Protocol
  import opened Sorting
  import opened ArtifactPaths
  import opened ArtifactEncoding
  import opened BundleValidation
  import opened ArtifactTrees

  datatype SnapshotFile = SnapshotFile(path: string, size: nat)
  datatype Snapshot = Snapshot(files: seq<SnapshotFile>, entries: seq<Entry>, digest: ArtifactDigest)

  /** Backslashes become slashes before the path is checked. */
  function Slashed(path: string): string {
    if path == [] then []
    else [if path[0] == '\\' then '/' else path[0]] + Slashed(path[1..])
  }

  function SnapshotPath(path: TreePath): string { Slashed(Join(path)) }

  function SnapshotEntry(tree: Tree, path: TreePath): Entry
    requires path in tree
  {
    Entry(SnapshotPath(path), EntryAt(tree, path).content)
  }

  function SnapshotEntries(tree: Tree, paths: seq<TreePath>): seq<Entry>
    requires forall p | p in paths :: p in tree
  {
    seq(|paths|, i requires 0 <= i < |paths| => SnapshotEntry(tree, paths[i]))
  }

  function FilesOf(entries: seq<Entry>): seq<SnapshotFile> {
    if entries == [] then []
    else
      var last := entries[|entries| - 1];
      FilesOf(entries[..|entries| - 1])
      + if last.content.Some? then [SnapshotFile(last.path, |last.content.value|)] else []
  }

  predicate FileOrder(a: SnapshotFile, b: SnapshotFile) { TextLeq(a.path, b.path) }

  predicate Takes(tree: Tree, path: TreePath)
    requires path in tree
  {
    && tree[path] != Special
    && IsPortable(SnapshotPath(path))
    && Utf16Length(SnapshotPath(path)) <= MAX_PATH_UNITS
  }

  ghost function VisibleBytes(tree: Tree): nat {
    Weight(EntriesAlong(tree, SomeOrder(VisiblePaths(tree))))
  }

  ghost predicate Snapshotable(tree: Tree) {
    && ["SKILL.md"] in tree && tree[["SKILL.md"]].Content?
    && |VisiblePaths(tree)| <= MAX_ENTRIES
    && (forall p | p in VisiblePaths(tree) :: Takes(tree, p))
    && VisibleBytes(tree) <= MAX_BYTES
  }

  /** At most `limit` bytes of a file. */
  function Bounded(bytes: seq<byte>, limit: nat): seq<byte> {
    if |bytes| <= limit then bytes else bytes[..limit]
  }

  /** A file is read through a limit one byte past what is left of the allowance. The limit
      never underflows, and whatever is accepted was read in full. */
  method TakeOne(tree: Tree, p: TreePath, bytes: nat) returns (entry: Option<Entry>)
    requires p in tree && bytes <= MAX_BYTES
    ensures entry == if Takes(tree, p) && bytes + EntrySize(EntryAt(tree, p)) <= MAX_BYTES
                     then Some(SnapshotEntry(tree, p)) else None
  {
    if tree[p] == Special { return None; }
    var path := SnapshotPath(p);
    if !IsPortable(path) || Utf16Length(path) > MAX_PATH_UNITS { return None; }
    if !tree[p].Content? { return Some(Entry(path, None)); }
    var limit: nat := MAX_BYTES - bytes + 1;
    var content := Bounded(tree[p].bytes, limit);
    if bytes + |content| > MAX_BYTES { return None; }
    assert content == tree[p].bytes;
    entry := Some(Entry(path, Some(content)));
  }

  method Take(tree: Tree) returns (taken: Option<Snapshot>, ghost walked: seq<TreePath>)
    requires WellFormed(tree)
    ensures taken.Some? <==> Snapshotable(tree)
    ensures taken.Some? ==>
      && Enumerates(walked, VisiblePaths(tree)) && (forall p | p in walked :: p in tree)
      && var entries := SnapshotEntries(tree, walked);
      && taken.value == Snapshot(SortBy(FilesOf(entries), FileOrder), SortBy(entries, EntryOrder), DigestOf(entries))
  {
    walked := [];
    if ["SKILL.md"] !in tree || !tree[["SKILL.md"]].Content? { taken := None; return; }
    var files, entries, refused;
    files, entries, refused, walked := Walk(tree);
    if refused { taken := None; return; }
    WholeWalk(tree, walked, files, entries);
    files := SortBy(files, FileOrder);
    entries := SortBy(entries, EntryOrder);
    var digest := Hash(entries);
    taken := Some(Snapshot(files, entries, digest));
  }

  method Walk(tree: Tree)
    returns (files: seq<SnapshotFile>, entries: seq<Entry>, refused: bool, ghost walked: seq<TreePath>)
    requires WellFormed(tree)
    ensures refused ==> !Snapshotable(tree)
    ensures !refused ==>
      Progress(tree, walked, {}, files, entries, Weight(entries))
  {
    files, entries, refused, walked := [], [], true, [];
    var bytes: nat := 0;
    var count := 0;
    var todo := VisiblePaths(tree);
    while todo != {}
      invariant Progress(tree, walked, todo, files, entries, bytes) && count == |walked|
      decreases |todo|
    {
      var p :| p in todo;
      ProgressStep(tree, walked, todo, files, entries, bytes, p);
      count := count + 1;
      if count > MAX_ENTRIES { return; }
      var entry := TakeOne(tree, p, bytes);
      if entry.None? { return; }
      if entry.value.content.Some? {
        files := files + [SnapshotFile(entry.value.path, |entry.value.content.value|)];
      }
      bytes := bytes + EntrySize(entry.value);
      entries := entries + [entry.value];
      todo := todo - {p};
      walked := walked + [p];
    }
    SameWeight(tree, walked);
    refused := false;
  }

  lemma {:induction false} SameWeight(tree: Tree, walked: seq<TreePath>)
    requires forall p | p in walked :: p in tree
    ensures Weight(SnapshotEntries(tree, walked)) == Weight(EntriesAlong(tree, walked))
  {
    if walked != [] {
      SameWeight(tree, walked[1..]);
      assert SnapshotEntries(tree, walked)[1..] == SnapshotEntries(tree, walked[1..]);
      assert EntriesAlong(tree, walked)[1..] == EntriesAlong(tree, walked[1..]);
    }
  }

  /** Where the walk stands: what it has seen, kept and counted. */
  ghost predicate Progress(
    tree: Tree, walked: seq<TreePath>, todo: set<TreePath>, files: seq<SnapshotFile>, entries: seq<Entry>, bytes: nat)
  {
    && todo <= VisiblePaths(tree)
    && Enumerates(walked, VisiblePaths(tree) - todo)
    && (forall p | p in walked :: p in tree && Takes(tree, p))
    && entries == SnapshotEntries(tree, walked) && files == FilesOf(entries)
    && bytes == Weight(EntriesAlong(tree, walked)) <= MAX_BYTES
    && |walked| <= MAX_ENTRIES
  }

  /** One path further: either the walk goes on, or the directory must be refused. */
  lemma ProgressStep(
    tree: Tree, walked: seq<TreePath>, todo: set<TreePath>, files: seq<SnapshotFile>, entries: seq<Entry>,
    bytes: nat, p: TreePath)
    requires WellFormed(tree) && Progress(tree, walked, todo, files, entries, bytes) && p in todo
    ensures var size := EntrySize(EntryAt(tree, p));
      if |walked| + 1 > MAX_ENTRIES || !Takes(tree, p) || bytes + size > MAX_BYTES then !Snapshotable(tree)
      else Progress(
        tree, walked + [p], todo - {p},
        if tree[p].Content? then files + [SnapshotFile(SnapshotPath(p), size)] else files,
        entries + [SnapshotEntry(tree, p)], bytes + size)
  {
    StepOfTheWalk(tree, walked, todo, p);
  }

  lemma WholeWalk(tree: Tree, walked: seq<TreePath>, files: seq<SnapshotFile>, entries: seq<Entry>)
    requires WellFormed(tree) && ["SKILL.md"] in tree && tree[["SKILL.md"]].Content?
    requires Progress(tree, walked, {}, files, entries, Weight(entries))
    ensures Snapshotable(tree) && Enumerates(walked, VisiblePaths(tree))
    ensures (forall p | p in walked :: p in tree)
    ensures entries == SnapshotEntries(tree, walked) && files == FilesOf(entries)
  {
    assert VisiblePaths(tree) - {} == VisiblePaths(tree);
    ListingOrderIsIrrelevant(tree, walked, SomeOrder(VisiblePaths(tree)), VisiblePaths(tree));
    EnumerationsCount(walked, VisiblePaths(tree));
  }

  lemma EnumerationsCount<T(!new)>(s: seq<T>, elements: set<T>)
    requires Enumerates(s, elements)
    ensures |s| == |elements|
  {
    forall x ensures multiset(s)[x] == multiset(elements)[x] { CountIsMembership(s, x); }
    assert multiset(s) == multiset(elements);
    assert |multiset(s)| == |s|;
  }

  /** One path further: what the lists and the byte count become, and that neither bound can be
      passed by a part of the walk without being passed by the whole. */
  lemma StepOfTheWalk(tree: Tree, walked: seq<TreePath>, todo: set<TreePath>, p: TreePath)
    requires WellFormed(tree) && todo <= VisiblePaths(tree) && p in todo
    requires Enumerates(walked, VisiblePaths(tree) - todo)
    ensures (forall q | q in walked + [p] :: q in tree)
    ensures Enumerates(walked + [p], VisiblePaths(tree) - (todo - {p}))
    ensures SnapshotEntries(tree, walked + [p]) == SnapshotEntries(tree, walked) + [SnapshotEntry(tree, p)]
    ensures FilesOf(SnapshotEntries(tree, walked + [p]))
            == FilesOf(SnapshotEntries(tree, walked))
               + if tree[p].Content? then [SnapshotFile(SnapshotPath(p), |tree[p].bytes|)] else []
    ensures Weight(EntriesAlong(tree, walked + [p]))
            == Weight(EntriesAlong(tree, walked)) + EntrySize(EntryAt(tree, p))
            <= VisibleBytes(tree)
    ensures |walked| + 1 <= |VisiblePaths(tree)|
  {
    var seen := VisiblePaths(tree) - todo;
    OneMoreElement(walked, seen, p);
    assert seen + {p} == VisiblePaths(tree) - (todo - {p});
    OneMorePath(tree, walked, p);
    assert SnapshotEntries(tree, walked + [p]) == SnapshotEntries(tree, walked) + [SnapshotEntry(tree, p)];
    assert SnapshotEntries(tree, walked + [p])[..|walked|] == SnapshotEntries(tree, walked);
    PartWeighsLess(tree, walked + [p], todo - {p}, VisiblePaths(tree));
    EnumerationsCount(walked + [p], seen + {p});
    SubsetIsSmaller(seen + {p}, VisiblePaths(tree));
  }

  lemma SubsetIsSmaller<T>(a: set<T>, b: set<T>)
    requires a <= b
    ensures |a| <= |b|
  {
    assert b == a + (b - a);
  }

  // ----- the three digests -----

  lemma {:induction false} SlashedIsIdentityWithoutBackslash(path: string)
    ensures Slashed(path) == path <==> '\\' !in path
  {
    if path != [] {
      SlashedIsIdentityWithoutBackslash(path[1..]);
      assert path == [path[0]] + path[1..];
    }
  }

  ghost predicate Slashes(tree: Tree) {
    forall p | p in VisiblePaths(tree) :: '\\' !in Join(p)
  }

  lemma TakenPathsArePortableWithoutBackslash(tree: Tree, p: TreePath)
    requires p in tree && Takes(tree, p)
    ensures IsPortable(Join(p)) <==> '\\' !in Join(p)
    ensures '\\' !in Join(p) ==> SnapshotPath(p) == Join(p)
  {
    SlashedIsIdentityWithoutBackslash(Join(p));
    assert Forbidden('\\');
  }

  lemma PortableExactlyWithoutBackslash(tree: Tree)
    requires Snapshotable(tree)
    ensures Portable(tree) <==> Slashes(tree)
    ensures Slashes(tree) ==> forall p | p in VisiblePaths(tree) :: SnapshotPath(p) == Join(p)
  {
    forall p | p in VisiblePaths(tree)
      ensures (IsPortable(Join(p)) && tree[p] != Special) <==> '\\' !in Join(p)
      ensures '\\' !in Join(p) ==> SnapshotPath(p) == Join(p)
    {
      TakenPathsArePortableWithoutBackslash(tree, p);
    }
  }

  /** The snapshot and the directory hash agree exactly when no visible path contains a
      backslash; with one, the directory has no hash at all. */
  lemma SnapshotAgreesWithHashDir(tree: Tree, walked: seq<TreePath>)
    requires WellFormed(tree) && Snapshotable(tree) && Enumerates(walked, VisiblePaths(tree))
    ensures forall p | p in walked :: p in tree
    ensures HashOf(tree) == Some(DigestOf(SnapshotEntries(tree, walked))) <==> Slashes(tree)
    ensures HashOf(tree) == None <==> !Slashes(tree)
  {
    PortableExactlyWithoutBackslash(tree);
    if Slashes(tree) {
      assert SnapshotEntries(tree, walked) == EntriesAlong(tree, walked);
      ListingOrderIsIrrelevant(tree, walked, SomeOrder(VisiblePaths(tree)), VisiblePaths(tree));
    }
  }

  // ----- a file name with a backslash -----

  const BACKSLASHED: Tree := map[["SKILL.md"] := Content([]), ["a\\b"] := Content([])]

  lemma SkillFileIsShort()
    ensures Utf16Length("SKILL.md") == 8
  {
    var s := "SKILL.md";
    assert s[4..] == "L.md";
    assert Utf16Length("L.md") == 4;
  }

  lemma SkillFileIsPortable()
    ensures IsPortable("SKILL.md") && '\\' !in "SKILL.md"
  {
    var part := "SKILL.md";
    assert Join([part]) == part;
    SplitOfJoin([part]);
    assert |part| == 8 && !IsReserved(part);
  }

  lemma SkillFileIsTaken()
    ensures IsPortable("SKILL.md") && SnapshotPath(["SKILL.md"]) == "SKILL.md"
    ensures Utf16Length("SKILL.md") <= MAX_PATH_UNITS
  {
    SkillFileIsShort();
    SkillFileIsPortable();
    SlashedIsIdentityWithoutBackslash("SKILL.md");
  }

  lemma BackslashIsTaken()
    ensures SnapshotPath(["a\\b"]) == "a/b" && IsPortable("a/b") && Utf16Length("a/b") <= MAX_PATH_UNITS
  {
    assert Join(["a", "b"]) == "a/b";
    SplitOfJoin(["a", "b"]);
    assert Slashed("a\\b") == "a/b" && Utf16Length("a/b") == 3;
  }

  lemma BackslashedWeighsNothing()
    ensures VisibleBytes(BACKSLASHED) == 0
  {
    var tree, seen := BACKSLASHED, SomeOrder(VisiblePaths(BACKSLASHED));
    forall e | e in EntriesAlong(tree, seen) ensures EntrySize(e) == 0 {
      var i :| 0 <= i < |seen| && EntriesAlong(tree, seen)[i] == e;
      assert seen[i] in seen;
    }
    EmptyFilesWeighNothing(EntriesAlong(tree, seen));
  }

  lemma BackslashedPaths()
    ensures WellFormed(BACKSLASHED) && VisiblePaths(BACKSLASHED) == {["SKILL.md"], ["a\\b"]}
    ensures |VisiblePaths(BACKSLASHED)| <= 2
  {
    assert IsSegment("SKILL.md") && |"SKILL.md"| == 8 && IsSegment("a\\b") && |"a\\b"| == 3;
  }

  lemma BackslashedHasNoDigest()
    ensures HashOf(BACKSLASHED) == None
  {
    assert Join(["a\\b"]) == "a\\b" && Forbidden('\\') && "a\\b"[1] == '\\';
    assert !IsPortable(Join(["a\\b"]));
    BackslashedPaths();
    assert ["a\\b"] in VisiblePaths(BACKSLASHED);
  }

  lemma BackslashedIsTaken(p: TreePath)
    requires p in VisiblePaths(BACKSLASHED)
    ensures Takes(BACKSLASHED, p)
  {
    SkillFileIsTaken();
    BackslashIsTaken();
  }

  /** One such directory: its snapshot is taken, under a digest that it does not have itself. */
  lemma ABackslashDivides()
    ensures WellFormed(BACKSLASHED) && Snapshotable(BACKSLASHED) && HashOf(BACKSLASHED) == None
  {
    BackslashedPaths();
    BackslashedWeighsNothing();
    BackslashedHasNoDigest();
    forall p | p in VisiblePaths(BACKSLASHED) ensures Takes(BACKSLASHED, p) { BackslashedIsTaken(p); }
  }

  function Raw(entry: Entry): RawEntry {
    RawEntry(entry.path, if entry.content.Some? then FileEntry else DirectoryEntry, entry.content)
  }

  function RawAll(entries: seq<Entry>): seq<RawEntry> {
    seq(|entries|, i requires 0 <= i < |entries| => Raw(entries[i]))
  }

  lemma RawRoundTrip(entries: seq<Entry>)
    ensures TypedAll(RawAll(entries)) == entries
  {
    forall i | 0 <= i < |entries| ensures TypedAll(RawAll(entries))[i] == entries[i] {}
  }

  /** Without backslashes a snapshot is a bundle the control plane accepts. */
  lemma SnapshotsAreAcceptable(tree: Tree, walked: seq<TreePath>)
    requires WellFormed(tree) && Snapshotable(tree) && Enumerates(walked, VisiblePaths(tree)) && Slashes(tree)
    requires forall p | p in walked :: p in tree
    ensures var entries := SnapshotEntries(tree, walked);
      Acceptable(Bundle(Some(DigestOf(entries)), RawAll(SortBy(entries, EntryOrder))))
  {
    var entries := SnapshotEntries(tree, walked);
    forall p | p in walked ensures SnapshotPath(p) == Join(p) { SlashedIsIdentityWithoutBackslash(Join(p)); }
    assert entries == EntriesAlong(tree, walked);
    ListingOrderIsIrrelevant(tree, walked, SomeOrder(VisiblePaths(tree)), VisiblePaths(tree));
    ListedPathsAreUnique(tree, walked, VisiblePaths(tree));
    EnumerationsCount(walked, VisiblePaths(tree));
    var sorted := SortBy(entries, EntryOrder);
    EntryOrderOrders();
    SortSorts(entries, EntryOrder);
    SortedPathsStayUnique(entries, sorted);
    SortedListHasTheSameDigest(entries);
    WeightForgetsOrder(entries, sorted);
    RawRoundTrip(sorted);
    SortedSnapshotIsShaped(tree, walked, sorted);
    SortedSnapshotHasParents(tree, walked, sorted);
  }

  lemma SortedPathsStayUnique(entries: seq<Entry>, sorted: seq<Entry>)
    requires UniquePaths(entries) && multiset(entries) == multiset(sorted)
    ensures UniquePaths(sorted)
  {
    PermutationsStayDistinct(entries, sorted);
    SameMembers(entries, sorted);
    forall i, j | 0 <= i < j < |sorted| ensures sorted[i].path != sorted[j].path {
      assert sorted[i] in entries && sorted[j] in entries;
      var k :| 0 <= k < |entries| && entries[k] == sorted[i];
      var l :| 0 <= l < |entries| && entries[l] == sorted[j];
      assert k != l;
    }
  }

  lemma SortedSnapshotIsShaped(tree: Tree, walked: seq<TreePath>, sorted: seq<Entry>)
    requires (forall p | p in walked :: p in tree && Takes(tree, p) && SnapshotPath(p) == Join(p))
    requires forall e :: e in sorted <==> e in EntriesAlong(tree, walked)
    requires UniquePaths(sorted) && Weight(sorted) <= MAX_BYTES
    ensures Shaped(RawAll(sorted))
  {
    var raw := RawAll(sorted);
    forall e | e in raw ensures IsHosted(e.path) && WellTyped(e) {
      var i :| 0 <= i < |raw| && raw[i] == e;
      assert sorted[i] in EntriesAlong(tree, walked);
      var k :| 0 <= k < |walked| && EntryAt(tree, walked[k]) == sorted[i];
      assert walked[k] in walked;
      HostedIsPortableAndShort(e.path);
    }
    RawRoundTrip(sorted);
    TypedWeight(raw);
  }

  lemma SortedSnapshotHasParents(tree: Tree, walked: seq<TreePath>, sorted: seq<Entry>)
    requires WellFormed(tree) && Enumerates(walked, VisiblePaths(tree)) && forall p | p in walked :: p in tree
    requires forall e :: e in sorted <==> e in EntriesAlong(tree, walked)
    ensures forall e | e in RawAll(sorted) :: HasParents(e.path, DirectoryPaths(RawAll(sorted)))
  {
    var raw := RawAll(sorted);
    forall e | e in raw ensures HasParents(e.path, DirectoryPaths(raw)) {
      var i :| 0 <= i < |raw| && raw[i] == e;
      assert sorted[i] in EntriesAlong(tree, walked);
      var k :| 0 <= k < |walked| && EntryAt(tree, walked[k]) == sorted[i];
      var p := walked[k];
      assert p in walked;
      SplitOfJoin(p);
      forall count | 1 <= count < |p| ensures Join(p[..count]) in DirectoryPaths(raw) {
        FolderIsListed(tree, walked, sorted, p[..count]);
      }
    }
  }

  lemma FolderIsListed(tree: Tree, walked: seq<TreePath>, sorted: seq<Entry>, folder: TreePath)
    requires (forall p | p in walked :: p in tree) && folder in walked && tree[folder] == Folder
    requires forall e :: e in sorted <==> e in EntriesAlong(tree, walked)
    ensures Join(folder) in DirectoryPaths(RawAll(sorted))
  {
    var k :| 0 <= k < |walked| && walked[k] == folder;
    assert EntriesAlong(tree, walked)[k] == Entry(Join(folder), None);
    assert Entry(Join(folder), None) in sorted;
    var i :| 0 <= i < |sorted| && sorted[i] == Entry(Join(folder), None);
    assert RawAll(sorted)[i] in RawAll(sorted);
  }
}
