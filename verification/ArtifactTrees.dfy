/** Artifact directories: their digest, and how a bundle becomes a directory and comes back. A
    directory is a map from paths, as sequences of names, to what is there. */
module ArtifactTrees {
  import opened Protocol
  import opened Sorting
  import opened ArtifactPaths
  import opened ArtifactEncoding
  import opened BundleValidation

  type TreePath = seq<string>
  datatype Node = Folder | Content(bytes: seq<byte>) | Special
  type Tree = map<TreePath, Node>

  predicate IsName(part: string) { IsSegment(part) && part != "" && part != "." && part != ".." }

  /** Names are file names, and what contains something is a folder. */
  ghost predicate WellFormed(tree: Tree) {
    forall p | p in tree ::
      && p != [] && (forall part | part in p :: IsName(part))
      && (forall k | 0 < k < |p| :: p[..k] in tree && tree[p[..k]] == Folder)
  }

  predicate Visible(path: TreePath) { ".git" !in path }

  function VisiblePaths(tree: Tree): set<TreePath> { set p | p in tree && Visible(p) }

  function EntryAt(tree: Tree, path: TreePath): Entry
    requires path in tree
  {
    Entry(Join(path), if tree[path].Content? then Some(tree[path].bytes) else None)
  }

  function EntriesAlong(tree: Tree, paths: seq<TreePath>): seq<Entry>
    requires forall p | p in paths :: p in tree
  {
    seq(|paths|, i requires 0 <= i < |paths| => EntryAt(tree, paths[i]))
  }

  // ----- listing a directory, in any order -----

  ghost predicate Enumerates<T(!new)>(s: seq<T>, elements: set<T>) {
    && Distinct(s)
    && (forall x :: x in s <==> x in elements)
  }

  ghost function SomeOrder<T(!new)>(elements: set<T>): (s: seq<T>)
    ensures Enumerates(s, elements)
  {
    if elements == {} then []
    else
      var x :| x in elements;
      var rest := SomeOrder(elements - {x});
      assert forall y :: y in [x] + rest <==> y in elements;
      [x] + rest
  }

  lemma JoinIsInjective(tree: Tree, p: TreePath, q: TreePath)
    requires WellFormed(tree) && p in tree && q in tree && Join(p) == Join(q)
    ensures p == q
  {
    SplitOfJoin(p);
    SplitOfJoin(q);
  }

  lemma ListedPathsAreUnique(tree: Tree, paths: seq<TreePath>, elements: set<TreePath>)
    requires WellFormed(tree) && Enumerates(paths, elements) && elements <= tree.Keys
    ensures forall p | p in paths :: p in tree
    ensures UniquePaths(EntriesAlong(tree, paths))
  {
    var entries := EntriesAlong(tree, paths);
    forall i, j | 0 <= i < j < |entries|
      ensures entries[i].path != entries[j].path
    {
      if entries[i].path == entries[j].path { JoinIsInjective(tree, paths[i], paths[j]); }
    }
  }

  /** Lists of the same entries with unique paths sort alike and weigh the same. */
  lemma SameEntriesSortAlike(a: seq<Entry>, b: seq<Entry>)
    requires UniquePaths(a) && UniquePaths(b) && forall e :: e in a <==> e in b
    ensures SortBy(a, EntryOrder) == SortBy(b, EntryOrder)
    ensures Weight(a) == Weight(b)
  {
    SameElementsSameMultiset(a, b);
    UniquePathsAreSeparated(a);
    EntryOrderOrders();
    SortForgetsOrder(a, b, EntryOrder);
    WeightForgetsOrder(a, b);
  }

  lemma ListingOrderIsIrrelevant(tree: Tree, a: seq<TreePath>, b: seq<TreePath>, elements: set<TreePath>)
    requires WellFormed(tree) && elements <= tree.Keys
    requires Enumerates(a, elements) && Enumerates(b, elements)
    ensures (forall p | p in a :: p in tree) && (forall p | p in b :: p in tree)
    ensures SortBy(EntriesAlong(tree, a), EntryOrder) == SortBy(EntriesAlong(tree, b), EntryOrder)
    ensures Weight(EntriesAlong(tree, a)) == Weight(EntriesAlong(tree, b))
  {
    ListedPathsAreUnique(tree, a, elements);
    ListedPathsAreUnique(tree, b, elements);
    var x, y := EntriesAlong(tree, a), EntriesAlong(tree, b);
    forall e ensures e in x <==> e in y {
      if e in x {
        var i :| 0 <= i < |x| && x[i] == e;
        assert a[i] in b;
        var j :| 0 <= j < |b| && b[j] == a[i];
        assert y[j] == e;
      }
      if e in y {
        var j :| 0 <= j < |y| && y[j] == e;
        assert b[j] in a;
        var i :| 0 <= i < |a| && a[i] == b[j];
        assert x[i] == e;
      }
    }
    SameEntriesSortAlike(x, y);
  }

  // ----- sizes -----

  function EntrySize(entry: Entry): nat { if entry.content.Some? then |entry.content.value| else 0 }

  function Weight(entries: seq<Entry>): nat {
    if entries == [] then 0 else EntrySize(entries[0]) + Weight(entries[1..])
  }

  lemma {:induction false} WeightOfSplit(a: seq<Entry>, b: seq<Entry>)
    ensures Weight(a + b) == Weight(a) + Weight(b)
  {
    if a == [] {
      assert a + b == b;
    } else {
      WeightOfSplit(a[1..], b);
      assert (a + b)[1..] == a[1..] + b;
    }
  }

  lemma {:induction false} WeightForgetsOrder(a: seq<Entry>, b: seq<Entry>)
    requires multiset(a) == multiset(b)
    ensures Weight(a) == Weight(b)
  {
    if a == [] {
      assert |b| == |multiset(b)| == |multiset(a)| == 0;
    } else {
      var i := PermutationStep(a, b);
      WeightForgetsOrder(a[1..], b[..i] + b[i + 1..]);
      WeightWithout(b, i);
    }
  }

  lemma WeightWithout(b: seq<Entry>, i: nat)
    requires i < |b|
    ensures Weight(b) == Weight(b[..i] + b[i + 1..]) + EntrySize(b[i])
  {
    WeightOfSplit(b[..i], b[i + 1..]);
    WeightOfSplit(b[..i], b[i..]);
    assert b == b[..i] + b[i..] && b[i..][1..] == b[i + 1..];
  }

  // ----- one element, one list further -----

  lemma OneMorePath(tree: Tree, walked: seq<TreePath>, path: TreePath)
    requires (forall p | p in walked :: p in tree) && path in tree
    ensures EntriesAlong(tree, walked + [path]) == EntriesAlong(tree, walked) + [EntryAt(tree, path)]
    ensures Weight(EntriesAlong(tree, walked + [path]))
            == Weight(EntriesAlong(tree, walked)) + EntrySize(EntryAt(tree, path))
  {
    assert EntriesAlong(tree, walked + [path]) == EntriesAlong(tree, walked) + [EntryAt(tree, path)];
    WeightOfSplit(EntriesAlong(tree, walked), [EntryAt(tree, path)]);
    assert [EntryAt(tree, path)][1..] == [];
  }

  lemma OneMoreElement<T(!new)>(s: seq<T>, elements: set<T>, x: T)
    requires Enumerates(s, elements) && x !in elements
    ensures Enumerates(s + [x], elements + {x})
  {
  }

  lemma OneListAfterAnother<T(!new)>(a: seq<T>, x: set<T>, b: seq<T>, y: set<T>)
    requires Enumerates(a, x) && Enumerates(b, y) && x !! y
    ensures Enumerates(a + b, x + y)
  {
    forall i, j | 0 <= i < j < |a + b| ensures (a + b)[i] != (a + b)[j] {
      if i < |a| <= j { assert a[i] in a && b[j - |a|] in b; }
    }
  }

  // ----- the digest of a directory -----

  ghost predicate Portable(tree: Tree) {
    forall p | p in tree && Visible(p) :: IsPortable(Join(p)) && tree[p] != Special
  }

  /** The digest of what is visible, when all of it is portable. */
  ghost function HashOf(tree: Tree): Option<ArtifactDigest> {
    if Portable(tree) then Some(DigestOf(EntriesAlong(tree, SomeOrder(VisiblePaths(tree))))) else None
  }

  /** Entries in whatever order the walk meets them; None at the first that is not portable. */
  method CollectEntries(tree: Tree) returns (entries: Option<seq<Entry>>, ghost walked: seq<TreePath>)
    requires WellFormed(tree)
    ensures entries.Some? <==> Portable(tree)
    ensures entries.Some? ==>
      && Enumerates(walked, VisiblePaths(tree)) && (forall p | p in walked :: p in tree)
      && entries.value == EntriesAlong(tree, walked)
  {
    var found: seq<Entry> := [];
    walked := [];
    var todo := VisiblePaths(tree);
    while todo != {}
      invariant todo <= VisiblePaths(tree)
      invariant Enumerates(walked, VisiblePaths(tree) - todo)
      invariant forall p | p in walked :: p in tree && IsPortable(Join(p)) && tree[p] != Special
      invariant found == EntriesAlong(tree, walked)
      decreases |todo|
    {
      var path :| path in todo;
      OneMorePath(tree, walked, path);
      OneMoreElement(walked, VisiblePaths(tree) - todo, path);
      assert VisiblePaths(tree) - todo + {path} == VisiblePaths(tree) - (todo - {path});
      todo := todo - {path};
      var portable := Join(path);
      if !IsPortable(portable) || tree[path] == Special { entries := None; return; }
      found := found + [Entry(portable, if tree[path].Content? then Some(tree[path].bytes) else None)];
      walked := walked + [path];
    }
    assert VisiblePaths(tree) - todo == VisiblePaths(tree);
    entries := Some(found);
  }

  /** Sorts what was collected and feeds it to one running hash. */
  method HashDir(tree: Tree) returns (digest: Option<ArtifactDigest>)
    requires WellFormed(tree)
    ensures digest == HashOf(tree)
  {
    var entries;
    ghost var walked;
    entries, walked := CollectEntries(tree);
    if entries.None? { return None; }
    ListingOrderIsIrrelevant(tree, walked, SomeOrder(VisiblePaths(tree)), VisiblePaths(tree));
    var hashed := ArtifactDigestOf(entries.value);
    digest := Some(hashed);
  }

  // ----- writing a bundle -----

  function MakeFolders(tree: Tree, path: TreePath): Option<Tree> {
    if path == [] then Some(tree)
    else
      var parent := MakeFolders(tree, path[..|path| - 1]);
      if parent.None? then None
      else if path in parent.value then (if parent.value[path] == Folder then parent else None)
      else Some(parent.value[path := Folder])
  }

  function WriteFile(tree: Tree, path: TreePath, bytes: seq<byte>): Option<Tree>
    requires path != []
  {
    var parent := MakeFolders(tree, path[..|path| - 1]);
    if parent.None? || (path in parent.value && !parent.value[path].Content?) then None
    else Some(parent.value[path := Content(bytes)])
  }

  function StoreEntry(tree: Tree, entry: RawEntry): Option<Tree> {
    if !IsPortable(entry.path) then None
    else match entry.kind
      case DirectoryEntry =>
        if entry.content.Some? then None else MakeFolders(tree, Split(entry.path))
      case FileEntry =>
        if entry.content.None? then None
        else WriteFile(tree, Split(entry.path), entry.content.value)
      case OtherEntry => None
  }

  /** The directory after the entries were written one after the other. */
  function StoreAll(entries: seq<RawEntry>): Option<Tree> {
    if entries == [] then Some(map[])
    else
      var written := StoreAll(entries[..|entries| - 1]);
      if written.None? || TotalBytes(entries) > MAX_BYTES then None
      else StoreEntry(written.value, entries[|entries| - 1])
  }

  lemma {:induction false} StoreFailsForGood(entries: seq<RawEntry>, i: nat)
    requires i <= |entries| && StoreAll(entries[..i]).None?
    ensures StoreAll(entries).None?
    decreases |entries| - i
  {
    if i < |entries| {
      assert entries[..i + 1][..i] == entries[..i];
      StoreFailsForGood(entries, i + 1);
    } else {
      assert entries[..i] == entries;
    }
  }

  /** Whatever entries are stored: together at most 10 MiB, on portable paths, directories without
      content and files with some. */
  lemma {:induction false} OnlyPlainEntriesAreStored(entries: seq<RawEntry>)
    requires StoreAll(entries).Some?
    ensures entries != [] ==> TotalBytes(entries) <= 10_485_760
    ensures forall e | e in entries ::
      && IsPortable(e.path)
      && match e.kind
         case DirectoryEntry => e.content == None
         case FileEntry => e.content.Some?
         case OtherEntry => false
  {
    if entries != [] {
      var n := |entries| - 1;
      OnlyPlainEntriesAreStored(entries[..n]);
      assert entries == entries[..n] + [entries[n]];
    }
  }

  method WriteBundle(entries: seq<RawEntry>) returns (tree: Option<Tree>)
    ensures tree == StoreAll(entries)
  {
    var written: Tree := map[];
    var totalBytes := 0;
    for i := 0 to |entries|
      invariant StoreAll(entries[..i]) == Some(written)
      invariant totalBytes == TotalBytes(entries[..i])
    {
      var entry := entries[i];
      assert entries[..i + 1][..i] == entries[..i] && entries[..i + 1][i] == entry;
      totalBytes := totalBytes + Size(entry);
      var next := StoreEntry(written, entry);
      if totalBytes > MAX_BYTES || next.None? {
        StoreFailsForGood(entries, i + 1);
        return None;
      }
      written := next.value;
    }
    assert entries[..|entries|] == entries;
    tree := Some(written);
  }


  ghost predicate Fits(tree: Tree, target: Tree) {
    forall p | p in tree :: p in target && tree[p] == target[p]
  }

  lemma {:induction false} FoldersFit(tree: Tree, target: Tree, path: TreePath)
    requires Fits(tree, target) && WellFormed(target)
    requires path == [] || (path in target && target[path] == Folder)
    ensures var made := MakeFolders(tree, path);
      && made.Some? && Fits(made.value, target) && tree.Keys <= made.value.Keys
      && (path != [] ==> path in made.value)
  {
    if path != [] {
      FoldersFit(tree, target, path[..|path| - 1]);
    }
  }

  // ----- copying a directory -----

  /** What a copy keeps: no `.git`, and neither links nor special files. */
  function CopyOf(source: Tree): Tree {
    map p | p in source && Visible(p) && source[p] != Special :: source[p]
  }

  lemma CopyIsWellFormed(source: Tree)
    requires WellFormed(source)
    ensures WellFormed(CopyOf(source))
  {
    forall p, k | p in CopyOf(source) && 0 < k < |p|
      ensures p[..k] in CopyOf(source) && CopyOf(source)[p[..k]] == Folder
    {
      assert forall part | part in p[..k] :: part in p;
    }
  }

  /** Walks the source in any order, making folders as they are needed. */
  method CopyDir(source: Tree) returns (copy: Tree)
    requires WellFormed(source)
    ensures copy == CopyOf(source)
  {
    copy := map[];
    var todo := VisiblePaths(source);
    CopyIsWellFormed(source);
    while todo != {}
      invariant todo <= VisiblePaths(source)
      invariant Fits(copy, CopyOf(source))
      invariant forall p | p in CopyOf(source) && p !in todo :: p in copy
      decreases |todo|
    {
      var path :| path in todo;
      todo := todo - {path};
      if source[path] == Folder {
        FoldersFit(copy, CopyOf(source), path);
        copy := MakeFolders(copy, path).value;
      } else if source[path].Content? {
        FoldersFit(copy, CopyOf(source), path[..|path| - 1]);
        copy := WriteFile(copy, path, source[path].bytes).value;
      }
    }
  }

  lemma CopyHashesLikeItsSource(source: Tree)
    requires forall p | p in source && Visible(p) :: source[p] != Special
    ensures HashOf(CopyOf(source)) == HashOf(source)
  {
    assert VisiblePaths(CopyOf(source)) == VisiblePaths(source);
    if Portable(source) {
      var order := SomeOrder(VisiblePaths(source));
      assert EntriesAlong(CopyOf(source), order) == EntriesAlong(source, order);
    }
  }

  /** A copy has the digest of its source exactly when nothing visible was left out, or when what
      was kept has none. A directory with a link in it has no digest, but its copy may. */
  lemma CopiesHashAlikeExactlyWhenComplete(source: Tree)
    ensures HashOf(CopyOf(source)) == HashOf(source)
            <==> || (forall p | p in source && Visible(p) :: source[p] != Special)
                 || (exists p :: p in source && Visible(p) && source[p] != Special && !IsPortable(Join(p)))
  {
    if forall p | p in source && Visible(p) :: source[p] != Special {
      CopyHashesLikeItsSource(source);
    } else if p :| p in source && Visible(p) && source[p] != Special && !IsPortable(Join(p)) {
      assert p in CopyOf(source);
    }
  }

  /** A directory that holds one link has no digest; its copy is empty, and has one. */
  lemma ALinkIsLeftOut()
    ensures var source: Tree := map[["a"] := Special];
      && WellFormed(source) && HashOf(source) == None
      && CopyOf(source) == map[] && HashOf(CopyOf(source)).Some?
  {
    var source: Tree := map[["a"] := Special];
    assert ["a"] in source && Visible(["a"]);
    assert CopyOf(source) == map[];
  }

  // ----- an accepted bundle becomes its tree -----

  function NodeOf(entry: RawEntry): Node {
    if entry.kind == FileEntry && entry.content.Some? then Content(entry.content.value) else Folder
  }

  /** The tree holds exactly the entries. */
  ghost predicate IsTreeOf(tree: Tree, entries: seq<RawEntry>) {
    && (forall e | e in entries :: Split(e.path) in tree && tree[Split(e.path)] == NodeOf(e))
    && (forall p | p in tree :: exists e :: e in entries && Split(e.path) == p)
  }

  lemma EntryFits(tree: Tree, target: Tree, entry: RawEntry)
    requires Fits(tree, target) && WellFormed(target)
    requires IsPortable(entry.path) && WellTyped(entry)
    requires Split(entry.path) in target && target[Split(entry.path)] == NodeOf(entry)
    ensures var stored := StoreEntry(tree, entry);
      && stored.Some? && Fits(stored.value, target) && tree.Keys <= stored.value.Keys
      && Split(entry.path) in stored.value
  {
    var path := Split(entry.path);
    if entry.kind == DirectoryEntry {
      FoldersFit(tree, target, path);
    } else {
      FoldersFit(tree, target, path[..|path| - 1]);
    }
  }

  lemma {:induction false} EntriesFit(entries: seq<RawEntry>, target: Tree)
    requires WellFormed(target) && TotalBytes(entries) <= MAX_BYTES
    requires forall e | e in entries ::
      IsPortable(e.path) && WellTyped(e) && Split(e.path) in target && target[Split(e.path)] == NodeOf(e)
    ensures var stored := StoreAll(entries);
      && stored.Some? && Fits(stored.value, target)
      && (forall e | e in entries :: Split(e.path) in stored.value)
  {
    if entries != [] {
      var n := |entries| - 1;
      EntriesFit(entries[..n], target);
      assert entries == entries[..n] + [entries[n]];
      EntryFits(StoreAll(entries[..n]).value, target, entries[n]);
    }
  }

  /** Whatever the order of the entries, writing them builds the tree they describe. */
  lemma StoringBuildsTheTree(entries: seq<RawEntry>, target: Tree)
    requires WellFormed(target) && IsTreeOf(target, entries) && TotalBytes(entries) <= MAX_BYTES
    requires forall e | e in entries :: IsPortable(e.path) && WellTyped(e)
    ensures StoreAll(entries) == Some(target)
  {
    EntriesFit(entries, target);
    var stored := StoreAll(entries).value;
    forall p | p in target ensures p in stored {
      var e :| e in entries && Split(e.path) == p;
    }
    assert stored == target;
  }

  function TreeOf(entries: seq<RawEntry>): Tree {
    if entries == [] then map[]
    else TreeOf(entries[1..])[Split(entries[0].path) := NodeOf(entries[0])]
  }

  lemma SplitIsInjective(p: string, q: string)
    requires Split(p) == Split(q)
    ensures p == q
  {
    JoinOfSplit(p);
    JoinOfSplit(q);
  }

  lemma IsTreeOfGrows(tree: Tree, entries: seq<RawEntry>, first: RawEntry)
    requires IsTreeOf(tree, entries) && forall e | e in entries :: e.path != first.path
    ensures IsTreeOf(tree[Split(first.path) := NodeOf(first)], [first] + entries)
  {
    var grown, all := tree[Split(first.path) := NodeOf(first)], [first] + entries;
    forall e | e in entries ensures Split(e.path) != Split(first.path) {
      if Split(e.path) == Split(first.path) { SplitIsInjective(e.path, first.path); }
    }
    forall p | p in grown ensures exists e :: e in all && Split(e.path) == p {
      if p == Split(first.path) {
        assert first in all;
      } else {
        var e :| e in entries && Split(e.path) == p;
        assert e in all;
      }
    }
  }

  lemma DistinctFromTheFirst(entries: seq<RawEntry>)
    requires DistinctPaths(entries) && entries != []
    ensures DistinctPaths(entries[1..]) && forall e | e in entries[1..] :: e.path != entries[0].path
  {
    forall e | e in entries[1..] ensures e.path != entries[0].path {
      var j :| 0 <= j < |entries[1..]| && entries[1..][j] == e;
      assert entries[j + 1] == e;
    }
  }

  lemma {:induction false} TreeOfEntries(entries: seq<RawEntry>)
    requires DistinctPaths(entries)
    ensures IsTreeOf(TreeOf(entries), entries)
  {
    if entries != [] {
      DistinctFromTheFirst(entries);
      TreeOfEntries(entries[1..]);
      IsTreeOfGrows(TreeOf(entries[1..]), entries[1..], entries[0]);
      assert [entries[0]] + entries[1..] == entries;
    }
  }

  /** The tree of an accepted bundle is a directory tree: parents are there, and are folders. */
  lemma AcceptedTreeIsWellFormed(bundle: Bundle)
    requires Acceptable(bundle)
    ensures WellFormed(TreeOf(bundle.entries)) && IsTreeOf(TreeOf(bundle.entries), bundle.entries)
  {
    var entries, tree := bundle.entries, TreeOf(bundle.entries);
    TreeOfEntries(entries);
    forall p | p in tree
      ensures p != [] && (forall part | part in p :: IsName(part))
      ensures forall k | 0 < k < |p| :: p[..k] in tree && tree[p[..k]] == Folder
    {
      var e :| e in entries && Split(e.path) == p;
      HostedIsPortableAndShort(e.path);
      SplitsIntoSegments(e.path);
      assert forall part | part in p :: !IsReserved(part);
      forall k | 0 < k < |p|
        ensures p[..k] in tree && tree[p[..k]] == Folder
      {
        assert Ancestor(e.path, k) in DirectoryPaths(entries);
        var d :| d in entries && d.kind == DirectoryEntry && d.path == Join(p[..k]);
        SplitOfJoin(p[..k]);
      }
    }
  }

  lemma AcceptedTreeIsPortable(bundle: Bundle)
    requires Acceptable(bundle)
    ensures Portable(TreeOf(bundle.entries))
    ensures forall p | p in TreeOf(bundle.entries) :: Visible(p) && TreeOf(bundle.entries)[p] != Special
  {
    var entries, tree := bundle.entries, TreeOf(bundle.entries);
    AcceptedTreeIsWellFormed(bundle);
    forall p | p in tree
      ensures Visible(p) && IsPortable(Join(p)) && tree[p] != Special
    {
      var e :| e in entries && Split(e.path) == p;
      HostedIsPortableAndShort(e.path);
      JoinOfSplit(e.path);
      assert IsReserved(".git") && forall part | part in p :: !IsReserved(part);
    }
  }

  lemma ListedNodeIsTyped(tree: Tree, entry: RawEntry)
    requires WellTyped(entry) && Split(entry.path) in tree && tree[Split(entry.path)] == NodeOf(entry)
    ensures EntryAt(tree, Split(entry.path)) == Typed(entry)
  {
    JoinOfSplit(entry.path);
  }

  lemma ListedEntriesAreTyped(tree: Tree, entries: seq<RawEntry>, paths: seq<TreePath>)
    requires IsTreeOf(tree, entries) && forall e | e in entries :: WellTyped(e)
    requires forall p :: p in paths <==> p in tree
    ensures forall x :: x in EntriesAlong(tree, paths) <==> x in TypedAll(entries)
  {
    var listed, typed := EntriesAlong(tree, paths), TypedAll(entries);
    forall x | x in listed ensures x in typed {
      var i :| 0 <= i < |listed| && listed[i] == x;
      assert paths[i] in paths;
      var e :| e in entries && Split(e.path) == paths[i];
      ListedNodeIsTyped(tree, e);
      var j :| 0 <= j < |entries| && entries[j] == e;
      assert typed[j] == x;
    }
    forall x | x in typed ensures x in listed {
      var j :| 0 <= j < |typed| && typed[j] == x;
      assert entries[j] in entries;
      ListedNodeIsTyped(tree, entries[j]);
      assert Split(entries[j].path) in paths;
      var i :| 0 <= i < |paths| && paths[i] == Split(entries[j].path);
      assert listed[i] == x;
    }
  }

  lemma ListedTreeIsTheBundle(bundle: Bundle, paths: seq<TreePath>)
    requires Acceptable(bundle) && Enumerates(paths, TreeOf(bundle.entries).Keys)
    ensures (forall p | p in paths :: p in TreeOf(bundle.entries))
    ensures var listed := EntriesAlong(TreeOf(bundle.entries), paths);
      && SortBy(listed, EntryOrder) == SortBy(TypedAll(bundle.entries), EntryOrder)
      && Weight(listed) == Weight(TypedAll(bundle.entries))
  {
    var entries, tree := bundle.entries, TreeOf(bundle.entries);
    AcceptedTreeIsWellFormed(bundle);
    ListedPathsAreUnique(tree, paths, tree.Keys);
    ListedEntriesAreTyped(tree, entries, paths);
    assert UniquePaths(TypedAll(entries));
    SameEntriesSortAlike(EntriesAlong(tree, paths), TypedAll(entries));
  }

  lemma {:induction false} TypedWeight(entries: seq<RawEntry>)
    requires forall e | e in entries :: WellTyped(e)
    ensures Weight(TypedAll(entries)) == TotalBytes(entries)
  {
    if entries == [] {
      assert TypedAll(entries) == [];
    } else {
      var n := |entries| - 1;
      TypedWeight(entries[..n]);
      assert TypedAll(entries) == TypedAll(entries[..n]) + [Typed(entries[n])];
      WeightOfSplit(TypedAll(entries[..n]), [Typed(entries[n])]);
      assert [Typed(entries[n])][1..] == [];
      assert entries[n] in entries;
    }
  }

  // ----- reading a directory back -----

  datatype Reading = Unreadable | Read(entries: seq<Entry>)

  /** Every path of the directory, hidden ones too, in byte order. */
  ghost function ReadingOf(tree: Tree): Reading {
    var paths := SomeOrder(tree.Keys);
    if exists p | p in tree :: tree[p] == Special then Unreadable
    else if Weight(EntriesAlong(tree, paths)) > MAX_BYTES then Unreadable
    else Read(SortBy(EntriesAlong(tree, paths), EntryOrder))
  }

  /** Where the reading stands. */
  ghost predicate ReadSoFar(
    tree: Tree, walked: seq<TreePath>, todo: set<TreePath>, entries: seq<Entry>, totalBytes: nat)
  {
    && todo <= tree.Keys && Enumerates(walked, tree.Keys - todo)
    && (forall p | p in walked :: p in tree && tree[p] != Special)
    && entries == EntriesAlong(tree, walked)
    && totalBytes == Weight(entries)
  }

  lemma ReadOneMore(
    tree: Tree, walked: seq<TreePath>, todo: set<TreePath>, entries: seq<Entry>, totalBytes: nat, path: TreePath)
    requires ReadSoFar(tree, walked, todo, entries, totalBytes) && path in todo && tree[path] != Special
    ensures ReadSoFar(tree, walked + [path], todo - {path}, entries + [EntryAt(tree, path)],
                      totalBytes + EntrySize(EntryAt(tree, path)))
  {
    OneMorePath(tree, walked, path);
    OneMoreElement(walked, tree.Keys - todo, path);
    assert tree.Keys - todo + {path} == tree.Keys - (todo - {path});
  }

  lemma ReadingIsDone(tree: Tree, walked: seq<TreePath>, entries: seq<Entry>, totalBytes: nat)
    requires WellFormed(tree) && ReadSoFar(tree, walked, {}, entries, totalBytes) && totalBytes <= MAX_BYTES
    ensures ReadingOf(tree) == Read(SortBy(entries, EntryOrder))
  {
    assert tree.Keys - {} == tree.Keys;
    ListingOrderIsIrrelevant(tree, walked, SomeOrder(tree.Keys), tree.Keys);
    assert forall p | p in tree :: p in walked;
  }

  lemma ReadingIsTooMuch(tree: Tree, walked: seq<TreePath>, todo: set<TreePath>, entries: seq<Entry>, totalBytes: nat)
    requires WellFormed(tree) && ReadSoFar(tree, walked, todo, entries, totalBytes) && totalBytes > MAX_BYTES
    ensures ReadingOf(tree) == Unreadable
  {
    PartWeighsLess(tree, walked, todo, tree.Keys);
  }

  method ReadEntries(tree: Tree) returns (reading: Reading)
    requires WellFormed(tree)
    ensures reading == ReadingOf(tree)
  {
    var entries: seq<Entry> := [];
    var totalBytes: nat := 0;
    ghost var walked: seq<TreePath> := [];
    var todo := tree.Keys;
    while todo != {}
      invariant ReadSoFar(tree, walked, todo, entries, totalBytes) && totalBytes <= MAX_BYTES
      decreases |todo|
    {
      var path :| path in todo;
      if tree[path] == Special { return Unreadable; }
      ReadOneMore(tree, walked, todo, entries, totalBytes, path);
      var entry := Entry(Join(path), if tree[path].Content? then Some(tree[path].bytes) else None);
      todo := todo - {path};
      totalBytes := totalBytes + EntrySize(entry);
      entries := entries + [entry];
      walked := walked + [path];
      if totalBytes > MAX_BYTES {
        ReadingIsTooMuch(tree, walked, todo, entries, totalBytes);
        return Unreadable;
      }
    }
    ReadingIsDone(tree, walked, entries, totalBytes);
    reading := Read(SortBy(entries, EntryOrder));
  }

  lemma PartWeighsLess(tree: Tree, walked: seq<TreePath>, todo: set<TreePath>, elements: set<TreePath>)
    requires WellFormed(tree) && todo <= elements <= tree.Keys && Enumerates(walked, elements - todo)
    ensures (forall p | p in walked :: p in tree)
    ensures Weight(EntriesAlong(tree, walked)) <= Weight(EntriesAlong(tree, SomeOrder(elements)))
  {
    var rest := SomeOrder(todo);
    var all := walked + rest;
    assert Enumerates(all, elements) by {
      OneListAfterAnother(walked, elements - todo, rest, todo);
      assert elements - todo + todo == elements;
    }
    assert Weight(EntriesAlong(tree, all)) == Weight(EntriesAlong(tree, SomeOrder(elements))) by {
      ListingOrderIsIrrelevant(tree, all, SomeOrder(elements), elements);
    }
    PartsWeighTogether(tree, walked, rest);
  }

  lemma PartsWeighTogether(tree: Tree, a: seq<TreePath>, b: seq<TreePath>)
    requires (forall p | p in a :: p in tree) && (forall p | p in b :: p in tree)
    ensures Weight(EntriesAlong(tree, a + b)) == Weight(EntriesAlong(tree, a)) + Weight(EntriesAlong(tree, b))
  {
    assert EntriesAlong(tree, a + b) == EntriesAlong(tree, a) + EntriesAlong(tree, b);
    WeightOfSplit(EntriesAlong(tree, a), EntriesAlong(tree, b));
  }

  // ----- round trips -----

  /** Bundle and tree undo each other: writing the entries of an accepted bundle, in any order,
      builds a directory whose digest is the bundle's, and reading that directory returns the
      same entries in byte order. */
  lemma BundleAndTreeUndoEachOther(bundle: Bundle, order: seq<RawEntry>)
    requires Acceptable(bundle) && multiset(order) == multiset(bundle.entries)
    ensures var tree := TreeOf(bundle.entries);
      && StoreAll(order) == Some(tree)
      && WellFormed(tree)
      && HashOf(tree) == bundle.contentDigest
      && ReadingOf(tree) == Read(SortBy(TypedAll(bundle.entries), EntryOrder))
  {
    var entries, tree := bundle.entries, TreeOf(bundle.entries);
    AcceptedTreeIsWellFormed(bundle);
    AnyOrderBuildsTheTree(bundle, order);
    AcceptedTreeIsPortable(bundle);
    assert VisiblePaths(tree) == tree.Keys;
    ListedTreeIsTheBundle(bundle, SomeOrder(tree.Keys));
    TypedWeight(entries);
  }

  lemma AnyOrderBuildsTheTree(bundle: Bundle, order: seq<RawEntry>)
    requires Acceptable(bundle) && multiset(order) == multiset(bundle.entries)
    ensures StoreAll(order) == Some(TreeOf(bundle.entries))
  {
    var entries := bundle.entries;
    AcceptedTreeIsWellFormed(bundle);
    OrderKeepsBytes(order, entries);
    SameMembers(order, entries);
    forall e | e in order ensures IsPortable(e.path) && WellTyped(e) { HostedIsPortableAndShort(e.path); }
    StoringBuildsTheTree(order, TreeOf(entries));
  }

  lemma {:induction false} OrderKeepsBytes(a: seq<RawEntry>, b: seq<RawEntry>)
    requires multiset(a) == multiset(b)
    requires forall e | e in b :: WellTyped(e)
    ensures TotalBytes(a) == TotalBytes(b)
  {
    assert forall e :: e in a <==> e in multiset(a);
    assert forall e :: e in b <==> e in multiset(b);
    TypedWeight(a);
    TypedWeight(b);
    TypingKeepsPermutations(a, b);
    WeightForgetsOrder(TypedAll(a), TypedAll(b));
  }

  lemma {:induction false} TypingKeepsPermutations(a: seq<RawEntry>, b: seq<RawEntry>)
    requires multiset(a) == multiset(b)
    ensures multiset(TypedAll(a)) == multiset(TypedAll(b))
  {
    if a == [] {
      assert |b| == |multiset(b)| == |multiset(a)| == 0;
      assert TypedAll(a) == TypedAll(b);
    } else {
      var i := PermutationStep(a, b);
      TypingKeepsPermutations(a[1..], b[..i] + b[i + 1..]);
      assert TypedAll(a) == [Typed(a[0])] + TypedAll(a[1..]);
      TypedWithout(b, i);
    }
  }

  lemma TypedWithout(b: seq<RawEntry>, i: nat)
    requires i < |b|
    ensures multiset(TypedAll(b)) == multiset(TypedAll(b[..i] + b[i + 1..])) + multiset{Typed(b[i])}
  {
    assert TypedAll(b[..i] + b[i + 1..]) == TypedAll(b)[..i] + TypedAll(b)[i + 1..];
    RemovalKeepsTheRest(TypedAll(b), i);
  }

  /** A directory whose digest is `digest` reads back as entries of that digest exactly when it
      hides nothing: reading does not skip what hashing skips. */
  lemma ReadingIsFaithfulExactlyWithoutHiddenPaths(tree: Tree, digest: ArtifactDigest)
    requires WellFormed(tree) && HashOf(tree) == Some(digest) && ReadingOf(tree).Read?
    requires Encodable(EntriesAlong(tree, SomeOrder(tree.Keys)))
    ensures DigestOf(ReadingOf(tree).entries) == digest <==> forall p | p in tree :: Visible(p)
  {
    var all, seen := SomeOrder(tree.Keys), SomeOrder(VisiblePaths(tree));
    assert DigestOf(ReadingOf(tree).entries) == DigestOf(EntriesAlong(tree, all)) by {
      ListedPathsAreUnique(tree, all, tree.Keys);
      SortedListHasTheSameDigest(EntriesAlong(tree, all));
    }
    if forall p | p in tree :: Visible(p) {
      assert VisiblePaths(tree) == tree.Keys;
    }
    if DigestOf(EntriesAlong(tree, all)) == digest {
      SameDigestHidesNothing(tree, seen, all);
    }
  }

  lemma SameDigestHidesNothing(tree: Tree, seen: seq<TreePath>, all: seq<TreePath>)
    requires WellFormed(tree) && Enumerates(all, tree.Keys) && Enumerates(seen, VisiblePaths(tree))
    requires Encodable(EntriesAlong(tree, all))
    requires DigestOf(EntriesAlong(tree, all)) == DigestOf(EntriesAlong(tree, seen))
    ensures forall p | p in tree :: Visible(p)
  {
    ListedPathsAreUnique(tree, all, tree.Keys);
    ListedPathsAreUnique(tree, seen, VisiblePaths(tree));
    SeenEntriesAreListed(tree, seen, all);
    DigestIdentifiesTheEntries(EntriesAlong(tree, all), EntriesAlong(tree, seen));
    AllListedMeansAllSeen(tree, seen, all);
  }

  lemma SeenEntriesAreListed(tree: Tree, seen: seq<TreePath>, all: seq<TreePath>)
    requires (forall p | p in all :: p in tree) && forall p | p in seen :: p in all
    ensures forall e | e in EntriesAlong(tree, seen) :: e in EntriesAlong(tree, all)
  {
    var a, b := EntriesAlong(tree, all), EntriesAlong(tree, seen);
    forall e | e in b ensures e in a {
      var i :| 0 <= i < |b| && b[i] == e;
      assert seen[i] in all;
      var j :| 0 <= j < |all| && all[j] == seen[i];
      assert a[j] == e;
    }
  }

  lemma AllListedMeansAllSeen(tree: Tree, seen: seq<TreePath>, all: seq<TreePath>)
    requires WellFormed(tree) && Enumerates(all, tree.Keys) && Enumerates(seen, VisiblePaths(tree))
    requires forall e | e in EntriesAlong(tree, all) :: e in EntriesAlong(tree, seen)
    ensures forall p | p in tree :: Visible(p)
  {
    var a, b := EntriesAlong(tree, all), EntriesAlong(tree, seen);
    forall p | p in tree ensures Visible(p) {
      assert p in all;
      var j :| 0 <= j < |all| && all[j] == p;
      assert a[j] in b;
      var i :| 0 <= i < |b| && b[i] == a[j];
      JoinIsInjective(tree, seen[i], p);
      assert seen[i] in seen;
    }
  }

  lemma SortedListHasTheSameDigest(entries: seq<Entry>)
    requires UniquePaths(entries)
    ensures DigestOf(SortBy(entries, EntryOrder)) == DigestOf(entries)
  {
    EntryOrderOrders();
    SortSorts(entries, EntryOrder);
    UniquePathsAreSeparated(entries);
    SortForgetsOrder(entries, SortBy(entries, EntryOrder), EntryOrder);
  }

  lemma {:induction false} EmptyFilesWeighNothing(entries: seq<Entry>)
    requires forall e | e in entries :: EntrySize(e) == 0
    ensures Weight(entries) == 0
  {
    if entries != [] { EmptyFilesWeighNothing(entries[1..]); }
  }

  const HIDDEN: Tree := map[[".git"] := Folder]

  lemma HiddenFolderHashesLikeNothing()
    ensures WellFormed(HIDDEN) && HashOf(HIDDEN) == Some(DigestOf([])) && !Visible([".git"])
  {
    assert ".git" in [".git"] && |".git"| == 4;
    var seen := SomeOrder(VisiblePaths(HIDDEN));
    assert VisiblePaths(HIDDEN) == {};
    assert forall p :: p !in seen;
    assert |seen| == |multiset(seen)| && multiset(seen) == multiset{};
    assert EntriesAlong(HIDDEN, seen) == [];
  }

  lemma HiddenFolderIsListed()
    ensures var listed := EntriesAlong(HIDDEN, SomeOrder(HIDDEN.Keys));
      Weight(listed) == 0 && Encodable(listed)
  {
    var all := SomeOrder(HIDDEN.Keys);
    forall e | e in EntriesAlong(HIDDEN, all) ensures e == Entry(".git", None) {
      var i :| 0 <= i < |all| && EntriesAlong(HIDDEN, all)[i] == e;
      assert all[i] in all;
    }
    EmptyFilesWeighNothing(EntriesAlong(HIDDEN, all));
    ShortPathsAreMeasurable(".git");
  }

  /** A directory with nothing but a `.git` folder has the digest of nothing, and reads as an entry. */
  lemma AHiddenFolderIsRead()
    ensures WellFormed(HIDDEN) && HashOf(HIDDEN) == Some(DigestOf([]))
    ensures ReadingOf(HIDDEN).Read? && DigestOf(ReadingOf(HIDDEN).entries) != DigestOf([])
  {
    HiddenFolderHashesLikeNothing();
    HiddenFolderIsListed();
    assert [".git"] in HIDDEN;
    ReadingIsFaithfulExactlyWithoutHiddenPaths(HIDDEN, DigestOf([]));
  }

  lemma ShortPathsAreMeasurable(path: string)
    requires |path| <= 4
    ensures Measurable(|Utf8(path)|)
  {
    Utf8IsShort(path);
    assert Power256(1) == 256 && Power256(2) > 256 && Power256(LENGTH_BYTES) >= Power256(2);
  }

  lemma {:induction false} Utf8IsShort(s: string)
    ensures |Utf8(s)| <= 4 * |s|
  {
    if s != [] { Utf8IsShort(s[1..]); }
  }
}
