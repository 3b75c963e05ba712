/** The runner's artifact cache: directories named by the digest they should have. */
module ArtifactCaches {
  import opened Protocol
  import opened Sorting
  import opened ArtifactPaths
  import opened ArtifactEncoding
  import opened BundleValidation
  import opened ArtifactTrees

  type Slots = map<ArtifactDigest, Tree>

  ghost predicate SlotsOk(slots: Slots) {
    forall d | d in slots :: WellFormed(slots[d])
  }

  datatype Presence = Present | Missing | Broken

  /** A directory that cannot be hashed is an error, not an absence. */
  ghost function PresenceOf(slots: Slots, digest: ArtifactDigest): Presence {
    if digest !in slots then Missing
    else if HashOf(slots[digest]) == None then Broken
    else if HashOf(slots[digest]) == Some(digest) then Present
    else Missing
  }

  datatype Lookup = LookupFailed | Absent | Found(entries: seq<Entry>)

  ghost function LookupOf(slots: Slots, digest: ArtifactDigest): Lookup {
    match PresenceOf(slots, digest)
    case Broken => LookupFailed
    case Missing => Absent
    case Present =>
      match ReadingOf(slots[digest])
      case Unreadable => LookupFailed
      case Read(entries) => Found(entries)
  }

  /** A finished directory is moved into its slot, which only an empty directory gives up. */
  predicate Vacant(slots: Slots, digest: ArtifactDigest) {
    digest !in slots || slots[digest] == map[]
  }

  /** The second half of a call: a directory written elsewhere is verified and renamed into its
      slot. When the slot is not vacant, a faster writer may have put the digest there. */
  ghost function Published(slots: Slots, digest: ArtifactDigest, tree: Option<Tree>): (Slots, bool) {
    if tree.None? || HashOf(tree.value) != Some(digest) then (slots, false)
    else if Vacant(slots, digest) then (slots[digest := tree.value], true)
    else (slots, PresenceOf(slots, digest) == Present)
  }

  /** The cache after an uninterrupted call offered a directory for a digest, and whether the call
      succeeds. */
  ghost function Offered(slots: Slots, digest: ArtifactDigest, tree: Option<Tree>): (Slots, bool) {
    match PresenceOf(slots, digest)
    case Broken => (slots, false)
    case Present => (slots, true)
    case Missing => Published(slots, digest, tree)
  }

  ghost function WrittenFor(entries: seq<RawEntry>): Option<Tree> {
    if |entries| > MAX_ENTRIES then None else StoreAll(entries)
  }

  function CopiedFrom(source: Option<Tree>): Option<Tree> {
    if source.None? then None else Some(CopyOf(source.value))
  }

  class ArtifactCache {
    var slots: Slots

    ghost predicate Valid()
      reads this
    {
      SlotsOk(slots)
    }

    constructor ()
      ensures Valid() && slots == map[]
    {
      slots := map[];
    }

    method Contains(digest: ArtifactDigest) returns (presence: Presence)
      requires Valid()
      ensures presence == PresenceOf(slots, digest)
    {
      if digest !in slots { return Missing; }
      var actual := HashDir(slots[digest]);
      presence := if actual.None? then Broken else if actual.value == digest then Present else Missing;
    }

    /** Verifies a directory written elsewhere and moves it into its slot, or finds that a faster
        writer did. */
    method Publish(digest: ArtifactDigest, tree: Tree) returns (published: bool)
      requires Valid() && WellFormed(tree)
      modifies this
      ensures Valid()
      ensures (slots, published) == Published(old(slots), digest, Some(tree))
    {
      var actual := HashDir(tree);
      if actual != Some(digest) { return false; }
      if Vacant(slots, digest) {
        slots := slots[digest := tree];
        return true;
      }
      var presence := Contains(digest);
      published := presence == Present;
    }

    method Store(digest: ArtifactDigest, entries: seq<RawEntry>) returns (stored: bool)
      requires Valid()
      modifies this
      ensures Valid()
      ensures (slots, stored) == Offered(old(slots), digest, WrittenFor(entries))
    {
      var presence := Contains(digest);
      if presence != Missing { return presence == Present; }
      if |entries| > MAX_ENTRIES { return false; }
      var tree := WriteBundle(entries);
      if tree.None? { return false; }
      StoredTreesAreWellFormed(entries);
      stored := Publish(digest, tree.value);
    }

    /** Copies the source, if it is a directory, and publishes the copy. */
    method Snapshot(source: Option<Tree>, digest: ArtifactDigest) returns (taken: bool)
      requires Valid() && (source.Some? ==> WellFormed(source.value))
      modifies this
      ensures Valid()
      ensures (slots, taken) == Offered(old(slots), digest, CopiedFrom(source))
    {
      var presence := Contains(digest);
      if presence != Missing { return presence == Present; }
      if source.None? { return false; }
      var copy := CopyDir(source.value);
      CopyIsWellFormed(source.value);
      taken := Publish(digest, copy);
    }

    method BundleFor(digest: ArtifactDigest) returns (lookup: Lookup)
      requires Valid()
      ensures lookup == LookupOf(slots, digest)
    {
      var presence := Contains(digest);
      if presence == Broken { return LookupFailed; }
      if presence == Missing { return Absent; }
      var reading := ReadEntries(slots[digest]);
      lookup := if reading.Unreadable? then LookupFailed else Found(reading.entries);
    }
  }

  // ----- whatever is written is a directory -----

  lemma {:induction false} MadeFoldersAreWellFormed(tree: Tree, path: TreePath)
    requires WellFormed(tree) && forall part | part in path :: IsName(part)
    ensures var made := MakeFolders(tree, path);
      made.Some? ==>
        && WellFormed(made.value)
        && (forall k | 0 < k <= |path| :: path[..k] in made.value && made.value[path[..k]] == Folder)
  {
    if path != [] {
      var parent := path[..|path| - 1];
      MadeFoldersAreWellFormed(tree, parent);
      forall k | 0 < k < |path| ensures path[..k] == parent[..k] {}
      assert path[..|path|] == path;
    }
  }

  lemma WrittenFileIsWellFormed(tree: Tree, path: TreePath, bytes: seq<byte>)
    requires WellFormed(tree) && path != [] && forall part | part in path :: IsName(part)
    ensures var written := WriteFile(tree, path, bytes);
      written.Some? ==> WellFormed(written.value)
  {
    var parent := path[..|path| - 1];
    MadeFoldersAreWellFormed(tree, parent);
    var written := WriteFile(tree, path, bytes);
    if written.Some? {
      var made := MakeFolders(tree, parent).value;
      forall p, k | p in written.value && 0 < k < |p|
        ensures p[..k] in written.value && written.value[p[..k]] == Folder
      {
        if p == path { assert p[..k] == parent[..k]; }
      }
    }
  }

  lemma {:induction false} StoredTreesAreWellFormed(entries: seq<RawEntry>)
    ensures StoreAll(entries).Some? ==> WellFormed(StoreAll(entries).value)
  {
    if entries != [] && StoreAll(entries).Some? {
      var n := |entries| - 1;
      StoredTreesAreWellFormed(entries[..n]);
      var before, path := StoreAll(entries[..n]).value, Split(entries[n].path);
      SplitsIntoSegments(entries[n].path);
      assert forall part | part in path :: IsSegment(part) && !IsReserved(part);
      if entries[n].kind == DirectoryEntry {
        MadeFoldersAreWellFormed(before, path);
      } else {
        WrittenFileIsWellFormed(before, path, entries[n].content.value);
      }
    }
  }

  // ----- what callers rely on -----

  /** The tree of the bundle, once in its slot, is what lookups find. */
  ghost predicate Holds(slots: Slots, bundle: Bundle)
    requires bundle.contentDigest.Some?
  {
    bundle.contentDigest.value in slots && slots[bundle.contentDigest.value] == TreeOf(bundle.entries)
  }

  lemma PublishedBundlesAreFound(slots: Slots, bundle: Bundle)
    requires Acceptable(bundle) && Holds(slots, bundle)
    ensures LookupOf(slots, bundle.contentDigest.value)
            == Found(SortBy(TypedAll(bundle.entries), EntryOrder))
  {
    BundleAndTreeUndoEachOther(bundle, bundle.entries);
  }

  lemma OfferPublishes(slots: Slots, bundle: Bundle)
    requires Acceptable(bundle) && Vacant(slots, bundle.contentDigest.value)
    ensures var (after, stored) := Offered(slots, bundle.contentDigest.value, Some(TreeOf(bundle.entries)));
      && stored && Holds(after, bundle)
      && (forall d | d in slots && d != bundle.contentDigest.value :: d in after && after[d] == slots[d])
  {
    var digest := bundle.contentDigest.value;
    assert HashOf(TreeOf(bundle.entries)) == Some(digest) by { BundleAndTreeUndoEachOther(bundle, bundle.entries); }
    if digest in slots {
      EmptyTreeIsPortable(slots[digest]);
      if HashOf(slots[digest]) == Some(digest) {
        OnlyTheEmptyBundleHashesToTheEmptyTree(bundle, slots[digest]);
      }
    }
  }

  /** An accepted bundle that is stored in a vacant slot, its entries in any order, is found
      again, entry for entry. */
  lemma StoredBundlesAreFound(slots: Slots, bundle: Bundle, order: seq<RawEntry>)
    requires Acceptable(bundle) && multiset(order) == multiset(bundle.entries)
    requires Vacant(slots, bundle.contentDigest.value)
    ensures var digest := bundle.contentDigest.value;
      var (after, stored) := Offered(slots, digest, WrittenFor(order));
      && stored
      && LookupOf(after, digest) == Found(SortBy(TypedAll(bundle.entries), EntryOrder))
      && (forall d | d in slots && d != digest :: d in after && after[d] == slots[d])
  {
    assert |order| == |multiset(order)| == |multiset(bundle.entries)| == |bundle.entries|;
    assert WrittenFor(order) == Some(TreeOf(bundle.entries)) by { AnyOrderBuildsTheTree(bundle, order); }
    OfferPublishes(slots, bundle);
    PublishedBundlesAreFound(
      Offered(slots, bundle.contentDigest.value, Some(TreeOf(bundle.entries))).0, bundle);
  }

  lemma EmptyTreeIsPortable(tree: Tree)
    requires tree == map[]
    ensures HashOf(tree) == Some(DigestOf([]))
  {
    var paths := SomeOrder(VisiblePaths(tree));
    assert forall p :: p !in paths;
    assert multiset(paths) == multiset{};
    assert |paths| == |multiset(paths)|;
    assert EntriesAlong(tree, paths) == [];
  }

  lemma OnlyNothingHashesLikeNothing(entries: seq<Entry>)
    requires DigestOf(entries) == DigestOf([])
    ensures entries == []
  {
    EntryOrderOrders();
    SortSorts(entries, EntryOrder);
    var sorted := SortBy(entries, EntryOrder);
    assert sorted == [] || EncodeAll(sorted) != [];
    assert EncodeAll(sorted) == Preimage(entries)[|HEADER|..];
    assert EncodeAll([]) == Preimage([])[|HEADER|..];
  }

  lemma OnlyTheEmptyBundleHashesToTheEmptyTree(bundle: Bundle, tree: Tree)
    requires Acceptable(bundle) && tree == map[] && HashOf(tree) == bundle.contentDigest
    ensures TreeOf(bundle.entries) == tree
  {
    EmptyTreeIsPortable(tree);
    OnlyNothingHashesLikeNothing(TypedAll(bundle.entries));
    assert |bundle.entries| == |TypedAll(bundle.entries)|;
  }

  /** A slot whose directory is neither empty nor what its name says. */
  ghost predicate Damaged(slots: Slots, digest: ArtifactDigest) {
    digest in slots && slots[digest] != map[] && HashOf(slots[digest]) != Some(digest)
  }

  /** Offering an accepted bundle, in any order, succeeds exactly when its slot is not damaged:
      vacant, or already holding a directory of that digest. */
  lemma OffersSucceedExactlyUnlessDamaged(slots: Slots, bundle: Bundle, order: seq<RawEntry>)
    requires Acceptable(bundle) && multiset(order) == multiset(bundle.entries)
    ensures var digest := bundle.contentDigest.value;
      Offered(slots, digest, WrittenFor(order)).1
      <==> Vacant(slots, digest) || (digest in slots && HashOf(slots[digest]) == Some(digest))
    ensures Offered(slots, bundle.contentDigest.value, WrittenFor(order)).1
            <==> !Damaged(slots, bundle.contentDigest.value)
  {
    if Vacant(slots, bundle.contentDigest.value) { StoredBundlesAreFound(slots, bundle, order); }
  }

  /** So it is for the second half of a call, whatever happened since the first. */
  lemma WritersSucceedExactlyUnlessDamaged(slots: Slots, bundle: Bundle, order: seq<RawEntry>)
    requires Acceptable(bundle) && multiset(order) == multiset(bundle.entries)
    ensures Published(slots, bundle.contentDigest.value, WrittenFor(order)).1
            <==> !Damaged(slots, bundle.contentDigest.value)
  {
    assert |order| == |multiset(order)| == |multiset(bundle.entries)| == |bundle.entries|;
    assert WrittenFor(order) == Some(TreeOf(bundle.entries)) by { AnyOrderBuildsTheTree(bundle, order); }
    BundleAndTreeUndoEachOther(bundle, bundle.entries);
  }

  /** A damaged slot: a folder where the digest says that there is nothing. The empty bundle is
      acceptable, and cannot be stored. */
  lemma ADamagedSlotRefusesItsBundle()
    ensures var digest := DigestOf([]);
      var slots: Slots := map[digest := map[["a"] := Folder]];
      var bundle := Bundle(Some(digest), []);
      && SlotsOk(slots) && Damaged(slots, digest) && Acceptable(bundle)
      && Offered(slots, digest, WrittenFor(bundle.entries)) == (slots, false)
  {
    var tree: Tree := map[["a"] := Folder];
    assert ["a"] in tree && Visible(["a"]) && IsName("a");
    if HashOf(tree) == Some(DigestOf([])) { OnlyTheEmptyTreeIsWrittenForNothing(tree); }
    var none: seq<RawEntry> := [];
    assert TypedAll(none) == [];
    OffersSucceedExactlyUnlessDamaged(map[DigestOf([]) := tree], Bundle(Some(DigestOf([])), none), none);
  }

  // ----- any interleaving of calls -----

  datatype Offer =
    | StoreCall(digest: ArtifactDigest, entries: seq<RawEntry>)
    | SnapshotCall(digest: ArtifactDigest, source: Option<Tree>)

  ghost function TreeFor(call: Offer): Option<Tree> {
    if call.StoreCall? then WrittenFor(call.entries) else CopiedFrom(call.source)
  }

  /** A snapshot is taken of a directory, if of anything. */
  ghost predicate CallOk(call: Offer) {
    call.SnapshotCall? && call.source.Some? ==> WellFormed(call.source.value)
  }

  /** The slots, and the calls that found theirs missing and are still writing. */
  datatype Cache = Cache(slots: Slots, writers: map<nat, Offer>)

  datatype Event = Uninterrupted(call: Offer) | Begin(writer: nat, call: Offer) | End(writer: nat)

  ghost predicate Step(c: Cache, e: Event, next: Cache) {
    match e
    case Uninterrupted(call) => CallOk(call) && next == c.(slots := Offered(c.slots, call.digest, TreeFor(call)).0)
    case Begin(writer, call) =>
      && writer !in c.writers && CallOk(call)
      && next == if PresenceOf(c.slots, call.digest) == Missing then c.(writers := c.writers[writer := call]) else c
    case End(writer) =>
      && writer in c.writers
      && var call := c.writers[writer];
         next == Cache(Published(c.slots, call.digest, TreeFor(call)).0, c.writers - {writer})
  }

  ghost predicate IsCacheRun(run: seq<Cache>, events: seq<Event>) {
    |run| == |events| + 1 && forall k | 0 <= k < |events| :: StepAt(run, events, k)
  }

  ghost predicate StepAt(run: seq<Cache>, events: seq<Event>, k: nat)
    requires |run| == |events| + 1 && k < |events|
  {
    Step(run[k], events[k], run[k + 1])
  }

  // Neither call ever writes a hidden path.

  ghost predicate HidesNothing(tree: Tree) { forall p | p in tree :: Visible(p) }

  lemma {:induction false} MadeFoldersHideNothing(tree: Tree, path: TreePath)
    requires HidesNothing(tree) && Visible(path)
    ensures MakeFolders(tree, path).Some? ==> HidesNothing(MakeFolders(tree, path).value)
  {
    if path != [] { MadeFoldersHideNothing(tree, path[..|path| - 1]); }
  }

  lemma {:induction false} StoredTreesHideNothing(entries: seq<RawEntry>)
    ensures StoreAll(entries).Some? ==> HidesNothing(StoreAll(entries).value)
  {
    if entries != [] && StoreAll(entries).Some? {
      var n := |entries| - 1;
      StoredTreesHideNothing(entries[..n]);
      var before, path := StoreAll(entries[..n]).value, Split(entries[n].path);
      SplitsIntoSegments(entries[n].path);
      assert Visible(path) by { assert IsReserved(".git") && forall part | part in path :: !IsReserved(part); }
      MadeFoldersHideNothing(before, path);
      MadeFoldersHideNothing(before, path[..|path| - 1]);
    }
  }

  lemma OfferedTreesHideNothing(call: Offer)
    ensures TreeFor(call).Some? ==> HidesNothing(TreeFor(call).value)
  {
    if call.StoreCall? { StoredTreesHideNothing(call.entries); }
  }

  /** So the only directory written for the digest of nothing is the empty one. */
  lemma OnlyTheEmptyTreeIsWrittenForNothing(tree: Tree)
    requires HidesNothing(tree) && HashOf(tree) == Some(DigestOf([]))
    ensures tree == map[]
  {
    assert VisiblePaths(tree) == tree.Keys;
    var paths := SomeOrder(tree.Keys);
    OnlyNothingHashesLikeNothing(EntriesAlong(tree, paths));
    assert |EntriesAlong(tree, paths)| == |paths|;
    assert forall p | p in tree :: p in paths;
  }

  /** The slot holds something, or rightly holds nothing. */
  ghost predicate Filled(slots: Slots, digest: ArtifactDigest) {
    digest in slots && (slots[digest] != map[] || HashOf(slots[digest]) == Some(digest))
  }

  lemma CallKeepsFilledSlots(slots: Slots, call: Offer, digest: ArtifactDigest)
    requires Filled(slots, digest)
    ensures var after := Published(slots, call.digest, TreeFor(call)).0;
      digest in after && after[digest] == slots[digest]
    ensures var after := Offered(slots, call.digest, TreeFor(call)).0;
      digest in after && after[digest] == slots[digest]
  {
    if slots[digest] == map[] && call.digest == digest && TreeFor(call).Some? {
      EmptyTreeIsPortable(slots[digest]);
      OfferedTreesHideNothing(call);
      if HashOf(TreeFor(call).value) == Some(digest) { OnlyTheEmptyTreeIsWrittenForNothing(TreeFor(call).value); }
    }
  }

  /** A filled slot is never changed. */
  lemma {:induction false} FilledSlotsStay(run: seq<Cache>, events: seq<Event>, i: nat, k: nat, digest: ArtifactDigest)
    requires IsCacheRun(run, events) && i <= k < |run| && Filled(run[i].slots, digest)
    ensures digest in run[k].slots && run[k].slots[digest] == run[i].slots[digest]
  {
    if i < k {
      FilledSlotsStay(run, events, i, k - 1, digest);
      assert StepAt(run, events, k - 1);
      var c, e := run[k - 1], events[k - 1];
      if e.Uninterrupted? {
        CallKeepsFilledSlots(c.slots, e.call, digest);
      } else if e.End? {
        CallKeepsFilledSlots(c.slots, c.writers[e.writer], digest);
      }
    }
  }

  /** No call damages a slot. */
  lemma {:induction false} SoundSlotsStaySound(
    run: seq<Cache>, events: seq<Event>, i: nat, k: nat, digest: ArtifactDigest)
    requires IsCacheRun(run, events) && i <= k < |run| && !Damaged(run[i].slots, digest)
    ensures !Damaged(run[k].slots, digest)
    ensures PresenceOf(run[i].slots, digest) == Present ==> PresenceOf(run[k].slots, digest) == Present
  {
    if i < k {
      SoundSlotsStaySound(run, events, i, k - 1, digest);
      assert StepAt(run, events, k - 1);
    }
  }

  /** Damage is for good: however many bundles and directories are offered, concurrently or not,
      for this slot or any other, the damaged directory stays as it is, every offer for it fails,
      and no lookup finds it. */
  lemma DamagedSlotsStayDamaged(
    run: seq<Cache>, events: seq<Event>, i: nat, k: nat, digest: ArtifactDigest, tree: Option<Tree>)
    requires IsCacheRun(run, events) && i <= k < |run| && Damaged(run[i].slots, digest)
    ensures digest in run[k].slots && run[k].slots[digest] == run[i].slots[digest]
    ensures Offered(run[k].slots, digest, tree) == (run[k].slots, false)
    ensures Published(run[k].slots, digest, tree) == (run[k].slots, false)
    ensures !LookupOf(run[k].slots, digest).Found?
  {
    FilledSlotsStay(run, events, i, k, digest);
  }

  /** A call that finds its slot missing stays under way until it ends. */
  lemma {:induction false} StartedCallsStayUnderWay(
    run: seq<Cache>, events: seq<Event>, i: nat, j: nat, writer: nat, call: Offer)
    requires IsCacheRun(run, events) && i < j < |run|
    requires events[i] == Begin(writer, call) && PresenceOf(run[i].slots, call.digest) == Missing
    requires forall k | i < k < j :: events[k] != End(writer)
    ensures writer in run[j].writers && run[j].writers[writer] == call
  {
    assert StepAt(run, events, j - 1);
    if i + 1 < j { StartedCallsStayUnderWay(run, events, i, j - 1, writer, call); }
  }

  /** A lookup misses an empty slot or one with another digest, and fails on what cannot be hashed or,
      under its digest, not read. */
  lemma LookupMeans(slots: Slots, digest: ArtifactDigest)
    ensures var hash := if digest in slots then HashOf(slots[digest]) else None;
      && (LookupOf(slots, digest) == Absent <==> digest !in slots || (hash.Some? && hash.value != digest))
      && (LookupOf(slots, digest) == LookupFailed <==>
            digest in slots && (hash == None || (hash.value == digest && ReadingOf(slots[digest]) == Unreadable)))
  {
  }

  /** Whatever is written comes from at most 5,000 entries and 10 MiB, on portable paths. */
  lemma WrittenBundlesAreBounded(entries: seq<RawEntry>)
    requires WrittenFor(entries).Some?
    ensures |entries| <= 5_000 && (entries != [] ==> TotalBytes(entries) <= 10_485_760)
    ensures forall e | e in entries :: IsPortable(e.path)
  {
    OnlyPlainEntriesAreStored(entries);
  }

  /** Writers of one digest do not get in each other's way: a call that stores an accepted bundle,
      its entries in any order, succeeds, at once or when it ends however much later, exactly when
      its slot was not damaged when it began. */
  lemma ConcurrentWritersSucceed(
    run: seq<Cache>, events: seq<Event>, i: nat, k: nat, bundle: Bundle, order: seq<RawEntry>)
    requires IsCacheRun(run, events) && i <= k < |run|
    requires Acceptable(bundle) && multiset(order) == multiset(bundle.entries)
    ensures var digest := bundle.contentDigest.value;
      match PresenceOf(run[i].slots, digest)
      case Present => !Damaged(run[i].slots, digest)
      case Broken => Damaged(run[i].slots, digest)
      case Missing =>
        Published(run[k].slots, digest, WrittenFor(order)).1 <==> !Damaged(run[i].slots, digest)
  {
    var digest := bundle.contentDigest.value;
    WritersSucceedExactlyUnlessDamaged(run[k].slots, bundle, order);
    if Damaged(run[i].slots, digest) {
      FilledSlotsStay(run, events, i, k, digest);
    } else {
      SoundSlotsStaySound(run, events, i, k, digest);
      if digest in run[i].slots && run[i].slots[digest] == map[] { EmptyTreeIsPortable(run[i].slots[digest]); }
    }
  }

  /** And content stays: once an accepted bundle, in any order, was stored in a vacant slot, every
      later lookup finds exactly its entries, whatever else is offered meanwhile. */
  lemma StoredBundlesStayFound(run: seq<Cache>, events: seq<Event>, i: nat, k: nat, bundle: Bundle)
    requires IsCacheRun(run, events) && i < k < |run|
    requires Acceptable(bundle) && Vacant(run[i].slots, bundle.contentDigest.value)
    requires events[i].Uninterrupted? && events[i].call.StoreCall?
    requires events[i].call.digest == bundle.contentDigest.value
    requires multiset(events[i].call.entries) == multiset(bundle.entries)
    ensures LookupOf(run[k].slots, bundle.contentDigest.value)
            == Found(SortBy(TypedAll(bundle.entries), EntryOrder))
  {
    StoredBundlesAreFound(run[i].slots, bundle, events[i].call.entries);
    assert StepAt(run, events, i);
    FilledSlotsStay(run, events, i + 1, k, bundle.contentDigest.value);
  }

  // ----- a cache that started empty -----

  ghost predicate SlotSound(slots: Slots, digest: ArtifactDigest) {
    digest in slots ==>
      WellFormed(slots[digest]) && HidesNothing(slots[digest]) && HashOf(slots[digest]) == Some(digest)
  }

  ghost predicate CacheSound(c: Cache) {
    && (forall d | d in c.slots :: SlotSound(c.slots, d))
    && (forall writer | writer in c.writers :: CallOk(c.writers[writer]))
  }

  lemma CallKeepsSound(slots: Slots, call: Offer)
    requires CallOk(call) && forall d | d in slots :: SlotSound(slots, d)
    ensures forall d | d in Published(slots, call.digest, TreeFor(call)).0 ::
      SlotSound(Published(slots, call.digest, TreeFor(call)).0, d)
  {
    OfferedTreesHideNothing(call);
    if call.StoreCall? {
      StoredTreesAreWellFormed(call.entries);
    } else if call.source.Some? {
      CopyIsWellFormed(call.source.value);
    }
    var after := Published(slots, call.digest, TreeFor(call)).0;
    forall d | d in after ensures SlotSound(after, d) {
      if d != call.digest { assert SlotSound(slots, d); }
      if d in slots { assert SlotSound(slots, d); }
    }
  }

  lemma {:induction false} RunKeepsSound(run: seq<Cache>, events: seq<Event>, k: nat)
    requires IsCacheRun(run, events) && run[0] == Cache(map[], map[]) && k < |run|
    ensures CacheSound(run[k])
  {
    if k > 0 {
      RunKeepsSound(run, events, k - 1);
      assert StepAt(run, events, k - 1);
      var c, e := run[k - 1], events[k - 1];
      if e.Uninterrupted? {
        CallKeepsSound(c.slots, e.call);
      } else if e.End? {
        CallKeepsSound(c.slots, c.writers[e.writer]);
      }
    }
  }

  /** Integrity: in a cache that started empty, under any interleaving of calls, whatever a lookup
      finds hashes to the digest it was looked up by, and a lookup finds nothing only where
      nothing was published. */
  lemma LookupsAreFaithful(run: seq<Cache>, events: seq<Event>, k: nat, digest: ArtifactDigest)
    requires IsCacheRun(run, events) && run[0] == Cache(map[], map[]) && k < |run|
    ensures match LookupOf(run[k].slots, digest)
            case Found(entries) => DigestOf(entries) == digest
            case Absent => digest !in run[k].slots
            case LookupFailed => digest in run[k].slots && ReadingOf(run[k].slots[digest]).Unreadable?
  {
    RunKeepsSound(run, events, k);
    if digest in run[k].slots {
      assert SlotSound(run[k].slots, digest);
      if ReadingOf(run[k].slots[digest]).Read? { PlainTreesReadFaithfully(run[k].slots[digest], digest); }
    }
  }

  lemma PlainTreesReadFaithfully(tree: Tree, digest: ArtifactDigest)
    requires WellFormed(tree) && HidesNothing(tree) && HashOf(tree) == Some(digest) && ReadingOf(tree).Read?
    ensures DigestOf(ReadingOf(tree).entries) == digest
  {
    assert VisiblePaths(tree) == tree.Keys;
    var paths := SomeOrder(tree.Keys);
    ListedPathsAreUnique(tree, paths, tree.Keys);
    SortedListHasTheSameDigest(EntriesAlong(tree, paths));
  }
}
