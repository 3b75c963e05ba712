/** Setups and their revisions: the in-memory repository object, proved against functions on its
    maps, and the request checks of the service in front of it. Keys that the repository joins from
    several identifiers are tuples here. */
module Setups {
  import opened Protocol
  import opened Sorting
  import opened ArtifactPaths

  type SetupId = nat
  type Organization = OrganizationId

  datatype Item = Item(
    sourceSetupRevisionId: RevisionId, artifactId: string, contentDigest: string, portableSource: string,
    toolId: string, targetName: string, sourceSetupName: string, sourceRevisionNumber: nat)

  datatype Selection = Selection(
    sourceSetupRevisionId: RevisionId, artifactId: string, contentDigest: string,
    toolId: string, targetName: string)

  datatype Target = Target(toolId: string, targetName: string)

  datatype Summary = Summary(
    setupId: SetupId, setupRevisionId: RevisionId, name: string,
    revisionNumber: nat, itemCount: nat, createdAt: Time)

  datatype SetupRevision = SetupRevision(summary: Summary, items: seq<Item>)

  /** The newest revision comes first. */
  datatype Detail = Detail(setupId: SetupId, name: string, revisions: seq<SetupRevision>)

  datatype LibrarySnapshot = LibrarySnapshot(
    artifactId: string, contentDigest: string, portableSource: string, supportedTools: set<string>)

  datatype Destination = NewSetup(name: string) | ExistingSetup(setupId: SetupId, expectedRevisionNumber: nat)

  /** What is hashed into a request digest; equal digests mean equal requests. */
  datatype RequestDigest = RequestDigest(
    snapshotJobId: JobId, contentDigest: string, destination: Destination, targets: seq<Target>)

  datatype Publication = Publication(digest: RequestDigest, revision: Summary)

  type SetupKey = (Organization, SetupId)
  type JobKey = (Organization, JobId)

  datatype Library = Library(
    items: map<Organization, seq<Item>>,
    names: map<Organization, set<string>>,
    setups: map<SetupKey, Detail>,
    snapshots: map<JobKey, LibrarySnapshot>,
    publications: map<JobKey, Publication>)

  datatype CreateRecord = CreateRecord(
    organizationId: Organization, createdAt: Time, setupId: SetupId, setupRevisionId: RevisionId,
    name: string, items: seq<Selection>)

  datatype PublishRecord = PublishRecord(
    organizationId: Organization, createdAt: Time, setupId: SetupId, setupRevisionId: RevisionId,
    expectedRevisionNumber: nat, items: seq<Selection>)

  datatype AddRecord = AddRecord(
    organizationId: Organization, createdAt: Time, setupId: SetupId, setupRevisionId: RevisionId,
    snapshotJobId: JobId, contentDigest: string, destination: Destination, targets: seq<Target>,
    requestDigest: RequestDigest)

  datatype CreateOutcome = SetupCreated(revision: Summary) | NameTaken | ItemUnavailable
  datatype PublishOutcome =
    | RevisionCreated(revision: Summary)
    | SetupMissing | RevisionConflict | PublishedItemUnavailable
  datatype AddOutcome =
    | SkillAdded(revision: Summary)
    | SnapshotUnavailable | PublicationConflict | SetupNotFound | SetupRevisionConflict
    | TargetConflict | InvalidItems | SetupNameTaken

  const MAX_ITEMS := 5_000

  /** Names are compared without regard to case. */
  type Fold = string -> string

  // ----- the calls, as functions -----

  function ItemsOf(l: Library, org: Organization): seq<Item> {
    if org in l.items then l.items[org] else []
  }

  function NamesOf(l: Library, org: Organization): set<string> {
    if org in l.names then l.names[org] else {}
  }

  predicate Meets(item: Item, s: Selection) {
    item.sourceSetupRevisionId == s.sourceSetupRevisionId && item.artifactId == s.artifactId
    && item.toolId == s.toolId && item.targetName == s.targetName
  }

  /** The last item with the selection's key, as in a map filled from the list. */
  function Available(items: seq<Item>, s: Selection): Option<Item> {
    if items == [] then None
    else
      var last := items[|items| - 1];
      if Meets(last, s) then Some(last) else Available(items[..|items| - 1], s)
  }

  function Selected(items: seq<Item>, selections: seq<Selection>): Option<seq<Item>> {
    if selections == [] then Some([])
    else
      var n := |selections| - 1;
      var before := Selected(items, selections[..n]);
      var last := Available(items, selections[n]);
      if before.None? || last.None? || last.value.contentDigest != selections[n].contentDigest then None
      else Some(before.value + [last.value])
  }

  function Restamp(item: Item, revision: RevisionId, name: string, number: nat): Item {
    item.(sourceSetupRevisionId := revision, sourceSetupName := name, sourceRevisionNumber := number)
  }

  function RestampAll(items: seq<Item>, revision: RevisionId, name: string, number: nat): seq<Item> {
    seq(|items|, i requires 0 <= i < |items| => Restamp(items[i], revision, name, number))
  }

  function Prepend(l: Library, org: Organization, detail: Detail, revision: SetupRevision): Library {
    l.(setups := l.setups[(org, detail.setupId) := detail.(revisions := [revision] + detail.revisions)],
       items := l.items[org := ItemsOf(l, org) + revision.items])
  }

  function Create(l: Library, r: CreateRecord, fold: Fold): (Library, CreateOutcome) {
    var org := r.organizationId;
    var selected := Selected(ItemsOf(l, org), r.items);
    if fold(r.name) in NamesOf(l, org) then (l, NameTaken)
    else if selected.None? then (l, ItemUnavailable)
    else
      var items := RestampAll(selected.value, r.setupRevisionId, r.name, 1);
      var summary := Summary(r.setupId, r.setupRevisionId, r.name, 1, |items|, r.createdAt);
      (Prepend(l.(names := l.names[org := NamesOf(l, org) + {fold(r.name)}]),
               org, Detail(r.setupId, r.name, []), SetupRevision(summary, items)),
       SetupCreated(summary))
  }

  function Publish(l: Library, r: PublishRecord): (Library, PublishOutcome) {
    var key := (r.organizationId, r.setupId);
    if key !in l.setups then (l, SetupMissing)
    else
      var detail := l.setups[key];
      var selected := Selected(ItemsOf(l, r.organizationId), r.items);
      if detail.revisions == [] || detail.revisions[0].summary.revisionNumber != r.expectedRevisionNumber
      then (l, RevisionConflict)
      else if selected.None? then (l, PublishedItemUnavailable)
      else
        var number := r.expectedRevisionNumber + 1;
        var items := RestampAll(selected.value, r.setupRevisionId, detail.name, number);
        var summary := Summary(r.setupId, r.setupRevisionId, detail.name, number, |items|, r.createdAt);
        (l.(setups := l.setups[key := detail.(revisions := [SetupRevision(summary, items)] + detail.revisions)],
            items := l.items[r.organizationId := ItemsOf(l, r.organizationId) + items]),
         RevisionCreated(summary))
  }

  function FromSnapshot(snapshot: LibrarySnapshot, t: Target): Item {
    Item(0, snapshot.artifactId, snapshot.contentDigest, snapshot.portableSource, t.toolId, t.targetName, "", 0)
  }

  function FromTargets(snapshot: LibrarySnapshot, targets: seq<Target>): seq<Item> {
    seq(|targets|, i requires 0 <= i < |targets| => FromSnapshot(snapshot, targets[i]))
  }

  predicate Occupied(items: seq<Item>, targets: seq<Target>) {
    exists i, t | i in items && t in targets :: t.toolId == i.toolId && t.targetName == i.targetName
  }

  /** The snapshot is there, is the one meant, and supports every tool. */
  predicate SnapshotFits(l: Library, r: AddRecord) {
    var key := (r.organizationId, r.snapshotJobId);
    && key in l.snapshots
    && l.snapshots[key].contentDigest == r.contentDigest
    && forall t | t in r.targets :: t.toolId in l.snapshots[key].supportedTools
  }

  /** What stands against adding to an existing setup. */
  function AddObjection(l: Library, r: AddRecord): Option<AddOutcome>
    requires r.destination.ExistingSetup?
  {
    var key := (r.organizationId, r.setupId);
    if key !in l.setups then Some(SetupNotFound)
    else
      var revisions := l.setups[key].revisions;
      if revisions == [] || revisions[0].summary.revisionNumber != r.destination.expectedRevisionNumber
      then Some(SetupRevisionConflict)
      else if Occupied(revisions[0].items, r.targets) then Some(TargetConflict)
      else if |revisions[0].items| + |r.targets| > MAX_ITEMS then Some(InvalidItems)
      else None
  }

  function AddTo(l: Library, r: AddRecord, detail: Detail, number: nat): (Library, AddOutcome)
    requires SnapshotFits(l, r)
  {
    var key := (r.organizationId, r.snapshotJobId);
    var carried := if detail.revisions == [] then [] else detail.revisions[0].items;
    var items := RestampAll(carried + FromTargets(l.snapshots[key], r.targets), r.setupRevisionId, detail.name, number);
    var summary := Summary(detail.setupId, r.setupRevisionId, detail.name, number, |items|, r.createdAt);
    (Prepend(l, r.organizationId, detail, SetupRevision(summary, items))
       .(publications := l.publications[key := Publication(r.requestDigest, summary)]),
     SkillAdded(summary))
  }

  function AddSkill(l: Library, r: AddRecord, fold: Fold): (Library, AddOutcome) {
    var key := (r.organizationId, r.snapshotJobId);
    if !SnapshotFits(l, r) then (l, SnapshotUnavailable)
    else if key in l.publications then
      (l, if l.publications[key].digest == r.requestDigest
          then SkillAdded(l.publications[key].revision) else PublicationConflict)
    else match r.destination
      case ExistingSetup(_, expected) =>
        var objection := AddObjection(l, r);
        if objection.Some? then (l, objection.value)
        else AddTo(l, r, l.setups[(r.organizationId, r.setupId)], expected + 1)
      case NewSetup(name) =>
        if fold(name) in NamesOf(l, r.organizationId) then (l, SetupNameTaken)
        else AddTo(l.(names := l.names[r.organizationId := NamesOf(l, r.organizationId) + {fold(name)}]),
                   r, Detail(r.setupId, name, []), 1)
  }

  // ----- the repository -----

  class InMemorySetupRepository {
    const fold: Fold
    var items: map<Organization, seq<Item>>
    var names: map<Organization, set<string>>
    var setups: map<SetupKey, Detail>
    var snapshots: map<JobKey, LibrarySnapshot>
    var publications: map<JobKey, Publication>

    ghost function Contents(): Library
      reads this
    {
      Library(items, names, setups, snapshots, publications)
    }

    constructor (fold: Fold)
      ensures Contents() == Library(map[], map[], map[], map[], map[])
    {
      this.fold := fold;
      items, names, setups, snapshots, publications := map[], map[], map[], map[], map[];
    }

    method SeedLibrarySnapshot(org: Organization, job: JobId, snapshot: LibrarySnapshot)
      modifies this`snapshots
      ensures snapshots == old(snapshots)[(org, job) := snapshot]
    {
      snapshots := snapshots[(org, job) := snapshot];
    }

    method SeedComposerItems(org: Organization, seeded: seq<Item>)
      modifies this`items
      ensures items == old(items)[org := seeded]
    {
      items := items[org := seeded];
    }

    /** The selected items, or None when one is missing or has changed. */
    method Select(org: Organization, selections: seq<Selection>) returns (selected: Option<seq<Item>>)
      ensures selected == Selected(ItemsOf(Contents(), org), selections)
    {
      var available := if org in items then items[org] else [];
      var found: seq<Item> := [];
      for i := 0 to |selections|
        invariant Selected(available, selections[..i]) == Some(found)
      {
        assert selections[..i + 1][..i] == selections[..i];
        var item := Available(available, selections[i]);
        if item.None? || item.value.contentDigest != selections[i].contentDigest {
          SelectionFails(available, selections, i + 1);
          return None;
        }
        found := found + [item.value];
      }
      assert selections[..|selections|] == selections;
      selected := Some(found);
    }

    method CreateSetup(r: CreateRecord) returns (outcome: CreateOutcome)
      modifies this
      ensures (Contents(), outcome) == Create(old(Contents()), r, fold)
    {
      var org := r.organizationId;
      var taken := if org in names then names[org] else {};
      if fold(r.name) in taken { return NameTaken; }
      var selected := Select(org, r.items);
      if selected.None? { return ItemUnavailable; }
      names := names[org := taken + {fold(r.name)}];
      var created := RestampAll(selected.value, r.setupRevisionId, r.name, 1);
      items := items[org := (if org in items then items[org] else []) + created];
      var summary := Summary(r.setupId, r.setupRevisionId, r.name, 1, |created|, r.createdAt);
      setups := setups[(org, r.setupId) := Detail(r.setupId, r.name, [SetupRevision(summary, created)])];
      assert [SetupRevision(summary, created)] + [] == [SetupRevision(summary, created)];
      outcome := SetupCreated(summary);
    }

    method PublishRevision(r: PublishRecord) returns (outcome: PublishOutcome)
      modifies this
      ensures (Contents(), outcome) == Publish(old(Contents()), r)
    {
      var key := (r.organizationId, r.setupId);
      if key !in setups { return SetupMissing; }
      var detail := setups[key];
      if detail.revisions == [] || detail.revisions[0].summary.revisionNumber != r.expectedRevisionNumber {
        return RevisionConflict;
      }
      var selected := Select(r.organizationId, r.items);
      if selected.None? { return PublishedItemUnavailable; }
      var number := r.expectedRevisionNumber + 1;
      var created := RestampAll(selected.value, r.setupRevisionId, detail.name, number);
      var summary := Summary(r.setupId, r.setupRevisionId, detail.name, number, |created|, r.createdAt);
      setups := setups[key := detail.(revisions := [SetupRevision(summary, created)] + detail.revisions)];
      items := items[r.organizationId :=
        (if r.organizationId in items then items[r.organizationId] else []) + created];
      outcome := RevisionCreated(summary);
    }

    method AddLibrarySkill(r: AddRecord) returns (outcome: AddOutcome)
      modifies this
      ensures (Contents(), outcome) == AddSkill(old(Contents()), r, fold)
    {
      var org, key := r.organizationId, (r.organizationId, r.snapshotJobId);
      if key !in snapshots || snapshots[key].contentDigest != r.contentDigest
         || exists t | t in r.targets :: t.toolId !in snapshots[key].supportedTools
      {
        return SnapshotUnavailable;
      }
      var snapshot := snapshots[key];
      if key in publications {
        return if publications[key].digest == r.requestDigest
          then SkillAdded(publications[key].revision) else PublicationConflict;
      }
      var detail: Detail;
      var number := 1;
      match r.destination {
        case ExistingSetup(_, expected) =>
          if (org, r.setupId) !in setups { return SetupNotFound; }
          detail := setups[(org, r.setupId)];
          if detail.revisions == [] || detail.revisions[0].summary.revisionNumber != expected {
            return SetupRevisionConflict;
          }
          if Occupied(detail.revisions[0].items, r.targets) { return TargetConflict; }
          if |detail.revisions[0].items| + |r.targets| > MAX_ITEMS { return InvalidItems; }
          number := expected + 1;
        case NewSetup(name) =>
          var taken := if org in names then names[org] else {};
          if fold(name) in taken { return SetupNameTaken; }
          names := names[org := taken + {fold(name)}];
          detail := Detail(r.setupId, name, []);
      }
      var carried := if detail.revisions == [] then [] else detail.revisions[0].items;
      var added := RestampAll(carried + FromTargets(snapshot, r.targets), r.setupRevisionId, detail.name, number);
      var summary := Summary(detail.setupId, r.setupRevisionId, detail.name, number, |added|, r.createdAt);
      setups := setups[(org, detail.setupId) :=
        detail.(revisions := [SetupRevision(summary, added)] + detail.revisions)];
      items := items[org := (if org in items then items[org] else []) + added];
      publications := publications[key := Publication(r.requestDigest, summary)];
      outcome := SkillAdded(summary);
    }
  }

  lemma {:induction false} SelectionFails(items: seq<Item>, selections: seq<Selection>, i: nat)
    requires i <= |selections| && Selected(items, selections[..i]).None?
    ensures Selected(items, selections).None?
    decreases |selections| - i
  {
    if i < |selections| {
      assert selections[..i + 1][..i] == selections[..i];
      SelectionFails(items, selections, i + 1);
    } else {
      assert selections[..i] == selections;
    }
  }

  // ----- the service in front -----

  /** The whitespace that trimming removes. */
  predicate IsSpace(c: char) {
    var n := c as int;
    9 <= n <= 13 || n == 32 || n == 160 || n == 0x1680 || 0x2000 <= n <= 0x200A || n == 0x2028
    || n == 0x2029 || n == 0x202F || n == 0x205F || n == 0x3000 || n == 0xFEFF
  }

  function TrimStart(s: string): string {
    if s != [] && IsSpace(s[0]) then TrimStart(s[1..]) else s
  }

  function TrimEnd(s: string): string {
    if s != [] && IsSpace(s[|s| - 1]) then TrimEnd(s[..|s| - 1]) else s
  }

  function Trim(s: string): string { TrimEnd(TrimStart(s)) }

  predicate RequiredIdentifier(s: string) { Trim(s) != [] && Utf16Length(s) <= 200 }

  predicate Complete(s: Selection) {
    RequiredIdentifier(s.artifactId) && RequiredIdentifier(s.contentDigest)
    && RequiredIdentifier(s.toolId) && RequiredIdentifier(s.targetName)
  }

  function Normalized(s: Selection): Selection {
    Selection(s.sourceSetupRevisionId, Trim(s.artifactId), Trim(s.contentDigest), Trim(s.toolId), Trim(s.targetName))
  }

  function NormalizedAll(items: seq<Selection>): seq<Selection> {
    seq(|items|, i requires 0 <= i < |items| => Normalized(items[i]))
  }

  function SelectionKey(s: Selection): (RevisionId, string, string, string) {
    (s.sourceSetupRevisionId, s.artifactId, s.toolId, s.targetName)
  }

  function DestinationKey(s: Selection): (string, string) { (s.toolId, s.targetName) }

  /** The items as they are stored, or None when the request is refused. */
  function ValidatedItems(items: seq<Selection>): Option<seq<Selection>> {
    if |items| < 1 || |items| > MAX_ITEMS || exists s | s in items :: !Complete(s) then None
    else
      var normalized := NormalizedAll(items);
      if |set s | s in normalized :: SelectionKey(s)| != |normalized|
         || |set s | s in normalized :: DestinationKey(s)| != |normalized|
      then None
      else Some(normalized)
  }

  ghost predicate DistinctDestinations(items: seq<Selection>) {
    forall i, j | 0 <= i < j < |items| :: DestinationKey(items[i]) != DestinationKey(items[j])
  }

  lemma DistinctStep<T>(x: T, rest: seq<T>)
    ensures Distinct([x] + rest) <==> Distinct(rest) && x !in rest
  {
    var s := [x] + rest;
    if Distinct(s) {
      forall i, j | 0 <= i < j < |rest| ensures rest[i] != rest[j] { assert s[i + 1] != s[j + 1]; }
      forall j | 0 <= j < |rest| ensures rest[j] != x { assert s[0] != s[j + 1]; }
    }
  }

  /** A set made from a list is as large as the list exactly when nothing repeats. */
  lemma {:induction false} FullSetsAreDistinct<T>(s: seq<T>)
    ensures |set x | x in s| <= |s|
    ensures |set x | x in s| == |s| <==> Distinct(s)
  {
    if s != [] {
      var rest := s[1..];
      FullSetsAreDistinct(rest);
      DistinctStep(s[0], rest);
      assert s == [s[0]] + rest;
      assert (set x | x in s) == (set x | x in rest) + {s[0]};
      if s[0] in rest { assert (set x | x in s) == (set x | x in rest); }
    }
  }

  function DestinationKeys(items: seq<Selection>): seq<(string, string)> {
    seq(|items|, i requires 0 <= i < |items| => DestinationKey(items[i]))
  }

  /** Whatever passes the check names every destination once, and is bounded. */
  lemma ValidatedItemsAreDistinct(items: seq<Selection>)
    requires ValidatedItems(items).Some?
    ensures var valid := ValidatedItems(items).value;
      1 <= |valid| == |items| <= MAX_ITEMS && DistinctDestinations(valid)
  {
    var valid := ValidatedItems(items).value;
    KeysOfTheItems(valid);
    FullSetsAreDistinct(DestinationKeys(valid));
    forall i, j | 0 <= i < j < |valid| ensures DestinationKey(valid[i]) != DestinationKey(valid[j]) {
      assert DestinationKeys(valid)[i] != DestinationKeys(valid)[j];
    }
  }

  lemma KeysOfTheItems(items: seq<Selection>)
    ensures (set s | s in items :: DestinationKey(s)) == (set x | x in DestinationKeys(items))
  {
    var keys := DestinationKeys(items);
    forall s | s in items ensures DestinationKey(s) in keys {
      var i :| 0 <= i < |items| && items[i] == s;
      assert keys[i] == DestinationKey(s);
    }
    forall x | x in keys ensures x in set s | s in items :: DestinationKey(s) {
      var i :| 0 <= i < |keys| && keys[i] == x;
      assert items[i] in items;
    }
  }

  /** A library request, as a browser sends it. */
  datatype AddRequest = AddRequest(
    snapshotJobId: JobId, contentDigest: string, destination: Destination, targets: seq<Target>)

  const MAX_TARGETS := 100

  ghost predicate Requestable(request: AddRequest) {
    1 <= |request.targets| <= MAX_TARGETS && Distinct(request.targets)
  }

  /** The request with its targets in canonical order; `order` compares two targets. */
  function Canonical(request: AddRequest, order: (Target, Target) -> bool): RequestDigest {
    RequestDigest(request.snapshotJobId, request.contentDigest, request.destination,
                  SortBy(request.targets, order))
  }

  /** The record the service passes on; `setupId` is fresh unless the destination names a setup. */
  function RecordOf(
    request: AddRequest, order: (Target, Target) -> bool, org: Organization, createdAt: Time,
    setupId: SetupId, revisionId: RevisionId): AddRecord
  {
    AddRecord(
      org, createdAt,
      if request.destination.ExistingSetup? then request.destination.setupId else setupId,
      revisionId, request.snapshotJobId, request.contentDigest, request.destination,
      SortBy(request.targets, order), Canonical(request, order))
  }
}
