/** What holds over every run of setup creation, publication and library additions. */
module SetupRuns {
  import opened Protocol
  import opened Sorting
  import opened Setups

  // ----- the invariant -----

  ghost predicate DistinctItems(items: seq<Item>) {
    forall i, j | 0 <= i < j < |items| ::
      items[i].toolId != items[j].toolId || items[i].targetName != items[j].targetName
  }

  /** A revision of the setup: its number, its size, and every destination at most once. */
  ghost predicate RevisionOk(detail: Detail, revision: SetupRevision, number: nat) {
    && revision.summary.revisionNumber == number
    && revision.summary.setupId == detail.setupId
    && revision.summary.name == detail.name
    && revision.summary.itemCount == |revision.items| <= MAX_ITEMS
    && DistinctItems(revision.items)
  }

  /** Revisions are numbered n down to 1 without gaps. */
  ghost predicate DetailOk(detail: Detail) {
    && detail.revisions != []
    && forall i | 0 <= i < |detail.revisions| ::
         RevisionOk(detail, detail.revisions[i], |detail.revisions| - i)
  }

  /** Some setup of the organization has this name, up to case. */
  ghost predicate Names(l: Library, fold: Fold, org: Organization, folded: string) {
    exists k :: k in l.setups && k.0 == org && fold(l.setups[k].name) == folded
  }

  /** The names in use are those of the setups, and no two setups share one. */
  ghost predicate NamesOk(l: Library, fold: Fold) {
    && (forall k | k in l.setups :: fold(l.setups[k].name) in NamesOf(l, k.0))
    && (forall org, f :: f in NamesOf(l, org) ==> Names(l, fold, org, f))
    && (forall a, b | a in l.setups && b in l.setups && a.0 == b.0
                      && fold(l.setups[a].name) == fold(l.setups[b].name) :: a == b)
  }

  ghost predicate Holds(detail: Detail, summary: Summary) {
    exists i :: 0 <= i < |detail.revisions| && detail.revisions[i].summary == summary
  }

  ghost predicate PublicationOk(l: Library, key: JobKey)
    requires key in l.publications
  {
    var revision := l.publications[key].revision;
    (key.0, revision.setupId) in l.setups && Holds(l.setups[(key.0, revision.setupId)], revision)
  }

  ghost predicate LibraryOk(l: Library, fold: Fold) {
    && (forall k | k in l.setups :: l.setups[k].setupId == k.1 && DetailOk(l.setups[k]))
    && NamesOk(l, fold)
    && (forall key | key in l.publications :: PublicationOk(l, key))
  }

  // ----- events -----

  datatype Event =
    | CreateSetup(create: CreateRecord)
    | PublishRevision(publish: PublishRecord)
    | AddLibrarySkill(add: AddRecord)
    | TakeSnapshot(organization: Organization, job: JobId, snapshot: LibrarySnapshot)

  /** What the service guarantees: validated items, unique targets, fresh identifiers. */
  ghost predicate Allowed(l: Library, e: Event) {
    match e
    case CreateSetup(r) =>
      (r.organizationId, r.setupId) !in l.setups && DistinctDestinations(r.items) && |r.items| <= MAX_ITEMS
    case PublishRevision(r) => DistinctDestinations(r.items) && |r.items| <= MAX_ITEMS
    case AddLibrarySkill(r) =>
      && Distinct(r.targets) && |r.targets| <= MAX_TARGETS
      && (r.destination.NewSetup? ==> (r.organizationId, r.setupId) !in l.setups)
    case TakeSnapshot(org, job, _) => (org, job) !in l.snapshots
  }

  function Next(l: Library, e: Event, fold: Fold): Library {
    match e
    case CreateSetup(r) => Create(l, r, fold).0
    case PublishRevision(r) => Publish(l, r).0
    case AddLibrarySkill(r) => AddSkill(l, r, fold).0
    case TakeSnapshot(org, job, snapshot) => l.(snapshots := l.snapshots[(org, job) := snapshot])
  }

  /** A run starts without setups; what can be composed and snapshot may already be there. */
  ghost predicate IsSetupRun(run: seq<Library>, events: seq<Event>, fold: Fold) {
    && |run| == |events| + 1
    && run[0].setups == map[] && run[0].names == map[] && run[0].publications == map[]
    && forall k | 0 <= k < |events| :: EventAt(run, events, fold, k)
  }

  ghost predicate EventAt(run: seq<Library>, events: seq<Event>, fold: Fold, k: nat)
    requires |run| == |events| + 1 && k < |events|
  {
    Allowed(run[k], events[k]) && run[k + 1] == Next(run[k], events[k], fold)
  }

  // ----- one step -----

  /** The detail after a revision was put in front. */
  function Grown(detail: Detail, revision: SetupRevision): Detail {
    detail.(revisions := [revision] + detail.revisions)
  }

  lemma GrownIsOk(detail: Detail, revision: SetupRevision)
    requires detail.revisions == [] || DetailOk(detail)
    requires RevisionOk(detail, revision, |detail.revisions| + 1)
    ensures DetailOk(Grown(detail, revision))
    ensures forall s | Holds(detail, s) :: Holds(Grown(detail, revision), s)
    ensures Holds(Grown(detail, revision), revision.summary)
  {
    var grown := Grown(detail, revision);
    forall i | 0 <= i < |grown.revisions|
      ensures RevisionOk(grown, grown.revisions[i], |grown.revisions| - i)
    {
      if i > 0 { assert RevisionOk(detail, detail.revisions[i - 1], |detail.revisions| - (i - 1)); }
    }
    forall s | Holds(detail, s) ensures Holds(grown, s) {
      var i :| 0 <= i < |detail.revisions| && detail.revisions[i].summary == s;
      assert grown.revisions[i + 1].summary == s;
    }
    assert grown.revisions[0].summary == revision.summary;
  }

  /** `next` is `l` with one revision put in front of one setup, new or old. */
  ghost predicate GrowsAt(l: Library, next: Library, key: SetupKey, detail: Detail, revision: SetupRevision) {
    && detail.setupId == key.1
    && (if key in l.setups then l.setups[key] == detail else detail.revisions == [])
    && next.setups == l.setups[key := Grown(detail, revision)]
    && next.snapshots == l.snapshots
  }

  lemma GrowthKeepsDetails(
    l: Library, next: Library, fold: Fold, key: SetupKey, detail: Detail, revision: SetupRevision)
    requires LibraryOk(l, fold) && GrowsAt(l, next, key, detail, revision)
    requires RevisionOk(detail, revision, |detail.revisions| + 1)
    ensures forall k | k in next.setups :: next.setups[k].setupId == k.1 && DetailOk(next.setups[k])
  {
    GrownIsOk(detail, revision);
  }

  /** Old revisions stay, newer ones come in front. */
  ghost predicate Extends(before: Detail, after: Detail) {
    && after.setupId == before.setupId && after.name == before.name
    && |before.revisions| <= |after.revisions|
    && after.revisions[|after.revisions| - |before.revisions|..] == before.revisions
  }

  lemma GrowthKeepsPublication(
    l: Library, next: Library, key: SetupKey, detail: Detail, revision: SetupRevision, job: JobKey)
    requires GrowsAt(l, next, key, detail, revision)
    requires detail.revisions == [] || DetailOk(detail)
    requires RevisionOk(detail, revision, |detail.revisions| + 1)
    requires job in l.publications && PublicationOk(l, job)
    requires job in next.publications && next.publications[job] == l.publications[job]
    ensures PublicationOk(next, job)
  {
    GrownIsOk(detail, revision);
  }

  lemma GrowthKeepsUsedNames(
    l: Library, next: Library, fold: Fold, key: SetupKey, detail: Detail, revision: SetupRevision,
    org: Organization, f: string)
    requires GrowsAt(l, next, key, detail, revision)
    requires Names(l, fold, org, f) || (org == key.0 && f == fold(detail.name))
    ensures Names(next, fold, org, f)
  {
    if Names(l, fold, org, f) {
      var k :| k in l.setups && k.0 == org && fold(l.setups[k].name) == f;
      assert next.setups[k].name == l.setups[k].name;
    } else {
      assert next.setups[key].name == detail.name;
    }
  }

  lemma GrowthKeepsNamesApart(
    l: Library, next: Library, fold: Fold, key: SetupKey, detail: Detail, revision: SetupRevision,
    a: SetupKey, b: SetupKey)
    requires NamesOk(l, fold) && GrowsAt(l, next, key, detail, revision)
    requires key !in l.setups ==> fold(detail.name) !in NamesOf(l, key.0)
    requires a in next.setups && b in next.setups && a.0 == b.0
    requires fold(next.setups[a].name) == fold(next.setups[b].name)
    ensures a == b
  {
    assert a in l.setups ==> next.setups[a].name == l.setups[a].name;
    assert b in l.setups ==> next.setups[b].name == l.setups[b].name;
  }

  lemma GrowthKeepsNames(
    l: Library, next: Library, fold: Fold, key: SetupKey, detail: Detail, revision: SetupRevision)
    requires NamesOk(l, fold) && GrowsAt(l, next, key, detail, revision)
    requires key !in l.setups ==> fold(detail.name) !in NamesOf(l, key.0)
    requires forall org :: NamesOf(next, org) == NamesOf(l, org) + (if org == key.0 then {fold(detail.name)} else {})
    ensures NamesOk(next, fold)
  {
    forall org, f | f in NamesOf(next, org) ensures Names(next, fold, org, f) {
      GrowthKeepsUsedNames(l, next, fold, key, detail, revision, org, f);
    }
    forall a, b | a in next.setups && b in next.setups && a.0 == b.0
                  && fold(next.setups[a].name) == fold(next.setups[b].name)
      ensures a == b
    {
      GrowthKeepsNamesApart(l, next, fold, key, detail, revision, a, b);
    }
    forall k | k in next.setups ensures fold(next.setups[k].name) in NamesOf(next, k.0) {
      assert k in l.setups ==> next.setups[k].name == l.setups[k].name;
    }
  }

  lemma {:induction false} SelectedMeets(items: seq<Item>, selections: seq<Selection>)
    requires Selected(items, selections).Some?
    ensures var selected := Selected(items, selections).value;
      |selected| == |selections| && forall i | 0 <= i < |selections| :: Meets(selected[i], selections[i])
  {
    if selections != [] {
      var n := |selections| - 1;
      SelectedMeets(items, selections[..n]);
      AvailableMeets(items, selections[n]);
    }
  }

  lemma {:induction false} AvailableMeets(items: seq<Item>, s: Selection)
    requires Available(items, s).Some?
    ensures Meets(Available(items, s).value, s)
  {
    if items != [] && !Meets(items[|items| - 1], s) { AvailableMeets(items[..|items| - 1], s); }
  }

  lemma SelectedAreDistinct(
    items: seq<Item>, selections: seq<Selection>, revision: RevisionId, name: string, number: nat)
    requires Selected(items, selections).Some? && DistinctDestinations(selections)
    ensures var created := RestampAll(Selected(items, selections).value, revision, name, number);
      |created| == |selections| && DistinctItems(created)
  {
    SelectedMeets(items, selections);
    var created := RestampAll(Selected(items, selections).value, revision, name, number);
    forall i, j | 0 <= i < j < |created|
      ensures created[i].toolId != created[j].toolId || created[i].targetName != created[j].targetName
    {
      assert DestinationKey(selections[i]) != DestinationKey(selections[j]);
    }
  }

  lemma AddedAreDistinct(carried: seq<Item>, snapshot: LibrarySnapshot, targets: seq<Target>,
                         revision: RevisionId, name: string, number: nat)
    requires DistinctItems(carried) && Distinct(targets) && !Occupied(carried, targets)
    ensures DistinctItems(RestampAll(carried + FromTargets(snapshot, targets), revision, name, number))
  {
    var all := RestampAll(carried + FromTargets(snapshot, targets), revision, name, number);
    forall i, j | 0 <= i < j < |all|
      ensures all[i].toolId != all[j].toolId || all[i].targetName != all[j].targetName
    {
      if i < |carried| <= j {
        assert carried[i] in carried && targets[j - |carried|] in targets;
      } else if |carried| <= i {
        assert targets[i - |carried|] != targets[j - |carried|];
      }
    }
  }

  // ----- every event keeps the invariant -----

  lemma CreateGrows(l: Library, r: CreateRecord, fold: Fold) returns (revision: SetupRevision)
    requires Allowed(l, CreateSetup(r)) && Create(l, r, fold).1.SetupCreated?
    ensures GrowsAt(l, Create(l, r, fold).0, (r.organizationId, r.setupId), Detail(r.setupId, r.name, []), revision)
    ensures RevisionOk(Detail(r.setupId, r.name, []), revision, 1)
  {
    var selected := Selected(ItemsOf(l, r.organizationId), r.items);
    SelectedAreDistinct(ItemsOf(l, r.organizationId), r.items, r.setupRevisionId, r.name, 1);
    var items := RestampAll(selected.value, r.setupRevisionId, r.name, 1);
    revision := SetupRevision(Create(l, r, fold).1.revision, items);
  }

  lemma PublishGrows(l: Library, r: PublishRecord) returns (revision: SetupRevision)
    requires Allowed(l, PublishRevision(r)) && Publish(l, r).1.RevisionCreated?
    requires forall k | k in l.setups :: l.setups[k].setupId == k.1 && DetailOk(l.setups[k])
    ensures (r.organizationId, r.setupId) in l.setups
    ensures GrowsAt(l, Publish(l, r).0, (r.organizationId, r.setupId),
                    l.setups[(r.organizationId, r.setupId)], revision)
    ensures RevisionOk(l.setups[(r.organizationId, r.setupId)], revision,
                       |l.setups[(r.organizationId, r.setupId)].revisions| + 1)
  {
    var detail := l.setups[(r.organizationId, r.setupId)];
    assert RevisionOk(detail, detail.revisions[0], |detail.revisions|);
    var number := r.expectedRevisionNumber + 1;
    var selected := Selected(ItemsOf(l, r.organizationId), r.items);
    SelectedAreDistinct(ItemsOf(l, r.organizationId), r.items, r.setupRevisionId, detail.name, number);
    revision := SetupRevision(Publish(l, r).1.revision,
                              RestampAll(selected.value, r.setupRevisionId, detail.name, number));
  }

  /** The call adds a revision, rather than refusing or repeating an earlier answer. */
  predicate AddsNow(l: Library, r: AddRecord, fold: Fold) {
    AddSkill(l, r, fold).1.SkillAdded? && (r.organizationId, r.snapshotJobId) !in l.publications
  }

  function AddDetail(l: Library, r: AddRecord): Detail {
    match r.destination
    case NewSetup(name) => Detail(r.setupId, name, [])
    case ExistingSetup(_, _) =>
      if (r.organizationId, r.setupId) in l.setups then l.setups[(r.organizationId, r.setupId)]
      else Detail(r.setupId, "", [])
  }

  lemma AddGrows(l: Library, r: AddRecord, fold: Fold) returns (revision: SetupRevision)
    requires Allowed(l, AddLibrarySkill(r)) && AddsNow(l, r, fold)
    requires forall k | k in l.setups :: l.setups[k].setupId == k.1 && DetailOk(l.setups[k])
    ensures GrowsAt(l, AddSkill(l, r, fold).0, (r.organizationId, r.setupId), AddDetail(l, r), revision)
    ensures RevisionOk(AddDetail(l, r), revision, |AddDetail(l, r).revisions| + 1)
    ensures AddSkill(l, r, fold).1 == SkillAdded(revision.summary)
    ensures AddSkill(l, r, fold).0.publications
            == l.publications[(r.organizationId, r.snapshotJobId) := Publication(r.requestDigest, revision.summary)]
  {
    var detail := AddDetail(l, r);
    var snapshot := l.snapshots[(r.organizationId, r.snapshotJobId)];
    var carried := if detail.revisions == [] then [] else detail.revisions[0].items;
    if detail.revisions != [] { assert RevisionOk(detail, detail.revisions[0], |detail.revisions|); }
    var number := |detail.revisions| + 1;
    AddedAreDistinct(carried, snapshot, r.targets, r.setupRevisionId, detail.name, number);
    var items := RestampAll(carried + FromTargets(snapshot, r.targets), r.setupRevisionId, detail.name, number);
    revision := SetupRevision(AddSkill(l, r, fold).1.revision, items);
  }

  lemma GrowthKeepsLibraryOk(
    l: Library, next: Library, fold: Fold, key: SetupKey, detail: Detail, revision: SetupRevision)
    requires LibraryOk(l, fold) && GrowsAt(l, next, key, detail, revision)
    requires RevisionOk(detail, revision, |detail.revisions| + 1)
    requires key !in l.setups ==> fold(detail.name) !in NamesOf(l, key.0)
    requires forall org :: NamesOf(next, org) == NamesOf(l, org) + (if org == key.0 then {fold(detail.name)} else {})
    requires forall job | job in next.publications ::
      (job in l.publications && next.publications[job] == l.publications[job])
      || (job.0 == key.0 && next.publications[job].revision == revision.summary)
    ensures LibraryOk(next, fold)
  {
    GrowthKeepsDetails(l, next, fold, key, detail, revision);
    GrowthKeepsNames(l, next, fold, key, detail, revision);
    GrownIsOk(detail, revision);
    forall job | job in next.publications ensures PublicationOk(next, job) {
      if job in l.publications && next.publications[job] == l.publications[job] {
        GrowthKeepsPublication(l, next, key, detail, revision, job);
      }
    }
  }

  lemma CreateKeepsLibraryOk(l: Library, r: CreateRecord, fold: Fold)
    requires LibraryOk(l, fold) && Allowed(l, CreateSetup(r))
    ensures LibraryOk(Create(l, r, fold).0, fold)
  {
    if Create(l, r, fold).1.SetupCreated? {
      var revision := CreateGrows(l, r, fold);
      GrowthKeepsLibraryOk(l, Create(l, r, fold).0, fold, (r.organizationId, r.setupId),
                           Detail(r.setupId, r.name, []), revision);
    }
  }

  lemma PublishKeepsLibraryOk(l: Library, r: PublishRecord, fold: Fold)
    requires LibraryOk(l, fold) && Allowed(l, PublishRevision(r))
    ensures LibraryOk(Publish(l, r).0, fold)
  {
    if Publish(l, r).1.RevisionCreated? {
      var revision := PublishGrows(l, r);
      GrowthKeepsLibraryOk(l, Publish(l, r).0, fold, (r.organizationId, r.setupId),
                           l.setups[(r.organizationId, r.setupId)], revision);
    }
  }

  lemma OtherAdditionsChangeNothing(l: Library, r: AddRecord, fold: Fold)
    requires !AddsNow(l, r, fold)
    ensures AddSkill(l, r, fold).0 == l
  {
  }

  lemma AddKeepsLibraryOk(l: Library, r: AddRecord, fold: Fold)
    requires LibraryOk(l, fold) && Allowed(l, AddLibrarySkill(r))
    ensures LibraryOk(AddSkill(l, r, fold).0, fold)
  {
    if AddsNow(l, r, fold) {
      var revision := AddGrows(l, r, fold);
      GrowthKeepsLibraryOk(l, AddSkill(l, r, fold).0, fold, (r.organizationId, r.setupId),
                           AddDetail(l, r), revision);
    } else {
      OtherAdditionsChangeNothing(l, r, fold);
    }
  }

  lemma EventKeepsLibraryOk(l: Library, e: Event, fold: Fold)
    requires LibraryOk(l, fold) && Allowed(l, e)
    ensures LibraryOk(Next(l, e, fold), fold)
  {
    match e {
      case CreateSetup(r) => CreateKeepsLibraryOk(l, r, fold);
      case PublishRevision(r) => PublishKeepsLibraryOk(l, r, fold);
      case AddLibrarySkill(r) => AddKeepsLibraryOk(l, r, fold);
      case TakeSnapshot(org, job, snapshot) => SnapshotKeepsLibraryOk(l, org, job, snapshot, fold);
    }
  }

  lemma SnapshotKeepsLibraryOk(l: Library, org: Organization, job: JobId, snapshot: LibrarySnapshot, fold: Fold)
    requires LibraryOk(l, fold)
    ensures LibraryOk(l.(snapshots := l.snapshots[(org, job) := snapshot]), fold)
  {
    var next := l.(snapshots := l.snapshots[(org, job) := snapshot]);
    forall key | key in next.publications ensures PublicationOk(next, key) {
      assert PublicationOk(l, key);
    }
    forall org, f | f in NamesOf(next, org) ensures Names(next, fold, org, f) {
      assert Names(l, fold, org, f);
    }
  }

  lemma {:induction false} RunKeepsLibraryOk(run: seq<Library>, events: seq<Event>, fold: Fold, k: nat)
    requires IsSetupRun(run, events, fold) && k < |run|
    ensures LibraryOk(run[k], fold)
  {
    if k > 0 {
      RunKeepsLibraryOk(run, events, fold, k - 1);
      assert EventAt(run, events, fold, k - 1);
      EventKeepsLibraryOk(run[k - 1], events[k - 1], fold);
    }
  }

  // ----- theorems -----

  /** History is linear: revisions are numbered n down to 1, each names every destination at most
      once and has at most 5,000 items. */
  lemma HistoryIsLinear(run: seq<Library>, events: seq<Event>, fold: Fold, k: nat, key: SetupKey, i: nat)
    requires IsSetupRun(run, events, fold) && k < |run| && key in run[k].setups
    requires i < |run[k].setups[key].revisions|
    ensures var revisions := run[k].setups[key].revisions;
      && revisions[i].summary.revisionNumber == |revisions| - i
      && revisions[i].summary.setupId == key.1
      && revisions[i].summary.itemCount == |revisions[i].items| <= MAX_ITEMS
      && DistinctItems(revisions[i].items)
  {
    RunKeepsLibraryOk(run, events, fold, k);
    var detail := run[k].setups[key];
    assert RevisionOk(detail, detail.revisions[i], |detail.revisions| - i);
  }

  /** Two setups of an organization never have the same name, whatever the case. */
  lemma NamesAreUnique(run: seq<Library>, events: seq<Event>, fold: Fold, k: nat, a: SetupKey, b: SetupKey)
    requires IsSetupRun(run, events, fold) && k < |run| && a in run[k].setups && b in run[k].setups
    requires a.0 == b.0 && fold(run[k].setups[a].name) == fold(run[k].setups[b].name)
    ensures a == b
  {
    RunKeepsLibraryOk(run, events, fold, k);
  }

  lemma GrowthExtends(l: Library, next: Library, key: SetupKey, detail: Detail, revision: SetupRevision, k: SetupKey)
    requires GrowsAt(l, next, key, detail, revision) && k in l.setups
    ensures k in next.setups && Extends(l.setups[k], next.setups[k])
  {
    GrownExtends(detail, revision);
  }

  lemma EventExtends(l: Library, e: Event, fold: Fold, key: SetupKey)
    requires (forall k | k in l.setups :: l.setups[k].setupId == k.1 && DetailOk(l.setups[k]))
    requires Allowed(l, e) && key in l.setups
    ensures key in Next(l, e, fold).setups && Extends(l.setups[key], Next(l, e, fold).setups[key])
  {
    match e {
      case CreateSetup(r) =>
        if Create(l, r, fold).1.SetupCreated? {
          var revision := CreateGrows(l, r, fold);
          GrowthExtends(l, Create(l, r, fold).0, (r.organizationId, r.setupId),
                        Detail(r.setupId, r.name, []), revision, key);
        }
      case PublishRevision(r) =>
        if Publish(l, r).1.RevisionCreated? {
          var revision := PublishGrows(l, r);
          var at := (r.organizationId, r.setupId);
          GrowthExtends(l, Publish(l, r).0, at, l.setups[at], revision, key);
        }
      case AddLibrarySkill(r) =>
        if AddsNow(l, r, fold) {
          var revision := AddGrows(l, r, fold);
          GrowthExtends(l, AddSkill(l, r, fold).0, (r.organizationId, r.setupId), AddDetail(l, r), revision, key);
        }
      case TakeSnapshot(_, _, _) =>
    }
  }

  lemma GrownExtends(detail: Detail, revision: SetupRevision)
    ensures Extends(detail, Grown(detail, revision))
  {
  }

  lemma ExtendsTwice(a: Detail, b: Detail, c: Detail)
    requires Extends(a, b) && Extends(b, c)
    ensures Extends(a, c)
  {
    var n, m := |c.revisions| - |b.revisions|, |b.revisions| - |a.revisions|;
    assert c.revisions[n..][m..] == c.revisions[n + m..];
  }

  /** History is append-only: every revision a setup ever had stays as it was. */
  lemma {:induction false} HistoryIsAppendOnly(
    run: seq<Library>, events: seq<Event>, fold: Fold, i: nat, k: nat, key: SetupKey)
    requires IsSetupRun(run, events, fold) && i <= k < |run| && key in run[i].setups
    ensures key in run[k].setups && Extends(run[i].setups[key], run[k].setups[key])
  {
    if i < k {
      HistoryIsAppendOnly(run, events, fold, i, k - 1, key);
      RunKeepsLibraryOk(run, events, fold, k - 1);
      assert EventAt(run, events, fold, k - 1);
      EventExtends(run[k - 1], events[k - 1], fold, key);
      ExtendsTwice(run[i].setups[key], run[k - 1].setups[key], run[k].setups[key]);
    }
  }

  /** The event puts a revision on top of number `n` of the setup: a publication, or a library
      addition to it. */
  predicate PublishesOn(l: Library, e: Event, fold: Fold, key: SetupKey, n: nat) {
    match e
    case PublishRevision(r) =>
      (r.organizationId, r.setupId) == key && r.expectedRevisionNumber == n && Publish(l, r).1.RevisionCreated?
    case AddLibrarySkill(r) =>
      && (r.organizationId, r.setupId) == key && AddsNow(l, r, fold)
      && r.destination.ExistingSetup? && r.destination.expectedRevisionNumber == n
    case _ => false
  }

  /** A number that was published on is never the setup's newest again. */
  lemma PublishedOnIsOutdated(
    run: seq<Library>, events: seq<Event>, fold: Fold, i: nat, k: nat, key: SetupKey, n: nat)
    requires IsSetupRun(run, events, fold) && i < k < |run| && PublishesOn(run[i], events[i], fold, key, n)
    ensures key in run[k].setups && run[k].setups[key].revisions != []
    ensures run[k].setups[key].revisions[0].summary.revisionNumber > n
  {
    RunKeepsLibraryOk(run, events, fold, i);
    assert EventAt(run, events, fold, i);
    if events[i].PublishRevision? {
      var revision := PublishGrows(run[i], events[i].publish);
    } else {
      var revision := AddGrows(run[i], events[i].add, fold);
    }
    assert RevisionOk(run[i].setups[key], run[i].setups[key].revisions[0], |run[i].setups[key].revisions|);
    HistoryIsAppendOnly(run, events, fold, i + 1, k, key);
    HistoryIsLinear(run, events, fold, k, key, 0);
  }

  /** Optimistic concurrency: once a revision was put on top of number n, by a publication or a
      library addition, whoever expects number n again, by either call and at any later time,
      changes nothing, and is told of the conflict unless the addition is refused or answered
      for its snapshot before. */
  lemma StalePublishersConflict(
    run: seq<Library>, events: seq<Event>, fold: Fold, i: nat, k: nat, key: SetupKey, n: nat,
    publish: PublishRecord, add: AddRecord)
    requires IsSetupRun(run, events, fold) && i < k < |run| && PublishesOn(run[i], events[i], fold, key, n)
    requires (publish.organizationId, publish.setupId) == key && publish.expectedRevisionNumber == n
    requires (add.organizationId, add.setupId) == key
    requires add.destination.ExistingSetup? && add.destination.expectedRevisionNumber == n
    ensures Publish(run[k], publish) == (run[k], RevisionConflict)
    ensures AddSkill(run[k], add, fold).0 == run[k]
    ensures SnapshotFits(run[k], add) && (add.organizationId, add.snapshotJobId) !in run[k].publications ==>
              AddSkill(run[k], add, fold).1 == SetupRevisionConflict
  {
    PublishedOnIsOutdated(run, events, fold, i, k, key, n);
  }

  lemma AddKeepsPublications(l: Library, r: AddRecord, fold: Fold, key: JobKey)
    requires key in l.publications
    ensures var next := AddSkill(l, r, fold).0;
      key in next.publications && next.publications[key] == l.publications[key]
  {
    var job := (r.organizationId, r.snapshotJobId);
    if SnapshotFits(l, r) && job !in l.publications && r.destination.ExistingSetup? && AddObjection(l, r) == None {
      assert AddSkill(l, r, fold).0.publications.Keys == l.publications.Keys + {job};
    }
  }

  lemma EventKeepsPublications(l: Library, e: Event, fold: Fold, key: JobKey)
    requires key in l.publications
    ensures var next := Next(l, e, fold);
      key in next.publications && next.publications[key] == l.publications[key]
  {
    if e.AddLibrarySkill? { AddKeepsPublications(l, e.add, fold, key); }
  }

  lemma EventKeepsSnapshots(l: Library, e: Event, fold: Fold, key: JobKey)
    requires Allowed(l, e) && key in l.snapshots
    ensures key in Next(l, e, fold).snapshots && Next(l, e, fold).snapshots[key] == l.snapshots[key]
  {
  }

  lemma {:induction false} PublicationsAreFinal(
    run: seq<Library>, events: seq<Event>, fold: Fold, i: nat, k: nat, key: JobKey)
    requires IsSetupRun(run, events, fold) && i <= k < |run|
    requires key in run[i].publications && key in run[i].snapshots
    ensures key in run[k].publications && run[k].publications[key] == run[i].publications[key]
    ensures key in run[k].snapshots && run[k].snapshots[key] == run[i].snapshots[key]
  {
    if i < k {
      PublicationsAreFinal(run, events, fold, i, k - 1, key);
      RunKeepsLibraryOk(run, events, fold, k - 1);
      assert EventAt(run, events, fold, k - 1);
      EventKeepsPublications(run[k - 1], events[k - 1], fold, key);
      EventKeepsSnapshots(run[k - 1], events[k - 1], fold, key);
    }
  }

  /** A snapshot job yields at most one revision: once one was added from it, every later call
      for that job leaves everything as it is, and answers that revision exactly when it repeats
      the same request. */
  lemma EachSnapshotYieldsOneRevision(
    run: seq<Library>, events: seq<Event>, fold: Fold, i: nat, k: nat, later: AddRecord)
    requires IsSetupRun(run, events, fold) && i < k < |run| && events[i].AddLibrarySkill?
    requires AddsNow(run[i], events[i].add, fold)
    requires later.organizationId == events[i].add.organizationId
             && later.snapshotJobId == events[i].add.snapshotJobId
    ensures AddSkill(run[k], later, fold).0 == run[k]
    ensures AddSkill(run[k], later, fold).1
            == if !SnapshotFits(run[k], later) then SnapshotUnavailable
               else if later.requestDigest == events[i].add.requestDigest then AddSkill(run[i], events[i].add, fold).1
               else PublicationConflict
  {
    RunKeepsLibraryOk(run, events, fold, i);
    assert EventAt(run, events, fold, i);
    var revision := AddGrows(run[i], events[i].add, fold);
    PublicationsAreFinal(run, events, fold, i + 1, k, (later.organizationId, later.snapshotJobId));
  }

  /** Requests that differ in the order of their targets only have the same digest. */
  lemma PermutedRequestsAreTheSame(a: AddRequest, b: AddRequest, order: (Target, Target) -> bool)
    requires Orders(order) && Separates(a.targets, order)
    requires a.(targets := b.targets) == b && multiset(a.targets) == multiset(b.targets)
    ensures Canonical(a, order) == Canonical(b, order)
  {
    SortForgetsOrder(a.targets, b.targets, order);
  }

  /** Publication is idempotent: the same request again, its targets in any order, later and by
      whomever in the organization, returns the same revision and changes nothing. */
  lemma ReplaysAnswerTheSameRevision(
    run: seq<Library>, events: seq<Event>, fold: Fold, i: nat, k: nat,
    request: AddRequest, replay: AddRequest, order: (Target, Target) -> bool,
    org: Organization, at: Time, setupId: SetupId, revisionId: RevisionId,
    at': Time, setupId': SetupId, revisionId': RevisionId)
    requires IsSetupRun(run, events, fold) && i < k < |run|
    requires Orders(order) && Separates(request.targets, order)
    requires events[i] == AddLibrarySkill(RecordOf(request, order, org, at, setupId, revisionId))
    requires AddsNow(run[i], events[i].add, fold)
    requires request.(targets := replay.targets) == replay && multiset(request.targets) == multiset(replay.targets)
    ensures AddSkill(run[k], RecordOf(replay, order, org, at', setupId', revisionId'), fold)
            == (run[k], AddSkill(run[i], events[i].add, fold).1)
  {
    PermutedRequestsAreTheSame(request, replay, order);
    var later := RecordOf(replay, order, org, at', setupId', revisionId');
    var key := (org, request.snapshotJobId);
    EachSnapshotYieldsOneRevision(run, events, fold, i, k, later);
    SnapshotsStay(run, events, fold, i, k, key);
    assert later.targets == events[i].add.targets;
  }

  lemma {:induction false} SnapshotsStay(run: seq<Library>, events: seq<Event>, fold: Fold, i: nat, k: nat, key: JobKey)
    requires IsSetupRun(run, events, fold) && i <= k < |run| && key in run[i].snapshots
    ensures key in run[k].snapshots && run[k].snapshots[key] == run[i].snapshots[key]
  {
    if i < k {
      SnapshotsStay(run, events, fold, i, k - 1, key);
      assert EventAt(run, events, fold, k - 1);
      EventKeepsSnapshots(run[k - 1], events[k - 1], fold, key);
    }
  }

  // ----- the guarantees of the service are the ones assumed of its calls -----

  /** Validated items and canonical targets are what `Allowed` asks for. */
  lemma ServiceRecordsAreAllowed(
    l: Library, items: seq<Selection>, request: AddRequest, order: (Target, Target) -> bool,
    org: Organization, at: Time, setupId: SetupId, revisionId: RevisionId, name: string, expected: nat)
    requires (org, setupId) !in l.setups && Orders(order) && Requestable(request)
    ensures ValidatedItems(items).Some? ==>
      && Allowed(l, CreateSetup(CreateRecord(org, at, setupId, revisionId, name, ValidatedItems(items).value)))
      && Allowed(l, PublishRevision(PublishRecord(org, at, setupId, revisionId, expected, ValidatedItems(items).value)))
    ensures Allowed(l, AddLibrarySkill(RecordOf(request, order, org, at, setupId, revisionId)))
  {
    if ValidatedItems(items).Some? { ValidatedItemsAreDistinct(items); }
    SortSorts(request.targets, order);
    PermutationsStayDistinct(request.targets, SortBy(request.targets, order));
  }
}
