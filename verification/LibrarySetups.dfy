/** Adding a library skill to a setup, as the database transaction does it: checks, the next
    revision with the items carried forward, and the record of the publication. It refines the
    in-memory call. */
module LibrarySetups {
  import opened Protocol
  import opened Sorting
  import opened Setups
  import opened SetupRuns

  datatype RevisionRow = RevisionRow(setupId: SetupId, number: nat, createdAt: Time)
  datatype ItemRow = ItemRow(
    artifactId: string, contentDigest: string, portableSource: string, toolId: string, targetName: string)

  type RevisionKey = (Organization, RevisionId)

  /** `items` are the item rows of a revision in the order of their insertion. */
  datatype Tables = Tables(
    setups: map<SetupKey, string>,
    revisions: map<RevisionKey, RevisionRow>,
    items: map<RevisionKey, seq<ItemRow>>,
    publications: map<JobKey, Publication>)

  /** What the other tables say: whether the caller may write, the snapshot that the job row holds
      for the expected digest, if it succeeded with one, and whether its bundle is stored. */
  datatype Surroundings = Surroundings(member: bool, snapshot: Option<LibrarySnapshot>, bundleStored: bool)

  datatype RowOutcome = Answer(outcome: AddOutcome) | NotPermitted

  predicate IsRevisionOf(t: Tables, key: SetupKey, revision: RevisionId) {
    (key.0, revision) in t.revisions && t.revisions[(key.0, revision)].setupId == key.1
  }

  ghost predicate IsLatest(t: Tables, key: SetupKey, revision: RevisionId) {
    && IsRevisionOf(t, key, revision)
    && forall other | IsRevisionOf(t, key, other) ::
         t.revisions[(key.0, other)].number <= t.revisions[(key.0, revision)].number
  }

  function RowsOf(t: Tables, org: Organization, revision: RevisionId): seq<ItemRow> {
    if (org, revision) in t.items then t.items[(org, revision)] else []
  }

  predicate RowsOccupied(rows: seq<ItemRow>, targets: seq<Target>) {
    exists row, t | row in rows && t in targets :: t.toolId == row.toolId && t.targetName == row.targetName
  }

  predicate Usable(snapshot: Option<LibrarySnapshot>, r: AddRecord) {
    && snapshot.Some?
    && snapshot.value.contentDigest == r.contentDigest
    && forall t | t in r.targets :: t.toolId in snapshot.value.supportedTools
  }

  function TargetRow(snapshot: LibrarySnapshot, t: Target): ItemRow {
    ItemRow(snapshot.artifactId, snapshot.contentDigest, snapshot.portableSource, t.toolId, t.targetName)
  }

  function TargetRows(snapshot: LibrarySnapshot, targets: seq<Target>): seq<ItemRow> {
    seq(|targets|, i requires 0 <= i < |targets| => TargetRow(snapshot, targets[i]))
  }

  ghost predicate NameInUse(t: Tables, org: Organization, name: string, fold: Fold) {
    exists k :: k in t.setups && k.0 == org && fold(t.setups[k]) == fold(name)
  }

  /** The rows after the next revision was inserted, and its summary. */
  function Inserted(
    t: Tables, r: AddRecord, snapshot: LibrarySnapshot, carried: seq<ItemRow>, number: nat, name: string)
    : (Tables, AddOutcome)
  {
    var key := (r.organizationId, r.setupRevisionId);
    var rows := carried + TargetRows(snapshot, r.targets);
    var summary := Summary(r.setupId, r.setupRevisionId, name, number, |rows|, r.createdAt);
    (t.(revisions := t.revisions[key := RevisionRow(r.setupId, number, r.createdAt)],
        items := t.items[key := rows],
        publications := t.publications[(r.organizationId, r.snapshotJobId) := Publication(r.requestDigest, summary)]),
     SkillAdded(summary))
  }

  ghost predicate AddsToExisting(t: Tables, r: AddRecord, snapshot: LibrarySnapshot, after: Tables, outcome: AddOutcome)
    requires r.destination.ExistingSetup?
  {
    var key := (r.organizationId, r.setupId);
    if key !in t.setups then after == t && outcome == SetupNotFound
    else if forall id :: !IsLatest(t, key, id) then after == t && outcome == SetupRevisionConflict
    else exists latest ::
      IsLatest(t, key, latest)
      && (after, outcome) == AddedOnTop(
           t, r, snapshot, t.revisions[(key.0, latest)].number, RowsOf(t, key.0, latest), t.setups[key])
  }

  /** On top of a latest revision with this number and these rows. */
  function AddedOnTop(
    t: Tables, r: AddRecord, snapshot: LibrarySnapshot, number: nat, rows: seq<ItemRow>, name: string)
    : (Tables, AddOutcome)
    requires r.destination.ExistingSetup?
  {
    if number != r.destination.expectedRevisionNumber then (t, SetupRevisionConflict)
    else if |rows| + |r.targets| > MAX_ITEMS then (t, InvalidItems)
    else if RowsOccupied(rows, r.targets) then (t, TargetConflict)
    else Inserted(t, r, snapshot, rows, number + 1, name)
  }

  ghost predicate Adds(
    t: Tables, r: AddRecord, around: Surroundings, lower: Fold, after: Tables, outcome: RowOutcome)
  {
    var job := (r.organizationId, r.snapshotJobId);
    if !around.member then after == t && outcome == NotPermitted
    else if !Usable(around.snapshot, r) then after == t && outcome == Answer(SnapshotUnavailable)
    else if job in t.publications then
      && after == t
      && outcome == Answer(if t.publications[job].digest == r.requestDigest
                           then SkillAdded(t.publications[job].revision) else PublicationConflict)
    else if !around.bundleStored then after == t && outcome == Answer(SnapshotUnavailable)
    else outcome.Answer? && match r.destination
      case ExistingSetup(_, _) => AddsToExisting(t, r, around.snapshot.value, after, outcome.outcome)
      case NewSetup(name) =>
        if NameInUse(t, r.organizationId, name, lower) then after == t && outcome == Answer(SetupNameTaken)
        else (after, outcome.outcome)
             == Inserted(t.(setups := t.setups[(r.organizationId, r.setupId) := name]),
                         r, around.snapshot.value, [], 1, name)
  }

  /** Who is not a member is not permitted; a snapshot is unavailable when it is not the one meant, does
      not support a tool, or has no stored bundle for its first publication; nothing is written unless
      the skill is added; and a setup without a revision conflicts with any expected number. */
  lemma RefusalsOfAdds(
    t: Tables, r: AddRecord, around: Surroundings, lower: Fold, after: Tables, outcome: RowOutcome)
    requires Adds(t, r, around, lower, after, outcome)
    ensures var published := (r.organizationId, r.snapshotJobId) in t.publications;
      var serves := around.snapshot.Some? && around.snapshot.value.contentDigest == r.contentDigest
                    && forall target | target in r.targets :: target.toolId in around.snapshot.value.supportedTools;
      && (outcome == NotPermitted <==> !around.member)
      && (outcome == Answer(SnapshotUnavailable) <==>
            around.member && (!serves || (!published && !around.bundleStored)))
      && (!(outcome.Answer? && outcome.outcome.SkillAdded?) ==> after == t)
      && (around.member && serves && !published && around.bundleStored && r.destination.ExistingSetup? ==>
            && ((r.organizationId, r.setupId) !in t.setups <==> outcome == Answer(SetupNotFound))
            && ((r.organizationId, r.setupId) in t.setups
                && (forall id :: !IsRevisionOf(t, (r.organizationId, r.setupId), id)) ==>
                  outcome == Answer(SetupRevisionConflict)))
  {
  }

  // ----- the transaction -----

  class LibrarySetupTables {
    const lower: Fold
    var setups: map<SetupKey, string>
    var revisions: map<RevisionKey, RevisionRow>
    var items: map<RevisionKey, seq<ItemRow>>
    var publications: map<JobKey, Publication>

    function Rows(): Tables
      reads this
    {
      Tables(setups, revisions, items, publications)
    }

    constructor (lower: Fold)
      ensures Rows() == Tables(map[], map[], map[], map[])
    {
      this.lower := lower;
      setups, revisions, items, publications := map[], map[], map[], map[];
    }

    method LatestRevision(key: SetupKey) returns (latest: Option<RevisionId>)
      ensures latest.None? ==> forall id :: !IsRevisionOf(Rows(), key, id)
      ensures latest.Some? ==> IsLatest(Rows(), key, latest.value)
    {
      latest := None;
      var todo := revisions.Keys;
      while todo != {}
        invariant todo <= revisions.Keys
        invariant latest.Some? ==> IsRevisionOf(Rows(), key, latest.value)
        invariant forall id: RevisionId | IsRevisionOf(Rows(), key, id) && (key.0, id) !in todo ::
          latest.Some? && revisions[(key.0, id)].number <= revisions[(key.0, latest.value)].number
        decreases |todo|
      {
        var k :| k in todo;
        todo := todo - {k};
        if k.0 == key.0 && revisions[k].setupId == key.1
           && (latest.None? || revisions[(key.0, latest.value)].number < revisions[k].number)
        {
          latest := Some(k.1);
        }
      }
    }

    method HasName(org: Organization, name: string) returns (taken: bool)
      ensures taken <==> NameInUse(Rows(), org, name, lower)
    {
      var todo := setups.Keys;
      while todo != {}
        invariant todo <= setups.Keys
        invariant forall k | k in setups && k !in todo :: k.0 != org || lower(setups[k]) != lower(name)
        decreases |todo|
      {
        var k :| k in todo;
        todo := todo - {k};
        if k.0 == org && lower(setups[k]) == lower(name) { return true; }
      }
      taken := false;
    }

    method AddLibrarySkill(r: AddRecord, around: Surroundings) returns (outcome: RowOutcome)
      modifies this
      ensures Adds(old(Rows()), r, around, lower, Rows(), outcome)
    {
      var org, job := r.organizationId, (r.organizationId, r.snapshotJobId);
      if !around.member { return NotPermitted; }
      if !Usable(around.snapshot, r) { return Answer(SnapshotUnavailable); }
      if job in publications {
        return Answer(if publications[job].digest == r.requestDigest
                      then SkillAdded(publications[job].revision) else PublicationConflict);
      }
      if !around.bundleStored { return Answer(SnapshotUnavailable); }
      var snapshot := around.snapshot.value;
      var revisionNumber, name := 1, "";
      var base: Option<RevisionId> := None;
      match r.destination {
        case ExistingSetup(_, expected) =>
          if (org, r.setupId) !in setups { return Answer(SetupNotFound); }
          name := setups[(org, r.setupId)];
          base := LatestRevision((org, r.setupId));
          if base.None? || revisions[(org, base.value)].number != expected {
            return Answer(SetupRevisionConflict);
          }
          revisionNumber := expected + 1;
          var rows := RowsOf(Rows(), org, base.value);
          if |rows| + |r.targets| > MAX_ITEMS { return Answer(InvalidItems); }
          if RowsOccupied(rows, r.targets) { return Answer(TargetConflict); }
        case NewSetup(chosen) =>
          name := chosen;
          var taken := HasName(org, name);
          if taken { return Answer(SetupNameTaken); }
          setups := setups[(org, r.setupId) := name];
      }
      var carried := if base.Some? then RowsOf(Rows(), org, base.value) else [];
      revisions := revisions[(org, r.setupRevisionId) := RevisionRow(r.setupId, revisionNumber, r.createdAt)];
      var inserted := carried + TargetRows(snapshot, r.targets);
      items := items[(org, r.setupRevisionId) := inserted];
      var summary := Summary(r.setupId, r.setupRevisionId, name, revisionNumber, |inserted|, r.createdAt);
      publications := publications[job := Publication(r.requestDigest, summary)];
      outcome := Answer(SkillAdded(summary));
    }
  }

  // ----- the rows mirror the in-memory maps -----

  function ToRow(item: Item): ItemRow {
    ItemRow(item.artifactId, item.contentDigest, item.portableSource, item.toolId, item.targetName)
  }

  function ToRows(items: seq<Item>): seq<ItemRow> {
    seq(|items|, i requires 0 <= i < |items| => ToRow(items[i]))
  }

  /** The rows of one revision. */
  ghost predicate MirrorsRevision(t: Tables, org: Organization, revision: SetupRevision) {
    var key := (org, revision.summary.setupRevisionId);
    && key in t.revisions && key in t.items
    && t.revisions[key] == RevisionRow(
         revision.summary.setupId, revision.summary.revisionNumber, revision.summary.createdAt)
    && t.items[key] == ToRows(revision.items)
  }

  ghost predicate MirrorsSetup(t: Tables, org: Organization, detail: Detail) {
    && (org, detail.setupId) in t.setups && t.setups[(org, detail.setupId)] == detail.name
    && forall i | 0 <= i < |detail.revisions| :: MirrorsRevision(t, org, detail.revisions[i])
  }

  /** A revision row belongs to a revision of a setup. */
  ghost predicate Backed(l: Library, key: RevisionKey, row: RevisionRow) {
    && (key.0, row.setupId) in l.setups
    && exists i :: 0 <= i < |l.setups[(key.0, row.setupId)].revisions|
                   && l.setups[(key.0, row.setupId)].revisions[i].summary.setupRevisionId == key.1
  }

  ghost predicate Mirrors(t: Tables, l: Library) {
    && t.setups.Keys == l.setups.Keys
    && (forall k | k in l.setups :: l.setups[k].setupId == k.1 && MirrorsSetup(t, k.0, l.setups[k]))
    && (forall k | k in t.revisions :: Backed(l, k, t.revisions[k]))
    && t.publications == l.publications
  }

  /** Which of a setup's revisions a row is. */
  lemma RowIsARevision(t: Tables, l: Library, key: SetupKey, id: RevisionId) returns (i: nat)
    requires Mirrors(t, l) && key in l.setups && DetailOk(l.setups[key]) && IsRevisionOf(t, key, id)
    ensures var revisions := l.setups[key].revisions;
      && i < |revisions| && revisions[i].summary.setupRevisionId == id
      && t.revisions[(key.0, id)].number == |revisions| - i
      && RowsOf(t, key.0, id) == ToRows(revisions[i].items)
  {
    var detail := l.setups[key];
    assert Backed(l, (key.0, id), t.revisions[(key.0, id)]);
    i :| 0 <= i < |detail.revisions| && detail.revisions[i].summary.setupRevisionId == id;
    assert MirrorsSetup(t, key.0, detail);
    assert MirrorsRevision(t, key.0, detail.revisions[i]);
    assert RevisionOk(detail, detail.revisions[i], |detail.revisions| - i);
  }

  lemma NewestIsARow(t: Tables, l: Library, key: SetupKey)
    requires Mirrors(t, l) && key in l.setups && DetailOk(l.setups[key])
    ensures var newest := l.setups[key].revisions[0].summary.setupRevisionId;
      IsRevisionOf(t, key, newest) && t.revisions[(key.0, newest)].number == |l.setups[key].revisions|
  {
    var detail := l.setups[key];
    assert MirrorsSetup(t, key.0, detail);
    assert MirrorsRevision(t, key.0, detail.revisions[0]);
    assert RevisionOk(detail, detail.revisions[0], |detail.revisions|);
  }

  lemma LatestIsTheNewest(t: Tables, l: Library, key: SetupKey, id: RevisionId)
    requires Mirrors(t, l) && key in l.setups && DetailOk(l.setups[key]) && IsLatest(t, key, id)
    ensures t.revisions[(key.0, id)].number == |l.setups[key].revisions|
    ensures RowsOf(t, key.0, id) == ToRows(l.setups[key].revisions[0].items)
  {
    NewestIsARow(t, l, key);
    var i := RowIsARevision(t, l, key, id);
  }

  lemma SomeRevisionIsLatest(t: Tables, l: Library, key: SetupKey)
    requires Mirrors(t, l) && key in l.setups && DetailOk(l.setups[key])
    ensures IsLatest(t, key, l.setups[key].revisions[0].summary.setupRevisionId)
  {
    NewestIsARow(t, l, key);
    forall other | IsRevisionOf(t, key, other)
      ensures t.revisions[(key.0, other)].number <= |l.setups[key].revisions|
    {
      var i := RowIsARevision(t, l, key, other);
    }
  }

  lemma OccupiedAlike(items: seq<Item>, targets: seq<Target>)
    ensures RowsOccupied(ToRows(items), targets) <==> Occupied(items, targets)
  {
    if Occupied(items, targets) {
      var i, t :| i in items && t in targets && t.toolId == i.toolId && t.targetName == i.targetName;
      var k :| 0 <= k < |items| && items[k] == i;
      assert ToRows(items)[k] in ToRows(items);
    }
    if RowsOccupied(ToRows(items), targets) {
      var row, t :| row in ToRows(items) && t in targets && t.toolId == row.toolId && t.targetName == row.targetName;
      var k :| 0 <= k < |items| && ToRows(items)[k] == row;
      assert items[k] in items;
    }
  }

  lemma AddedRowsAlike(
    carried: seq<Item>, snapshot: LibrarySnapshot, targets: seq<Target>,
    revision: RevisionId, name: string, number: nat)
    ensures ToRows(RestampAll(carried + FromTargets(snapshot, targets), revision, name, number))
            == ToRows(carried) + TargetRows(snapshot, targets)
  {
  }

  lemma NamesAlike(t: Tables, l: Library, fold: Fold, org: Organization, name: string)
    requires Mirrors(t, l) && NamesOk(l, fold)
    ensures NameInUse(t, org, name, fold) <==> fold(name) in NamesOf(l, org)
  {
    if NameInUse(t, org, name, fold) {
      var k :| k in t.setups && k.0 == org && fold(t.setups[k]) == fold(name);
      assert MirrorsSetup(t, k.0, l.setups[k]);
    }
    if fold(name) in NamesOf(l, org) {
      assert Names(l, fold, org, fold(name));
      var k :| k in l.setups && k.0 == org && fold(l.setups[k].name) == fold(name);
      assert MirrorsSetup(t, k.0, l.setups[k]);
    }
  }

  // ----- refinement -----

  /** Putting one revision in front of one setup and inserting its rows keeps the mirror. */
  lemma GrowthKeepsMirror(
    t: Tables, l: Library, next: Library, after: Tables, key: SetupKey, detail: Detail, revision: SetupRevision)
    requires Mirrors(t, l) && GrowsAt(l, next, key, detail, revision)
    requires revision.summary.setupId == key.1
    requires (key.0, revision.summary.setupRevisionId) !in t.revisions
    requires after.setups == t.setups[key := detail.name]
    requires after.revisions == t.revisions[(key.0, revision.summary.setupRevisionId) :=
      RevisionRow(key.1, revision.summary.revisionNumber, revision.summary.createdAt)]
    requires after.items == t.items[(key.0, revision.summary.setupRevisionId) := ToRows(revision.items)]
    requires after.publications == next.publications
    ensures Mirrors(after, next)
  {
    forall k | k in next.setups
      ensures next.setups[k].setupId == k.1 && MirrorsSetup(after, k.0, next.setups[k])
    {
      MirroredSetupStays(t, l, next, after, key, detail, revision, k);
    }
    forall k | k in after.revisions ensures Backed(next, k, after.revisions[k]) {
      BackedRevisionStays(t, l, next, after, key, detail, revision, k);
    }
    assert after.setups.Keys == next.setups.Keys;
  }

  lemma MirroredSetupStays(
    t: Tables, l: Library, next: Library, after: Tables,
    key: SetupKey, detail: Detail, revision: SetupRevision, k: SetupKey)
    requires Mirrors(t, l) && GrowsAt(l, next, key, detail, revision) && k in next.setups
    requires revision.summary.setupId == key.1
    requires (key.0, revision.summary.setupRevisionId) !in t.revisions
    requires after.setups == t.setups[key := detail.name]
    requires after.revisions == t.revisions[(key.0, revision.summary.setupRevisionId) :=
      RevisionRow(key.1, revision.summary.revisionNumber, revision.summary.createdAt)]
    requires after.items == t.items[(key.0, revision.summary.setupRevisionId) := ToRows(revision.items)]
    ensures next.setups[k].setupId == k.1 && MirrorsSetup(after, k.0, next.setups[k])
  {
    var grown := next.setups[k];
    if k in l.setups { assert MirrorsSetup(t, k.0, l.setups[k]); }
    forall i | 0 <= i < |grown.revisions| ensures MirrorsRevision(after, k.0, grown.revisions[i]) {
      if k == key {
        if i > 0 { assert MirrorsRevision(t, k.0, l.setups[k].revisions[i - 1]); }
      } else {
        assert MirrorsRevision(t, k.0, l.setups[k].revisions[i]);
      }
    }
  }

  lemma BackedRevisionStays(
    t: Tables, l: Library, next: Library, after: Tables,
    key: SetupKey, detail: Detail, revision: SetupRevision, k: RevisionKey)
    requires Mirrors(t, l) && GrowsAt(l, next, key, detail, revision)
    requires after.revisions == t.revisions[(key.0, revision.summary.setupRevisionId) :=
      RevisionRow(key.1, revision.summary.revisionNumber, revision.summary.createdAt)]
    requires k in after.revisions
    ensures Backed(next, k, after.revisions[k])
  {
    if k == (key.0, revision.summary.setupRevisionId) {
      assert next.setups[key].revisions[0] == revision;
    } else {
      assert Backed(l, k, t.revisions[k]);
      var s := (k.0, t.revisions[k].setupId);
      var i :| 0 <= i < |l.setups[s].revisions| && l.setups[s].revisions[i].summary.setupRevisionId == k.1;
      if s == key { assert next.setups[s].revisions[i + 1] == l.setups[s].revisions[i]; }
    }
  }

  /** The one place where the two answer differently: a setup that is both too full and already
      has one of the targets is refused for its size by the database, for the target by memory. */
  predicate RefusedForTwoReasons(l: Library, r: AddRecord) {
    var key := (r.organizationId, r.setupId);
    && r.destination.ExistingSetup? && key in l.setups && l.setups[key].revisions != []
    && l.setups[key].revisions[0].summary.revisionNumber == r.destination.expectedRevisionNumber
    && Occupied(l.setups[key].revisions[0].items, r.targets)
    && |l.setups[key].revisions[0].items| + |r.targets| > MAX_ITEMS
  }

  ghost predicate Comparable(t: Tables, l: Library, r: AddRecord, around: Surroundings, fold: Fold) {
    && Mirrors(t, l) && LibraryOk(l, fold) && Allowed(l, AddLibrarySkill(r))
    && (r.organizationId, r.setupRevisionId) !in t.revisions
    && around.member && around.bundleStored
    && around.snapshot == if (r.organizationId, r.snapshotJobId) in l.snapshots
                          then Some(l.snapshots[(r.organizationId, r.snapshotJobId)]) else None
  }

  /** The row insertion and the map update are the same addition. */
  lemma InsertionMirrorsAddition(
    t: Tables, l: Library, r: AddRecord, snapshot: LibrarySnapshot, fold: Fold, after: Tables, outcome: AddOutcome)
    requires Mirrors(t, l) && Allowed(l, AddLibrarySkill(r)) && AddsNow(l, r, fold)
    requires forall k | k in l.setups :: l.setups[k].setupId == k.1 && DetailOk(l.setups[k])
    requires (r.organizationId, r.setupRevisionId) !in t.revisions
    requires l.snapshots[(r.organizationId, r.snapshotJobId)] == snapshot
    requires var detail := AddDetail(l, r);
      (after, outcome)
      == Inserted(t.(setups := t.setups[(r.organizationId, r.setupId) := detail.name]), r, snapshot,
                  ToRows(if detail.revisions == [] then [] else detail.revisions[0].items),
                  |detail.revisions| + 1, detail.name)
    ensures outcome == AddSkill(l, r, fold).1
    ensures Mirrors(after, AddSkill(l, r, fold).0)
  {
    var detail, key := AddDetail(l, r), (r.organizationId, r.setupId);
    var revision := AddGrows(l, r, fold);
    var carried := if detail.revisions == [] then [] else detail.revisions[0].items;
    AdditionRevision(l, r, snapshot, fold, revision);
    assert after.publications == AddSkill(l, r, fold).0.publications;
    GrowthKeepsMirror(t, l, AddSkill(l, r, fold).0, after, key, detail, revision);
  }

  /** The revision that an addition puts in front, and its rows. */
  lemma AdditionRevision(l: Library, r: AddRecord, snapshot: LibrarySnapshot, fold: Fold, revision: SetupRevision)
    requires AddsNow(l, r, fold) && l.snapshots[(r.organizationId, r.snapshotJobId)] == snapshot
    requires GrowsAt(l, AddSkill(l, r, fold).0, (r.organizationId, r.setupId), AddDetail(l, r), revision)
    requires RevisionOk(AddDetail(l, r), revision, |AddDetail(l, r).revisions| + 1)
    requires AddSkill(l, r, fold).1 == SkillAdded(revision.summary)
    ensures var carried := if AddDetail(l, r).revisions == [] then [] else AddDetail(l, r).revisions[0].items;
      ToRows(revision.items) == ToRows(carried) + TargetRows(snapshot, r.targets)
    ensures revision.summary == Summary(
      r.setupId, r.setupRevisionId, AddDetail(l, r).name, |AddDetail(l, r).revisions| + 1,
      |revision.items|, r.createdAt)
  {
    var detail, key := AddDetail(l, r), (r.organizationId, r.setupId);
    var carried := if detail.revisions == [] then [] else detail.revisions[0].items;
    AddedRowsAlike(carried, snapshot, r.targets, r.setupRevisionId, detail.name, |detail.revisions| + 1);
    assert AddSkill(l, r, fold).0.setups[key].revisions[0] == revision;
  }

  /** The request gets past its snapshot in both. */
  predicate IsNew(l: Library, r: AddRecord) {
    SnapshotFits(l, r) && (r.organizationId, r.snapshotJobId) !in l.publications
  }

  /** The database's lowering of names and memory's tell the chosen name from the names in use
      differently. */
  ghost predicate NamesToldApart(t: Tables, r: AddRecord, fold: Fold, lower: Fold) {
    r.destination.NewSetup?
    && (NameInUse(t, r.organizationId, r.destination.name, lower)
        != NameInUse(t, r.organizationId, r.destination.name, fold))
  }

  /** The transaction refines the in-memory call: on mirrored states, for a member and a stored
      bundle, the answers are equal and the states are mirrored again, but for the reason given to
      a doubly refused request. The exception is a new setup whose name is in use under one of the
      two lowerings only: then one of them refuses the name and the other adds. */
  lemma AdditionsAgree(
    t: Tables, l: Library, r: AddRecord, around: Surroundings, fold: Fold, lower: Fold,
    after: Tables, outcome: RowOutcome)
    requires Comparable(t, l, r, around, fold) && Adds(t, r, around, lower, after, outcome)
    ensures IsNew(l, r) && NamesToldApart(t, r, fold, lower) ==>
      (outcome == Answer(SetupNameTaken) <==> AddSkill(l, r, fold).1.SkillAdded?)
      && (outcome.Answer? && outcome.outcome.SkillAdded? <==> AddSkill(l, r, fold).1 == SetupNameTaken)
    ensures !(IsNew(l, r) && NamesToldApart(t, r, fold, lower)) ==>
      && Mirrors(after, AddSkill(l, r, fold).0)
      && outcome == Answer(if IsNew(l, r) && RefusedForTwoReasons(l, r) then InvalidItems else AddSkill(l, r, fold).1)
  {
    if IsNew(l, r) {
      match r.destination {
        case ExistingSetup(_, _) =>
          ExistingAdditionsAgree(t, l, r, around.snapshot.value, fold, after, outcome.outcome);
        case NewSetup(name) =>
          NamesAlike(t, l, fold, r.organizationId, name);
          if !NamesToldApart(t, r, fold, lower) {
            NewAdditionsAgree(t, l, r, around, fold, lower, after, outcome);
          }
      }
    }
  }

  lemma NewAdditionsAgree(
    t: Tables, l: Library, r: AddRecord, around: Surroundings, fold: Fold, lower: Fold,
    after: Tables, outcome: RowOutcome)
    requires Comparable(t, l, r, around, fold) && Adds(t, r, around, lower, after, outcome)
    requires IsNew(l, r) && r.destination.NewSetup? && !NamesToldApart(t, r, fold, lower)
    ensures Mirrors(after, AddSkill(l, r, fold).0) && outcome == Answer(AddSkill(l, r, fold).1)
  {
    NamesAlike(t, l, fold, r.organizationId, r.destination.name);
    if fold(r.destination.name) !in NamesOf(l, r.organizationId) {
      assert ToRows([]) == [];
      InsertionMirrorsAddition(t, l, r, around.snapshot.value, fold, after, outcome.outcome);
    }
  }

  lemma ExistingAdditionsAgree(
    t: Tables, l: Library, r: AddRecord, snapshot: LibrarySnapshot, fold: Fold, after: Tables, outcome: AddOutcome)
    requires Mirrors(t, l) && Allowed(l, AddLibrarySkill(r)) && r.destination.ExistingSetup?
    requires forall k | k in l.setups :: l.setups[k].setupId == k.1 && DetailOk(l.setups[k])
    requires (r.organizationId, r.setupRevisionId) !in t.revisions
    requires SnapshotFits(l, r) && (r.organizationId, r.snapshotJobId) !in l.publications
    requires l.snapshots[(r.organizationId, r.snapshotJobId)] == snapshot
    requires AddsToExisting(t, r, snapshot, after, outcome)
    ensures Mirrors(after, AddSkill(l, r, fold).0)
    ensures outcome == if RefusedForTwoReasons(l, r) then InvalidItems else AddSkill(l, r, fold).1
  {
    var key := (r.organizationId, r.setupId);
    if key in l.setups {
      AnswerComesFromTheNewest(t, l, r, snapshot, after, outcome);
      ObjectionsAlike(t, l, r, snapshot);
      if AddObjection(l, r) == None { AcceptedAdditionsAgree(t, l, r, snapshot, fold, after, outcome); }
    }
  }

  lemma AcceptedAdditionsAgree(
    t: Tables, l: Library, r: AddRecord, snapshot: LibrarySnapshot, fold: Fold, after: Tables, outcome: AddOutcome)
    requires Mirrors(t, l) && Allowed(l, AddLibrarySkill(r)) && r.destination.ExistingSetup?
    requires forall k | k in l.setups :: l.setups[k].setupId == k.1 && DetailOk(l.setups[k])
    requires (r.organizationId, r.setupRevisionId) !in t.revisions && IsNew(l, r)
    requires l.snapshots[(r.organizationId, r.snapshotJobId)] == snapshot
    requires AddObjection(l, r) == None && (r.organizationId, r.setupId) in l.setups
    requires var detail := l.setups[(r.organizationId, r.setupId)];
      (after, outcome)
      == Inserted(t, r, snapshot, ToRows(detail.revisions[0].items), |detail.revisions| + 1, detail.name)
    ensures Mirrors(after, AddSkill(l, r, fold).0) && outcome == AddSkill(l, r, fold).1
  {
    NamedAlready(t, l, (r.organizationId, r.setupId));
    InsertionMirrorsAddition(t, l, r, snapshot, fold, after, outcome);
  }

  lemma NamedAlready(t: Tables, l: Library, key: SetupKey)
    requires Mirrors(t, l) && key in l.setups
    ensures t.setups[key := l.setups[key].name] == t.setups
  {
    assert MirrorsSetup(t, key.0, l.setups[key]);
  }

  /** What the newest revision's rows decide is what the newest revision decides. */
  lemma ObjectionsAlike(t: Tables, l: Library, r: AddRecord, snapshot: LibrarySnapshot)
    requires r.destination.ExistingSetup? && (r.organizationId, r.setupId) in l.setups
    requires DetailOk(l.setups[(r.organizationId, r.setupId)])
    ensures var detail := l.setups[(r.organizationId, r.setupId)];
      var rows := ToRows(detail.revisions[0].items);
      AddedOnTop(t, r, snapshot, |detail.revisions|, rows, detail.name)
      == match AddObjection(l, r)
         case Some(objection) => (t, if RefusedForTwoReasons(l, r) then InvalidItems else objection)
         case None => Inserted(t, r, snapshot, rows, |detail.revisions| + 1, detail.name)
    ensures AddObjection(l, r) == None ==> !RefusedForTwoReasons(l, r)
  {
    var detail := l.setups[(r.organizationId, r.setupId)];
    OccupiedAlike(detail.revisions[0].items, r.targets);
    assert RevisionOk(detail, detail.revisions[0], |detail.revisions|);
  }

  lemma AnswerComesFromTheNewest(
    t: Tables, l: Library, r: AddRecord, snapshot: LibrarySnapshot, after: Tables, outcome: AddOutcome)
    requires Mirrors(t, l) && r.destination.ExistingSetup? && (r.organizationId, r.setupId) in l.setups
    requires DetailOk(l.setups[(r.organizationId, r.setupId)])
    requires AddsToExisting(t, r, snapshot, after, outcome)
    ensures var detail := l.setups[(r.organizationId, r.setupId)];
      (after, outcome)
      == AddedOnTop(t, r, snapshot, |detail.revisions|, ToRows(detail.revisions[0].items), detail.name)
  {
    var key := (r.organizationId, r.setupId);
    SomeRevisionIsLatest(t, l, key);
    assert MirrorsSetup(t, key.0, l.setups[key]);
    var latest :| IsLatest(t, key, latest)
      && (after, outcome) == AddedOnTop(
           t, r, snapshot, t.revisions[(key.0, latest)].number, RowsOf(t, key.0, latest), t.setups[key]);
    LatestIsTheNewest(t, l, key, latest);
  }

  // ----- a setup that is full -----

  /** The n-th ideograph. */
  function ShortName(n: nat): string
    requires n < MAX_ITEMS
  {
    [(0x4E00 + n) as char]
  }

  function FullItems(): seq<Item> {
    seq(MAX_ITEMS, n requires 0 <= n < MAX_ITEMS => Item(0, "a", "d", "p", "t", ShortName(n), "s", 1))
  }

  const FULL_DETAIL := Detail(0, "s", [SetupRevision(Summary(0, 0, "s", 1, MAX_ITEMS, 0), FullItems())])
  const SNAPSHOT := LibrarySnapshot("a", "d", "p", {"t"})
  const ADDITION := AddRecord(
    0, 1, 0, 1, 7, "d", ExistingSetup(0, 1), [Target("t", ShortName(0))],
    RequestDigest(7, "d", ExistingSetup(0, 1), [Target("t", ShortName(0))]))

  /** One setup with as many items as a setup may have, and one library snapshot. */
  function FullLibrary(fold: Fold): Library {
    Library(map[0 := FullItems()], map[0 := {fold("s")}], map[(0, 0) := FULL_DETAIL], map[(0, 7) := SNAPSHOT], map[])
  }

  function FullTables(): Tables {
    Tables(map[(0, 0) := "s"], map[(0, 0) := RevisionRow(0, 1, 0)], map[(0, 0) := ToRows(FullItems())], map[])
  }

  lemma FullLibraryIsOk(fold: Fold)
    ensures LibraryOk(FullLibrary(fold), fold)
  {
    forall i, j | 0 <= i < j < |FullItems()|
      ensures FullItems()[i].toolId != FullItems()[j].toolId || FullItems()[i].targetName != FullItems()[j].targetName
    {
      assert ShortName(i)[0] != ShortName(j)[0];
    }
    assert RevisionOk(FULL_DETAIL, FULL_DETAIL.revisions[0], 1);
    assert (0, 0) in FullLibrary(fold).setups;
  }

  lemma FullTablesMirror(fold: Fold)
    ensures Mirrors(FullTables(), FullLibrary(fold))
  {
    assert MirrorsRevision(FullTables(), 0, FULL_DETAIL.revisions[0]);
    assert FULL_DETAIL.revisions[0].summary.setupRevisionId == 0;
  }

  lemma MemoryRefusesTheTarget(fold: Fold)
    ensures AddSkill(FullLibrary(fold), ADDITION, fold) == (FullLibrary(fold), TargetConflict)
  {
    assert FullItems()[0] in FullItems();
    assert Occupied(FullItems(), ADDITION.targets);
  }

  lemma DatabaseRefusesTheSize(lower: Fold)
    ensures Adds(FullTables(), ADDITION, Surroundings(true, Some(SNAPSHOT), true), lower,
                 FullTables(), Answer(InvalidItems))
  {
    assert IsLatest(FullTables(), (0, 0), 0);
  }

  /** The two do differ: add a skill to the full setup under a name it already has. */
  lemma AFullSetupDivides(fold: Fold, lower: Fold)
    ensures var around := Surroundings(true, Some(SNAPSHOT), true);
      && Comparable(FullTables(), FullLibrary(fold), ADDITION, around, fold)
      && AddSkill(FullLibrary(fold), ADDITION, fold) == (FullLibrary(fold), TargetConflict)
      && Adds(FullTables(), ADDITION, around, lower, FullTables(), Answer(InvalidItems))
  {
    FullLibraryIsOk(fold);
    FullTablesMirror(fold);
    MemoryRefusesTheTarget(fold);
    DatabaseRefusesTheSize(lower);
  }
}
