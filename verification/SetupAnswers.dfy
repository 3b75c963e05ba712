/** When creating, publishing and extending setups answers what, and what the new revision holds. */
module SetupAnswers {
  import opened Protocol
  import opened Setups
  import opened ArtifactPaths
  import Sorting

  // ----- selected items -----

  /** The item is the last one available under the selection's key. */
  predicate LastUnderKey(items: seq<Item>, s: Selection, i: nat) {
    && i < |items|
    && items[i].sourceSetupRevisionId == s.sourceSetupRevisionId && items[i].artifactId == s.artifactId
    && items[i].toolId == s.toolId && items[i].targetName == s.targetName
    && forall j | i < j < |items| ::
         items[j].sourceSetupRevisionId != s.sourceSetupRevisionId || items[j].artifactId != s.artifactId
         || items[j].toolId != s.toolId || items[j].targetName != s.targetName
  }

  /** The selection is of an item that is available and has not changed. */
  ghost predicate CanSelect(items: seq<Item>, s: Selection) {
    exists i: nat :: LastUnderKey(items, s, i) && items[i].contentDigest == s.contentDigest
  }

  lemma {:induction false} AvailableIsTheLast(items: seq<Item>, s: Selection)
    ensures match Available(items, s)
      case None => forall i: nat :: !LastUnderKey(items, s, i)
      case Some(item) => exists i: nat :: LastUnderKey(items, s, i) && items[i] == item
  {
    if items != [] {
      var n := |items| - 1;
      AvailableIsTheLast(items[..n], s);
      if Meets(items[n], s) {
        assert LastUnderKey(items, s, n);
      } else {
        forall i: nat ensures LastUnderKey(items, s, i) <==> LastUnderKey(items[..n], s, i) {
          assert forall j | 0 <= j < n :: items[..n][j] == items[j];
        }
      }
    }
  }

  lemma OnlyOneIsLast(items: seq<Item>, s: Selection, i: nat, j: nat)
    requires LastUnderKey(items, s, i) && LastUnderKey(items, s, j)
    ensures i == j
  {
  }

  /** The item at a place of the selection. */
  ghost predicate Selects(items: seq<Item>, s: Selection, item: Item) {
    item.contentDigest == s.contentDigest && exists i: nat :: LastUnderKey(items, s, i) && items[i] == item
  }

  lemma SelectableMeans(items: seq<Item>, s: Selection)
    ensures CanSelect(items, s) <==>
      Available(items, s).Some? && Available(items, s).value.contentDigest == s.contentDigest
    ensures CanSelect(items, s) ==> Selects(items, s, Available(items, s).value)
  {
    AvailableIsTheLast(items, s);
    if Available(items, s).Some? {
      var i: nat :| LastUnderKey(items, s, i) && items[i] == Available(items, s).value;
      forall j: nat | LastUnderKey(items, s, j) ensures j == i { OnlyOneIsLast(items, s, i, j); }
    }
  }

  lemma {:induction false} SelectedAreTheLast(items: seq<Item>, selections: seq<Selection>)
    ensures Selected(items, selections).Some? <==> forall s | s in selections :: CanSelect(items, s)
    ensures Selected(items, selections).Some? ==>
      && |Selected(items, selections).value| == |selections|
      && forall k | 0 <= k < |selections| :: Selects(items, selections[k], Selected(items, selections).value[k])
  {
    if selections != [] {
      var n := |selections| - 1;
      SelectedAreTheLast(items, selections[..n]);
      SelectableMeans(items, selections[n]);
      assert selections == selections[..n] + [selections[n]];
      assert forall s :: s in selections <==> s in selections[..n] || s == selections[n];
    }
  }

  // ----- the new revision -----

  /** The item as `from` is, under the name and number of its new revision. */
  predicate Stamps(item: Item, from: Item, revision: RevisionId, name: string, number: nat) {
    && item.sourceSetupRevisionId == revision && item.sourceSetupName == name && item.sourceRevisionNumber == number
    && item.artifactId == from.artifactId && item.contentDigest == from.contentDigest
    && item.portableSource == from.portableSource && item.toolId == from.toolId && item.targetName == from.targetName
  }

  predicate Summarizes(
    s: Summary, setup: SetupId, revision: RevisionId, name: string, number: nat, count: nat, at: Time)
  {
    && s.setupId == setup && s.setupRevisionId == revision && s.name == name && s.revisionNumber == number
    && s.itemCount == count && s.createdAt == at
  }

  /** The library after `revision` was put in front of a setup: nothing else has changed but the
      list of available items, which its items extend. */
  ghost predicate PutInFront(
    l: Library, next: Library, org: Organization, setup: SetupId, name: string, older: seq<SetupRevision>,
    revision: SetupRevision)
  {
    && next.setups.Keys == l.setups.Keys + {(org, setup)}
    && next.setups[(org, setup)] == Detail(setup, name, [revision] + older)
    && (forall key | key in l.setups && key != (org, setup) :: next.setups[key] == l.setups[key])
    && next.items == l.items[org := (if org in l.items then l.items[org] else []) + revision.items]
    && next.snapshots == l.snapshots
  }

  /** The name is taken by a setup of the organization, up to case. */
  predicate Taken(l: Library, org: Organization, name: string, fold: Fold) {
    org in l.names && fold(name) in l.names[org]
  }

  predicate NameAdded(l: Library, next: Library, org: Organization, name: string, fold: Fold) {
    next.names == l.names[org := (if org in l.names then l.names[org] else {}) + {fold(name)}]
  }

  ghost predicate StampsSelected(
    item: Item, items: seq<Item>, s: Selection, id: RevisionId, name: string, number: nat)
  {
    exists from :: Selects(items, s, from) && Stamps(item, from, id, name, number)
  }

  /** What holds of a revision made of selected items. */
  ghost predicate HoldsSelected(
    revision: SetupRevision, items: seq<Item>, selections: seq<Selection>,
    setup: SetupId, id: RevisionId, name: string, number: nat, at: Time)
  {
    && |revision.items| == |selections|
    && Summarizes(revision.summary, setup, id, name, number, |selections|, at)
    && forall k | 0 <= k < |selections| ::
         StampsSelected(revision.items[k], items, selections[k], id, name, number)
  }

  lemma StampedSelectionsHold(
    items: seq<Item>, selections: seq<Selection>, setup: SetupId, id: RevisionId, name: string, number: nat, at: Time)
    requires Selected(items, selections).Some?
    ensures var stamped := RestampAll(Selected(items, selections).value, id, name, number);
      HoldsSelected(SetupRevision(Summary(setup, id, name, number, |stamped|, at), stamped),
                    items, selections, setup, id, name, number, at)
  {
    SelectedAreTheLast(items, selections);
    var stamped := RestampAll(Selected(items, selections).value, id, name, number);
    forall k | 0 <= k < |selections|
      ensures StampsSelected(stamped[k], items, selections[k], id, name, number)
    {
      var from := Selected(items, selections).value[k];
      assert Selects(items, selections[k], from) && Stamps(stamped[k], from, id, name, number);
    }
  }

  function Stock(l: Library, org: Organization): seq<Item> { if org in l.items then l.items[org] else [] }

  /** Creating a setup is refused exactly for a taken name or an item that is gone or has changed;
      otherwise its first revision holds the selected items. */
  lemma CreationAnswersExactly(l: Library, r: CreateRecord, fold: Fold)
    ensures var (next, outcome) := Create(l, r, fold);
      var org := r.organizationId;
      && (outcome == NameTaken <==> Taken(l, org, r.name, fold))
      && (outcome == ItemUnavailable <==>
            !Taken(l, org, r.name, fold) && exists s :: s in r.items && !CanSelect(Stock(l, org), s))
      && (!outcome.SetupCreated? ==> next == l)
      && (outcome.SetupCreated? ==>
            && NameAdded(l, next, org, r.name, fold) && next.publications == l.publications
            && exists revision: SetupRevision ::
                 && revision.summary == outcome.revision
                 && HoldsSelected(revision, Stock(l, org), r.items, r.setupId, r.setupRevisionId, r.name, 1,
                                  r.createdAt)
                 && PutInFront(l, next, org, r.setupId, r.name, [], revision))
  {
    SelectedAreTheLast(Stock(l, r.organizationId), r.items);
    var (next, outcome) := Create(l, r, fold);
    if outcome.SetupCreated? {
      StampedSelectionsHold(
        Stock(l, r.organizationId), r.items, r.setupId, r.setupRevisionId, r.name, 1, r.createdAt);
      var revision := next.setups[(r.organizationId, r.setupId)].revisions[0];
      assert PutInFront(l, next, r.organizationId, r.setupId, r.name, [], revision);
    }
  }

  /** Publishing answers whether the setup is there, then whether the expected number is that of its
      newest revision, then whether every item can be selected. */
  lemma PublicationAnswersExactly(l: Library, r: PublishRecord)
    ensures var (next, outcome) := Publish(l, r);
      var (org, key) := (r.organizationId, (r.organizationId, r.setupId));
      if key !in l.setups then outcome == SetupMissing && next == l
      else if l.setups[key].revisions == []
              || l.setups[key].revisions[0].summary.revisionNumber != r.expectedRevisionNumber
      then outcome == RevisionConflict && next == l
      else if exists s :: s in r.items && !CanSelect(Stock(l, org), s)
      then outcome == PublishedItemUnavailable && next == l
      else
        && outcome.RevisionCreated? && next.names == l.names && next.publications == l.publications
        && exists revision: SetupRevision ::
             && revision.summary == outcome.revision
             && HoldsSelected(revision, Stock(l, org), r.items, r.setupId, r.setupRevisionId, l.setups[key].name,
                              r.expectedRevisionNumber + 1, r.createdAt)
             && (l.setups[key].setupId == r.setupId ==>
                   PutInFront(l, next, org, r.setupId, l.setups[key].name, l.setups[key].revisions, revision))
  {
    var key := (r.organizationId, r.setupId);
    SelectedAreTheLast(Stock(l, r.organizationId), r.items);
    var (next, outcome) := Publish(l, r);
    if outcome.RevisionCreated? {
      StampedSelectionsHold(
        Stock(l, r.organizationId), r.items, r.setupId, r.setupRevisionId, l.setups[key].name,
        r.expectedRevisionNumber + 1, r.createdAt);
      var revision := next.setups[key].revisions[0];
      if l.setups[key].setupId == r.setupId {
        assert PutInFront(l, next, r.organizationId, r.setupId, l.setups[key].name, l.setups[key].revisions, revision);
      }
    }
  }

  // ----- a library skill -----

  /** The snapshot is there, is the one meant, and supports every tool. */
  predicate SnapshotServes(l: Library, r: AddRecord) {
    && (r.organizationId, r.snapshotJobId) in l.snapshots
    && var snapshot := l.snapshots[(r.organizationId, r.snapshotJobId)];
       && snapshot.contentDigest == r.contentDigest
       && forall t | t in r.targets :: t.toolId in snapshot.supportedTools
  }

  /** What holds of a revision with the skill added: the older items carried forward, then the
      snapshot once for each target. */
  predicate HoldsAdded(
    revision: SetupRevision, carried: seq<Item>, snapshot: LibrarySnapshot, targets: seq<Target>,
    setup: SetupId, id: RevisionId, name: string, number: nat, at: Time)
  {
    && |revision.items| == |carried| + |targets|
    && Summarizes(revision.summary, setup, id, name, number, |revision.items|, at)
    && (forall k | 0 <= k < |carried| :: Stamps(revision.items[k], carried[k], id, name, number))
    && forall k | 0 <= k < |targets| ::
         var item := revision.items[|carried| + k];
         && item.sourceSetupRevisionId == id && item.sourceSetupName == name && item.sourceRevisionNumber == number
         && item.artifactId == snapshot.artifactId && item.contentDigest == snapshot.contentDigest
         && item.portableSource == snapshot.portableSource
         && item.toolId == targets[k].toolId && item.targetName == targets[k].targetName
  }

  predicate TargetInUse(items: seq<Item>, targets: seq<Target>) {
    exists i, t :: 0 <= i < |items| && t in targets
                   && items[i].toolId == t.toolId && items[i].targetName == t.targetName
  }

  /** What stands against an addition, once its snapshot is settled. */
  datatype Obstacle = NoSetup | StaleNumber | UsedTarget | TooMany | UsedName | Nothing

  function ObstacleTo(l: Library, r: AddRecord, fold: Fold): Obstacle {
    match r.destination
    case NewSetup(name) => if Taken(l, r.organizationId, name, fold) then UsedName else Nothing
    case ExistingSetup(_, expected) =>
      var key := (r.organizationId, r.setupId);
      if key !in l.setups then NoSetup
      else if l.setups[key].revisions == [] || l.setups[key].revisions[0].summary.revisionNumber != expected
      then StaleNumber
      else if TargetInUse(l.setups[key].revisions[0].items, r.targets) then UsedTarget
      else if |l.setups[key].revisions[0].items| + |r.targets| > 5_000 then TooMany
      else Nothing
  }

  ghost predicate IsAdded(l: Library, r: AddRecord, fold: Fold, next: Library, revision: SetupRevision)
    requires SnapshotServes(l, r)
  {
    var (org, key) := (r.organizationId, (r.organizationId, r.setupId));
    var snapshot := l.snapshots[(org, r.snapshotJobId)];
    && next.publications == l.publications[(org, r.snapshotJobId) := Publication(r.requestDigest, revision.summary)]
    && match r.destination
       case NewSetup(name) =>
         && NameAdded(l, next, org, name, fold)
         && PutInFront(l, next, org, r.setupId, name, [], revision)
         && HoldsAdded(revision, [], snapshot, r.targets, r.setupId, r.setupRevisionId, name, 1, r.createdAt)
       case ExistingSetup(_, expected) =>
         && next.names == l.names && key in l.setups && l.setups[key].revisions != []
         && (l.setups[key].setupId == r.setupId ==>
               PutInFront(l, next, org, r.setupId, l.setups[key].name, l.setups[key].revisions, revision))
         && HoldsAdded(revision, l.setups[key].revisions[0].items, snapshot, r.targets, l.setups[key].setupId,
                       r.setupRevisionId, l.setups[key].name, expected + 1, r.createdAt)
  }

  /** Adding a library skill answers for its snapshot first, then for an earlier publication of it,
      then for what stands in the way, and otherwise puts a revision with the skill in front. */
  lemma AdditionAnswersExactly(l: Library, r: AddRecord, fold: Fold)
    ensures var (next, outcome) := AddSkill(l, r, fold);
      var job := (r.organizationId, r.snapshotJobId);
      if !SnapshotServes(l, r) then outcome == SnapshotUnavailable && next == l
      else if job in l.publications then
        && next == l
        && outcome == (if l.publications[job].digest == r.requestDigest
                       then SkillAdded(l.publications[job].revision) else PublicationConflict)
      else match ObstacleTo(l, r, fold)
        case NoSetup => outcome == SetupNotFound && next == l
        case StaleNumber => outcome == SetupRevisionConflict && next == l
        case UsedTarget => outcome == TargetConflict && next == l
        case TooMany => outcome == InvalidItems && next == l
        case UsedName => outcome == SetupNameTaken && next == l
        case Nothing =>
          outcome.SkillAdded? && exists revision: SetupRevision ::
            revision.summary == outcome.revision && IsAdded(l, r, fold, next, revision)
  {
    ObstaclesAlike(l, r, fold);
    var (next, outcome) := AddSkill(l, r, fold);
    if SnapshotServes(l, r) && (r.organizationId, r.snapshotJobId) !in l.publications
       && ObstacleTo(l, r, fold).Nothing?
    {
      match r.destination {
        case NewSetup(name) =>
          NewSetupIsAdded(l, r, fold, name);
        case ExistingSetup(_, _) =>
          SetupIsExtended(l, r, fold);
      }
    }
  }

  lemma ObstaclesAlike(l: Library, r: AddRecord, fold: Fold)
    ensures SnapshotFits(l, r) <==> SnapshotServes(l, r)
    ensures r.destination.ExistingSetup? ==> AddObjection(l, r) == match ObstacleTo(l, r, fold)
      case NoSetup => Some(SetupNotFound)
      case StaleNumber => Some(SetupRevisionConflict)
      case UsedTarget => Some(TargetConflict)
      case TooMany => Some(InvalidItems)
      case _ => None
  {
    if r.destination.ExistingSetup? && (r.organizationId, r.setupId) in l.setups
       && l.setups[(r.organizationId, r.setupId)].revisions != []
    {
      InUseMeansOccupied(l.setups[(r.organizationId, r.setupId)].revisions[0].items, r.targets);
    }
  }

  lemma InUseMeansOccupied(items: seq<Item>, targets: seq<Target>)
    ensures Occupied(items, targets) <==> TargetInUse(items, targets)
  {
    if Occupied(items, targets) {
      var item, t :| item in items && t in targets && t.toolId == item.toolId && t.targetName == item.targetName;
      var i :| 0 <= i < |items| && items[i] == item;
    }
  }

  lemma AddedRevisionHolds(
    carried: seq<Item>, snapshot: LibrarySnapshot, targets: seq<Target>,
    setup: SetupId, id: RevisionId, name: string, number: nat, at: Time)
    ensures var items := RestampAll(carried + FromTargets(snapshot, targets), id, name, number);
      HoldsAdded(SetupRevision(Summary(setup, id, name, number, |items|, at), items),
                 carried, snapshot, targets, setup, id, name, number, at)
  {
  }

  lemma PrependingPutsInFront(l: Library, org: Organization, detail: Detail, revision: SetupRevision)
    ensures PutInFront(
      l, Prepend(l, org, detail, revision), org, detail.setupId, detail.name, detail.revisions, revision)
  {
  }

  /** The revision that an addition makes. */
  function AddedRevision(l: Library, r: AddRecord, detail: Detail, number: nat): SetupRevision
    requires (r.organizationId, r.snapshotJobId) in l.snapshots
  {
    var carried := if detail.revisions == [] then [] else detail.revisions[0].items;
    var items := RestampAll(carried + FromTargets(l.snapshots[(r.organizationId, r.snapshotJobId)], r.targets),
                            r.setupRevisionId, detail.name, number);
    SetupRevision(Summary(detail.setupId, r.setupRevisionId, detail.name, number, |items|, r.createdAt), items)
  }

  lemma AddingPrepends(l: Library, r: AddRecord, detail: Detail, number: nat)
    requires SnapshotFits(l, r)
    ensures var revision := AddedRevision(l, r, detail, number);
      AddTo(l, r, detail, number)
      == (Prepend(l, r.organizationId, detail, revision).(publications :=
            l.publications[(r.organizationId, r.snapshotJobId) := Publication(r.requestDigest, revision.summary)]),
          SkillAdded(revision.summary))
  {
  }

  lemma NewSetupIsAdded(l: Library, r: AddRecord, fold: Fold, name: string)
    requires SnapshotServes(l, r) && SnapshotFits(l, r) && (r.organizationId, r.snapshotJobId) !in l.publications
    requires r.destination == NewSetup(name) && !Taken(l, r.organizationId, name, fold)
    ensures var (next, outcome) := AddSkill(l, r, fold);
      outcome.SkillAdded? && exists revision: SetupRevision ::
        revision.summary == outcome.revision && IsAdded(l, r, fold, next, revision)
  {
    var named := l.(names := l.names[r.organizationId := NamesOf(l, r.organizationId) + {fold(name)}]);
    var detail := Detail(r.setupId, name, []);
    AddingPrepends(named, r, detail, 1);
    var revision := AddedRevision(named, r, detail, 1);
    PrependingPutsInFront(named, r.organizationId, detail, revision);
    AddedRevisionHolds([], l.snapshots[(r.organizationId, r.snapshotJobId)], r.targets, r.setupId,
                       r.setupRevisionId, name, 1, r.createdAt);
    assert IsAdded(l, r, fold, AddSkill(l, r, fold).0, revision);
  }

  lemma SetupIsExtended(l: Library, r: AddRecord, fold: Fold)
    requires SnapshotServes(l, r) && SnapshotFits(l, r) && (r.organizationId, r.snapshotJobId) !in l.publications
    requires r.destination.ExistingSetup? && AddObjection(l, r) == None
    ensures var (next, outcome) := AddSkill(l, r, fold);
      outcome.SkillAdded? && exists revision: SetupRevision ::
        revision.summary == outcome.revision && IsAdded(l, r, fold, next, revision)
  {
    var detail := l.setups[(r.organizationId, r.setupId)];
    var number := r.destination.expectedRevisionNumber + 1;
    var revision := AddedRevision(l, r, detail, number);
    AddingPrepends(l, r, detail, number);
    assert AddSkill(l, r, fold) == AddTo(l, r, detail, number);
    ExtensionIsAdded(l, r, fold, detail, revision, AddSkill(l, r, fold).0);
  }

  lemma ExtensionIsAdded(
    l: Library, r: AddRecord, fold: Fold, detail: Detail, revision: SetupRevision, next: Library)
    requires SnapshotServes(l, r) && r.destination.ExistingSetup? && (r.organizationId, r.setupId) in l.setups
    requires detail == l.setups[(r.organizationId, r.setupId)] && detail.revisions != []
    requires revision == AddedRevision(l, r, detail, r.destination.expectedRevisionNumber + 1)
    requires next == Prepend(l, r.organizationId, detail, revision).(publications :=
      l.publications[(r.organizationId, r.snapshotJobId) := Publication(r.requestDigest, revision.summary)])
    ensures IsAdded(l, r, fold, next, revision)
  {
    PrependingPutsInFront(l, r.organizationId, detail, revision);
    AddedRevisionHolds(detail.revisions[0].items, l.snapshots[(r.organizationId, r.snapshotJobId)], r.targets,
                       detail.setupId, r.setupRevisionId, detail.name, r.destination.expectedRevisionNumber + 1,
                       r.createdAt);
  }

  // ----- what the service makes of a request -----

  /** The white space that trimming removes. */
  predicate IsWhite(c: char) {
    var n := c as int;
    || n in {9, 10, 11, 12, 13, 32, 160, 0x1680, 0x2028, 0x2029, 0x202F, 0x205F, 0x3000, 0xFEFF}
    || 0x2000 <= n < 0x200B
  }

  /** `t` is `s` without the white space around it. */
  ghost predicate TrimsTo(s: string, t: string) {
    && (t != [] ==> !IsWhite(t[0]) && !IsWhite(t[|t| - 1]))
    && exists before, after :: s == before + t + after && AllWhite(before) && AllWhite(after)
  }

  predicate AllWhite(s: string) { forall c | c in s :: IsWhite(c) }

  lemma {:induction false} TrimStartMeans(s: string) returns (before: string)
    ensures s == before + TrimStart(s) && AllWhite(before)
    ensures TrimStart(s) != [] ==> !IsWhite(TrimStart(s)[0])
  {
    if s != [] && IsSpace(s[0]) {
      var rest := TrimStartMeans(s[1..]);
      before := [s[0]] + rest;
      assert s == [s[0]] + s[1..];
    } else {
      before := [];
      assert s == before + s;
    }
  }

  lemma {:induction false} TrimEndMeans(s: string) returns (after: string)
    ensures s == TrimEnd(s) + after && AllWhite(after)
    ensures TrimEnd(s) != [] ==> !IsWhite(TrimEnd(s)[|TrimEnd(s)| - 1]) && TrimEnd(s)[0] == s[0]
  {
    if s != [] && IsSpace(s[|s| - 1]) {
      var rest := TrimEndMeans(s[..|s| - 1]);
      after := rest + [s[|s| - 1]];
      assert s == s[..|s| - 1] + [s[|s| - 1]];
    } else {
      after := [];
      assert s == s + after;
    }
  }

  lemma TrimMeans(s: string)
    ensures TrimsTo(s, Trim(s))
  {
    var before := TrimStartMeans(s);
    var after := TrimEndMeans(TrimStart(s));
    assert s == before + Trim(s) + after;
  }

  /** Given, and not too long. */
  predicate IsGiven(s: string) { (exists c | c in s :: !IsWhite(c)) && Utf16Length(s) <= 200 }

  lemma RequiredMeansGiven(s: string)
    ensures RequiredIdentifier(s) <==> IsGiven(s)
  {
    TrimMeans(s);
    var before, after :| s == before + Trim(s) + after && AllWhite(before) && AllWhite(after);
    if Trim(s) != [] { assert Trim(s)[0] in s; }
  }

  predicate AllGiven(s: Selection) {
    IsGiven(s.artifactId) && IsGiven(s.contentDigest) && IsGiven(s.toolId) && IsGiven(s.targetName)
  }

  ghost predicate TrimsAll(s: Selection, t: Selection) {
    && t.sourceSetupRevisionId == s.sourceSetupRevisionId
    && TrimsTo(s.artifactId, t.artifactId) && TrimsTo(s.contentDigest, t.contentDigest)
    && TrimsTo(s.toolId, t.toolId) && TrimsTo(s.targetName, t.targetName)
  }

  predicate OneDestination(a: Selection, b: Selection) {
    Trim(a.toolId) == Trim(b.toolId) && Trim(a.targetName) == Trim(b.targetName)
  }

  /** The service takes 1 to 5,000 complete items for as many destinations, and passes them on
      trimmed. */
  lemma ValidationAnswersExactly(items: seq<Selection>)
    ensures ValidatedItems(items).Some? <==> 1 <= |items| <= 5_000 && AllComplete(items) && AllApart(items)
    ensures ValidatedItems(items).Some? ==>
      && |ValidatedItems(items).value| == |items|
      && forall k | 0 <= k < |items| :: TrimsAll(items[k], ValidatedItems(items).value[k])
  {
    ValidatedExactlyWhen(items);
    CompleteMeansAllGiven(items);
    ApartMeansDistinct(items);
    forall k | 0 <= k < |items| ensures TrimsAll(items[k], NormalizedAll(items)[k]) {
      NormalizedMeansTrimmed(items[k]);
    }
  }

  predicate AllComplete(items: seq<Selection>) { forall s | s in items :: AllGiven(s) }

  predicate AllApart(items: seq<Selection>) {
    forall i, j | 0 <= i < j < |items| :: !OneDestination(items[i], items[j])
  }

  lemma ValidatedExactlyWhen(items: seq<Selection>)
    ensures ValidatedItems(items).Some? <==>
      && 1 <= |items| <= 5_000 && (forall s | s in items :: Complete(s)) && DistinctDestinations(NormalizedAll(items))
    ensures ValidatedItems(items).Some? ==> ValidatedItems(items).value == NormalizedAll(items)
  {
    DestinationsAreDistinct(NormalizedAll(items));
  }

  lemma CompleteMeansAllGiven(items: seq<Selection>)
    ensures AllComplete(items) <==> forall s | s in items :: Complete(s)
  {
    forall s | s in items ensures Complete(s) <==> AllGiven(s) { CompleteMeansGiven(s); }
  }

  lemma ApartMeansDistinct(items: seq<Selection>)
    ensures AllApart(items) <==> DistinctDestinations(NormalizedAll(items))
  {
    var valid := NormalizedAll(items);
    forall i, j | 0 <= i < j < |items|
      ensures OneDestination(items[i], items[j]) <==> DestinationKey(valid[i]) == DestinationKey(valid[j])
    {
    }
  }

  lemma CompleteMeansGiven(s: Selection)
    ensures Complete(s) <==> AllGiven(s)
  {
    RequiredMeansGiven(s.artifactId);
    RequiredMeansGiven(s.contentDigest);
    RequiredMeansGiven(s.toolId);
    RequiredMeansGiven(s.targetName);
  }

  lemma NormalizedMeansTrimmed(s: Selection)
    ensures TrimsAll(s, Normalized(s))
  {
    TrimMeans(s.artifactId);
    TrimMeans(s.contentDigest);
    TrimMeans(s.toolId);
    TrimMeans(s.targetName);
  }

  /** Distinct destinations make distinct selections. */
  lemma DestinationsAreDistinct(items: seq<Selection>)
    ensures (|set s | s in items :: SelectionKey(s)| == |items| && |set s | s in items :: DestinationKey(s)| == |items|)
            <==> DistinctDestinations(items)
  {
    var keys := seq(|items|, i requires 0 <= i < |items| => SelectionKey(items[i]));
    assert (set s | s in items :: SelectionKey(s)) == (set x | x in keys) by {
      forall s | s in items ensures SelectionKey(s) in keys {
        var i :| 0 <= i < |items| && items[i] == s;
        assert keys[i] == SelectionKey(s);
      }
      forall x | x in keys ensures x in set s | s in items :: SelectionKey(s) {
        var i :| 0 <= i < |keys| && keys[i] == x;
        assert items[i] in items;
      }
    }
    FullSetsAreDistinct(keys);
    KeysOfTheItems(items);
    FullSetsAreDistinct(DestinationKeys(items));
    var destinations := DestinationKeys(items);
    assert forall i | 0 <= i < |items| :: destinations[i] == DestinationKey(items[i]);
    if Sorting.Distinct(destinations) {
      forall i, j | 0 <= i < j < |items| ensures DestinationKey(items[i]) != DestinationKey(items[j]) {
        assert destinations[i] != destinations[j];
      }
    }
    if DistinctDestinations(items) {
      forall i, j | 0 <= i < j < |items| ensures keys[i] != keys[j] {
        assert DestinationKey(items[i]) != DestinationKey(items[j]);
      }
    }
  }
}
