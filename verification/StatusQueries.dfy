/** In every reachable state the five queries behind a checkout's status have one answer and no
    other, so what is read off the rows is said of the tables. */
module StatusQueries {
  import opened Protocol
  import opened JobLifecycle
  import opened Invariants
  import opened ControlPlaneRuns
  import opened ReadSide
  import opened TableFacts
  import opened StatusAnswers
  import CP = ControlPlane

  // ----- what each query selects, read off the tables -----

  predicate IsPlanJob(row: JobRow, org: OrganizationId, instance: InstanceId) {
    OfCheckout(row, org, instance) && row.envelope.job.PlanSetup?
  }

  predicate PlansSucceeded(row: JobRow, org: OrganizationId, instance: InstanceId, revision: Option<RevisionId>) {
    && IsPlanJob(row, org, instance) && row.state == Succeeded && row.result.Some?
    && revision == Some(row.envelope.job.revision.setupRevisionId)
  }

  predicate InProgress(row: JobRow, org: OrganizationId, instance: InstanceId) {
    OfCheckout(row, org, instance) && Operates(row)
    && (row.state == Pending || row.state == Leased || row.state == Acknowledged)
  }

  predicate IssuedNoEarlier(a: JobRow, b: JobRow) {
    a.envelope.issuedAt > b.envelope.issuedAt
    || (a.envelope.issuedAt == b.envelope.issuedAt && a.envelope.jobId >= b.envelope.jobId)
  }

  /** The later completion, one that is missing counting as the last; then the greater identifier. */
  predicate CompletedNoEarlier(a: JobRow, b: JobRow) {
    || (a.completedAt.None? && b.completedAt.Some?)
    || (a.completedAt.Some? && b.completedAt.Some? && a.completedAt.value > b.completedAt.value)
    || (a.completedAt == b.completedAt && a.envelope.jobId >= b.envelope.jobId)
  }

  predicate InTables(jobs: map<JobId, JobRow>, row: JobRow) {
    row.envelope.jobId in jobs && jobs[row.envelope.jobId] == row
  }

  /** The revision assigned to the checkout's project, its newest plan job, the last completed plan of
      that revision, and its oldest operation in progress; each missing exactly when there is none. */
  lemma QueriesMean(db: CP.Db, org: OrganizationId, instance: InstanceId, rows: Rows)
    requires ReadSide.Reads(db, org, instance, rows)
    ensures instance in db.instances && db.instances[instance].organizationId == org
    ensures var project := db.instances[instance].projectId;
      && (rows.assignedRevision.Some? <==> project in db.assignments)
      && (rows.assignedRevision.Some? ==> rows.assignedRevision.value == db.assignments[project])
    ensures match rows.planAttempt
      case None => forall id | id in db.jobs :: !IsPlanJob(db.jobs[id], org, instance)
      case Some(row) =>
        && InTables(db.jobs, row) && IsPlanJob(row, org, instance)
        && forall id | id in db.jobs && IsPlanJob(db.jobs[id], org, instance) :: IssuedNoEarlier(row, db.jobs[id])
    ensures match rows.assignedPlan
      case None => forall id | id in db.jobs :: !PlansSucceeded(db.jobs[id], org, instance, rows.assignedRevision)
      case Some(row) =>
        && InTables(db.jobs, row) && PlansSucceeded(row, org, instance, rows.assignedRevision)
        && forall id | id in db.jobs && PlansSucceeded(db.jobs[id], org, instance, rows.assignedRevision) ::
             CompletedNoEarlier(row, db.jobs[id])
    ensures match rows.active
      case None => forall id | id in db.jobs :: !InProgress(db.jobs[id], org, instance)
      case Some(row) =>
        && InTables(db.jobs, row) && InProgress(row, org, instance)
        && forall id | id in db.jobs && InProgress(db.jobs[id], org, instance) ::
             IssuedNoEarlier(db.jobs[id], row)
  {
    forall id | id in db.jobs
      ensures InProgress(db.jobs[id], org, instance) <==> CP.ActiveOperation(db.jobs[id], org, instance)
    {
    }
  }

  // ----- one row that comes first -----

  ghost predicate Ranks(s: set<JobId>, before: (JobId, JobId) -> bool) {
    && (forall a, b | a in s && b in s :: before(a, b) || before(b, a))
    && forall a, b, c | a in s && b in s && c in s :: before(a, b) && before(b, c) ==> before(a, c)
  }

  lemma {:induction false} FirstExists(s: set<JobId>, before: (JobId, JobId) -> bool) returns (first: JobId)
    requires s != {} && Ranks(s, before)
    ensures first in s && forall other | other in s :: before(first, other)
    decreases s
  {
    var x :| x in s;
    var rest := s - {x};
    assert before(x, x);
    if rest == {} {
      assert s == {x};
      first := x;
    } else {
      var y := FirstExists(rest, before);
      first := if before(x, y) then x else y;
      forall other | other in s ensures before(first, other) {
        if other != x { assert other in rest; }
      }
    }
  }

  // ----- the list of operations -----

  /** The first `n` of the rows, newest first. */
  ghost predicate NewestList(jobs: map<JobId, JobRow>, s: set<JobId>, n: nat, rows: seq<JobRow>) {
    && |rows| <= n
    && (forall row | row in rows :: row.envelope.jobId in s && InTables(jobs, row))
    && (forall i, j | 0 <= i < j < |rows| ::
          rows[i].envelope.jobId != rows[j].envelope.jobId && NoOlder(rows[i], rows[j]))
    && forall id | id in s && id in jobs && jobs[id] !in rows ::
         |rows| == n && forall row | row in rows :: NoOlder(row, jobs[id])
  }

  predicate Keyed(jobs: map<JobId, JobRow>, s: set<JobId>) {
    forall id | id in s :: id in jobs && jobs[id].envelope.jobId == id
  }

  function ByAge(jobs: map<JobId, JobRow>): (JobId, JobId) -> bool {
    (a, b) => a in jobs && b in jobs && NoOlder(jobs[a], jobs[b])
  }

  lemma NoOlderIsTransitive(a: JobRow, b: JobRow, c: JobRow)
    requires NoOlder(a, b) && NoOlder(b, c)
    ensures NoOlder(a, c)
  {
  }

  lemma AgesRank(jobs: map<JobId, JobRow>, s: set<JobId>)
    requires Keyed(jobs, s)
    ensures Ranks(s, ByAge(jobs))
  {
    var before := ByAge(jobs);
    forall a, b | a in s && b in s ensures before(a, b) || before(b, a) {
      assert NoOlder(jobs[a], jobs[b]) || NoOlder(jobs[b], jobs[a]);
    }
    forall a, b, c | a in s && b in s && c in s && before(a, b) && before(b, c) ensures before(a, c) {
      NoOlderIsTransitive(jobs[a], jobs[b], jobs[c]);
    }
  }

  lemma {:induction false} ListExists(jobs: map<JobId, JobRow>, s: set<JobId>, n: nat) returns (rows: seq<JobRow>)
    requires Keyed(jobs, s)
    ensures NewestList(jobs, s, n, rows)
    decreases n
  {
    if n == 0 || s == {} {
      rows := [];
    } else {
      AgesRank(jobs, s);
      var first := FirstExists(s, ByAge(jobs));
      var rest := ListExists(jobs, s - {first}, n - 1);
      assert forall other | other in s :: ByAge(jobs)(first, other);
      rows := [jobs[first]] + rest;
      ListGrows(jobs, s, n, first, rest);
    }
  }

  lemma ListGrows(jobs: map<JobId, JobRow>, s: set<JobId>, n: nat, first: JobId, rest: seq<JobRow>)
    requires Keyed(jobs, s) && n > 0 && first in s
    requires forall other | other in s :: NoOlder(jobs[first], jobs[other])
    requires NewestList(jobs, s - {first}, n - 1, rest)
    ensures NewestList(jobs, s, n, [jobs[first]] + rest)
  {
    var rows := [jobs[first]] + rest;
    forall i, j | 0 <= i < j < |rows|
      ensures rows[i].envelope.jobId != rows[j].envelope.jobId && NoOlder(rows[i], rows[j])
    {
      assert rows[j] == rest[j - 1] && rest[j - 1] in rest;
    }
  }

  lemma ListShrinks(jobs: map<JobId, JobRow>, s: set<JobId>, n: nat, rows: seq<JobRow>)
    requires Keyed(jobs, s) && rows != [] && NewestList(jobs, s, n, rows)
    ensures rows[0] in rows && NewestList(jobs, s - {rows[0].envelope.jobId}, n - 1, rows[1..])
    ensures forall other | other in s :: NoOlder(rows[0], jobs[other])
  {
    assert forall k | 0 < k < |rows| :: rows[k] in rows && rows[1..][k - 1] == rows[k];
    forall row | row in rows[1..] ensures row.envelope.jobId in s - {rows[0].envelope.jobId} && InTables(jobs, row) {
      var k :| 0 <= k < |rows[1..]| && rows[1..][k] == row;
      assert rows[k + 1] == row;
    }
    assert rows == [rows[0]] + rows[1..];
    forall other | other in s ensures NoOlder(rows[0], jobs[other]) {
      if jobs[other] in rows {
        var k :| 0 <= k < |rows| && rows[k] == jobs[other];
      }
    }
  }

  lemma EmptyAlike(jobs: map<JobId, JobRow>, s: set<JobId>, n: nat, rows: seq<JobRow>)
    requires Keyed(jobs, s) && NewestList(jobs, s, n, rows)
    ensures rows == [] <==> n == 0 || s == {}
  {
    if n > 0 && s != {} {
      var id :| id in s;
      assert jobs[id] in rows || |rows| == n;
    }
    if rows != [] { assert rows[0] in rows; }
  }

  lemma {:induction false} ListIsUnique(
    jobs: map<JobId, JobRow>, s: set<JobId>, n: nat, a: seq<JobRow>, b: seq<JobRow>)
    requires Keyed(jobs, s) && NewestList(jobs, s, n, a) && NewestList(jobs, s, n, b)
    ensures a == b
    decreases n
  {
    EmptyAlike(jobs, s, n, a);
    EmptyAlike(jobs, s, n, b);
    if a != [] {
      ListShrinks(jobs, s, n, a);
      ListShrinks(jobs, s, n, b);
      assert NoOlder(a[0], b[0]) && NoOlder(b[0], a[0]);
      ListIsUnique(jobs, s - {a[0].envelope.jobId}, n - 1, a[1..], b[1..]);
      assert a == [a[0]] + a[1..] && b == [b[0]] + b[1..];
    }
  }

  // ----- every query has one answer -----

  ghost function Operations(jobs: map<JobId, JobRow>, org: OrganizationId, instance: InstanceId): set<JobId> {
    set id | id in jobs && IsOperation(jobs[id], org, instance)
  }

  lemma ListedAreNewest(jobs: map<JobId, JobRow>, org: OrganizationId, instance: InstanceId, rows: seq<JobRow>)
    requires forall id | id in jobs :: jobs[id].envelope.jobId == id
    ensures NewestOperations(jobs, org, instance, rows)
            <==> NewestList(jobs, Operations(jobs, org, instance), 10, rows)
  {
    forall a: JobRow, b: JobRow ensures ListedBefore(a, b) <==> NoOlder(a, b) {}
    forall row: JobRow | InTables(jobs, row)
      ensures IsOperation(row, org, instance) <==> row.envelope.jobId in Operations(jobs, org, instance)
    {
    }
  }

  lemma OneList(jobs: map<JobId, JobRow>, org: OrganizationId, instance: InstanceId) returns (rows: seq<JobRow>)
    requires forall id | id in jobs :: jobs[id].envelope.jobId == id
    ensures forall r :: NewestOperations(jobs, org, instance, r) <==> r == rows
  {
    var s := Operations(jobs, org, instance);
    rows := ListExists(jobs, s, 10);
    forall r ensures NewestOperations(jobs, org, instance, r) <==> r == rows {
      ListedAreNewest(jobs, org, instance, r);
      if NewestOperations(jobs, org, instance, r) { ListIsUnique(jobs, s, 10, r, rows); }
    }
  }

  lemma OnePlanAttempt(jobs: map<JobId, JobRow>, org: OrganizationId, instance: InstanceId)
    returns (row: Option<JobRow>)
    requires forall id | id in jobs :: jobs[id].envelope.jobId == id
    ensures forall r :: PlanAttempt(jobs, org, instance, r) <==> r == row
  {
    var s := set id | id in jobs && IsPlan(jobs[id], org, instance);
    if s == {} {
      row := None;
      forall id | id in jobs ensures !IsPlan(jobs[id], org, instance) { assert id !in s; }
    } else {
      var before := (a, b) => a in jobs && b in jobs && CP.Before(jobs[b], jobs[a]);
      assert Ranks(s, before);
      var first := FirstExists(s, before);
      row := Some(jobs[first]);
      forall other | other in jobs && IsPlan(jobs[other], org, instance) ensures CP.Before(jobs[other], jobs[first]) {
        assert other in s && before(first, other);
      }
    }
  }

  lemma OneAssignedPlan(
    jobs: map<JobId, JobRow>, org: OrganizationId, instance: InstanceId, revision: Option<RevisionId>)
    returns (row: Option<JobRow>)
    requires forall id | id in jobs :: jobs[id].envelope.jobId == id
    ensures forall r :: AssignedPlan(jobs, org, instance, revision, r) <==> r == row
  {
    var s := set id | id in jobs && IsAssignedPlan(jobs[id], org, instance, revision);
    if s == {} {
      row := None;
      forall id | id in jobs ensures !IsAssignedPlan(jobs[id], org, instance, revision) { assert id !in s; }
    } else {
      var before := (a, b) => a in jobs && b in jobs && CompletesBefore(jobs[a], jobs[b]);
      assert Ranks(s, before);
      var first := FirstExists(s, before);
      row := Some(jobs[first]);
      forall other | other in jobs && IsAssignedPlan(jobs[other], org, instance, revision)
        ensures CompletesBefore(jobs[first], jobs[other])
      {
        assert other in s && before(first, other);
      }
    }
  }

  lemma OneActive(jobs: map<JobId, JobRow>, org: OrganizationId, instance: InstanceId)
    returns (row: Option<JobRow>)
    requires forall id | id in jobs :: jobs[id].envelope.jobId == id
    ensures forall r :: ReadSide.FirstActive(jobs, org, instance, r) <==> r == row
  {
    var s := set id | id in jobs && CP.ActiveOperation(jobs[id], org, instance);
    if s == {} {
      row := None;
      forall id | id in jobs ensures !CP.ActiveOperation(jobs[id], org, instance) { assert id !in s; }
    } else {
      var before := (a, b) => a in jobs && b in jobs && CP.Before(jobs[a], jobs[b]);
      assert Ranks(s, before);
      var first := FirstExists(s, before);
      row := Some(jobs[first]);
      forall other | other in jobs && CP.ActiveOperation(jobs[other], org, instance)
        ensures CP.Before(jobs[first], jobs[other])
      {
        assert other in s && before(first, other);
      }
    }
  }

  /** In every reachable state a checkout's status is read in one way exactly. */
  lemma OneReading(
    run: seq<World>, events: seq<Event>, k: nat, org: OrganizationId, instance: InstanceId) returns (rows: Rows)
    requires IsHistory(run, events) && k < |run|
    requires instance in run[k].db.instances && run[k].db.instances[instance].organizationId == org
    ensures forall r :: ReadSide.Reads(run[k].db, org, instance, r) <==> r == rows
  {
    var db := run[k].db;
    HistoryKeepsInv(run, events, k);
    forall id | id in db.jobs ensures db.jobs[id].envelope.jobId == id {
      assert RowFine(id, db.jobs[id], run[k].clock);
    }
    var operations := OneList(db.jobs, org, instance);
    var attempt := OnePlanAttempt(db.jobs, org, instance);
    var plan := OneAssignedPlan(db.jobs, org, instance, Assigned(db, instance));
    var active := OneActive(db.jobs, org, instance);
    rows := Rows(Assigned(db, instance), operations, attempt, plan, active);
  }
}
