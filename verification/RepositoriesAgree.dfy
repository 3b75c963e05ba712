/** Where the database repository and the in-memory repository do the same thing, and exactly
    where they do not. */
module RepositoriesAgree {
  import opened Protocol
  import opened ResultMatching
  import opened JobLifecycle
  import opened Sorting
  import M = MemoryTransport
  import CP = ControlPlane

  // ----- the in-memory candidates are in issue order -----

  ghost predicate Sorted(ids: seq<JobId>, jobs: map<JobId, JobRow>)
    requires forall id | id in ids :: id in jobs
  {
    forall i, j | 0 <= i < j < |ids| :: jobs[ids[i]].envelope.issuedAt <= jobs[ids[j]].envelope.issuedAt
  }

  lemma CandidatesAreSorted(s: M.Store)
    requires M.StoreOk(s)
    ensures Sorted(M.Candidates(s), s.jobs)
  {
    SortSorts(s.order, M.IssueOrder(s.jobs));
    var ids := M.Candidates(s);
    forall i, j | 0 <= i < j < |ids|
      ensures s.jobs[ids[i]].envelope.issuedAt <= s.jobs[ids[j]].envelope.issuedAt
    {
      assert M.IssueOrder(s.jobs)(ids[i], ids[j]);
    }
  }

  // ----- claiming -----

  /** The device's jobs belong to its organization, were issued at different instants, and at
      most one of them is held under a live lease. */
  ghost predicate Orderly(jobs: map<JobId, JobRow>, runner: Runner, now: Time) {
    && (forall id | id in jobs && jobs[id].envelope.deviceId == runner.deviceId ::
          jobs[id].envelope.organizationId == runner.organizationId)
    && (forall a, b | a in jobs && b in jobs
          && jobs[a].envelope.deviceId == runner.deviceId && jobs[b].envelope.deviceId == runner.deviceId ::
          (jobs[a].envelope.issuedAt == jobs[b].envelope.issuedAt
           || (LeaseLive(jobs[a], now) && LeaseLive(jobs[b], now))) ==> a == b)
  }

  /** The oldest job the device may be granted. */
  ghost predicate OldestEligible(
    jobs: map<JobId, JobRow>, device: DeviceId, report: Report, now: Time, id: JobId)
  {
    && id in jobs && M.Eligible(jobs[id], device, report, now)
    && forall other | other in jobs && M.Eligible(jobs[other], device, report, now) ::
         jobs[id].envelope.issuedAt <= jobs[other].envelope.issuedAt
  }

  /** A scan in issue order grants the oldest eligible job. */
  lemma ScanGrantsTheOldest(
    ids: seq<JobId>, jobs: map<JobId, JobRow>, device: DeviceId, report: Report,
    lease: LeaseId, now: Time, until: Time)
    requires Distinct(ids) && (forall id | id in ids :: id in jobs) && (forall id | id in jobs :: id in ids)
    requires Sorted(ids, jobs)
    ensures var (after, granted) := M.ScanCandidates(ids, jobs, device, report, lease, now, until);
      match granted
      case None => forall id | id in jobs :: !M.Eligible(jobs[id], device, report, now)
      case Some(id) =>
        && OldestEligible(jobs, device, report, now, id)
        && id in after && after[id] == Grant(jobs[id], lease, until)
  {
    var p := M.ScanMeaning(ids, jobs, device, report, lease, now, until);
    forall id | id in jobs && M.Eligible(jobs[id], device, report, now)
      ensures p < |ids| && jobs[ids[p]].envelope.issuedAt <= jobs[id].envelope.issuedAt
    {
      assert id in ids;
      var k :| 0 <= k < |ids| && ids[k] == id;
      assert p <= k;
    }
  }

  /** Without a live job the in-memory claim grants the oldest eligible one. */
  lemma MemoryGrantsTheOldest(
    s: M.Store, device: DeviceId, report: Report, lease: LeaseId, now: Time, until: Time)
    requires M.StoreOk(s)
    requires M.FirstLive(s.order, s.jobs, device, report, now) == None
    ensures var claim := M.Claim(s, device, report, lease, now, until);
      match claim.1
      case None => forall id | id in s.jobs :: !M.Eligible(s.jobs[id], device, report, now)
      case Some(id) =>
        && OldestEligible(s.jobs, device, report, now, id)
        && id in claim.0.jobs && claim.0.jobs[id] == Grant(s.jobs[id], lease, until)
  {
    M.CandidatesAreDistinct(s);
    CandidatesAreSorted(s);
    ScanGrantsTheOldest(M.Candidates(s), s.jobs, device, report, lease, now, until);
  }

  /** What the database may grant, before its eager expiry ran, is what memory may grant. */
  lemma FreeIsEligible(
    jobs: map<JobId, JobRow>, runner: Runner, report: Report, now: Time, id: JobId)
    requires Orderly(jobs, runner, now) && id in jobs
    ensures var swept := CP.ExpireForDevice(jobs, runner.deviceId, now);
      && (CP.ClaimableFree(swept[id], runner, report, now)
          <==> M.Eligible(jobs[id], runner.deviceId, report, now))
      && (CP.ClaimableLive(swept[id], runner, report, now)
          <==> M.LiveFor(jobs[id], runner.deviceId, report, now) && !EnvelopeExpired(jobs[id], now))
      && (CP.ClaimableFree(swept[id], runner, report, now) || CP.ClaimableLive(swept[id], runner, report, now)
          ==> swept[id] == jobs[id])
  {
  }

  /** Both answer the same job and leave it in the same state. */
  ghost predicate SameClaim(memory: (M.Store, Option<JobId>), after: CP.Db, chosen: Option<JobId>) {
    && memory.1 == chosen
    && (chosen.Some? ==>
          && chosen.value in memory.0.jobs && chosen.value in after.jobs
          && memory.0.jobs[chosen.value] == after.jobs[chosen.value])
  }

  ghost predicate ExpiredButLive(
    jobs: map<JobId, JobRow>, runner: Runner, report: Report, now: Time, id: JobId)
  {
    && id in jobs && M.LiveFor(jobs[id], runner.deviceId, report, now)
    && EnvelopeExpired(jobs[id], now)
  }

  lemma LiveJobsAgree(
    s: M.Store, db: CP.Db, runner: Runner, report: Report, lease: LeaseId, now: Time, until: Time,
    after: CP.Db, chosen: Option<JobId>, live: JobId)
    requires M.StoreOk(s) && db.jobs == s.jobs && Orderly(s.jobs, runner, now)
    requires live in s.jobs && M.LiveFor(s.jobs[live], runner.deviceId, report, now)
    requires CP.Claim(db, runner, report, lease, now, until, after, chosen)
    ensures SameClaim(M.Claim(s, runner.deviceId, report, lease, now, until), after, chosen)
            <==> !EnvelopeExpired(s.jobs[live], now)
  {
    M.FirstLiveMeaning(s.order, s.jobs, runner.deviceId, report, now);
    assert live in s.order;
    assert M.Claim(s, runner.deviceId, report, lease, now, until) == (s, Some(live));
    var swept := CP.ExpireForDevice(db.jobs, runner.deviceId, now);
    FreeIsEligible(s.jobs, runner, report, now, live);
    if chosen.Some? { FreeIsEligible(s.jobs, runner, report, now, chosen.value); }
    if !EnvelopeExpired(s.jobs[live], now) {
      assert CP.ClaimableLive(swept[live], runner, report, now);
    }
  }

  /** With nothing live, the database claims the oldest eligible job, if there is one. */
  lemma DatabaseGrantsTheOldest(
    db: CP.Db, runner: Runner, report: Report, lease: LeaseId, now: Time, until: Time,
    after: CP.Db, chosen: Option<JobId>)
    requires Orderly(db.jobs, runner, now)
    requires forall id | id in db.jobs :: !M.LiveFor(db.jobs[id], runner.deviceId, report, now)
    requires CP.Claim(db, runner, report, lease, now, until, after, chosen)
    ensures match chosen
            case None => forall id | id in db.jobs :: !M.Eligible(db.jobs[id], runner.deviceId, report, now)
            case Some(id) =>
              && OldestEligible(db.jobs, runner.deviceId, report, now, id)
              && id in after.jobs && after.jobs[id] == Grant(db.jobs[id], lease, until)
  {
    var swept := CP.ExpireForDevice(db.jobs, runner.deviceId, now);
    forall id | id in db.jobs
      ensures !CP.ClaimableLive(swept[id], runner, report, now)
      ensures CP.ClaimableFree(swept[id], runner, report, now)
              <==> M.Eligible(db.jobs[id], runner.deviceId, report, now)
      ensures CP.ClaimableFree(swept[id], runner, report, now) ==> swept[id] == db.jobs[id]
      ensures swept[id].envelope == db.jobs[id].envelope
    {
      FreeIsEligible(db.jobs, runner, report, now, id);
    }
  }

  lemma FreeJobsAgree(
    s: M.Store, db: CP.Db, runner: Runner, report: Report, lease: LeaseId, now: Time, until: Time,
    after: CP.Db, chosen: Option<JobId>)
    requires M.StoreOk(s) && db.jobs == s.jobs && Orderly(s.jobs, runner, now)
    requires forall id | id in s.jobs :: !M.LiveFor(s.jobs[id], runner.deviceId, report, now)
    requires CP.Claim(db, runner, report, lease, now, until, after, chosen)
    ensures SameClaim(M.Claim(s, runner.deviceId, report, lease, now, until), after, chosen)
  {
    assert M.FirstLive(s.order, s.jobs, runner.deviceId, report, now) == None by {
      M.FirstLiveMeaning(s.order, s.jobs, runner.deviceId, report, now);
    }
    MemoryGrantsTheOldest(s, runner.deviceId, report, lease, now, until);
    DatabaseGrantsTheOldest(db, runner, report, lease, now, until, after, chosen);
  }

  /** Eager against lazy expiry: on orderly jobs the two claims agree exactly when no job that
      the device holds under a live lease has an envelope that has run out. */
  lemma ClaimsAgreeExactlyUnlessALiveJobExpired(
    s: M.Store, db: CP.Db, runner: Runner, report: Report, lease: LeaseId, now: Time, until: Time,
    after: CP.Db, chosen: Option<JobId>)
    requires M.StoreOk(s) && db.jobs == s.jobs && Orderly(s.jobs, runner, now)
    requires CP.Claim(db, runner, report, lease, now, until, after, chosen)
    ensures SameClaim(M.Claim(s, runner.deviceId, report, lease, now, until), after, chosen)
            <==> !exists id :: ExpiredButLive(s.jobs, runner, report, now, id)
  {
    if live :| live in s.jobs && M.LiveFor(s.jobs[live], runner.deviceId, report, now) {
      LiveJobsAgree(s, db, runner, report, lease, now, until, after, chosen, live);
      assert EnvelopeExpired(s.jobs[live], now) <==> ExpiredButLive(s.jobs, runner, report, now, live);
    } else {
      FreeJobsAgree(s, db, runner, report, lease, now, until, after, chosen);
    }
  }

  /** The two do disagree: a device asks again for the job it holds, a moment after the job's
      envelope ran out. Memory returns the job, the database expires it and returns nothing. */
  lemma AnExpiredLiveJobDivides(e: Envelope, lease: LeaseId, newLease: LeaseId, until: Time)
    requires e.expiresAt < until && e.job.ScanProject?
    ensures var runner := Runner(e.organizationId, e.deviceId);
      var report := Report({ScanProjectKind}, false);
      var row := Grant(NewRow(e), lease, until);
      var s := M.Store([e.jobId], map[e.jobId := row]);
      var db := CP.Db(s.jobs, map[], map[], map[], map[], map[], map[]);
      && M.StoreOk(s)
      && M.Claim(s, e.deviceId, report, newLease, e.expiresAt, until + 1) == (s, Some(e.jobId))
      && CP.Claim(db, runner, report, newLease, e.expiresAt, until + 1,
                  db.(jobs := map[e.jobId := Expire(row)]), None)
  {
    var row := Grant(NewRow(e), lease, until);
    var jobs := map[e.jobId := row];
    var runner := Runner(e.organizationId, e.deviceId);
    assert CP.ExpireForDevice(jobs, e.deviceId, e.expiresAt) == map[e.jobId := Expire(row)];
    assert EnvelopeExpired(row, e.expiresAt) && Supports(Report({ScanProjectKind}, false), row);
    assert RowOk(row);
    assert CP.TouchDevice(map[], runner, e.expiresAt, Some(Report({ScanProjectKind}, false))) == map[];
  }

  // ----- completing -----

  /** The database never accepts more: whatever result it accepts for a row, memory accepts too, and
      stores the same row but for the completion time only the database records. */
  lemma DatabaseAcceptsNoMore(
    row: JobRow, lease: LeaseId, result: ResultEnvelope, digest: Digest, now: Time)
    ensures var db := CompleteRow(row, lease, result, digest, Some(now), ResultMatchesJob(row.envelope, result));
      var memory := CompleteRow(row, lease, result, digest, row.completedAt, M.MemoryMatches(row.envelope, result));
      && (db.1 == Accepted ==> memory == (db.0.(completedAt := row.completedAt), Accepted))
      && (db.1 == Duplicate <==> memory.1 == Duplicate)
      && (memory.1 == Accepted && db.1 != Accepted ==> db.1 == ConflictOutcome && db.0 == row)
  {
  }

  /** The result that a job of this kind has of its own, which only the database checks. */
  predicate OwnAnswer(job: Job, result: Result) {
    match job
    case EvaluateSetups(_) => false
    case LibraryAction(_) => false
    case ScanProject(_, _) => result.ScanResult?
    case PlanSetup(_, revision) =>
      result.PlanResult? && result.plan.setupRevisionId == revision.setupRevisionId
    case ApplyPlan(_, revision, approval) =>
      && result.ApplyReceipt?
      && result.setupRevisionId == revision.setupRevisionId
      && result.planDigest == approval.planDigest
    case RollbackOperation(_, operationId) =>
      result.RollbackReceipt? && result.operationId == operationId
  }

  predicate AnswersForProject(result: Result, project: ProjectId) {
    match result
    case ScanResult(p, _) => p == project
    case PlanResult(p, _) => p == project
    case ApplyReceipt(p, _, _, _, _, _, _) => p == project
    case RollbackReceipt(p, _, _, _, _) => p == project
    case _ => false
  }

  /** The result repeats key and checkout, but a device job names a checkout, or a project job's
      result is one for its project, not its own answer. */
  predicate OnlyMemoryTakes(e: Envelope, result: ResultEnvelope) {
    && result.idempotencyKey == e.idempotencyKey && result.projectInstanceId == e.projectInstanceId
    && match e.job
       case EvaluateSetups(definition) =>
         && e.projectInstanceId.Some? && result.result.EvaluationResult?
         && EvaluationResultMatches(definition, result.result)
       case LibraryAction(_) => e.projectInstanceId.Some? && result.result.LibraryResponse?
       case _ => AnswersForProject(result.result, e.job.projectId) && !OwnAnswer(e.job, result.result)
  }

  /** The two completions answer differently exactly when the current lease of an acknowledged job
      submits such a result: memory accepts it, the database answers a conflict. */
  lemma CompletionsDifferExactlyWhen(
    row: JobRow, lease: LeaseId, result: ResultEnvelope, digest: Digest, now: Time)
    ensures var db := CompleteRow(row, lease, result, digest, Some(now), ResultMatchesJob(row.envelope, result));
      var memory := CompleteRow(row, lease, result, digest, row.completedAt, M.MemoryMatches(row.envelope, result));
      db.1 != memory.1 <==>
        && row.resultDigest.None? && row.state == Acknowledged && row.leaseId == Some(lease)
        && OnlyMemoryTakes(row.envelope, result)
  {
    ChecksDifferExactlyWhen(row.envelope, result);
  }

  lemma ChecksDifferExactlyWhen(e: Envelope, result: ResultEnvelope)
    ensures ResultMatchesJob(e, result) ==> M.MemoryMatches(e, result)
    ensures M.MemoryMatches(e, result) && !ResultMatchesJob(e, result) <==> OnlyMemoryTakes(e, result)
  {
  }

  /** One such result: memory takes a plan as the result of a scan of the same project. */
  lemma MemoryTakesAPlanForAScan(e: Envelope, plan: Plan)
    requires e.job.ScanProject?
    ensures var result := ResultEnvelope(e.jobId, e.idempotencyKey, e.organizationId, e.deviceId,
                                         e.projectInstanceId, PlanResult(e.job.projectId, plan));
      M.MemoryMatches(e, result) && !ResultMatchesJob(e, result)
  {
  }
}
