/** When a runner's calls about one job answer what, and what they write, read off the rows; and how
    a requested cancellation reaches the runner. */
module CallAnswers {
  import opened Protocol
  import opened ResultMatching
  import opened JobLifecycle
  import opened ControlPlaneRuns
  import opened TableFacts
  import opened ClaimAnswers
  import CP = ControlPlane
  import M = MemoryTransport
  import Offers
  import Queue = QueueAnswers
  import Invariants
  import Theorems = ControlPlaneTheorems

  // ----- whose job it is -----

  /** The job is there, and is this runner's. */
  predicate IsRunners(jobs: map<JobId, JobRow>, runner: Runner, id: JobId) {
    && id in jobs && jobs[id].envelope.organizationId == runner.organizationId
    && jobs[id].envelope.deviceId == runner.deviceId
  }

  /** A runner's calls reach its own jobs and no others: for any other job each answers that it is
      unknown and writes nothing, but that a control call shows the device to be in touch. */
  lemma CallsReachOwnJobsOnly(
    db: CP.Db, runner: Runner, id: JobId, lease: LeaseId, digest: Digest, result: ResultEnvelope,
    now: Time, until: Time)
    ensures var own := IsRunners(db.jobs, runner, id);
      && CP.Acknowledge(db, runner, id, lease, digest, now)
         == (if own then
               var r := AcknowledgeRow(db.jobs[id], lease, digest, now); (db.(jobs := db.jobs[id := r.0]), r.1)
             else (db, Unknown))
      && (CP.CompleteJob(db, runner, id, lease, result, digest, now).1 == CP.Answered(Unknown) <==> !own)
      && (!own ==> CP.CompleteJob(db, runner, id, lease, result, digest, now).0 == db)
      && (CP.Control(db, runner, id, lease, now, until).1 == ControlUnknown <==> !own)
      && CP.Control(db, runner, id, lease, now, until).0.jobs
         == (if own then db.jobs[id := ControlRow(db.jobs[id], lease, until).0] else db.jobs)
      && var after := CP.Control(db, runner, id, lease, now, until).0;
         after == db.(jobs := after.jobs, devices := after.devices)
         && DeviceSeen(db.devices, after.devices, runner, now, None)
  {
    TouchMeansSeen(db.devices, runner, now, None);
  }

  /** In memory too. */
  lemma MemoryCallsReachOwnJobsOnly(
    s: M.Store, runner: Runner, id: JobId, lease: LeaseId, digest: Digest, result: ResultEnvelope,
    now: Time, until: Time)
    ensures var own := IsRunners(s.jobs, runner, id);
      && (M.Acknowledge(s, runner, id, lease, digest, now).1 == Unknown <==> !own)
      && (M.Complete(s, runner, id, lease, result, digest).1 == Unknown <==> !own)
      && (M.Control(s, runner, id, lease, until).1 == ControlUnknown <==> !own)
      && (!own ==> M.Acknowledge(s, runner, id, lease, digest, now).0 == s
                   && M.Complete(s, runner, id, lease, result, digest).0 == s
                   && M.Control(s, runner, id, lease, until).0 == s)
      && (own ==>
            && M.Acknowledge(s, runner, id, lease, digest, now).0.jobs
               == s.jobs[id := AcknowledgeRow(s.jobs[id], lease, digest, now).0]
            && M.Control(s, runner, id, lease, until).0.jobs == s.jobs[id := ControlRow(s.jobs[id], lease, until).0])
  {
  }

  // ----- registering a checkout -----

  /** Registering a checkout is refused for an unknown project and for a checkout of another runner,
      throws for a second checkout of one project on one device, and otherwise binds it. */
  lemma RegistrationAnswersExactly(
    db: CP.Db, runner: Runner, instance: InstanceId, project: ProjectId, known: bool)
    ensures var (after, answer) := CP.RegisterInstance(db, runner, instance, project, known);
      if !known || (instance in db.instances
                    && (db.instances[instance].organizationId != runner.organizationId
                        || db.instances[instance].deviceId != runner.deviceId))
      then answer == CP.Refused && after == db
      else if exists other :: other in db.instances && other != instance
                              && db.instances[other].projectId == project
                              && db.instances[other].deviceId == runner.deviceId
      then answer == CP.DuplicateCheckout && after == db
      else answer == CP.Registered && after == db.(instances := db.instances[instance :=
             CP.Instance(runner.organizationId, project, runner.deviceId)])
  {
  }

  // ----- revoked devices -----

  ghost predicate IsRevoked(db: CP.Db, device: DeviceId) { device in db.devices && !db.devices[device].active }

  lemma StepKeepsRevoked(w: World, e: Event, next: World, device: DeviceId)
    requires Step(w, e, next) && IsRevoked(w.db, device)
    ensures IsRevoked(next.db, device)
  {
    if Queues(e) {
      QueueingEffect(w, e, next);
    } else if e.ClaimJob? {
      var chosen :| CP.Claim(w.db, e.runner, e.report, e.lease, next.clock, e.until, next.db, chosen);
    } else if e.SubmitResult? {
      Offers.SubmissionKeepsDevices(w.db, e.runner, e.id, e.lease, e.result, e.digest, next.clock);
    }
  }

  lemma {:induction false} RevokedForGood(run: seq<World>, events: seq<Event>, i: nat, k: nat, device: DeviceId)
    requires IsHistory(run, events) && i <= k < |run| && IsRevoked(run[i].db, device)
    ensures IsRevoked(run[k].db, device)
  {
    if i < k {
      RevokedForGood(run, events, i, k - 1, device);
      assert EventAt(run, events, k - 1);
      StepKeepsRevoked(run[k - 1], events[k - 1], run[k], device);
    }
  }

  lemma ApplyIsQueuedToAnActiveDevice(db: CP.Db, input: CP.ApplyInput, after: CP.Db, outcome: CP.ApplyOutcome)
    requires input.applyJobId !in db.jobs && CP.Approve(db, input, after, outcome) && outcome.ApplyQueued?
    ensures !IsRevoked(db, outcome.deviceId)
  {
    Queue.ApprovalAnswersExactly(db, input, after, outcome);
  }

  lemma RollbackIsQueuedToAnActiveDevice(
    db: CP.Db, input: CP.RollbackInput, after: CP.Db, outcome: CP.RollbackOutcome)
    requires input.jobId !in db.jobs && CP.Rollback(db, input, after, outcome) && outcome.RollbackQueued?
    ensures !IsRevoked(db, outcome.deviceId)
  {
    Queue.RollbackAnswersExactly(db, input, after, outcome);
  }

  /** Once a device was revoked, no apply and no rollback is ever queued to it again. */
  lemma NothingIsQueuedToARevokedDevice(
    run: seq<World>, events: seq<Event>, i: nat, k: nat, device: DeviceId)
    requires IsHistory(run, events) && i <= k < |run| && IsRevoked(run[i].db, device)
    ensures forall input: CP.ApplyInput, after, outcome |
      input.applyJobId !in run[k].db.jobs && CP.Approve(run[k].db, input, after, outcome) && outcome.ApplyQueued? ::
        outcome.deviceId != device
    ensures forall input: CP.RollbackInput, after, outcome |
      input.jobId !in run[k].db.jobs && CP.Rollback(run[k].db, input, after, outcome) && outcome.RollbackQueued? ::
        outcome.deviceId != device
  {
    RevokedForGood(run, events, i, k, device);
    forall input: CP.ApplyInput, after, outcome |
      input.applyJobId !in run[k].db.jobs && CP.Approve(run[k].db, input, after, outcome) && outcome.ApplyQueued?
      ensures outcome.deviceId != device
    {
      ApplyIsQueuedToAnActiveDevice(run[k].db, input, after, outcome);
    }
    forall input: CP.RollbackInput, after, outcome |
      input.jobId !in run[k].db.jobs && CP.Rollback(run[k].db, input, after, outcome) && outcome.RollbackQueued?
      ensures outcome.deviceId != device
    {
      RollbackIsQueuedToAnActiveDevice(run[k].db, input, after, outcome);
    }
  }

  // ----- acknowledging -----

  /** An acknowledgement is accepted from the lease of a leased job, once: the same call again is a
      duplicate, and under another digest or another lease a conflict. */
  lemma AcknowledgementAnswersExactly(
    row: JobRow, lease: LeaseId, digest: Digest, now: Time, lease': LeaseId, digest': Digest, later: Time)
    ensures var (next, outcome) := AcknowledgeRow(row, lease, digest, now);
      && (outcome == Accepted <==> row.state == Leased && row.leaseId == Some(lease))
      && (outcome != Accepted ==> next == row)
      && (outcome == Accepted ==>
            && next.state == Acknowledged && next.acknowledgedAt == Some(now)
            && next == row.(state := next.state, requestDigest := next.requestDigest,
                            acknowledgedAt := next.acknowledgedAt)
            && AcknowledgeRow(next, lease', digest', later)
               == (next, if lease' == lease && digest' == digest then Duplicate else ConflictOutcome))
      && (row.state != Leased && row.state != Acknowledged ==> outcome == ConflictOutcome)
  {
  }

  // ----- completing -----

  /** How a job ends, by the result it ends with. */
  predicate EndsAs(result: Result, state: JobState) {
    match result
    case CancellationReceipt(_, _, _, _, _) => state == Cancelled
    case Error(JobCancelled, _, _) => state == Cancelled
    case Error(_, _, _) => state == Failed
    case _ => state == Succeeded
  }

  /** A completion is accepted exactly from the lease of an acknowledged job without a result, for a
      result that fits; it stores the result and ends the job as the result says. */
  lemma CompletionAnswersExactly(
    row: JobRow, lease: LeaseId, result: ResultEnvelope, digest: Digest, completedAt: Option<Time>, fits: bool)
    ensures var (next, outcome) := CompleteRow(row, lease, result, digest, completedAt, fits);
      && (outcome == Duplicate <==> row.resultDigest == Some(digest))
      && (outcome == Accepted <==>
            row.resultDigest == None && row.state == Acknowledged && row.leaseId == Some(lease) && fits)
      && outcome != Unknown
      && (outcome != Accepted ==> next == row)
      && (outcome == Accepted ==>
            && EndsAs(result.result, next.state) && next.result == Some(result)
            && next.resultDigest == Some(digest) && next.completedAt == completedAt
            && next == row.(state := next.state, result := next.result, resultDigest := next.resultDigest,
                            completedAt := next.completedAt))
  {
  }

  // ----- which results fit -----

  predicate NamedOnce(checks: seq<Check>, id: string) {
    exists i :: 0 <= i < |checks| && checks[i].id == id
                && forall j | 0 <= j < |checks| && j != i :: checks[j].id != id
  }

  /** One side of a comparison: for its revision, within its limits, and graded on the three cases
      exactly when it completed. */
  predicate SideFits(revision: Revision, v: Variant) {
    && v.setupRevisionId == revision.setupRevisionId
    && 0 <= v.durationMs <= 300_000
    && |v.summary| <= 2_000 && (v.error.Some? ==> |v.error.value| <= 1_000)
    && (if v.status == VariantCompleted
        then |v.checks| == 3 && NamedOnce(v.checks, "discount") && NamedOnce(v.checks, "clamp")
             && NamedOnce(v.checks, "contains")
        else v.checks == [])
    && forall c | c in v.checks :: |c.id| <= 100 && |c.caption| <= 200
  }

  /** What an evaluation must share with its definition. */
  predicate EvaluationFits(definition: Evaluation, r: Result)
    requires r.EvaluationResult?
  {
    && r.suiteId == definition.suiteId && r.profile == definition.profile
    && |r.observed.harnessVersion| <= 200 && (r.observed.model.Some? ==> |r.observed.model.value| <= 200)
    && r.observed.contextMode == "skillInstructions"
    && !r.observed.nativeSkillActivation && !r.observed.ambientContextVerified
    && SideFits(definition.baseline, r.baseline) && SideFits(definition.candidate, r.candidate)
  }

  lemma {:induction false} NamedAtMostAsOften(checks: seq<Check>, id: string)
    ensures ChecksNamed(checks, id) == 0 <==> forall c | c in checks :: c.id != id
  {
    if checks != [] {
      NamedAtMostAsOften(checks[1..], id);
      assert checks == [checks[0]] + checks[1..];
    }
  }

  lemma NamedFirst(checks: seq<Check>, id: string)
    requires checks != [] && checks[0].id == id
    ensures NamedOnce(checks, id) <==> forall c | c in checks[1..] :: c.id != id
  {
    var rest := checks[1..];
    if forall c | c in rest :: c.id != id {
      assert forall j | 0 < j < |checks| :: checks[j] == rest[j - 1] && rest[j - 1] in rest;
    } else {
      var c :| c in rest && c.id == id;
      var j :| 0 <= j < |rest| && rest[j] == c;
      assert checks[j + 1].id == id;
    }
  }

  lemma NamedLater(checks: seq<Check>, id: string)
    requires checks != [] && checks[0].id != id
    ensures NamedOnce(checks, id) <==> NamedOnce(checks[1..], id)
  {
    var rest := checks[1..];
    assert forall j | 0 < j < |checks| :: checks[j] == rest[j - 1];
    if NamedOnce(rest, id) {
      var i :| 0 <= i < |rest| && rest[i].id == id && forall j | 0 <= j < |rest| && j != i :: rest[j].id != id;
      assert checks[i + 1].id == id;
    }
    if NamedOnce(checks, id) {
      var i :| 0 <= i < |checks| && checks[i].id == id && forall j | 0 <= j < |checks| && j != i :: checks[j].id != id;
      assert rest[i - 1].id == id;
      forall j | 0 <= j < |rest| && j != i - 1 ensures rest[j].id != id { assert rest[j] == checks[j + 1]; }
    }
  }

  lemma {:induction false} NamedOnceCountsOne(checks: seq<Check>, id: string)
    ensures ChecksNamed(checks, id) == 1 <==> NamedOnce(checks, id)
  {
    if checks != [] {
      if checks[0].id == id {
        NamedFirst(checks, id);
        NamedAtMostAsOften(checks[1..], id);
      } else {
        NamedLater(checks, id);
        NamedOnceCountsOne(checks[1..], id);
      }
    }
  }

  lemma EvaluationsFitAlike(definition: Evaluation, r: Result)
    requires r.EvaluationResult?
    ensures EvaluationResultMatches(definition, r) <==> EvaluationFits(definition, r)
  {
    forall v: Variant, id: string ensures ChecksNamed(v.checks, id) == 1 <==> NamedOnce(v.checks, id) {
      NamedOnceCountsOne(v.checks, id);
    }
    assert EXPECTED_CHECKS == ["discount", "clamp", "contains"];
    assert EXPECTED_CHECKS[0] == "discount" && EXPECTED_CHECKS[1] == "clamp" && EXPECTED_CHECKS[2] == "contains";
  }

  /** The results that fit a job, beside an error, which fits every job. */
  predicate Fits(job: Envelope, result: Result) {
    match job.job
    case EvaluateSetups(definition) =>
      result.EvaluationResult? && job.projectInstanceId == None && EvaluationFits(definition, result)
    case LibraryAction(_) => result.LibraryResponse? && job.projectInstanceId == None
    case ScanProject(project, _) => result.ScanResult? && result.projectId == project
    case PlanSetup(project, revision) =>
      result.PlanResult? && result.projectId == project
      && result.plan.setupRevisionId == revision.setupRevisionId
    case ApplyPlan(project, revision, approval) =>
      && (result.ApplyReceipt? || result.CancellationReceipt?) && result.projectId == project
      && (result.ApplyReceipt? ==>
            result.setupRevisionId == revision.setupRevisionId && result.planDigest == approval.planDigest)
    case RollbackOperation(project, operation) =>
      && (result.RollbackReceipt? || result.CancellationReceipt?) && result.projectId == project
      && (result.RollbackReceipt? ==> result.operationId == operation)
  }

  /** The database accepts a result for a job exactly when it repeats the job's idempotency key and
      checkout, and is an error or one that fits the job. */
  lemma ResultsMatchExactly(job: Envelope, envelope: ResultEnvelope)
    ensures ResultMatchesJob(job, envelope) <==>
      && envelope.idempotencyKey == job.idempotencyKey && envelope.projectInstanceId == job.projectInstanceId
      && (envelope.result.Error? || Fits(job, envelope.result))
  {
    if job.job.EvaluateSetups? && envelope.result.EvaluationResult? {
      EvaluationsFitAlike(job.job.definition, envelope.result);
    }
  }

  // ----- what an accepted receipt writes -----

  /** The assignments after a rollback restored a revision, or none: only the checkout's project is
      touched, and only if it had an assignment. */
  predicate Moved(db: CP.Db, after: map<ProjectId, RevisionId>, e: Envelope, restored: Option<RevisionId>) {
    if e.projectInstanceId.Some? && e.projectInstanceId.value in db.instances
       && db.instances[e.projectInstanceId.value].organizationId == e.organizationId
       && db.instances[e.projectInstanceId.value].projectId in db.assignments
    then
      var project := db.instances[e.projectInstanceId.value].projectId;
      && (forall p | p in db.assignments && p != project :: p in after && after[p] == db.assignments[p])
      && after.Keys == (if restored.Some? then db.assignments.Keys else db.assignments.Keys - {project})
      && (restored.Some? ==> after[project] == restored.value)
    else after == db.assignments
  }

  /** An accepted apply receipt is stored as it came, at its time, and assigns its revision to its
      project; an accepted rollback receipt marks the operation's receipt and moves the assignment;
      any other accepted result writes nothing but the job. */
  lemma CompletionWritesExactly(
    run: seq<World>, events: seq<Event>, k: nat, runner: Runner, id: JobId, lease: LeaseId,
    result: ResultEnvelope, digest: Digest, now: Time)
    requires IsHistory(run, events) && k < |run| && run[k].clock <= now
    requires CP.CompleteJob(run[k].db, runner, id, lease, result, digest, now).1 == CP.Answered(Accepted)
    ensures var (db, r) := (run[k].db, result.result);
      var after := CP.CompleteJob(db, runner, id, lease, result, digest, now).0;
      && id in db.jobs && id in after.jobs && after.jobs == db.jobs[id := after.jobs[id]]
      && EndsAs(r, after.jobs[id].state) && after.jobs[id].result == Some(result)
      && after.jobs[id].completedAt == Some(now)
      && after == db.(jobs := after.jobs, receipts := after.receipts, assignments := after.assignments)
      && var e := db.jobs[id].envelope;
      && match r
         case ApplyReceipt(project, operation, revision, plan, outcome, recoverability, _) =>
           && operation !in db.receipts && e.projectInstanceId.Some?
           && after.receipts == db.receipts[operation := CP.ReceiptRow(
                e.organizationId, e.deviceId, e.projectInstanceId.value, id, revision, plan, outcome, recoverability,
                now)]
           && after.assignments == db.assignments[project := revision]
         case RollbackReceipt(_, operation, restored, _, recoverability) =>
           && operation in db.receipts
           && after.receipts == db.receipts[operation := db.receipts[operation].(
                outcome := RolledBack, recoverability := recoverability, completedAt := now)]
           && Moved(db, after.assignments, e, restored)
         case _ => after.receipts == db.receipts && after.assignments == db.assignments
  {
    var db := run[k].db;
    RowIsFine(run, events, k, id);
    var next := Theorems.AcceptedSubmission(db, runner, id, lease, result, digest, run[k].clock, now);
    PersistedExactly(db, id, next, result, now,
                     CP.CompleteJob(db, runner, id, lease, result, digest, now).0);
  }

  lemma RowIsFine(run: seq<World>, events: seq<Event>, k: nat, id: JobId)
    requires IsHistory(run, events) && k < |run| && id in run[k].db.jobs
    ensures Invariants.RowFine(id, run[k].db.jobs[id], run[k].clock)
  {
    HistoryKeepsInv(run, events, k);
  }

  lemma PersistedExactly(db: CP.Db, id: JobId, next: JobRow, result: ResultEnvelope, now: Time, after: CP.Db)
    requires id in db.jobs && next.envelope == db.jobs[id].envelope && next.envelope.jobId == id
    requires CP.Persist(db.(jobs := db.jobs[id := next]), next.envelope, result.result, now) == CP.Persisted(after)
    ensures after == db.(jobs := db.jobs[id := next], receipts := after.receipts, assignments := after.assignments)
    ensures var (e, r) := (next.envelope, result.result);
      match r
      case ApplyReceipt(project, operation, revision, plan, outcome, recoverability, _) =>
        && operation !in db.receipts && e.projectInstanceId.Some?
        && after.receipts == db.receipts[operation := CP.ReceiptRow(
             e.organizationId, e.deviceId, e.projectInstanceId.value, id, revision, plan, outcome, recoverability, now)]
        && after.assignments == db.assignments[project := revision]
      case RollbackReceipt(_, operation, restored, _, recoverability) =>
        && operation in db.receipts
        && after.receipts == db.receipts[operation := db.receipts[operation].(
             outcome := RolledBack, recoverability := recoverability, completedAt := now)]
        && Moved(db, after.assignments, e, restored)
      case _ => after.receipts == db.receipts && after.assignments == db.assignments
  {
  }

  // ----- control and cancellation -----

  /** A control call is answered exactly for the holder of a held job, lapsed or not: it renews the
      lease, changes nothing else, and reports a cancellation exactly when one is on record. */
  lemma ControlAnswersExactly(row: JobRow, lease: LeaseId, until: Time)
    ensures var (next, answer) := ControlRow(row, lease, until);
      var holds := row.leaseId == Some(lease) && (row.state == Leased || row.state == Acknowledged);
      && answer == (if holds then Available(row.cancelRequestedAt != None) else ControlConflict)
      && next == row.(leaseExpiresAt := next.leaseExpiresAt)
      && next.leaseExpiresAt == if holds then Some(until) else row.leaseExpiresAt
  {
  }

  /** A cancellation ends a waiting job, goes on record for a held one, and leaves others alone. */
  lemma CancellationAnswersExactly(db: CP.Db, org: OrganizationId, id: JobId, now: Time)
    ensures var (after, done) := CP.RequestCancellation(db, org, id, now);
      && (done <==> id in db.jobs && db.jobs[id].envelope.organizationId == org
                    && db.jobs[id].state in {Pending, Leased, Acknowledged})
      && (!done ==> after == db)
      && (done ==>
            && after == db.(jobs := db.jobs[id := after.jobs[id]])
            && after.jobs[id] == db.jobs[id].(
                 cancelRequestedAt := Some(now), state := after.jobs[id].state,
                 completedAt := after.jobs[id].completedAt)
            && if db.jobs[id].state == Pending
               then after.jobs[id].state == Cancelled && after.jobs[id].completedAt == Some(now)
               else after.jobs[id].state == db.jobs[id].state && after.jobs[id].completedAt == db.jobs[id].completedAt)
  {
    if id in db.jobs { assert db.jobs[id := db.jobs[id]] == db.jobs; }
  }

  lemma MemoryCancellationAnswersExactly(s: M.Store, org: OrganizationId, id: JobId, now: Time)
    ensures var (after, done) := M.RequestCancellation(s, org, id, now);
      && (done <==> id in s.jobs && s.jobs[id].envelope.organizationId == org
                    && s.jobs[id].state in {Pending, Leased, Acknowledged})
      && (!done ==> after == s)
      && (done ==>
            && after == s.(jobs := s.jobs[id := after.jobs[id]])
            && after.jobs[id] == s.jobs[id].(
                 cancelRequestedAt := Some(now),
                 state := if s.jobs[id].state == Pending then Cancelled else s.jobs[id].state))
  {
    if id in s.jobs { assert s.jobs[id := s.jobs[id]] == s.jobs; }
  }

  /** A cancellation of the job was requested, while it was active, by event `j`. */
  predicate CancelledBy(run: seq<World>, events: seq<Event>, j: nat, id: JobId)
    requires |run| == |events| + 1
  {
    && j < |events| && events[j].CancelJob? && events[j].id == id
    && id in run[j].db.jobs && run[j].db.jobs[id].envelope.organizationId == events[j].organization
    && (run[j].db.jobs[id].state == Pending || run[j].db.jobs[id].state == Leased
        || run[j].db.jobs[id].state == Acknowledged)
  }

  lemma SweepKeepsRecord(
    jobs: map<JobId, JobRow>, after: map<JobId, JobRow>, org: OrganizationId, instance: InstanceId, now: Time,
    id: JobId)
    requires OverdueExpired(jobs, after, org, instance, now) && id in jobs
    ensures id in after && after[id].cancelRequestedAt == jobs[id].cancelRequestedAt
  {
  }

  lemma PlanKeepsRecord(db: CP.Db, job: Envelope, after: CP.Db, outcome: CP.PlanOutcome, id: JobId)
    requires job.projectInstanceId.Some? && job.jobId !in db.jobs && id in db.jobs
    requires CP.EnqueuePlan(db, job, after, outcome)
    ensures id in after.jobs && after.jobs[id].cancelRequestedAt == db.jobs[id].cancelRequestedAt
  {
    Queue.PlanAnswersExactly(db, job, after, outcome);
    SweepKeepsRecord(db.jobs, after.jobs, job.organizationId, job.projectInstanceId.value, job.issuedAt, id);
  }

  lemma ApprovalKeepsRecord(db: CP.Db, input: CP.ApplyInput, after: CP.Db, outcome: CP.ApplyOutcome, id: JobId)
    requires input.applyJobId !in db.jobs && id in db.jobs && CP.Approve(db, input, after, outcome)
    ensures id in after.jobs && after.jobs[id].cancelRequestedAt == db.jobs[id].cancelRequestedAt
  {
    Queue.ApprovalAnswersExactly(db, input, after, outcome);
    if after != db {
      SweepKeepsRecord(
        db.jobs, after.jobs, input.organizationId, input.projectInstanceId, input.issuedAt, id);
    }
  }

  lemma RollbackKeepsRecord(db: CP.Db, input: CP.RollbackInput, after: CP.Db, outcome: CP.RollbackOutcome, id: JobId)
    requires input.jobId !in db.jobs && id in db.jobs && CP.Rollback(db, input, after, outcome)
    ensures id in after.jobs && after.jobs[id].cancelRequestedAt == db.jobs[id].cancelRequestedAt
  {
    Queue.RollbackAnswersExactly(db, input, after, outcome);
    if after != db {
      SweepKeepsRecord(
        db.jobs, after.jobs, input.organizationId, input.projectInstanceId, input.issuedAt, id);
    }
  }

  lemma QueueingKeepsRecord(w: World, e: Event, next: World, id: JobId)
    requires Step(w, e, next) && Queues(e) && id in w.db.jobs && id in next.db.jobs
    ensures next.db.jobs[id].cancelRequestedAt == w.db.jobs[id].cancelRequestedAt
  {
    match e {
      case RequestPlan(job) =>
        var outcome :| CP.EnqueuePlan(w.db, job, next.db, outcome);
        PlanKeepsRecord(w.db, job, next.db, outcome, id);
      case ApprovePlan(input) =>
        var outcome :| CP.Approve(w.db, input, next.db, outcome);
        ApprovalKeepsRecord(w.db, input, next.db, outcome, id);
      case RequestRollback(input) =>
        var outcome :| CP.Rollback(w.db, input, next.db, outcome);
        RollbackKeepsRecord(w.db, input, next.db, outcome, id);
      case EnqueueDeviceJob(job) =>
    }
  }

  lemma ClaimKeepsRecord(w: World, e: Event, next: World, id: JobId)
    requires Step(w, e, next) && e.ClaimJob? && id in w.db.jobs && id in next.db.jobs
    ensures next.db.jobs[id].cancelRequestedAt == w.db.jobs[id].cancelRequestedAt
  {
    var chosen :| CP.Claim(w.db, e.runner, e.report, e.lease, next.clock, e.until, next.db, chosen);
    DatabaseClaimAnswersExactly(w.db, e.runner, e.report, e.lease, next.clock, e.until, next.db, chosen);
  }

  lemma SubmissionKeepsRecord(
    db: CP.Db, runner: Runner, id: JobId, lease: LeaseId, result: ResultEnvelope, digest: Digest, now: Time,
    other: JobId)
    requires other in db.jobs
    ensures var after := CP.CompleteJob(db, runner, id, lease, result, digest, now).0;
      other in after.jobs && after.jobs[other].cancelRequestedAt == db.jobs[other].cancelRequestedAt
  {
  }

  lemma SameRecord(w: World, e: Event, next: World, id: JobId)
    requires Step(w, e, next) && id in w.db.jobs && id in next.db.jobs && !(e.CancelJob? && e.id == id)
    ensures next.db.jobs[id].cancelRequestedAt == w.db.jobs[id].cancelRequestedAt
  {
    if Queues(e) {
      QueueingKeepsRecord(w, e, next, id);
    } else if e.ClaimJob? {
      ClaimKeepsRecord(w, e, next, id);
    } else if e.SubmitResult? {
      SubmissionKeepsRecord(w.db, e.runner, e.id, e.lease, e.result, e.digest, next.clock, id);
    } else {
      OtherCallsKeepRecord(w.db, next.clock, e, next.db, id);
    }
  }

  lemma OtherCallsKeepRecord(db: CP.Db, now: Time, e: Event, after: CP.Db, id: JobId)
    requires Does(db, now, e, after) && !Queues(e) && !e.ClaimJob? && !e.SubmitResult?
    requires id in db.jobs && id in after.jobs && !(e.CancelJob? && e.id == id)
    ensures after.jobs[id].cancelRequestedAt == db.jobs[id].cancelRequestedAt
  {
  }

  lemma NewRowsHaveNoRecord(w: World, e: Event, next: World, id: JobId)
    requires Step(w, e, next) && id !in w.db.jobs && id in next.db.jobs
    ensures next.db.jobs[id].cancelRequestedAt == None
  {
    Theorems.OnlyQueueingInserts(w, e, next);
    QueueingEffect(w, e, next);
  }

  /** So the runner hears of a cancellation, at any later control call, exactly when one was requested
      while the job was waiting or held. */
  lemma {:induction false} CancellationsAreReportedExactly(
    run: seq<World>, events: seq<Event>, k: nat, id: JobId)
    requires IsHistory(run, events) && k < |run| && id in run[k].db.jobs
    ensures run[k].db.jobs[id].cancelRequestedAt.Some? <==> exists j :: 0 <= j < k && CancelledBy(run, events, j, id)
    ensures forall runner, lease, now, until ::
      CP.Control(run[k].db, runner, id, lease, now, until).1.Available? ==>
        (CP.Control(run[k].db, runner, id, lease, now, until).1.cancelRequested
         <==> exists j :: 0 <= j < k && CancelledBy(run, events, j, id))
  {
    if k > 0 {
      var w, e, next := run[k - 1], events[k - 1], run[k];
      assert EventAt(run, events, k - 1);
      if id in w.db.jobs {
        CancellationsAreReportedExactly(run, events, k - 1, id);
        RecordGrows(run, events, k, id);
      } else {
        NewRowsHaveNoRecord(w, e, next, id);
        NothingWasCancelledBefore(run, events, k - 1, id);
      }
    }
  }

  lemma RecordGrows(run: seq<World>, events: seq<Event>, k: nat, id: JobId)
    requires IsHistory(run, events) && 0 < k < |run| && id in run[k - 1].db.jobs && id in run[k].db.jobs
    ensures run[k].db.jobs[id].cancelRequestedAt.Some? <==>
      run[k - 1].db.jobs[id].cancelRequestedAt.Some? || CancelledBy(run, events, k - 1, id)
  {
    assert EventAt(run, events, k - 1);
    var e := events[k - 1];
    if e.CancelJob? && e.id == id {
      CancellationAnswersExactly(run[k - 1].db, e.organization, id, run[k].clock);
    } else {
      SameRecord(run[k - 1], e, run[k], id);
    }
  }

  lemma {:induction false} NothingWasCancelledBefore(run: seq<World>, events: seq<Event>, k: nat, id: JobId)
    requires IsHistory(run, events) && k < |run| && id !in run[k].db.jobs
    ensures forall j | 0 <= j <= k && j < |events| :: !CancelledBy(run, events, j, id)
  {
    if k > 0 {
      assert EventAt(run, events, k - 1);
      Theorems.HistoryIsOk(run, events, k - 1);
      Theorems.StepMovesRows(run[k - 1], events[k - 1], run[k]);
      NothingWasCancelledBefore(run, events, k - 1, id);
    }
  }
}
