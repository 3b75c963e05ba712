/** When queueing a plan, an apply or a rollback answers what, and what it writes, read off the
    tables. */
module QueueAnswers {
  import opened Protocol
  import opened JobLifecycle
  import opened TableFacts
  import CP = ControlPlane

  // ----- the sweep and the check for an operation in progress -----

  lemma SweepExpiresOverdue(jobs: map<JobId, JobRow>, org: OrganizationId, instance: InstanceId, now: Time)
    ensures OverdueExpired(jobs, CP.ExpirePending(jobs, org, instance, now), org, instance, now)
    ensures CP.ExpirePending(jobs, org, instance, now).Keys == jobs.Keys
    ensures forall id | id in jobs ::
      CP.ActiveOperation(CP.ExpirePending(jobs, org, instance, now)[id], org, instance)
      <==> OfCheckout(jobs[id], org, instance) && Operates(jobs[id]) && Busy(jobs[id], now)
  {
  }

  lemma IdleMeansFree(jobs: map<JobId, JobRow>, org: OrganizationId, instance: InstanceId, now: Time)
    ensures CP.Idle(CP.ExpirePending(jobs, org, instance, now), org, instance) <==> Free(jobs, org, instance, now)
  {
    SweepExpiresOverdue(jobs, org, instance, now);
    var swept := CP.ExpirePending(jobs, org, instance, now);
    if CP.Idle(swept, org, instance) {
      forall id | id in jobs
        ensures !(OfCheckout(jobs[id], org, instance) && Operates(jobs[id]) && Busy(jobs[id], now))
      {
        assert !CP.ActiveOperation(swept[id], org, instance);
      }
    }
  }

  lemma FirstIsTheOldest(jobs: map<JobId, JobRow>, org: OrganizationId, instance: InstanceId, now: Time, id: JobId)
    requires CP.FirstActive(CP.ExpirePending(jobs, org, instance, now), org, instance, id)
    ensures TellsOfTheOldest(
      CP.Summarize(CP.ExpirePending(jobs, org, instance, now)[id]), jobs, org, instance, now)
  {
    SweepExpiresOverdue(jobs, org, instance, now);
    var swept := CP.ExpirePending(jobs, org, instance, now);
    assert Describes(CP.Summarize(swept[id]), jobs[id]);
    forall other | other in jobs && OfCheckout(jobs[other], org, instance) && Operates(jobs[other])
                   && Busy(jobs[other], now)
      ensures jobs[id].envelope.issuedAt <= jobs[other].envelope.issuedAt
    {
      assert CP.ActiveOperation(swept[other], org, instance);
    }
  }

  /** Nothing was inserted, and the summary tells why. */
  ghost predicate Blocked(
    db: CP.Db, after: CP.Db, org: OrganizationId, instance: InstanceId, now: Time, active: CP.ActiveSummary)
  {
    && after == db.(jobs := after.jobs) && after.jobs.Keys == db.jobs.Keys
    && OverdueExpired(db.jobs, after.jobs, org, instance, now)
    && TellsOfTheOldest(active, db.jobs, org, instance, now)
  }

  /** The one new job is `job`, untouched; beside it only overdue operations have changed. */
  ghost predicate Inserted(
    db: CP.Db, after: CP.Db, org: OrganizationId, instance: InstanceId, now: Time, job: Envelope)
  {
    && after.jobs.Keys == db.jobs.Keys + {job.jobId}
    && after.jobs[job.jobId].envelope == job && Untouched(after.jobs[job.jobId])
    && OverdueExpired(db.jobs, after.jobs, org, instance, now)
  }

  // ----- a plan -----

  /** Queueing a plan: it is queued exactly when no operation of the checkout is in the runner's
      hands or waiting with time left, and otherwise the oldest of these is reported and nothing
      is inserted. A waiting operation is expired only when its own time is up. */
  lemma PlanAnswersExactly(db: CP.Db, job: Envelope, after: CP.Db, outcome: CP.PlanOutcome)
    requires job.projectInstanceId.Some? && job.jobId !in db.jobs
    requires CP.EnqueuePlan(db, job, after, outcome)
    ensures var (org, instance, now) := (job.organizationId, job.projectInstanceId.value, job.issuedAt);
      && after == db.(jobs := after.jobs)
      && (outcome.PlanQueued? <==> Free(db.jobs, org, instance, now))
      && (outcome.PlanQueued? ==> outcome.jobId == job.jobId && Inserted(db, after, org, instance, now, job))
      && (outcome.PlanBlocked? ==> Blocked(db, after, org, instance, now, outcome.active))
  {
    var (org, instance, now) := (job.organizationId, job.projectInstanceId.value, job.issuedAt);
    SweepExpiresOverdue(db.jobs, org, instance, now);
    IdleMeansFree(db.jobs, org, instance, now);
    if outcome.PlanBlocked? {
      var id :| CP.FirstActive(after.jobs, org, instance, id)
        && outcome == CP.PlanBlocked(CP.Summarize(after.jobs[id]));
      FirstIsTheOldest(db.jobs, org, instance, now, id);
    }
  }

  // ----- an apply -----

  /** The plan job, on a checkout that is known. */
  predicate IsThePlan(db: CP.Db, input: CP.ApplyInput) {
    && Known(db, input.organizationId, input.projectInstanceId)
    && input.planJobId in db.jobs && db.jobs[input.planJobId].envelope.job.PlanSetup?
    && OfCheckout(db.jobs[input.planJobId], input.organizationId, input.projectInstanceId)
  }

  /** The approval was given before, for this plan under this digest. */
  predicate GivenBefore(db: CP.Db, input: CP.ApplyInput, id: ApprovalId) {
    && id in db.approvals && db.approvals[id].sourcePlan == input.planJobId
    && db.approvals[id].approval.planDigest == input.planDigest
    && db.approvals[id].approval.organizationId == input.organizationId
    && Known(db, input.organizationId, db.approvals[id].approval.projectInstanceId)
  }

  /** No plan of the checkout was requested later. */
  ghost predicate IsTheNewest(db: CP.Db, input: CP.ApplyInput)
    requires input.planJobId in db.jobs
  {
    forall id | id in db.jobs && db.jobs[id].envelope.job.PlanSetup?
                && OfCheckout(db.jobs[id], input.organizationId, input.projectInstanceId) ::
      var (a, b) := (db.jobs[id].envelope, db.jobs[input.planJobId].envelope);
      a.issuedAt < b.issuedAt || (a.issuedAt == b.issuedAt && a.jobId <= b.jobId)
  }

  predicate IsReady(row: JobRow) { row.state == Succeeded && row.result.Some? }

  /** The stored plan is the one reviewed: for the checkout's project, under the digest the caller
      saw, and of the revision that was asked for. */
  predicate IsTheReviewed(row: JobRow, project: ProjectId, digest: Digest)
    requires row.result.Some?
  {
    var result := row.result.value.result;
    && result.PlanResult? && row.envelope.job.PlanSetup?
    && result.projectId == project && result.plan.planDigest == digest
    && result.plan.setupRevisionId == row.envelope.job.revision.setupRevisionId
  }

  /** How far a request to approve gets. */
  datatype Stage =
    | NoPlan | Given | Outdated | Unready | Other | Conflicted | Away | Unable | InTheWay | Clear

  ghost function StageOf(db: CP.Db, input: CP.ApplyInput): Stage {
    if !IsThePlan(db, input) then NoPlan
    else if exists id :: GivenBefore(db, input, id) then Given
    else if !IsTheNewest(db, input) then Outdated
    else
      var row := db.jobs[input.planJobId];
      var checkout := db.instances[input.projectInstanceId];
      var device := db.devices[checkout.deviceId];
      if !IsReady(row) then Unready
      else if !IsTheReviewed(row, checkout.projectId, input.planDigest) then Other
      else if row.result.value.result.plan.conflicts != [] then Conflicted
      else if !Present(device, input.runnerFreshAfter) then Away
      else if !Reports(device, ApplyPlanKind) then Unable
      else if !Free(db.jobs, input.organizationId, input.projectInstanceId, input.issuedAt) then InTheWay
      else Clear
  }

  /** The apply job that an approval queues, and the approval itself. */
  predicate Commissions(db: CP.Db, input: CP.ApplyInput, job: Envelope)
    requires IsThePlan(db, input)
  {
    && job.jobId == input.applyJobId && job.idempotencyKey == ApplyKey(input.planJobId)
    && job.organizationId == input.organizationId
    && job.deviceId == db.instances[input.projectInstanceId].deviceId
    && job.projectInstanceId == Some(input.projectInstanceId)
    && job.issuedAt == input.issuedAt && job.expiresAt == input.expiresAt
    && job.job.ApplyPlan?
    && job.job.projectId == db.instances[input.projectInstanceId].projectId
    && job.job.revision == db.jobs[input.planJobId].envelope.job.revision
    && var approval := job.job.approval;
       && approval.approvalId == input.approvalId && approval.organizationId == input.organizationId
       && approval.projectInstanceId == input.projectInstanceId
       && approval.setupRevisionId == job.job.revision.setupRevisionId
       && approval.planDigest == input.planDigest && approval.approvedBy == input.userId
       && approval.approvedAt == input.issuedAt && approval.expiresAt == input.expiresAt
  }

  ghost predicate RepeatsApproval(db: CP.Db, input: CP.ApplyInput, outcome: CP.ApplyOutcome) {
    exists id :: GivenBefore(db, input, id)
      && outcome == CP.ApplyExisting(
           db.approvals[id].consumedBy, id, db.instances[db.approvals[id].approval.projectInstanceId].deviceId)
  }

  ghost predicate ApplyIsQueued(db: CP.Db, input: CP.ApplyInput, after: CP.Db)
    requires IsThePlan(db, input)
  {
    exists job: Envelope ::
      && Commissions(db, input, job)
      && Inserted(db, after, input.organizationId, input.projectInstanceId, input.issuedAt, job)
      && after == db.(jobs := after.jobs, approvals := db.approvals[input.approvalId :=
           CP.ApprovalRow(job.job.approval, input.applyJobId, input.planJobId)])
  }

  /** Approving a plan answers by how far the request gets, and writes only when it is queued, or,
      for overdue operations, when another one is in the way. A runner that is revoked, or has not
      been in touch, or does not report the capability, is never queued to. */
  lemma ApprovalAnswersExactly(db: CP.Db, input: CP.ApplyInput, after: CP.Db, outcome: CP.ApplyOutcome)
    requires input.applyJobId !in db.jobs && CP.Approve(db, input, after, outcome)
    ensures match StageOf(db, input)
      case NoPlan => outcome == CP.PlanMissing && after == db
      case Given => after == db && RepeatsApproval(db, input, outcome)
      case Outdated => outcome == CP.PlanSuperseded && after == db
      case Unready => outcome == CP.PlanNotReady && after == db
      case Other => outcome == CP.PlanMismatch && after == db
      case Conflicted => outcome == CP.PlanHasConflicts && after == db
      case Away => outcome == CP.ApplyOffline && after == db
      case Unable => outcome == CP.ApplyIncapable && after == db
      case InTheWay =>
        && outcome.ApplyBlocked?
        && Blocked(db, after, input.organizationId, input.projectInstanceId, input.issuedAt, outcome.active)
      case Clear =>
        && outcome == CP.ApplyQueued(
             input.applyJobId, input.approvalId, db.instances[input.projectInstanceId].deviceId)
        && ApplyIsQueued(db, input, after)
  {
    MatchingMeansGiven(db, input);
    if StageOf(db, input).Clear? || StageOf(db, input).InTheWay? {
      NothingObjects(db, input);
      ApprovalQueuesOrIsBlocked(db, input, after, outcome);
    } else {
      ApprovalRefusesByStage(db, input, after, outcome);
    }
  }

  lemma ApprovalRefusesByStage(db: CP.Db, input: CP.ApplyInput, after: CP.Db, outcome: CP.ApplyOutcome)
    requires CP.Approve(db, input, after, outcome)
    requires !StageOf(db, input).Clear? && !StageOf(db, input).InTheWay?
    ensures after == db
    ensures match StageOf(db, input)
      case NoPlan => outcome == CP.PlanMissing
      case Given => RepeatsApproval(db, input, outcome)
      case Outdated => outcome == CP.PlanSuperseded
      case Unready => outcome == CP.PlanNotReady
      case Other => outcome == CP.PlanMismatch
      case Conflicted => outcome == CP.PlanHasConflicts
      case Away => outcome == CP.ApplyOffline
      case Unable => outcome == CP.ApplyIncapable
      case _ => true
  {
    MatchingMeansGiven(db, input);
    if IsThePlan(db, input) && !exists id :: GivenBefore(db, input, id) { ObjectionsByStage(db, input); }
  }

  lemma MatchingMeansGiven(db: CP.Db, input: CP.ApplyInput)
    ensures CP.PlanFound(db, input) <==> IsThePlan(db, input)
    ensures forall id :: CP.MatchingApproval(db, input, id) <==> GivenBefore(db, input, id)
  {
  }

  lemma NewestMeansLatest(db: CP.Db, input: CP.ApplyInput)
    requires IsThePlan(db, input)
    ensures IsTheNewest(db, input)
            <==> CP.LatestPlan(db.jobs, input.organizationId, input.projectInstanceId, input.planJobId)
  {
  }

  lemma NothingObjects(db: CP.Db, input: CP.ApplyInput)
    requires StageOf(db, input).Clear? || StageOf(db, input).InTheWay?
    ensures CP.PlanFound(db, input) && CP.ApplyObjection(db, input) == None
  {
    NewestMeansLatest(db, input);
  }

  lemma ObjectionsByStage(db: CP.Db, input: CP.ApplyInput)
    requires IsThePlan(db, input) && !exists id :: GivenBefore(db, input, id)
    requires !StageOf(db, input).Clear? && !StageOf(db, input).InTheWay?
    ensures CP.PlanFound(db, input)
    ensures CP.ApplyObjection(db, input) == match StageOf(db, input)
      case Outdated => Some(CP.PlanSuperseded)
      case Unready => Some(CP.PlanNotReady)
      case Other => Some(CP.PlanMismatch)
      case Conflicted => Some(CP.PlanHasConflicts)
      case Away => Some(CP.ApplyOffline)
      case Unable => Some(CP.ApplyIncapable)
      case _ => None
  {
    NewestMeansLatest(db, input);
  }

  lemma ApprovalQueuesOrIsBlocked(db: CP.Db, input: CP.ApplyInput, after: CP.Db, outcome: CP.ApplyOutcome)
    requires input.applyJobId !in db.jobs && CP.Approve(db, input, after, outcome)
    requires CP.PlanFound(db, input) && IsThePlan(db, input) && CP.ApplyObjection(db, input) == None
    requires forall id :: !CP.MatchingApproval(db, input, id)
    ensures if Free(db.jobs, input.organizationId, input.projectInstanceId, input.issuedAt)
      then
        && outcome == CP.ApplyQueued(
             input.applyJobId, input.approvalId, db.instances[input.projectInstanceId].deviceId)
        && ApplyIsQueued(db, input, after)
      else
        && outcome.ApplyBlocked?
        && Blocked(db, after, input.organizationId, input.projectInstanceId, input.issuedAt, outcome.active)
  {
    var (org, instance, now) := (input.organizationId, input.projectInstanceId, input.issuedAt);
    SweepExpiresOverdue(db.jobs, org, instance, now);
    IdleMeansFree(db.jobs, org, instance, now);
    if Free(db.jobs, org, instance, now) {
      assert Commissions(db, input, CP.ApplyJob(db, input));
    } else {
      var id :| CP.FirstActive(after.jobs, org, instance, id)
        && outcome == CP.ApplyBlocked(CP.Summarize(after.jobs[id]));
      FirstIsTheOldest(db.jobs, org, instance, now, id);
    }
  }

  // ----- a rollback -----

  /** The receipt of the operation, on a checkout that is known. */
  predicate IsTheReceipt(db: CP.Db, input: CP.RollbackInput) {
    && Known(db, input.organizationId, input.projectInstanceId)
    && input.operationId in db.receipts
    && db.receipts[input.operationId].organizationId == input.organizationId
    && db.receipts[input.operationId].projectInstanceId == input.projectInstanceId
  }

  /** The rollback was asked for before, of the same device. */
  predicate AskedBefore(db: CP.Db, input: CP.RollbackInput, id: JobId)
    requires IsTheReceipt(db, input)
  {
    && id in db.jobs
    && db.jobs[id].envelope.organizationId == input.organizationId
    && db.jobs[id].envelope.deviceId == db.instances[input.projectInstanceId].deviceId
    && db.jobs[id].envelope.idempotencyKey == RollbackKey(input.operationId)
  }

  datatype RollbackStage =
    | NoReceipt | Unrecoverable | RollbackAway | RollbackUnable | Asked | RollbackInTheWay | RollbackClear

  ghost function RollbackStageOf(db: CP.Db, input: CP.RollbackInput): RollbackStage {
    if !IsTheReceipt(db, input) then NoReceipt
    else
      var receipt := db.receipts[input.operationId];
      var device := db.devices[db.instances[input.projectInstanceId].deviceId];
      if receipt.outcome == RolledBack || receipt.recoverability != RollbackAvailable then Unrecoverable
      else if !Present(device, input.runnerFreshAfter) then RollbackAway
      else if !Reports(device, RollbackOperationKind) then RollbackUnable
      else if exists id :: AskedBefore(db, input, id) then Asked
      else if !Free(db.jobs, input.organizationId, input.projectInstanceId, input.issuedAt) then RollbackInTheWay
      else RollbackClear
  }

  predicate CommissionsRollback(db: CP.Db, input: CP.RollbackInput, job: Envelope)
    requires IsTheReceipt(db, input)
  {
    && job.jobId == input.jobId && job.idempotencyKey == RollbackKey(input.operationId)
    && job.organizationId == input.organizationId
    && job.deviceId == db.instances[input.projectInstanceId].deviceId
    && job.projectInstanceId == Some(input.projectInstanceId)
    && job.issuedAt == input.issuedAt && job.expiresAt == input.expiresAt
    && job.job == RollbackOperation(db.instances[input.projectInstanceId].projectId, input.operationId)
  }

  ghost predicate RepeatsRollback(db: CP.Db, input: CP.RollbackInput, outcome: CP.RollbackOutcome)
    requires IsTheReceipt(db, input)
  {
    exists id :: AskedBefore(db, input, id)
      && outcome == CP.RollbackExisting(id, db.instances[input.projectInstanceId].deviceId)
  }

  ghost predicate RollbackIsQueued(db: CP.Db, input: CP.RollbackInput, after: CP.Db)
    requires IsTheReceipt(db, input)
  {
    && after == db.(jobs := after.jobs)
    && exists job: Envelope ::
         && CommissionsRollback(db, input, job)
         && Inserted(db, after, input.organizationId, input.projectInstanceId, input.issuedAt, job)
  }

  /** The same for a rollback. */
  lemma RollbackAnswersExactly(db: CP.Db, input: CP.RollbackInput, after: CP.Db, outcome: CP.RollbackOutcome)
    requires input.jobId !in db.jobs && CP.Rollback(db, input, after, outcome)
    ensures match RollbackStageOf(db, input)
      case NoReceipt => outcome == CP.ReceiptMissing && after == db
      case Unrecoverable => outcome == CP.NotRecoverable && after == db
      case RollbackAway => outcome == CP.RollbackOffline && after == db
      case RollbackUnable => outcome == CP.RollbackIncapable && after == db
      case Asked => after == db && RepeatsRollback(db, input, outcome)
      case RollbackInTheWay =>
        && outcome.RollbackBlocked?
        && Blocked(db, after, input.organizationId, input.projectInstanceId, input.issuedAt, outcome.active)
      case RollbackClear =>
        && outcome == CP.RollbackQueued(input.jobId, db.instances[input.projectInstanceId].deviceId)
        && RollbackIsQueued(db, input, after)
  {
    var (org, instance, now) := (input.organizationId, input.projectInstanceId, input.issuedAt);
    assert CP.ReceiptFound(db, input) <==> IsTheReceipt(db, input);
    if IsTheReceipt(db, input) {
      RequestsAlike(db, input);
      var stage := RollbackStageOf(db, input);
      if stage.RollbackClear? || stage.RollbackInTheWay? {
        RollbackQueuesOrIsBlocked(db, input, after, outcome);
      }
    }
  }

  lemma RequestsAlike(db: CP.Db, input: CP.RollbackInput)
    requires IsTheReceipt(db, input) && CP.ReceiptFound(db, input)
    ensures forall id | id in db.jobs ::
      CP.SameRequest(db.jobs[id], input.organizationId, CP.RollbackJob(db, input).deviceId,
                     CP.RollbackJob(db, input).idempotencyKey)
      <==> AskedBefore(db, input, id)
  {
  }

  lemma RollbackQueuesOrIsBlocked(db: CP.Db, input: CP.RollbackInput, after: CP.Db, outcome: CP.RollbackOutcome)
    requires input.jobId !in db.jobs && CP.Rollback(db, input, after, outcome)
    requires CP.ReceiptFound(db, input) && IsTheReceipt(db, input) && CP.RollbackObjection(db, input) == None
    requires forall id | id in db.jobs ::
      !CP.SameRequest(db.jobs[id], input.organizationId, CP.RollbackJob(db, input).deviceId,
                      CP.RollbackJob(db, input).idempotencyKey)
    ensures if Free(db.jobs, input.organizationId, input.projectInstanceId, input.issuedAt)
      then
        && outcome == CP.RollbackQueued(input.jobId, db.instances[input.projectInstanceId].deviceId)
        && RollbackIsQueued(db, input, after)
      else
        && outcome.RollbackBlocked?
        && Blocked(db, after, input.organizationId, input.projectInstanceId, input.issuedAt, outcome.active)
  {
    var (org, instance, now) := (input.organizationId, input.projectInstanceId, input.issuedAt);
    SweepExpiresOverdue(db.jobs, org, instance, now);
    IdleMeansFree(db.jobs, org, instance, now);
    if Free(db.jobs, org, instance, now) {
      assert CommissionsRollback(db, input, CP.RollbackJob(db, input));
    } else {
      var id :| CP.FirstActive(after.jobs, org, instance, id)
        && outcome == CP.RollbackBlocked(CP.Summarize(after.jobs[id]));
      FirstIsTheOldest(db.jobs, org, instance, now, id);
    }
  }
}
