/** What the read side offers is what the write side accepts. */
module Offers {
  import opened Protocol
  import opened ResultMatching
  import opened JobLifecycle
  import opened Invariants
  import opened CheckoutHistory
  import opened ControlPlaneRuns
  import opened ReadSide
  import opened TableFacts
  import CP = ControlPlane

  // ----- every checkout lives on an enrolled device -----

  ghost predicate Homes(db: CP.Db) {
    forall i | i in db.instances ::
      && db.instances[i].deviceId in db.devices
      && db.devices[db.instances[i].deviceId].organizationId == db.instances[i].organizationId
  }

  ghost predicate DevicesKept(before: map<DeviceId, CP.Device>, after: map<DeviceId, CP.Device>) {
    forall d | d in before :: d in after && after[d].organizationId == before[d].organizationId
  }

  lemma StepKeepsHomes(w: World, e: Event, next: World)
    requires Homes(w.db) && Step(w, e, next)
    ensures Homes(next.db)
  {
    match e {
      case Register(runner, instance, project, known) =>
      case _ =>
        StepKeepsDevices(w, e, next);
    }
  }

  lemma SubmissionKeepsDevices(
    db: CP.Db, runner: Runner, id: JobId, lease: LeaseId, result: ResultEnvelope, digest: Digest, now: Time)
    ensures var after := CP.CompleteJob(db, runner, id, lease, result, digest, now).0;
      after.instances == db.instances && after.devices == db.devices
  {
  }

  lemma StepKeepsDevices(w: World, e: Event, next: World)
    requires Does(w.db, next.clock, e, next.db) && Allowed(w, next.clock, e) && !e.Register?
    ensures next.db.instances == w.db.instances && DevicesKept(w.db.devices, next.db.devices)
  {
    if Queues(e) {
      QueueingEffect(w, e, next);
    } else if e.SubmitResult? {
      SubmissionKeepsDevices(w.db, e.runner, e.id, e.lease, e.result, e.digest, next.clock);
    }
  }

  lemma {:induction false} HistoryKeepsHomes(run: seq<World>, events: seq<Event>, k: nat)
    requires IsHistory(run, events) && k < |run|
    ensures Homes(run[k].db)
  {
    if k > 0 {
      HistoryKeepsHomes(run, events, k - 1);
      assert EventAt(run, events, k - 1);
      StepKeepsHomes(run[k - 1], events[k - 1], run[k]);
    }
  }

  // ----- an offered rollback -----

  lemma OfferedOperation(db: CP.Db, clock: Time, org: OrganizationId, instance: InstanceId, rows: Rows, op: OperationId)
    requires JobsOk(db, clock) && ReceiptsOk(db) && Reads(db, org, instance, rows)
    requires RecoverableOperationId(Some(Derive(rows))) == Some(op)
    ensures rows.operations != []
    ensures var latest := rows.operations[0];
      && latest in rows.operations && latest.envelope.jobId in db.jobs
      && op in db.receipts && db.receipts[op].jobId == latest.envelope.jobId
      && db.receipts[op].organizationId == org
      && db.receipts[op].projectInstanceId == instance
      && latest.state == Succeeded && latest.result.Some? && latest.result.value.result.ApplyReceipt?
      && latest.result.value.result.outcome != RolledBack
      && latest.result.value.result.recoverability == RollbackAvailable
    ensures CP.Idle(db.jobs, org, instance)
  {
    OnlyTheNewestIsOffered(rows);
    var latest := rows.operations[0];
    assert latest in rows.operations;
    assert Receipted(db.receipts, db.jobs[latest.envelope.jobId]);
    assert ReceiptOk(db.jobs, op, db.receipts[op]);
  }

  /** No rollback of the newest operation was ever issued: it would be newer still. */
  lemma NewestWasNeverRolledBack(
    db: CP.Db, clock: Time, org: OrganizationId, instance: InstanceId, rows: Rows, op: OperationId, id: JobId)
    requires JobsOk(db, clock) && RollbacksOk(db) && Apart(db) && Reads(db, org, instance, rows)
    requires rows.operations != [] && op in db.receipts && rows.operations[0].state == Succeeded
    requires db.receipts[op].jobId == rows.operations[0].envelope.jobId
    requires db.receipts[op].organizationId == org && db.receipts[op].projectInstanceId == instance
    requires id in db.jobs
    ensures !Rollbacks(db.jobs[id], op)
  {
    var latest := rows.operations[0];
    assert latest in rows.operations && RowFine(latest.envelope.jobId, latest, clock);
    assert Grounded(db.jobs, db.receipts, db.jobs[id].envelope);
    assert ApartRows(db.jobs[id], db.jobs[latest.envelope.jobId]);
    if Rollbacks(db.jobs[id], op) {
      NewestIsFirst(db.jobs, org, instance, rows.operations, id);
    }
  }

  lemma IdleStaysIdle(jobs: map<JobId, JobRow>, org: OrganizationId, instance: InstanceId, now: Time)
    requires CP.Idle(jobs, org, instance)
    ensures CP.Idle(CP.ExpirePending(jobs, org, instance, now), org, instance)
  {
    var swept := CP.ExpirePending(jobs, org, instance, now);
    forall id | id in swept
      ensures !CP.ActiveOperation(swept[id], org, instance)
    {
      assert !CP.ActiveOperation(jobs[id], org, instance);
    }
  }

  function RollbackAnswer(db: CP.Db, input: CP.RollbackInput): CP.RollbackOutcome
    requires CP.ReceiptFound(db, input)
  {
    var device := db.instances[input.projectInstanceId].deviceId;
    if !Present(db.devices[device], input.runnerFreshAfter) then CP.RollbackOffline
    else if !Reports(db.devices[device], RollbackOperationKind) then CP.RollbackIncapable
    else CP.RollbackQueued(input.jobId, device)
  }

  lemma NothingBlocksTheRollback(db: CP.Db, input: CP.RollbackInput, after: CP.Db, outcome: CP.RollbackOutcome)
    requires CP.ReceiptFound(db, input) && CP.Rollback(db, input, after, outcome)
    requires db.receipts[input.operationId].outcome != RolledBack
    requires db.receipts[input.operationId].recoverability == RollbackAvailable
    requires CP.Idle(db.jobs, input.organizationId, input.projectInstanceId)
    requires forall id | id in db.jobs ::
      !CP.SameRequest(db.jobs[id], input.organizationId, CP.RollbackJob(db, input).deviceId,
                      RollbackKey(input.operationId))
    ensures outcome == RollbackAnswer(db, input)
  {
    IdleStaysIdle(db.jobs, input.organizationId, input.projectInstanceId, input.issuedAt);
  }

  lemma NothingRequestedTheRollback(db: CP.Db, clock: Time, rows: Rows, input: CP.RollbackInput, id: JobId)
    requires Inv(db, clock) && Apart(db) && CP.ReceiptFound(db, input)
    requires Reads(db, input.organizationId, input.projectInstanceId, rows)
    requires rows.operations != [] && rows.operations[0].state == Succeeded
    requires db.receipts[input.operationId].jobId == rows.operations[0].envelope.jobId
    requires id in db.jobs
    ensures !Rollbacks(db.jobs[id], input.operationId)
    ensures !CP.SameRequest(db.jobs[id], input.organizationId, CP.RollbackJob(db, input).deviceId,
                            RollbackKey(input.operationId))
  {
    NewestWasNeverRolledBack(
      db, clock, input.organizationId, input.projectInstanceId, rows, input.operationId, id);
    EarlierRollbackIsFound(db, input, clock, id);
  }

  /** The offered receipt is there, recoverable and asked for by nobody, and its checkout is idle. */
  lemma OfferedReceiptIsRecoverable(
    run: seq<World>, events: seq<Event>, k: nat, rows: Rows, input: CP.RollbackInput)
    requires IsHistory(run, events) && Ticks(run) && k < |run|
    requires Reads(run[k].db, input.organizationId, input.projectInstanceId, rows)
    requires RecoverableOperationId(Some(Derive(rows))) == Some(input.operationId)
    ensures var db := run[k].db;
      && CP.ReceiptFound(db, input)
      && db.receipts[input.operationId].outcome != RolledBack
      && db.receipts[input.operationId].recoverability == RollbackAvailable
      && CP.Idle(db.jobs, input.organizationId, input.projectInstanceId)
      && forall id | id in db.jobs ::
           !CP.SameRequest(db.jobs[id], input.organizationId, CP.RollbackJob(db, input).deviceId,
                           RollbackKey(input.operationId))
  {
    var db, org, instance := run[k].db, input.organizationId, input.projectInstanceId;
    var op := input.operationId;
    assert Inv(db, run[k].clock) by { HistoryKeepsInv(run, events, k); }
    OfferedOperation(db, run[k].clock, org, instance, rows, op);
    assert CP.ReceiptFound(db, input) by { HistoryKeepsHomes(run, events, k); }
    assert Apart(db) by { SuccessesAndIssuesAreApart(run, events, k); }
    forall id | id in db.jobs
      ensures !Rollbacks(db.jobs[id], op)
      ensures !CP.SameRequest(db.jobs[id], org, CP.RollbackJob(db, input).deviceId, RollbackKey(op))
    {
      NothingRequestedTheRollback(db, run[k].clock, rows, input, id);
    }
    assert OutcomeOk(db.jobs, op, db.receipts[op]);
  }

  /** A rollback the client offers is one the server accepts: the answer never says that the
      receipt is missing, not recoverable, already being rolled back, or blocked by another
      operation; it depends on nothing but whether the runner is there. */
  lemma OfferedRollbackIsAccepted(
    run: seq<World>, events: seq<Event>, k: nat, rows: Rows, input: CP.RollbackInput,
    after: CP.Db, outcome: CP.RollbackOutcome)
    requires IsHistory(run, events) && Ticks(run) && k < |run|
    requires Reads(run[k].db, input.organizationId, input.projectInstanceId, rows)
    requires RecoverableOperationId(Some(Derive(rows))) == Some(input.operationId)
    requires CP.Rollback(run[k].db, input, after, outcome)
    ensures CP.ReceiptFound(run[k].db, input) && outcome == RollbackAnswer(run[k].db, input)
  {
    OfferedReceiptIsRecoverable(run, events, k, rows, input);
    NothingBlocksTheRollback(run[k].db, input, after, outcome);
  }

  // ----- an offered plan -----

  /** The row is a succeeded plan job and carries this plan, under this digest. */
  predicate PlanIsFor(row: JobRow, plan: Plan, digest: Digest) {
    && row.envelope.job.PlanSetup? && row.state == Succeeded
    && row.result.Some? && row.result.value.result.PlanResult?
    && row.result.value.result.plan == plan && plan.planDigest == digest
    && row.result.value.result.projectId == row.envelope.job.projectId
    && plan.setupRevisionId == row.envelope.job.revision.setupRevisionId
  }

  /** The plan job is over, and no apply or rollback of its checkout was issued since. */
  ghost predicate PlanCameLast(db: CP.Db, org: OrganizationId, instance: InstanceId, plan: JobId)
    requires plan in db.jobs
  {
    && db.jobs[plan].state == Succeeded && db.jobs[plan].completedAt.Some?
    && forall id | id in db.jobs && IsOperation(db.jobs[id], org, instance) ::
         db.jobs[id].envelope.issuedAt < db.jobs[plan].completedAt.value
  }

  lemma OfferedPlan(db: CP.Db, clock: Time, org: OrganizationId, instance: InstanceId, rows: Rows, plan: JobId)
    requires JobsOk(db, clock) && Reads(db, org, instance, rows)
    requires Derive(rows).reviewedPlan.Some? && Derive(rows).reviewedPlan.value.jobId == plan
    ensures CP.LatestPlan(db.jobs, org, instance, plan)
    ensures var reviewed := Derive(rows).reviewedPlan.value.plan;
      PlanIsFor(db.jobs[plan], reviewed, reviewed.planDigest)
    ensures PlanCameLast(db, org, instance, plan)
  {
    var row := db.jobs[plan];
    assert RowFine(plan, row, clock);
    forall id | id in db.jobs && IsOperation(db.jobs[id], org, instance)
      ensures db.jobs[id].envelope.issuedAt < row.completedAt.value
    {
      NewestIsFirst(db.jobs, org, instance, rows.operations, id);
      var latest := rows.operations[0];
      assert db.jobs[latest.envelope.jobId] == latest && RowFine(latest.envelope.jobId, latest, clock);
      assert Summary(latest) == Derive(rows).operations[0];
    }
  }

  /** No approval of the offered plan exists: its apply job would postdate the plan. */
  lemma OfferedPlanWasNeverApproved(
    db: CP.Db, org: OrganizationId, instance: InstanceId, plan: JobId, id: ApprovalId)
    requires ApprovalsOk(db) && id in db.approvals && plan in db.jobs
    requires db.jobs[plan].envelope.organizationId == org
    requires db.jobs[plan].envelope.projectInstanceId == Some(instance)
    requires PlanCameLast(db, org, instance, plan)
    ensures db.approvals[id].sourcePlan != plan
  {
    assert ApprovalOk(db.jobs, id, db.approvals[id]);
    var apply := db.jobs[db.approvals[id].consumedBy];
    if db.approvals[id].sourcePlan == plan {
      assert ReviewedPlan(db.jobs[plan], apply.envelope);
      assert IsOperation(apply, org, instance);
    }
  }

  /** The answer to an approval of the offered plan. */
  function ApprovalAnswer(db: CP.Db, input: CP.ApplyInput, plan: Plan): CP.ApplyOutcome
    requires CP.PlanFound(db, input)
  {
    var instance := db.instances[input.projectInstanceId];
    if db.jobs[input.planJobId].envelope.job.projectId != instance.projectId then CP.PlanMismatch
    else if |plan.conflicts| > 0 then CP.PlanHasConflicts
    else if !Present(db.devices[instance.deviceId], input.runnerFreshAfter) then CP.ApplyOffline
    else if !Reports(db.devices[instance.deviceId], ApplyPlanKind) then CP.ApplyIncapable
    else CP.ApplyQueued(input.applyJobId, input.approvalId, instance.deviceId)
  }

  /** Nothing but an operation in progress can come between the plan and its answer. */
  lemma ApprovalFollowsThePlan(
    db: CP.Db, input: CP.ApplyInput, plan: Plan, after: CP.Db, outcome: CP.ApplyOutcome)
    requires CP.PlanFound(db, input) && CP.Approve(db, input, after, outcome)
    requires CP.LatestPlan(db.jobs, input.organizationId, input.projectInstanceId, input.planJobId)
    requires forall id | id in db.approvals :: db.approvals[id].sourcePlan != input.planJobId
    requires PlanIsFor(db.jobs[input.planJobId], plan, input.planDigest)
    ensures outcome == ApprovalAnswer(db, input, plan)
            || (ApprovalAnswer(db, input, plan).ApplyQueued?
                && !CP.Idle(db.jobs, input.organizationId, input.projectInstanceId))
  {
    if CP.Idle(db.jobs, input.organizationId, input.projectInstanceId) {
      IdleStaysIdle(db.jobs, input.organizationId, input.projectInstanceId, input.issuedAt);
    }
  }

  lemma NothingIsActiveBesideThePlan(
    jobs: map<JobId, JobRow>, org: OrganizationId, instance: InstanceId, plan: JobId, id: JobId)
    requires CP.LatestPlan(jobs, org, instance, plan) && id in jobs
    requires !Active(jobs[plan]) && jobs[plan].completedAt.Some?
    requires id != plan ==> Outdates(jobs[id], jobs[plan]) && Follows(jobs[id], jobs[plan])
    requires IsOperation(jobs[id], org, instance) ==> jobs[id].envelope.issuedAt < jobs[plan].completedAt.value
    ensures !CP.ActiveOperation(jobs[id], org, instance)
  {
  }

  lemma OfferedPlanCameLast(
    run: seq<World>, events: seq<Event>, k: nat, org: OrganizationId, instance: InstanceId, rows: Rows, plan: JobId)
    requires IsHistory(run, events) && k < |run| && Reads(run[k].db, org, instance, rows)
    requires Derive(rows).reviewedPlan.Some? && Derive(rows).reviewedPlan.value.jobId == plan
    ensures CP.LatestPlan(run[k].db.jobs, org, instance, plan)
    ensures PlanCameLast(run[k].db, org, instance, plan)
  {
    HistoryKeepsInv(run, events, k);
    OfferedPlan(run[k].db, run[k].clock, org, instance, rows, plan);
  }

  lemma IdleBesideThePlan(
    run: seq<World>, events: seq<Event>, k: nat, org: OrganizationId, instance: InstanceId, plan: JobId)
    requires IsHistory(run, events) && Ticks(run) && k < |run|
    requires CP.LatestPlan(run[k].db.jobs, org, instance, plan) && PlanCameLast(run[k].db, org, instance, plan)
    ensures CP.Idle(run[k].db.jobs, org, instance)
  {
    var db := run[k].db;
    forall id | id in db.jobs ensures !CP.ActiveOperation(db.jobs[id], org, instance) {
      if id != plan {
        ActiveOperationIsNewest(run, events, k, id, plan);
        ActiveOperationIsLast(run, events, k, id, plan);
      }
      NothingIsActiveBesideThePlan(db.jobs, org, instance, plan, id);
    }
  }

  /** While a plan is on offer, its checkout is idle: a newer plan would be the one on offer, and
      an apply or rollback in progress would have been issued after the plan was completed. */
  lemma OfferedCheckoutIsIdle(
    run: seq<World>, events: seq<Event>, k: nat, org: OrganizationId, instance: InstanceId, rows: Rows, plan: JobId)
    requires IsHistory(run, events) && Ticks(run) && k < |run|
    requires Reads(run[k].db, org, instance, rows)
    requires Derive(rows).reviewedPlan.Some? && Derive(rows).reviewedPlan.value.jobId == plan
    ensures CP.Idle(run[k].db.jobs, org, instance)
  {
    OfferedPlanCameLast(run, events, k, org, instance, rows, plan);
    IdleBesideThePlan(run, events, k, org, instance, plan);
  }

  /** A reviewed plan the read side offers is applicable: approving it with its own digest never
      answers that it is missing, not ready, superseded, already applied or blocked by another
      operation. It answers a mismatch exactly when the checkout was bound to another project
      since; otherwise the apply is queued exactly when the plan has no conflicts and the runner
      is there. */
  lemma OfferedPlanIsApplicable(
    run: seq<World>, events: seq<Event>, k: nat, rows: Rows, input: CP.ApplyInput,
    after: CP.Db, outcome: CP.ApplyOutcome)
    requires IsHistory(run, events) && Ticks(run) && k < |run|
    requires Reads(run[k].db, input.organizationId, input.projectInstanceId, rows)
    requires Derive(rows).reviewedPlan.Some?
    requires Derive(rows).reviewedPlan.value.jobId == input.planJobId
    requires Derive(rows).reviewedPlan.value.plan.planDigest == input.planDigest
    requires CP.Approve(run[k].db, input, after, outcome)
    ensures CP.PlanFound(run[k].db, input)
    ensures outcome == ApprovalAnswer(run[k].db, input, Derive(rows).reviewedPlan.value.plan)
    ensures forall id | id in run[k].db.jobs ::
      run[k].db.jobs[id].envelope.idempotencyKey != ApplyKey(input.planJobId)
  {
    var db, org, instance := run[k].db, input.organizationId, input.projectInstanceId;
    assert Inv(db, run[k].clock) by { HistoryKeepsInv(run, events, k); }
    OfferedPlan(db, run[k].clock, org, instance, rows, input.planJobId);
    assert CP.PlanFound(db, input) by { HistoryKeepsHomes(run, events, k); }
    forall id | id in db.approvals
      ensures db.approvals[id].sourcePlan != input.planJobId
    {
      OfferedPlanWasNeverApproved(db, org, instance, input.planJobId, id);
    }
    forall id | id in db.jobs
      ensures db.jobs[id].envelope.idempotencyKey != ApplyKey(input.planJobId)
    {
      var e := db.jobs[id].envelope;
      assert RowFine(id, db.jobs[id], run[k].clock) && Approved(db.approvals, e);
      if e.job.ApplyPlan? {
        assert ApprovalOk(db.jobs, e.job.approval.approvalId, db.approvals[e.job.approval.approvalId]);
      }
    }
    OfferedCheckoutIsIdle(run, events, k, org, instance, rows, input.planJobId);
    ApprovalFollowsThePlan(db, input, Derive(rows).reviewedPlan.value.plan, after, outcome);
  }
}
