/** Runs of the control plane: arbitrary interleavings of its transactions, none at an earlier
    instant than the one before. */
module ControlPlaneRuns {
  import opened Protocol
  import opened ResultMatching
  import opened JobLifecycle
  import opened Invariants
  import CP = ControlPlane

  /** The tables, the instant of the last transaction and every lease id handed out. */
  datatype World = World(db: CP.Db, clock: Time, leases: set<LeaseId>)

  const START := World(CP.Db(map[], map[], map[], map[], map[], map[], map[]), 0, {})

  datatype Event =
    | Enroll(device: DeviceId, organization: OrganizationId, report: Report)
    | Revoke(organization: OrganizationId, device: DeviceId)
    | Register(runner: Runner, instance: InstanceId, project: ProjectId, known: bool)
    | AddRevision(organization: OrganizationId, revision: RevisionId, defaultOf: Option<ProjectId>)
    | EnqueueDeviceJob(job: Envelope)
    | RequestPlan(job: Envelope)
    | ApprovePlan(apply: CP.ApplyInput)
    | RequestRollback(rollback: CP.RollbackInput)
    | ClaimJob(runner: Runner, report: Report, lease: LeaseId, until: Time)
    | AcknowledgeJob(runner: Runner, id: JobId, lease: LeaseId, digest: Digest)
    | SubmitResult(runner: Runner, id: JobId, lease: LeaseId, result: ResultEnvelope, digest: Digest)
    | JobControl(runner: Runner, id: JobId, lease: LeaseId, until: Time)
    | CancelJob(organization: OrganizationId, id: JobId)

  /** What the services guarantee about their calls: fresh identifiers, the job's own
      idempotency key, a checkout and a revision that were read from the tables, and an enrolled
      runner. */
  ghost predicate Allowed(w: World, now: Time, e: Event) {
    match e
    case Enroll(device, _, _) => device !in w.db.devices
    case Register(runner, _, _, _) =>
      runner.deviceId in w.db.devices && w.db.devices[runner.deviceId].organizationId == runner.organizationId
    case AddRevision(_, revision, _) => revision !in w.db.revisions
    case EnqueueDeviceJob(job) =>
      && job.jobId !in w.db.jobs && !IsSetupOperation(job.job) && KeyFits(job) && job.issuedAt == now
      && (job.job.EvaluateSetups? ==> forall id | id in w.db.jobs ::
            w.db.jobs[id].envelope.deviceId == job.deviceId
            ==> w.db.jobs[id].envelope.idempotencyKey != job.idempotencyKey)
    case RequestPlan(job) =>
      && job.jobId !in w.db.jobs && job.job.PlanSetup? && KeyFits(job) && job.issuedAt == now
      && Placed(w.db.instances, job)
      && CP.RevisionKnown(w.db, job.organizationId, job.job.revision.setupRevisionId)
    case ApprovePlan(input) =>
      && input.applyJobId !in w.db.jobs && input.approvalId !in w.db.approvals
      && input.issuedAt == now
    case RequestRollback(input) => input.jobId !in w.db.jobs && input.issuedAt == now
    case ClaimJob(_, _, lease, _) => lease !in w.leases
    case _ => true
  }

  ghost predicate Does(db: CP.Db, now: Time, e: Event, after: CP.Db) {
    match e
    case Enroll(device, organization, report) =>
      after == db.(devices := db.devices[device := CP.Device(organization, true, None, Some(report))])
    case Revoke(organization, device) =>
      after == if device in db.devices && db.devices[device].organizationId == organization
               then db.(devices := db.devices[device := db.devices[device].(active := false)])
               else db
    case Register(runner, instance, project, known) =>
      after == CP.RegisterInstance(db, runner, instance, project, known).0
    case AddRevision(organization, revision, defaultOf) =>
      after == CP.AddRevision(db, organization, revision, defaultOf)
    case EnqueueDeviceJob(job) => after == Insert(db, job)
    case RequestPlan(job) =>
      job.projectInstanceId.Some? && exists outcome :: CP.EnqueuePlan(db, job, after, outcome)
    case ApprovePlan(input) => exists outcome :: CP.Approve(db, input, after, outcome)
    case RequestRollback(input) => exists outcome :: CP.Rollback(db, input, after, outcome)
    case ClaimJob(runner, report, lease, until) =>
      exists chosen :: CP.Claim(db, runner, report, lease, now, until, after, chosen)
    case AcknowledgeJob(runner, id, lease, digest) =>
      after == CP.Acknowledge(db, runner, id, lease, digest, now).0
    case SubmitResult(runner, id, lease, result, digest) =>
      after == CP.CompleteJob(db, runner, id, lease, result, digest, now).0
    case JobControl(runner, id, lease, until) =>
      after == CP.Control(db, runner, id, lease, now, until).0
    case CancelJob(organization, id) =>
      after == CP.RequestCancellation(db, organization, id, now).0
  }

  ghost predicate Step(w: World, e: Event, next: World) {
    && w.clock <= next.clock
    && Allowed(w, next.clock, e)
    && Does(w.db, next.clock, e, next.db)
    && next.leases == w.leases + (if e.ClaimJob? then {e.lease} else {})
  }

  // ----- what queueing does -----

  predicate Queues(e: Event) { e.RequestPlan? || e.ApprovePlan? || e.RequestRollback? || e.EnqueueDeviceJob? }

  /** Old rows stay or expire; at most the job itself is new. */
  ghost predicate QueuedInto(db: CP.Db, after: CP.Db, job: Envelope) {
    && (forall id | id in db.jobs ::
          id in after.jobs && (after.jobs[id] == db.jobs[id] || after.jobs[id].state == Expired))
    && (forall id | id in after.jobs && id !in db.jobs :: id == job.jobId && after.jobs[id] == NewRow(job))
    && after == db.(jobs := after.jobs, approvals := after.approvals)
  }

  lemma PlanQueues(db: CP.Db, job: Envelope, after: CP.Db, outcome: CP.PlanOutcome)
    requires job.projectInstanceId.Some? && job.jobId !in db.jobs && CP.EnqueuePlan(db, job, after, outcome)
    ensures QueuedInto(db, after, job)
  {
  }

  lemma ApprovalQueues(db: CP.Db, input: CP.ApplyInput, after: CP.Db, outcome: CP.ApplyOutcome)
    requires input.applyJobId !in db.jobs && CP.Approve(db, input, after, outcome)
    ensures if CP.PlanFound(db, input) then QueuedInto(db, after, CP.ApplyJob(db, input)) else after == db
  {
  }

  lemma RollbackQueues(db: CP.Db, input: CP.RollbackInput, after: CP.Db, outcome: CP.RollbackOutcome)
    requires input.jobId !in db.jobs && CP.Rollback(db, input, after, outcome)
    ensures if CP.ReceiptFound(db, input) then QueuedInto(db, after, CP.RollbackJob(db, input)) else after == db
  {
  }

  /** The job a queueing call may insert. */
  function JobOf(db: CP.Db, e: Event): Option<Envelope>
    requires Queues(e)
  {
    match e
    case RequestPlan(job) => Some(job)
    case EnqueueDeviceJob(job) => Some(job)
    case ApprovePlan(input) => if CP.PlanFound(db, input) then Some(CP.ApplyJob(db, input)) else None
    case RequestRollback(input) => if CP.ReceiptFound(db, input) then Some(CP.RollbackJob(db, input)) else None
  }

  lemma QueueingEffect(w: World, e: Event, next: World)
    requires Allowed(w, next.clock, e) && Does(w.db, next.clock, e, next.db) && Queues(e)
    ensures match JobOf(w.db, e)
            case None => next.db == w.db
            case Some(job) => job.issuedAt == next.clock && QueuedInto(w.db, next.db, job)
  {
    match e {
      case RequestPlan(job) =>
        var outcome :| CP.EnqueuePlan(w.db, job, next.db, outcome);
        PlanQueues(w.db, job, next.db, outcome);
      case ApprovePlan(input) =>
        var outcome :| CP.Approve(w.db, input, next.db, outcome);
        ApprovalQueues(w.db, input, next.db, outcome);
      case RequestRollback(input) =>
        var outcome :| CP.Rollback(w.db, input, next.db, outcome);
        RollbackQueues(w.db, input, next.db, outcome);
      case EnqueueDeviceJob(job) =>
    }
  }

  // ----- each transaction keeps the invariant -----

  lemma ExpiryMoves(db: CP.Db, org: OrganizationId, instance: InstanceId, clock: Time, now: Time)
    requires Inv(db, clock) && clock <= now
    ensures var swept := db.(jobs := CP.ExpirePending(db.jobs, org, instance, now));
      RowsMoved(db, swept, now) && Inv(swept, now)
  {
    var swept := db.(jobs := CP.ExpirePending(db.jobs, org, instance, now));
    forall id | id in db.jobs
      ensures Moved(id, db.jobs[id], swept.jobs[id], now)
    {
      assert RowFine(id, db.jobs[id], clock);
    }
    MovingKeepsInv(db, swept, clock, now);
  }

  lemma PlanKeepsInv(db: CP.Db, job: Envelope, after: CP.Db, outcome: CP.PlanOutcome, clock: Time)
    requires Inv(db, clock) && clock <= job.issuedAt
    requires job.jobId !in db.jobs && job.job.PlanSetup? && KeyFits(job) && Placed(db.instances, job)
    requires CP.EnqueuePlan(db, job, after, outcome)
    ensures Inv(after, job.issuedAt)
  {
    var instance := job.projectInstanceId.value;
    ExpiryMoves(db, job.organizationId, instance, clock, job.issuedAt);
    var swept := db.(jobs := CP.ExpirePending(db.jobs, job.organizationId, instance, job.issuedAt));
    if CP.Idle(swept.jobs, job.organizationId, instance) {
      PlainInsertKeepsInv(swept, job, job.issuedAt);
      assert after == Insert(swept, job);
    }
  }

  /** Whoever has approved this plan before is found by the query for existing approvals. */
  lemma EarlierApprovalIsFound(db: CP.Db, input: CP.ApplyInput, clock: Time, id: ApprovalId)
    requires Inv(db, clock) && CP.PlanFound(db, input)
    requires id in db.approvals && db.approvals[id].sourcePlan == input.planJobId
    ensures db.jobs[input.planJobId].state == Succeeded
    ensures db.jobs[input.planJobId].result.Some?
    ensures db.jobs[input.planJobId].result.value.result.PlanResult?
    ensures db.jobs[input.planJobId].result.value.result.plan.planDigest == input.planDigest
            <==> CP.MatchingApproval(db, input, id)
  {
    assert ApprovalOk(db.jobs, id, db.approvals[id]);
  }

  /** The approved plan is one that no approval stands for yet, and it survives the sweep. */
  lemma ApprovedPlanIsReviewed(db: CP.Db, input: CP.ApplyInput, clock: Time)
    requires Inv(db, clock) && clock <= input.issuedAt && CP.PlanFound(db, input)
    requires CP.ApplyObjection(db, input) == None
    requires forall id :: !CP.MatchingApproval(db, input, id)
    ensures ReviewedPlan(db.jobs[input.planJobId], CP.ApplyJob(db, input))
    ensures forall id | id in db.approvals :: db.approvals[id].sourcePlan != input.planJobId
  {
    var plan := db.jobs[input.planJobId];
    assert RowFine(input.planJobId, plan, clock) && Placed(db.instances, plan.envelope);
    forall id | id in db.approvals
      ensures db.approvals[id].sourcePlan != input.planJobId
    {
      if db.approvals[id].sourcePlan == input.planJobId {
        EarlierApprovalIsFound(db, input, clock, id);
      }
    }
  }

  lemma QueuedApplyKeepsInv(db: CP.Db, swept: CP.Db, input: CP.ApplyInput)
    requires CP.PlanFound(db, input) && Inv(swept, input.issuedAt)
    requires swept.instances == db.instances && swept.approvals == db.approvals && swept.jobs.Keys == db.jobs.Keys
    requires swept.jobs[input.planJobId] == db.jobs[input.planJobId]
    requires Placed(db.instances, db.jobs[input.planJobId].envelope)
    requires input.applyJobId !in db.jobs && input.approvalId !in db.approvals
    requires ReviewedPlan(db.jobs[input.planJobId], CP.ApplyJob(db, input))
    requires forall id | id in db.approvals :: db.approvals[id].sourcePlan != input.planJobId
    requires CP.Idle(swept.jobs, input.organizationId, input.projectInstanceId)
    ensures var job := CP.ApplyJob(db, input);
      Inv(Insert(swept, job).(approvals := db.approvals[input.approvalId :=
            CP.ApprovalRow(job.job.approval, input.applyJobId, input.planJobId)]), input.issuedAt)
  {
    var job := CP.ApplyJob(db, input);
    assert Insertable(swept, job, input.issuedAt);
    ApplyInsertKeepsInv(
      swept, job, CP.ApprovalRow(job.job.approval, input.applyJobId, input.planJobId), input.issuedAt);
  }

  lemma ApproveKeepsInv(db: CP.Db, input: CP.ApplyInput, after: CP.Db, outcome: CP.ApplyOutcome, clock: Time)
    requires Inv(db, clock) && clock <= input.issuedAt
    requires input.applyJobId !in db.jobs && input.approvalId !in db.approvals
    requires CP.Approve(db, input, after, outcome)
    ensures Inv(after, input.issuedAt)
  {
    if after == db {
      MovingKeepsInv(db, db, clock, input.issuedAt);
    } else {
      ExpiryMoves(db, input.organizationId, input.projectInstanceId, clock, input.issuedAt);
      var swept := db.(jobs := CP.ExpirePending(
        db.jobs, input.organizationId, input.projectInstanceId, input.issuedAt));
      if CP.Idle(swept.jobs, input.organizationId, input.projectInstanceId) {
        ApprovedPlanIsReviewed(db, input, clock);
        assert Placed(db.instances, db.jobs[input.planJobId].envelope);
        QueuedApplyKeepsInv(db, swept, input);
      }
    }
  }

  lemma RollbackIsGrounded(db: CP.Db, input: CP.RollbackInput, clock: Time)
    requires Inv(db, clock) && clock <= input.issuedAt && CP.ReceiptFound(db, input)
    ensures Grounded(db.jobs, db.receipts, CP.RollbackJob(db, input))
  {
    var r := db.receipts[input.operationId];
    assert ReceiptOk(db.jobs, input.operationId, r);
    assert RowFine(r.jobId, db.jobs[r.jobId], clock);
  }

  /** Any earlier rollback of the operation is found by its idempotency key. */
  lemma EarlierRollbackIsFound(db: CP.Db, input: CP.RollbackInput, clock: Time, id: JobId)
    requires Inv(db, clock) && CP.ReceiptFound(db, input) && id in db.jobs
    ensures Rollbacks(db.jobs[id], input.operationId)
            <==> CP.SameRequest(db.jobs[id], input.organizationId,
                                CP.RollbackJob(db, input).deviceId, RollbackKey(input.operationId))
  {
    var e := db.jobs[id].envelope;
    assert RowFine(id, db.jobs[id], clock) && Placed(db.instances, e);
    assert Grounded(db.jobs, db.receipts, e);
  }

  lemma RollbackIsNew(db: CP.Db, input: CP.RollbackInput, clock: Time)
    requires Inv(db, clock) && CP.ReceiptFound(db, input)
    requires !exists id :: id in db.jobs
               && CP.SameRequest(db.jobs[id], input.organizationId,
                                 CP.RollbackJob(db, input).deviceId, RollbackKey(input.operationId))
    ensures forall id | id in db.jobs :: !Rollbacks(db.jobs[id], input.operationId)
  {
    forall id | id in db.jobs
      ensures !Rollbacks(db.jobs[id], input.operationId)
    {
      EarlierRollbackIsFound(db, input, clock, id);
    }
  }

  /** Sweeping expired operations keeps a rollback both grounded and new. */
  lemma SweptRollbackIsInsertable(db: CP.Db, swept: CP.Db, input: CP.RollbackInput, clock: Time)
    requires Inv(db, clock) && clock <= input.issuedAt && CP.ReceiptFound(db, input)
    requires RowsMoved(db, swept, input.issuedAt)
    requires forall id | id in db.jobs :: !Rollbacks(db.jobs[id], input.operationId)
    ensures Grounded(swept.jobs, swept.receipts, CP.RollbackJob(db, input))
    ensures forall id | id in swept.jobs :: !Rollbacks(swept.jobs[id], input.operationId)
  {
    RollbackIsGrounded(db, input, clock);
    MovingKeepsOrigins(db, swept, input.issuedAt);
    OriginsKeepGrounding(db, swept, CP.RollbackJob(db, input));
    forall id | id in swept.jobs
      ensures !Rollbacks(swept.jobs[id], input.operationId)
    {
      assert Moved(id, db.jobs[id], swept.jobs[id], input.issuedAt);
    }
  }

  lemma QueuedRollbackKeepsInv(db: CP.Db, swept: CP.Db, input: CP.RollbackInput, clock: Time)
    requires Inv(db, clock) && clock <= input.issuedAt && CP.ReceiptFound(db, input)
    requires RowsMoved(db, swept, input.issuedAt) && Inv(swept, input.issuedAt)
    requires swept.instances == db.instances && input.jobId !in db.jobs
    requires forall id | id in db.jobs :: !Rollbacks(db.jobs[id], input.operationId)
    requires CP.Idle(swept.jobs, input.organizationId, input.projectInstanceId)
    ensures Inv(Insert(swept, CP.RollbackJob(db, input)), input.issuedAt)
  {
    var job := CP.RollbackJob(db, input);
    SweptRollbackIsInsertable(db, swept, input, clock);
    assert Insertable(swept, job, input.issuedAt);
    RollbackInsertKeepsInv(swept, job, input.issuedAt);
  }

  lemma RollbackKeepsInv(db: CP.Db, input: CP.RollbackInput, after: CP.Db, outcome: CP.RollbackOutcome, clock: Time)
    requires Inv(db, clock) && clock <= input.issuedAt
    requires input.jobId !in db.jobs
    requires CP.Rollback(db, input, after, outcome)
    ensures Inv(after, input.issuedAt)
  {
    if after == db {
      MovingKeepsInv(db, db, clock, input.issuedAt);
    } else {
      ExpiryMoves(db, input.organizationId, input.projectInstanceId, clock, input.issuedAt);
      var swept := db.(jobs := CP.ExpirePending(
        db.jobs, input.organizationId, input.projectInstanceId, input.issuedAt));
      if CP.Idle(swept.jobs, input.organizationId, input.projectInstanceId) {
        RollbackIsNew(db, input, clock);
        QueuedRollbackKeepsInv(db, swept, input, clock);
        assert after == Insert(swept, CP.RollbackJob(db, input));
      } else {
        assert after == swept;
      }
    }
  }

  lemma SingleRowMoves(db: CP.Db, after: CP.Db, id: JobId, next: JobRow, clock: Time, now: Time)
    requires Inv(db, clock) && clock <= now && id in db.jobs
    requires after == db.(jobs := db.jobs[id := next], devices := after.devices)
    requires Moved(id, db.jobs[id], next, now)
    ensures Inv(after, now)
  {
    MovingKeepsInv(db, after, clock, now);
  }

  lemma ClaimedRowsMove(db: CP.Db, after: CP.Db, chosen: Option<JobId>, lease: LeaseId,
                        clock: Time, now: Time, until: Time)
    requires JobsOk(db, clock) && clock <= now
    requires after == db.(jobs := after.jobs, devices := after.devices)
    requires after.jobs.Keys == db.jobs.Keys
    requires forall id | id in db.jobs ::
      CP.ClaimedRow(db.jobs[id], after.jobs[id], chosen == Some(id), lease, now, until)
    ensures RowsMoved(db, after, now)
  {
    forall id | id in db.jobs
      ensures Moved(id, db.jobs[id], after.jobs[id], now)
    {
      assert RowFine(id, db.jobs[id], clock);
      ClaimedRowMoves(id, db.jobs[id], after.jobs[id], chosen == Some(id), lease, clock, now, until);
    }
  }

  lemma ClaimedRowMoves(
    id: JobId, row: JobRow, next: JobRow, chosen: bool, lease: LeaseId, clock: Time, now: Time, until: Time)
    requires RowFine(id, row, clock) && clock <= now && CP.ClaimedRow(row, next, chosen, lease, now, until)
    ensures Moved(id, row, next, now)
  {
  }

  lemma ClaimKeepsInv(
    db: CP.Db, runner: Runner, report: Report, lease: LeaseId, clock: Time, now: Time, until: Time,
    after: CP.Db, chosen: Option<JobId>)
    requires Inv(db, clock) && clock <= now
    requires CP.Claim(db, runner, report, lease, now, until, after, chosen)
    ensures Inv(after, now)
  {
    CP.ClaimOnRows(db, runner, report, lease, now, until, after, chosen);
    ClaimedRowsMove(db, after, chosen, lease, clock, now, until);
    MovingKeepsInv(db, after, clock, now);
  }

  lemma AcknowledgeKeepsInv(
    db: CP.Db, runner: Runner, id: JobId, lease: LeaseId, digest: Digest, clock: Time, now: Time)
    requires Inv(db, clock) && clock <= now
    ensures Inv(CP.Acknowledge(db, runner, id, lease, digest, now).0, now)
  {
    if CP.Addressed(db, runner, id) {
      assert RowFine(id, db.jobs[id], clock);
      SingleRowMoves(db, CP.Acknowledge(db, runner, id, lease, digest, now).0, id,
                     AcknowledgeRow(db.jobs[id], lease, digest, now).0, clock, now);
    } else {
      MovingKeepsInv(db, db, clock, now);
    }
  }

  lemma ControlKeepsInv(
    db: CP.Db, runner: Runner, id: JobId, lease: LeaseId, clock: Time, now: Time, until: Time)
    requires Inv(db, clock) && clock <= now
    ensures Inv(CP.Control(db, runner, id, lease, now, until).0, now)
  {
    var after := CP.Control(db, runner, id, lease, now, until).0;
    if CP.Addressed(db, runner, id) {
      assert RowFine(id, db.jobs[id], clock);
      SingleRowMoves(db, after, id, ControlRow(db.jobs[id], lease, until).0, clock, now);
    } else {
      MovingKeepsInv(db, after, clock, now);
    }
  }

  lemma CancelledRowMoves(id: JobId, row: JobRow, clock: Time, now: Time)
    requires RowFine(id, row, clock) && clock <= now
    ensures Moved(id, row, CancelRow(row, now, Some(now)), now)
  {
  }

  lemma CancelKeepsInv(db: CP.Db, org: OrganizationId, id: JobId, clock: Time, now: Time)
    requires Inv(db, clock) && clock <= now
    ensures Inv(CP.RequestCancellation(db, org, id, now).0, now)
  {
    if id in db.jobs && db.jobs[id].envelope.organizationId == org {
      CancelledRowMoves(id, db.jobs[id], clock, now);
      SingleRowMoves(db, CP.RequestCancellation(db, org, id, now).0, id,
                     CancelRow(db.jobs[id], now, Some(now)), clock, now);
    } else {
      MovingKeepsInv(db, db, clock, now);
    }
  }

  // ----- completion -----

  lemma AcceptedRow(row: JobRow, id: JobId, lease: LeaseId, result: ResultEnvelope, digest: Digest,
                    clock: Time, now: Time)
    requires RowFine(id, row, clock) && clock <= now
    requires CompleteRow(row, lease, result, digest, Some(now), ResultMatchesJob(row.envelope, result)).1 == Accepted
    ensures var next := CompleteRow(row, lease, result, digest, Some(now), ResultMatchesJob(row.envelope, result)).0;
      && Active(row) && next == Finish(row, result, digest, Some(now)) && RowFine(id, next, now)
      && ResultMatchesJob(row.envelope, result)
      && (next.state == Succeeded && row.envelope.job.ApplyPlan? <==> result.result.ApplyReceipt?)
      && (next.state == Succeeded && row.envelope.job.RollbackOperation? <==> result.result.RollbackReceipt?)
  {
  }

  /** The two exceptions of receipt persistence that signal a broken binding never occur. */
  lemma ReceiptBindingNeverBreaks(
    db: CP.Db, runner: Runner, id: JobId, lease: LeaseId, result: ResultEnvelope, digest: Digest,
    clock: Time, now: Time)
    requires Inv(db, clock) && clock <= now
    ensures var completion := CP.CompleteJob(db, runner, id, lease, result, digest, now).1;
      && completion != CP.Thrown(CP.ReceiptWithoutApproval)
      && completion != CP.Thrown(CP.RollbackWithoutReceipt)
      && (completion == CP.Thrown(CP.DuplicateOperation) ==>
            result.result.ApplyReceipt? && result.result.operationId in db.receipts)
  {
    if CP.CompleteJob(db, runner, id, lease, result, digest, now).1.Thrown? {
      ThrownCompletion(db, runner, id, lease, result, digest, now);
      var row := db.jobs[id];
      assert RowFine(id, row, clock) && Placed(db.instances, row.envelope);
      assert Grounded(db.jobs, db.receipts, row.envelope);
      AcceptedRow(row, id, lease, result, digest, clock, now);
      BoundReceiptsPersist(db, id, Finish(row, result, digest, Some(now)), result, now);
    }
  }

  /** What a completion that throws has tried. */
  lemma ThrownCompletion(
    db: CP.Db, runner: Runner, id: JobId, lease: LeaseId, result: ResultEnvelope, digest: Digest, now: Time)
    requires CP.CompleteJob(db, runner, id, lease, result, digest, now).1.Thrown?
    ensures CP.Addressed(db, runner, id)
    ensures var r := CompleteRow(db.jobs[id], lease, result, digest, Some(now),
                                 ResultMatchesJob(db.jobs[id].envelope, result));
      && r.1 == Accepted && r.0 == Finish(db.jobs[id], result, digest, Some(now)) && r.0.state == Succeeded
      && CP.Persist(db.(jobs := db.jobs[id := r.0]), r.0.envelope, result.result, now)
         == CP.NotPersisted(CP.CompleteJob(db, runner, id, lease, result, digest, now).1.failure)
  {
  }

  lemma BoundReceiptsPersist(db: CP.Db, id: JobId, next: JobRow, result: ResultEnvelope, now: Time)
    requires id in db.jobs && Placed(db.instances, next.envelope) && Grounded(db.jobs, db.receipts, next.envelope)
    requires ResultMatchesJob(next.envelope, result)
    requires result.result.ApplyReceipt? ==> next.envelope.job.ApplyPlan?
    requires result.result.RollbackReceipt? ==> next.envelope.job.RollbackOperation?
    ensures var persisted := CP.Persist(db.(jobs := db.jobs[id := next]), next.envelope, result.result, now);
      && persisted != CP.NotPersisted(CP.ReceiptWithoutApproval)
      && persisted != CP.NotPersisted(CP.RollbackWithoutReceipt)
      && (persisted == CP.NotPersisted(CP.DuplicateOperation) ==>
            result.result.ApplyReceipt? && result.result.operationId in db.receipts)
  {
  }

  /** What a completion that changes anything has done. */
  lemma CompletionChanges(
    db: CP.Db, runner: Runner, id: JobId, lease: LeaseId, result: ResultEnvelope, digest: Digest, now: Time)
    requires CP.CompleteJob(db, runner, id, lease, result, digest, now).0 != db
    ensures CP.Addressed(db, runner, id)
    ensures var r := CompleteRow(db.jobs[id], lease, result, digest, Some(now),
                                 ResultMatchesJob(db.jobs[id].envelope, result));
      var after := CP.CompleteJob(db, runner, id, lease, result, digest, now).0;
      && r.1 == Accepted && r.0.envelope == db.jobs[id].envelope && r.0.result == Some(result)
      && if r.0.state == Succeeded
         then CP.Persist(db.(jobs := db.jobs[id := r.0]), r.0.envelope, result.result, now) == CP.Persisted(after)
         else after == db.(jobs := db.jobs[id := r.0])
  {
  }

  lemma CompleteKeepsInv(
    db: CP.Db, runner: Runner, id: JobId, lease: LeaseId, result: ResultEnvelope, digest: Digest,
    clock: Time, now: Time)
    requires Inv(db, clock) && clock <= now
    ensures Inv(CP.CompleteJob(db, runner, id, lease, result, digest, now).0, now)
  {
    var after := CP.CompleteJob(db, runner, id, lease, result, digest, now).0;
    if after == db {
      MovingKeepsInv(db, db, clock, now);
    } else {
      CompletionChanges(db, runner, id, lease, result, digest, now);
      var row := db.jobs[id];
      assert RowFine(id, row, clock);
      AcceptedRow(row, id, lease, result, digest, clock, now);
      var next := Finish(row, result, digest, Some(now));
      if result.result.ApplyReceipt? {
        AppliedKeepsInv(db, after, id, next, clock, now);
      } else if result.result.RollbackReceipt? {
        RolledBackKeepsInv(db, after, id, next, clock, now);
      } else {
        SingleRowMoves(db, after, id, next, clock, now);
      }
    }
  }

  /** The receipt row that an accepted apply receipt adds. */
  lemma AppliedWrites(completed: CP.Db, next: JobRow, now: Time, after: CP.Db)
    requires next.result.Some? && next.result.value.result.ApplyReceipt?
    requires CP.Persist(completed, next.envelope, next.result.value.result, now) == CP.Persisted(after)
    ensures var op := next.result.value.result.operationId;
      && op !in completed.receipts && op in after.receipts && Records(after.receipts[op], next)
      && after == completed.(receipts := completed.receipts[op := after.receipts[op]], assignments := after.assignments)
  {
  }

  lemma AppliedKeepsInv(db: CP.Db, after: CP.Db, id: JobId, next: JobRow, clock: Time, now: Time)
    requires Inv(db, clock) && clock <= now && Succeeds(db, id, next, now)
    requires next.envelope.job.ApplyPlan? && next.result.value.result.ApplyReceipt?
    requires CP.Persist(db.(jobs := db.jobs[id := next]), next.envelope, next.result.value.result, now)
             == CP.Persisted(after)
    ensures Inv(after, now)
  {
    AppliedWrites(db.(jobs := db.jobs[id := next]), next, now, after);
    var op := next.result.value.result.operationId;
    ApplySuccessKeepsInv(db, id, next, after.receipts[op], clock, now);
    OnlyAssignmentsDiffer(WriteReceipt(db, id, next, op, after.receipts[op]), after, now);
  }

  lemma OnlyAssignmentsDiffer(db: CP.Db, after: CP.Db, now: Time)
    requires Inv(db, now) && after == db.(assignments := after.assignments)
    ensures Inv(after, now)
  {
    MovingKeepsInv(db, after, now, now);
  }

  /** The receipt row that an accepted rollback receipt rewrites. */
  lemma RolledBackWrites(completed: CP.Db, next: JobRow, now: Time, after: CP.Db)
    requires next.result.Some? && next.result.value.result.RollbackReceipt?
    requires CP.Persist(completed, next.envelope, next.result.value.result, now) == CP.Persisted(after)
    ensures var op := next.result.value.result.operationId;
      && op in completed.receipts && op in after.receipts
      && after.receipts[op] == completed.receipts[op].(
           outcome := RolledBack, recoverability := after.receipts[op].recoverability,
           completedAt := after.receipts[op].completedAt)
      && after == completed.(receipts := completed.receipts[op := after.receipts[op]], assignments := after.assignments)
  {
  }

  lemma RolledBackKeepsInv(db: CP.Db, after: CP.Db, id: JobId, next: JobRow, clock: Time, now: Time)
    requires Inv(db, clock) && clock <= now && Succeeds(db, id, next, now)
    requires next.envelope.job.RollbackOperation? && next.result.value.result.RollbackReceipt?
    requires next.result.value.result.operationId == next.envelope.job.operationId
    requires CP.Persist(db.(jobs := db.jobs[id := next]), next.envelope, next.result.value.result, now)
             == CP.Persisted(after)
    ensures Inv(after, now)
  {
    RolledBackWrites(db.(jobs := db.jobs[id := next]), next, now, after);
    var op := next.result.value.result.operationId;
    RollbackSuccessKeepsInv(db, id, next, after.receipts[op], clock, now);
    OnlyAssignmentsDiffer(WriteReceipt(db, id, next, op, after.receipts[op]), after, now);
  }

  // ----- every run -----

  lemma RegistrationKeepsTheRest(
    db: CP.Db, runner: Runner, instance: InstanceId, project: ProjectId, known: bool)
    ensures var after := CP.RegisterInstance(db, runner, instance, project, known).0;
      after == db.(instances := after.instances) && InstancesKept(db.instances, after.instances)
  {
  }

  /** The jobs, approvals, receipts and the place of every checkout stay. */
  ghost predicate JobTablesKept(db: CP.Db, after: CP.Db) {
    && after.jobs == db.jobs && after.approvals == db.approvals && after.receipts == db.receipts
    && InstancesKept(db.instances, after.instances)
  }

  lemma QuietStepKeepsJobTables(w: World, e: Event, next: World)
    requires Does(w.db, next.clock, e, next.db)
    requires e.Enroll? || e.Revoke? || e.Register? || e.AddRevision?
    ensures JobTablesKept(w.db, next.db)
  {
    if e.Register? { RegistrationKeepsTheRest(w.db, e.runner, e.instance, e.project, e.known); }
  }

  lemma SameJobTablesKeepInv(db: CP.Db, after: CP.Db, clock: Time, later: Time)
    requires Inv(db, clock) && clock <= later && JobTablesKept(db, after)
    ensures Inv(after, later)
  {
    MovingKeepsInv(db, after, clock, later);
  }

  lemma QuietStepKeepsInv(w: World, e: Event, next: World)
    requires Inv(w.db, w.clock) && w.clock <= next.clock && Does(w.db, next.clock, e, next.db)
    requires e.Enroll? || e.Revoke? || e.Register? || e.AddRevision?
    ensures Inv(next.db, next.clock)
  {
    QuietStepKeepsJobTables(w, e, next);
    SameJobTablesKeepInv(w.db, next.db, w.clock, next.clock);
  }

  lemma DeviceJobKeepsInv(w: World, job: Envelope, next: World)
    requires Inv(w.db, w.clock) && w.clock <= next.clock
    requires Allowed(w, next.clock, EnqueueDeviceJob(job)) && next.db == Insert(w.db, job)
    ensures Inv(next.db, next.clock)
  {
    MovingKeepsInv(w.db, w.db, w.clock, next.clock);
    PlainInsertKeepsInv(w.db, job, next.clock);
  }

  lemma StepKeepsInv(w: World, e: Event, next: World)
    requires Inv(w.db, w.clock) && Step(w, e, next)
    ensures Inv(next.db, next.clock)
  {
    var now := next.clock;
    match e {
      case RequestPlan(job) =>
        var outcome :| CP.EnqueuePlan(w.db, job, next.db, outcome);
        PlanKeepsInv(w.db, job, next.db, outcome, w.clock);
      case ApprovePlan(input) =>
        var outcome :| CP.Approve(w.db, input, next.db, outcome);
        ApproveKeepsInv(w.db, input, next.db, outcome, w.clock);
      case RequestRollback(input) =>
        var outcome :| CP.Rollback(w.db, input, next.db, outcome);
        RollbackKeepsInv(w.db, input, next.db, outcome, w.clock);
      case ClaimJob(runner, report, lease, until) =>
        var chosen :| CP.Claim(w.db, runner, report, lease, now, until, next.db, chosen);
        ClaimKeepsInv(w.db, runner, report, lease, w.clock, now, until, next.db, chosen);
      case AcknowledgeJob(runner, id, lease, digest) =>
        AcknowledgeKeepsInv(w.db, runner, id, lease, digest, w.clock, now);
      case SubmitResult(runner, id, lease, result, digest) =>
        CompleteKeepsInv(w.db, runner, id, lease, result, digest, w.clock, now);
      case JobControl(runner, id, lease, until) =>
        ControlKeepsInv(w.db, runner, id, lease, w.clock, now, until);
      case CancelJob(organization, id) =>
        CancelKeepsInv(w.db, organization, id, w.clock, now);
      case EnqueueDeviceJob(job) =>
        DeviceJobKeepsInv(w, job, next);
      case _ =>
        QuietStepKeepsInv(w, e, next);
    }
  }

  ghost predicate IsHistory(run: seq<World>, events: seq<Event>) {
    && |run| == |events| + 1
    && run[0] == START
    && forall k | 0 <= k < |events| :: EventAt(run, events, k)
  }

  ghost predicate EventAt(run: seq<World>, events: seq<Event>, k: nat)
    requires |run| == |events| + 1 && k < |events|
  {
    Step(run[k], events[k], run[k + 1])
  }

  /** Every transaction has an instant of its own. */
  ghost predicate Ticks(run: seq<World>) {
    forall k | 0 <= k < |run| - 1 :: TickAt(run, k)
  }

  ghost predicate TickAt(run: seq<World>, k: nat)
    requires k + 1 < |run|
  {
    run[k].clock < run[k + 1].clock
  }

  lemma {:induction false} HistoryKeepsInv(run: seq<World>, events: seq<Event>, k: nat)
    requires IsHistory(run, events) && k < |run|
    ensures Inv(run[k].db, run[k].clock)
  {
    if k > 0 {
      HistoryKeepsInv(run, events, k - 1);
      assert EventAt(run, events, k - 1);
      StepKeepsInv(run[k - 1], events[k - 1], run[k]);
    }
  }
}
