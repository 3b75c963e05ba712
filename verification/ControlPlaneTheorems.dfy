/** What holds over every history of the control plane. */
module ControlPlaneTheorems {
  import opened Protocol
  import opened ResultMatching
  import opened JobLifecycle
  import opened Invariants
  import opened ControlPlaneRuns
  import CP = ControlPlane

  // ----- histories are runs of the job table -----

  function TableOf(w: World): Table { Table(w.db.jobs, w.leases) }

  /** Old rows take one row step and keep to known leases; at most one row is new. */
  ghost predicate RowsStep(db: CP.Db, after: CP.Db, leases: set<LeaseId>, later: set<LeaseId>) {
    forall id | id in after.jobs ::
      (if id in db.jobs then RowStep(db.jobs[id], after.jobs[id], leases)
       else after.jobs[id] == NewRow(after.jobs[id].envelope))
      && (after.jobs[id].leaseId.Some? ==> after.jobs[id].leaseId.value in later)
  }

  /** Sweeping expired operations, then at most inserting one job. */
  ghost predicate SweptThenInserted(
    db: CP.Db, after: CP.Db, org: OrganizationId, instance: InstanceId, now: Time, id: JobId)
  {
    var jobs := CP.ExpirePending(db.jobs, org, instance, now);
    && id !in db.jobs
    && (after.jobs == db.jobs || after.jobs == jobs
        || exists e :: after.jobs == jobs[id := NewRow(e)])
  }

  lemma SweepIsTableStep(w: World, after: CP.Db, org: OrganizationId, instance: InstanceId, now: Time, id: JobId)
    requires TableOk(TableOf(w)) && SweptThenInserted(w.db, after, org, instance, now, id)
    ensures w.db.jobs.Keys <= after.jobs.Keys
    ensures RowsStep(w.db, after, w.leases, w.leases)
  {
    forall j | j in w.db.jobs
      ensures RowStep(w.db.jobs[j], CP.ExpirePendingRow(w.db.jobs[j], org, instance, now), w.leases)
    {
    }
  }

  lemma SingleRowIsTableStep(w: World, after: CP.Db, id: JobId, next: JobRow)
    requires TableOk(TableOf(w)) && id in w.db.jobs && after.jobs == w.db.jobs[id := next]
    requires RowStep(w.db.jobs[id], next, w.leases) && next.leaseId == w.db.jobs[id].leaseId
    ensures w.db.jobs.Keys <= after.jobs.Keys
    ensures RowsStep(w.db, after, w.leases, w.leases)
  {
  }

  lemma ClaimIsTableStep(
    w: World, runner: Runner, report: Report, lease: LeaseId, now: Time, until: Time,
    after: CP.Db, chosen: Option<JobId>)
    requires TableOk(TableOf(w)) && lease !in w.leases
    requires CP.Claim(w.db, runner, report, lease, now, until, after, chosen)
    ensures w.db.jobs.Keys <= after.jobs.Keys
    ensures RowsStep(w.db, after, w.leases, w.leases + {lease})
  {
    CP.ClaimOnRows(w.db, runner, report, lease, now, until, after, chosen);
    forall id | id in w.db.jobs
      ensures RowStep(w.db.jobs[id], after.jobs[id], w.leases)
      ensures after.jobs[id].leaseId.Some? ==> after.jobs[id].leaseId.value in w.leases + {lease}
    {
      var row, next := w.db.jobs[id], after.jobs[id];
      assert CP.ClaimedRow(row, next, chosen == Some(id), lease, now, until);
      if next != row && next != Expire(row) { assert GrantStep(row, next, w.leases); }
    }
  }

  /** `after` has the rows of `w`, but for the row `id`, which took one row step. */
  ghost predicate OneRowStep(w: World, after: CP.Db, id: JobId) {
    after.jobs == w.db.jobs
    || (id in w.db.jobs && exists next :: after.jobs == w.db.jobs[id := next]
                                          && RowStep(w.db.jobs[id], next, w.leases)
                                          && next.leaseId == w.db.jobs[id].leaseId)
  }

  lemma OneRowIsTableStep(w: World, after: CP.Db, id: JobId)
    requires TableOk(TableOf(w)) && OneRowStep(w, after, id)
    ensures w.db.jobs.Keys <= after.jobs.Keys
    ensures RowsStep(w.db, after, w.leases, w.leases)
  {
    if after.jobs != w.db.jobs {
      var next :| after.jobs == w.db.jobs[id := next] && RowStep(w.db.jobs[id], next, w.leases)
                  && next.leaseId == w.db.jobs[id].leaseId;
      SingleRowIsTableStep(w, after, id, next);
    }
  }

  lemma AcknowledgeIsRowStep(w: World, runner: Runner, id: JobId, lease: LeaseId, digest: Digest, now: Time)
    ensures OneRowStep(w, CP.Acknowledge(w.db, runner, id, lease, digest, now).0, id)
  {
    if CP.Addressed(w.db, runner, id) {
      var next := AcknowledgeRow(w.db.jobs[id], lease, digest, now).0;
      assert AcknowledgeStep(w.db.jobs[id], next);
    }
  }

  lemma ControlIsRowStep(w: World, runner: Runner, id: JobId, lease: LeaseId, now: Time, until: Time)
    ensures OneRowStep(w, CP.Control(w.db, runner, id, lease, now, until).0, id)
  {
    if CP.Addressed(w.db, runner, id) {
      var next := ControlRow(w.db.jobs[id], lease, until).0;
      assert ControlStep(w.db.jobs[id], next);
    }
  }

  lemma CancelIsRowStep(w: World, org: OrganizationId, id: JobId, now: Time)
    ensures OneRowStep(w, CP.RequestCancellation(w.db, org, id, now).0, id)
  {
    if id in w.db.jobs {
      var next := CancelRow(w.db.jobs[id], now, Some(now));
      assert CancelStep(w.db.jobs[id], next);
    }
  }

  lemma SubmitIsRowStep(
    w: World, runner: Runner, id: JobId, lease: LeaseId, result: ResultEnvelope, digest: Digest, now: Time)
    ensures OneRowStep(w, CP.CompleteJob(w.db, runner, id, lease, result, digest, now).0, id)
  {
    var after := CP.CompleteJob(w.db, runner, id, lease, result, digest, now).0;
    if after.jobs != w.db.jobs {
      var row := w.db.jobs[id];
      var next := CompleteRow(row, lease, result, digest, Some(now), ResultMatchesJob(row.envelope, result)).0;
      assert CompleteStep(row, next);
      assert after.jobs == w.db.jobs[id := next];
    }
  }

  lemma CallIsTableStep(w: World, e: Event, next: World)
    requires TableOk(TableOf(w)) && Does(w.db, next.clock, e, next.db)
    requires e.AcknowledgeJob? || e.SubmitResult? || e.JobControl? || e.CancelJob?
    ensures w.db.jobs.Keys <= next.db.jobs.Keys
    ensures RowsStep(w.db, next.db, w.leases, w.leases)
  {
    match e {
      case AcknowledgeJob(runner, id, lease, digest) =>
        AcknowledgeIsRowStep(w, runner, id, lease, digest, next.clock);
      case SubmitResult(runner, id, lease, result, digest) =>
        SubmitIsRowStep(w, runner, id, lease, result, digest, next.clock);
      case JobControl(runner, id, lease, until) =>
        ControlIsRowStep(w, runner, id, lease, next.clock, until);
      case CancelJob(org, id) =>
        CancelIsRowStep(w, org, id, next.clock);
    }
    OneRowIsTableStep(w, next.db, e.id);
  }

  lemma PlanIsTableStep(w: World, job: Envelope, after: CP.Db, outcome: CP.PlanOutcome)
    requires TableOk(TableOf(w)) && job.jobId !in w.db.jobs && job.projectInstanceId.Some?
    requires CP.EnqueuePlan(w.db, job, after, outcome)
    ensures w.db.jobs.Keys <= after.jobs.Keys
    ensures RowsStep(w.db, after, w.leases, w.leases)
  {
    SweepIsTableStep(w, after, job.organizationId, job.projectInstanceId.value, job.issuedAt, job.jobId);
  }

  lemma ApprovalIsTableStep(w: World, input: CP.ApplyInput, after: CP.Db, outcome: CP.ApplyOutcome)
    requires TableOk(TableOf(w)) && input.applyJobId !in w.db.jobs
    requires CP.Approve(w.db, input, after, outcome)
    ensures w.db.jobs.Keys <= after.jobs.Keys
    ensures RowsStep(w.db, after, w.leases, w.leases)
  {
    SweepIsTableStep(w, after, input.organizationId, input.projectInstanceId, input.issuedAt, input.applyJobId);
  }

  lemma RollbackIsTableStep(w: World, input: CP.RollbackInput, after: CP.Db, outcome: CP.RollbackOutcome)
    requires TableOk(TableOf(w)) && input.jobId !in w.db.jobs
    requires CP.Rollback(w.db, input, after, outcome)
    ensures w.db.jobs.Keys <= after.jobs.Keys
    ensures RowsStep(w.db, after, w.leases, w.leases)
  {
    SweepIsTableStep(w, after, input.organizationId, input.projectInstanceId, input.issuedAt, input.jobId);
  }

  lemma QuietStepIsTableStep(w: World, e: Event, next: World)
    requires TableOk(TableOf(w)) && Allowed(w, next.clock, e) && Does(w.db, next.clock, e, next.db)
    requires e.Enroll? || e.Revoke? || e.Register? || e.AddRevision? || e.EnqueueDeviceJob?
    ensures w.db.jobs.Keys <= next.db.jobs.Keys
    ensures RowsStep(w.db, next.db, w.leases, w.leases)
  {
    if !e.EnqueueDeviceJob? { QuietStepKeepsJobTables(w, e, next); }
    OneInsertionIsTableStep(w, next.db);
  }

  lemma OneInsertionIsTableStep(w: World, after: CP.Db)
    requires TableOk(TableOf(w))
    requires after.jobs == w.db.jobs || exists e: Envelope :: e.jobId !in w.db.jobs && after == Insert(w.db, e)
    ensures w.db.jobs.Keys <= after.jobs.Keys
    ensures RowsStep(w.db, after, w.leases, w.leases)
  {
  }

  lemma StepMovesRows(w: World, e: Event, next: World)
    requires TableOk(TableOf(w)) && Step(w, e, next)
    ensures w.db.jobs.Keys <= next.db.jobs.Keys
    ensures RowsStep(w.db, next.db, w.leases, next.leases)
  {
    match e {
      case RequestPlan(job) =>
        var outcome :| CP.EnqueuePlan(w.db, job, next.db, outcome);
        PlanIsTableStep(w, job, next.db, outcome);
      case ApprovePlan(input) =>
        var outcome :| CP.Approve(w.db, input, next.db, outcome);
        ApprovalIsTableStep(w, input, next.db, outcome);
      case RequestRollback(input) =>
        var outcome :| CP.Rollback(w.db, input, next.db, outcome);
        RollbackIsTableStep(w, input, next.db, outcome);
      case ClaimJob(runner, report, lease, until) =>
        var chosen :| CP.Claim(w.db, runner, report, lease, next.clock, until, next.db, chosen);
        ClaimIsTableStep(w, runner, report, lease, next.clock, until, next.db, chosen);
      case AcknowledgeJob(_, _, _, _) => CallIsTableStep(w, e, next);
      case SubmitResult(_, _, _, _, _) => CallIsTableStep(w, e, next);
      case JobControl(_, _, _, _) => CallIsTableStep(w, e, next);
      case CancelJob(_, _) => CallIsTableStep(w, e, next);
      case _ => QuietStepIsTableStep(w, e, next);
    }
  }

  lemma StepIsTableStep(w: World, e: Event, next: World)
    requires TableOk(TableOf(w)) && Step(w, e, next)
    ensures TableStep(TableOf(w), TableOf(next))
  {
    StepMovesRows(w, e, next);
  }

  lemma {:induction false} HistoryIsOk(run: seq<World>, events: seq<Event>, k: nat)
    requires IsHistory(run, events) && k < |run|
    ensures TableOk(TableOf(run[k]))
  {
    if k > 0 {
      HistoryIsOk(run, events, k - 1);
      assert EventAt(run, events, k - 1);
      StepIsTableStep(run[k - 1], events[k - 1], run[k]);
      TableStepKeepsTableOk(TableOf(run[k - 1]), TableOf(run[k]));
    }
  }

  /** Every history is a run of its job table, so lease fencing, absorbing terminal states and
      final results, proved of all such runs, hold of the Postgres control plane too. */
  lemma HistoryIsTableRun(run: seq<World>, events: seq<Event>)
    requires IsHistory(run, events)
    ensures IsRun(seq(|run|, i requires 0 <= i < |run| => TableOf(run[i])))
  {
    var tables := seq(|run|, i requires 0 <= i < |run| => TableOf(run[i]));
    HistoryIsOk(run, events, 0);
    forall k | 0 <= k < |tables| - 1
      ensures StepAt(tables, k)
    {
      HistoryIsOk(run, events, k);
      assert EventAt(run, events, k);
      StepIsTableStep(run[k], events[k], run[k + 1]);
    }
  }

  /** Fencing as a caller meets it: once a job holding `lease` was found under another, a call that
      still carries `lease` is not accepted, throws nothing, and leaves every job, receipt,
      approval and assignment as it was; a control call is at most seen by the device. */
  lemma StaleCallsChangeNothing(
    run: seq<World>, events: seq<Event>, i: nat, j: nat, k: nat, runner: Runner, id: JobId, lease: LeaseId,
    digest: Digest, result: ResultEnvelope, now: Time, until: Time)
    requires IsHistory(run, events) && i <= j <= k < |run|
    requires id in run[i].db.jobs && run[i].db.jobs[id].leaseId == Some(lease)
    requires id in run[j].db.jobs && run[j].db.jobs[id].leaseId != Some(lease)
    ensures var db := run[k].db;
      && CP.Acknowledge(db, runner, id, lease, digest, now).0 == db
      && CP.Acknowledge(db, runner, id, lease, digest, now).1 in {ConflictOutcome, Unknown}
      && CP.Control(db, runner, id, lease, now, until).0
         == db.(devices := CP.TouchDevice(db.devices, runner, now, None))
      && !CP.Control(db, runner, id, lease, now, until).1.Available?
      && CP.CompleteJob(db, runner, id, lease, result, digest, now).0 == db
      && CP.CompleteJob(db, runner, id, lease, result, digest, now).1
         in {CP.Answered(ConflictOutcome), CP.Answered(Duplicate), CP.Answered(Unknown)}
  {
    var tables := seq(|run|, n requires 0 <= n < |run| => TableOf(run[n]));
    HistoryIsTableRun(run, events);
    assert tables[i] == TableOf(run[i]) && tables[j] == TableOf(run[j]) && tables[k] == TableOf(run[k]);
    var db := run[k].db;
    StaleLeaseIsFenced(tables, i, j, k, id, lease, digest, result, now, until, Some(now),
                       id in db.jobs && ResultMatchesJob(db.jobs[id].envelope, result));
    assert db.jobs[id := db.jobs[id]] == db.jobs;
  }

  // ----- one operation at a time -----

  /** In every reachable state a checkout has at most one plan, apply or rollback job that is
      pending, leased or acknowledged. */
  lemma AtMostOneOperationPerCheckout(
    run: seq<World>, events: seq<Event>, k: nat, org: OrganizationId, instance: InstanceId,
    a: JobId, b: JobId)
    requires IsHistory(run, events) && k < |run|
    requires a in run[k].db.jobs && CP.ActiveOperation(run[k].db.jobs[a], org, instance)
    requires b in run[k].db.jobs && CP.ActiveOperation(run[k].db.jobs[b], org, instance)
    ensures a == b
  {
    HistoryKeepsInv(run, events, k);
    assert Collide(run[k].db.jobs[a], run[k].db.jobs[b]);
  }

  /** The unique index on (device, idempotency key) never refuses a job that is not an
      evaluation: no two jobs of a device share such a key. */
  lemma RequestsAreUniquePerDevice(run: seq<World>, events: seq<Event>, k: nat, a: JobId, b: JobId)
    requires IsHistory(run, events) && k < |run|
    requires a in run[k].db.jobs && b in run[k].db.jobs
    requires run[k].db.jobs[a].envelope.idempotencyKey == run[k].db.jobs[b].envelope.idempotencyKey
    requires !run[k].db.jobs[a].envelope.job.EvaluateSetups?
    ensures a == b
  {
    HistoryKeepsInv(run, events, k);
    var db := run[k].db;
    var e, f := db.jobs[a].envelope, db.jobs[b].envelope;
    assert RowFine(a, db.jobs[a], run[k].clock) && RowFine(b, db.jobs[b], run[k].clock);
    if e.job.ApplyPlan? {
      assert Approved(db.approvals, e) && Approved(db.approvals, f);
      assert ApprovalOk(db.jobs, e.job.approval.approvalId, db.approvals[e.job.approval.approvalId]);
      assert ApprovalOk(db.jobs, f.job.approval.approvalId, db.approvals[f.job.approval.approvalId]);
    }
  }

  // ----- approvals -----

  /** What an apply job and its plan have to do with each other. */
  ghost predicate Binds(db: CP.Db, plan: JobId, apply: JobId) {
    && plan in db.jobs && apply in db.jobs
    && db.jobs[apply].envelope.job.ApplyPlan?
    && db.jobs[apply].envelope.idempotencyKey == ApplyKey(plan)
    && ReviewedPlan(db.jobs[plan], db.jobs[apply].envelope)
  }

  lemma ApplyHasItsPlan(db: CP.Db, clock: Time, apply: JobId) returns (plan: JobId)
    requires Inv(db, clock) && apply in db.jobs && db.jobs[apply].envelope.job.ApplyPlan?
    ensures Binds(db, plan, apply)
  {
    var e := db.jobs[apply].envelope;
    assert Approved(db.approvals, e) && RowFine(apply, db.jobs[apply], clock);
    var id := e.job.approval.approvalId;
    assert ApprovalOk(db.jobs, id, db.approvals[id]);
    plan := db.approvals[id].sourcePlan;
  }

  /** Every apply job stands for one reviewed, conflict-free plan of the same checkout, and no
      plan ever leads to a second apply job. */
  lemma EachPlanIsAppliedAtMostOnce(
    run: seq<World>, events: seq<Event>, k: nat, a: JobId, b: JobId) returns (plan: JobId)
    requires IsHistory(run, events) && k < |run|
    requires a in run[k].db.jobs && run[k].db.jobs[a].envelope.job.ApplyPlan?
    requires b in run[k].db.jobs && run[k].db.jobs[b].envelope.job.ApplyPlan?
    ensures Binds(run[k].db, plan, a)
    ensures Binds(run[k].db, plan, b) ==> a == b
  {
    HistoryKeepsInv(run, events, k);
    plan := ApplyHasItsPlan(run[k].db, run[k].clock, a);
    if Binds(run[k].db, plan, b) {
      RequestsAreUniquePerDevice(run, events, k, a, b);
    }
  }

  /** A stored receipt carries the revision and digest of the plan that its own apply job was
      approved from, and that plan still has the very result it was reviewed with: it was final
      when the apply job was issued. */
  lemma ReceiptsCarryTheReviewedPlan(run: seq<World>, events: seq<Event>, k: nat, op: OperationId)
    returns (plan: JobId)
    requires IsHistory(run, events) && k < |run| && op in run[k].db.receipts
    ensures var db := run[k].db;
      && plan in db.jobs && db.jobs[plan].envelope.job.PlanSetup?
      && db.jobs[plan].state == Succeeded
      && db.jobs[plan].result.Some? && db.jobs[plan].result.value.result.PlanResult?
      && db.jobs[plan].envelope.projectInstanceId == Some(db.receipts[op].projectInstanceId)
      && var reviewed := db.jobs[plan].result.value.result.plan;
         && db.receipts[op].planDigest == reviewed.planDigest
         && db.receipts[op].setupRevisionId == reviewed.setupRevisionId
         && reviewed.conflicts == []
    ensures Binds(run[k].db, plan, run[k].db.receipts[op].jobId)
  {
    HistoryKeepsInv(run, events, k);
    var db := run[k].db;
    var id := db.receipts[op].jobId;
    assert ReceiptOk(db.jobs, op, db.receipts[op]);
    assert RowFine(id, db.jobs[id], run[k].clock);
    plan := ApplyHasItsPlan(db, run[k].clock, id);
  }

  // ----- receipts -----

  /** What an accepted submission has written. */
  ghost predicate Recorded(db: CP.Db, after: CP.Db, id: JobId, r: Result) {
    && id in db.jobs
    && var job := db.jobs[id].envelope.job;
    && (r.ApplyReceipt? ==>
          && job.ApplyPlan?
          && job.approval.approvalId in db.approvals
          && db.approvals[job.approval.approvalId].consumedBy == id
          && r.operationId !in db.receipts
          && after.receipts.Keys == db.receipts.Keys + {r.operationId}
          && after.receipts[r.operationId].jobId == id
          && (forall op | op in db.receipts :: after.receipts[op] == db.receipts[op]))
    && (r.RollbackReceipt? ==>
          && job.RollbackOperation? && job.operationId == r.operationId
          && r.operationId in db.receipts
          && after.receipts.Keys == db.receipts.Keys
          && after.receipts[r.operationId].outcome == RolledBack
          && (forall op | op in db.receipts && op != r.operationId ::
                after.receipts[op] == db.receipts[op]))
    && (!r.ApplyReceipt? && !r.RollbackReceipt? ==>
          after.receipts == db.receipts && after.assignments == db.assignments)
  }

  /** The accepted row and what persistence made of it. */
  lemma AcceptedSubmission(
    db: CP.Db, runner: Runner, id: JobId, lease: LeaseId, result: ResultEnvelope, digest: Digest,
    clock: Time, now: Time) returns (next: JobRow)
    requires CP.Addressed(db, runner, id) && RowFine(id, db.jobs[id], clock) && clock <= now
    requires CompleteRow(db.jobs[id], lease, result, digest, Some(now),
                         ResultMatchesJob(db.jobs[id].envelope, result)).1 == Accepted
    ensures next == Finish(db.jobs[id], result, digest, Some(now))
    ensures ResultMatchesJob(db.jobs[id].envelope, result)
    ensures result.result.ApplyReceipt? <==> next.state == Succeeded && next.envelope.job.ApplyPlan?
    ensures result.result.RollbackReceipt? <==> next.state == Succeeded && next.envelope.job.RollbackOperation?
    ensures var persisted := CP.Persist(db.(jobs := db.jobs[id := next]), next.envelope, result.result, now);
      CP.CompleteJob(db, runner, id, lease, result, digest, now)
      == (match persisted
          case Persisted(after) => (after, CP.Answered(Accepted))
          case NotPersisted(failure) => (db, CP.Thrown(failure)))
  {
    AcceptedRow(db.jobs[id], id, lease, result, digest, clock, now);
    next := Finish(db.jobs[id], result, digest, Some(now));
  }

  lemma PersistedIsRecorded(db: CP.Db, id: JobId, next: JobRow, result: ResultEnvelope, now: Time, after: CP.Db)
    requires id in db.jobs && next.envelope == db.jobs[id].envelope && next.envelope.jobId == id
    requires ResultMatchesJob(next.envelope, result) && Approved(db.approvals, next.envelope)
    requires result.result.ApplyReceipt? ==> next.envelope.job.ApplyPlan?
    requires CP.Persist(db.(jobs := db.jobs[id := next]), next.envelope, result.result, now) == CP.Persisted(after)
    ensures Recorded(db, after, id, result.result) && after.jobs == db.jobs[id := next]
  {
  }

  /** An accepted apply receipt belongs to a job with an approval and adds exactly one row; an
      accepted rollback receipt rewrites exactly one row, which was there. */
  lemma AcceptedReceiptsAreRecorded(
    run: seq<World>, events: seq<Event>, k: nat, runner: Runner, id: JobId, lease: LeaseId,
    result: ResultEnvelope, digest: Digest, now: Time)
    requires IsHistory(run, events) && k < |run| && run[k].clock <= now
    requires CP.CompleteJob(run[k].db, runner, id, lease, result, digest, now).1 == CP.Answered(Accepted)
    ensures var after := CP.CompleteJob(run[k].db, runner, id, lease, result, digest, now).0;
      && Recorded(run[k].db, after, id, result.result)
      && id in after.jobs && after.jobs[id].result == Some(result)
  {
    var db := run[k].db;
    assert RowFine(id, db.jobs[id], run[k].clock) && Approved(db.approvals, db.jobs[id].envelope) by {
      HistoryKeepsInv(run, events, k);
    }
    var next := AcceptedSubmission(db, runner, id, lease, result, digest, run[k].clock, now);
    PersistedIsRecorded(db, id, next, result, now,
                        CP.CompleteJob(db, runner, id, lease, result, digest, now).0);
  }

  // ----- which submissions throw -----

  /** Plans and applies are about revisions their organization has. */
  ghost predicate RevisionsKnown(db: CP.Db) {
    forall id | id in db.jobs :: RevisionOfJobKnown(db, db.jobs[id].envelope)
  }

  ghost predicate RevisionOfJobKnown(db: CP.Db, e: Envelope) {
    e.job.PlanSetup? || e.job.ApplyPlan? ==> CP.RevisionKnown(db, e.organizationId, e.job.revision.setupRevisionId)
  }

  lemma StepKeepsRevisions(w: World, e: Event, next: World)
    requires Allowed(w, next.clock, e) && Does(w.db, next.clock, e, next.db)
    ensures forall r | r in w.db.revisions :: r in next.db.revisions && next.db.revisions[r] == w.db.revisions[r]
  {
    if e.SubmitResult? {
      SubmissionKeepsRevisions(w.db, e.runner, e.id, e.lease, e.result, e.digest, next.clock);
    } else if Queues(e) {
      QueueingEffect(w, e, next);
    }
  }

  lemma SubmissionKeepsRevisions(
    db: CP.Db, runner: Runner, id: JobId, lease: LeaseId, result: ResultEnvelope, digest: Digest, now: Time)
    ensures CP.CompleteJob(db, runner, id, lease, result, digest, now).0.revisions == db.revisions
  {
  }

  /** A new job is about a known revision, because the request, or the approved plan, is. */
  lemma NewJobsHaveKnownRevisions(w: World, e: Event, next: World, id: JobId)
    requires Allowed(w, next.clock, e) && Does(w.db, next.clock, e, next.db) && RevisionsKnown(w.db)
    requires Queues(e) && id in next.db.jobs && id !in w.db.jobs
    ensures RevisionOfJobKnown(w.db, next.db.jobs[id].envelope)
  {
    QueueingEffect(w, e, next);
    if e.ApprovePlan? {
      assert RevisionOfJobKnown(w.db, w.db.jobs[e.apply.planJobId].envelope);
    }
  }

  lemma {:induction false} HistoryKnowsRevisions(run: seq<World>, events: seq<Event>, k: nat)
    requires IsHistory(run, events) && k < |run|
    ensures RevisionsKnown(run[k].db)
  {
    if k > 0 {
      var w, e, next := run[k - 1], events[k - 1], run[k];
      HistoryKnowsRevisions(run, events, k - 1);
      HistoryIsOk(run, events, k - 1);
      assert EventAt(run, events, k - 1);
      StepKeepsRevisions(w, e, next);
      StepIsTableStep(w, e, next);
      forall id | id in next.db.jobs ensures RevisionOfJobKnown(next.db, next.db.jobs[id].envelope) {
        if id in w.db.jobs {
          StepOnRow(TableOf(w), TableOf(next), id);
          assert RevisionOfJobKnown(w.db, w.db.jobs[id].envelope);
        } else {
          OnlyQueueingInserts(w, e, next);
          NewJobsHaveKnownRevisions(w, e, next, id);
        }
      }
    }
  }

  lemma OnlyQueueingInserts(w: World, e: Event, next: World)
    requires Does(w.db, next.clock, e, next.db)
    ensures Queues(e) || next.db.jobs.Keys == w.db.jobs.Keys
  {
    match e {
      case ClaimJob(runner, report, lease, until) =>
        var chosen :| CP.Claim(w.db, runner, report, lease, next.clock, until, next.db, chosen);
        CP.ClaimOnRows(w.db, runner, report, lease, next.clock, until, next.db, chosen);
      case SubmitResult(runner, id, lease, result, digest) =>
        SubmitIsRowStep(w, runner, id, lease, result, digest, next.clock);
      case _ =>
    }
  }

  /** The result is an apply receipt under an operation id that is taken. */
  predicate ReusesOperation(db: CP.Db, result: Result) {
    result.ApplyReceipt? && result.operationId in db.receipts
  }

  /** The result restores a revision its organization does not have, in a checkout whose project
      has an assignment to move there. */
  predicate RestoresUnknown(db: CP.Db, job: Envelope, result: Result) {
    && result.RollbackReceipt? && result.restoredSetupRevisionId.Some?
    && job.projectInstanceId.Some? && job.projectInstanceId.value in db.instances
    && db.instances[job.projectInstanceId.value].organizationId == job.organizationId
    && db.instances[job.projectInstanceId.value].projectId in db.assignments
    && (result.restoredSetupRevisionId.value !in db.revisions
        || db.revisions[result.restoredSetupRevisionId.value] != job.organizationId)
  }

  /** A submission throws exactly when it would be accepted, but reuses an operation id or restores
      an unknown revision; no other exception of receipt persistence is reachable. */
  lemma SubmissionsThrowExactlyWhen(
    run: seq<World>, events: seq<Event>, k: nat, runner: Runner, id: JobId, lease: LeaseId,
    result: ResultEnvelope, digest: Digest, now: Time)
    requires IsHistory(run, events) && k < |run| && run[k].clock <= now
    ensures var db := run[k].db;
      var completion := CP.CompleteJob(db, runner, id, lease, result, digest, now).1;
      && (completion.Thrown? <==>
            && CP.Addressed(db, runner, id)
            && CompleteRow(db.jobs[id], lease, result, digest, Some(now),
                           ResultMatchesJob(db.jobs[id].envelope, result)).1 == Accepted
            && (ReusesOperation(db, result.result) || RestoresUnknown(db, db.jobs[id].envelope, result.result)))
      && (completion.Thrown? ==>
            completion.failure == if result.result.ApplyReceipt? then CP.DuplicateOperation else CP.UnknownRevision)
  {
    var db := run[k].db;
    var completion := CP.CompleteJob(db, runner, id, lease, result, digest, now).1;
    assert completion != CP.Thrown(CP.ReceiptWithoutApproval) && completion != CP.Thrown(CP.RollbackWithoutReceipt) by {
      HistoryKeepsInv(run, events, k);
      ReceiptBindingNeverBreaks(db, runner, id, lease, result, digest, run[k].clock, now);
    }
    if CP.Addressed(db, runner, id) {
      assert RowFine(id, db.jobs[id], run[k].clock) by { HistoryKeepsInv(run, events, k); }
      assert RevisionOfJobKnown(db, db.jobs[id].envelope) by { HistoryKnowsRevisions(run, events, k); }
      ThrownExactlyWhen(db, runner, id, lease, result, digest, run[k].clock, now);
    }
  }

  lemma ThrownExactlyWhen(
    db: CP.Db, runner: Runner, id: JobId, lease: LeaseId, result: ResultEnvelope, digest: Digest,
    clock: Time, now: Time)
    requires CP.Addressed(db, runner, id) && RowFine(id, db.jobs[id], clock) && clock <= now
    requires RevisionOfJobKnown(db, db.jobs[id].envelope)
    requires CP.CompleteJob(db, runner, id, lease, result, digest, now).1 != CP.Thrown(CP.ReceiptWithoutApproval)
    requires CP.CompleteJob(db, runner, id, lease, result, digest, now).1 != CP.Thrown(CP.RollbackWithoutReceipt)
    ensures var completion := CP.CompleteJob(db, runner, id, lease, result, digest, now).1;
      && (completion.Thrown? <==>
            && CompleteRow(db.jobs[id], lease, result, digest, Some(now),
                           ResultMatchesJob(db.jobs[id].envelope, result)).1 == Accepted
            && (ReusesOperation(db, result.result) || RestoresUnknown(db, db.jobs[id].envelope, result.result)))
      && (completion.Thrown? ==>
            completion.failure == if result.result.ApplyReceipt? then CP.DuplicateOperation else CP.UnknownRevision)
  {
    if CompleteRow(db.jobs[id], lease, result, digest, Some(now),
                   ResultMatchesJob(db.jobs[id].envelope, result)).1 == Accepted {
      var next := AcceptedSubmission(db, runner, id, lease, result, digest, clock, now);
      PersistenceFailsExactlyWhen(db, id, next, result, now);
    }
  }

  lemma PersistenceFailsExactlyWhen(db: CP.Db, id: JobId, next: JobRow, result: ResultEnvelope, now: Time)
    requires id in db.jobs && next.envelope == db.jobs[id].envelope
    requires ResultMatchesJob(next.envelope, result) && RevisionOfJobKnown(db, next.envelope)
    requires result.result.ApplyReceipt? ==> next.envelope.job.ApplyPlan?
    ensures var persisted := CP.Persist(db.(jobs := db.jobs[id := next]), next.envelope, result.result, now);
      persisted.NotPersisted? && persisted.failure != CP.ReceiptWithoutApproval
        && persisted.failure != CP.RollbackWithoutReceipt ==>
        && (ReusesOperation(db, result.result) || RestoresUnknown(db, next.envelope, result.result))
        && persisted.failure == if result.result.ApplyReceipt? then CP.DuplicateOperation else CP.UnknownRevision
    ensures ReusesOperation(db, result.result) || RestoresUnknown(db, next.envelope, result.result) ==>
      CP.Persist(db.(jobs := db.jobs[id := next]), next.envelope, result.result, now).NotPersisted?
  {
  }

  predicate SucceededApply(row: JobRow) { row.envelope.job.ApplyPlan? && row.state == Succeeded }
  predicate SucceededRollback(row: JobRow) { row.envelope.job.RollbackOperation? && row.state == Succeeded }

  function SucceededApplies(db: CP.Db): set<JobId> { set id | id in db.jobs && SucceededApply(db.jobs[id]) }
  function SucceededRollbacks(db: CP.Db): set<JobId> { set id | id in db.jobs && SucceededRollback(db.jobs[id]) }
  function RolledBackReceipts(db: CP.Db): set<OperationId> {
    set op | op in db.receipts && db.receipts[op].outcome == RolledBack
  }

  /** The apply job of a receipt row did not itself report a rollback. */
  ghost predicate PlainApplies(db: CP.Db) {
    forall id | id in db.jobs && db.jobs[id].result.Some? && db.jobs[id].result.value.result.ApplyReceipt? ::
      db.jobs[id].result.value.result.outcome != RolledBack
  }

  lemma {:induction false} InjectiveMapKeepsSize<A, B>(m: map<A, B>)
    requires forall a, b | a in m && b in m && m[a] == m[b] :: a == b
    ensures |m.Values| == |m|
  {
    if m != map[] {
      var a :| a in m;
      var rest := m - {a};
      InjectiveMapKeepsSize(rest);
      assert m.Values == rest.Values + {m[a]} by {
        forall b | b in m.Values ensures b in rest.Values + {m[a]} {
          var c :| c in m && m[c] == b;
          assert c != a ==> c in rest && rest[c] == b;
        }
      }
      assert m == rest[a := m[a]];
    }
  }

  /** A receipt row for each succeeded apply job and none besides. */
  lemma ReceiptsAreSucceededApplies(run: seq<World>, events: seq<Event>, k: nat)
    requires IsHistory(run, events) && k < |run|
    ensures var db := run[k].db;
      && (forall op | op in db.receipts :: db.receipts[op].jobId in SucceededApplies(db))
      && (forall id | id in SucceededApplies(db) ::
            exists op :: op in db.receipts && db.receipts[op].jobId == id)
      && |db.receipts| == |SucceededApplies(db)|
  {
    assert ReceiptsOk(run[k].db) by { HistoryKeepsInv(run, events, k); }
    assert forall id | id in run[k].db.jobs :: run[k].db.jobs[id].envelope.jobId == id by {
      HistoryKeepsInv(run, events, k);
    }
    OriginsAreABijection(run[k].db);
  }

  function Origins(db: CP.Db): map<OperationId, JobId> {
    map op | op in db.receipts :: db.receipts[op].jobId
  }

  lemma OriginsAreABijection(db: CP.Db)
    requires ReceiptsOk(db) && forall id | id in db.jobs :: db.jobs[id].envelope.jobId == id
    ensures Origins(db).Values == SucceededApplies(db)
    ensures forall op | op in db.receipts :: db.receipts[op].jobId in SucceededApplies(db)
    ensures forall id | id in SucceededApplies(db) :: exists op :: op in db.receipts && db.receipts[op].jobId == id
    ensures |db.receipts| == |SucceededApplies(db)|
  {
    var origin := Origins(db);
    forall op | op in db.receipts ensures db.receipts[op].jobId in SucceededApplies(db) {
      assert ReceiptOk(db.jobs, op, db.receipts[op]);
    }
    forall id | id in SucceededApplies(db)
      ensures id in origin.Values && exists op :: op in db.receipts && db.receipts[op].jobId == id
    {
      assert Receipted(db.receipts, db.jobs[id]);
      assert origin[db.jobs[id].result.value.result.operationId] == id;
    }
    forall a, b | a in origin && b in origin && origin[a] == origin[b] ensures a == b {
      assert ReceiptOk(db.jobs, a, db.receipts[a]) && ReceiptOk(db.jobs, b, db.receipts[b]);
    }
    InjectiveMapKeepsSize(origin);
    assert origin.Values == SucceededApplies(db);
    assert origin.Keys == db.receipts.Keys;
    assert |origin| == |origin.Keys| == |db.receipts|;
  }

  /** A receipt row is marked rolled back exactly when a rollback job of that operation has
      succeeded, or the apply receipt already said so; and an operation has one rollback job
      at most, whatever became of it. */
  lemma RolledBackExactlyByItsRollback(run: seq<World>, events: seq<Event>, k: nat, op: OperationId)
    requires IsHistory(run, events) && k < |run| && op in run[k].db.receipts
    ensures var db := run[k].db;
      && db.receipts[op].jobId in SucceededApplies(db)
      && var apply := db.jobs[db.receipts[op].jobId];
      && apply.result.Some? && apply.result.value.result.ApplyReceipt?
      && (db.receipts[op].outcome == RolledBack <==>
            || apply.result.value.result.outcome == RolledBack
            || exists id :: id in SucceededRollbacks(db) && db.jobs[id].envelope.job.operationId == op)
      && (forall a, b | a in db.jobs && b in db.jobs && Rollbacks(db.jobs[a], op) && Rollbacks(db.jobs[b], op)
            :: a == b)
  {
    HistoryKeepsInv(run, events, k);
    var db := run[k].db;
    assert ReceiptOk(db.jobs, op, db.receipts[op]) && OutcomeOk(db.jobs, op, db.receipts[op]);
    if id :| id in db.jobs && RolledBackBy(db.jobs[id], op) {
      assert id in SucceededRollbacks(db);
    }
    forall id | id in SucceededRollbacks(db) && db.jobs[id].envelope.job.operationId == op
      ensures RolledBackBy(db.jobs[id], op)
    {
    }
  }

  function Undone(db: CP.Db): map<JobId, OperationId> {
    map id | id in SucceededRollbacks(db) :: db.jobs[id].envelope.job.operationId
  }

  lemma UndoneIsABijection(db: CP.Db)
    requires RollbacksOk(db)
    requires Undone(db).Values == RolledBackReceipts(db)
    ensures |RolledBackReceipts(db)| == |SucceededRollbacks(db)|
  {
    var undone := Undone(db);
    forall a, b | a in undone && b in undone && undone[a] == undone[b] ensures a == b {
      assert Rollbacks(db.jobs[a], undone[a]) && Rollbacks(db.jobs[b], undone[a]);
    }
    InjectiveMapKeepsSize(undone);
    assert undone.Keys == SucceededRollbacks(db);
    assert |undone| == |undone.Keys|;
  }

  /** When apply receipts report applied or no change, rolled-back receipt rows and succeeded
      rollback jobs correspond one to one. */
  lemma RolledBackReceiptsAreSucceededRollbacks(run: seq<World>, events: seq<Event>, k: nat)
    requires IsHistory(run, events) && k < |run| && PlainApplies(run[k].db)
    ensures Undone(run[k].db).Values == RolledBackReceipts(run[k].db)
    ensures |RolledBackReceipts(run[k].db)| == |SucceededRollbacks(run[k].db)|
  {
    var db := run[k].db;
    assert RollbacksOk(db) by { HistoryKeepsInv(run, events, k); }
    var undone := Undone(db);
    forall id | id in SucceededRollbacks(db)
      ensures undone[id] in RolledBackReceipts(db)
    {
      assert Grounded(db.jobs, db.receipts, db.jobs[id].envelope);
      RolledBackExactlyByItsRollback(run, events, k, undone[id]);
    }
    forall op | op in RolledBackReceipts(db)
      ensures op in undone.Values
    {
      RolledBackExactlyByItsRollback(run, events, k, op);
      var id :| id in SucceededRollbacks(db) && db.jobs[id].envelope.job.operationId == op;
      assert undone[id] == op;
    }
    UndoneIsABijection(db);
  }
}
