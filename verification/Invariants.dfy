/** What every reachable state of the control plane's tables keeps. */
module Invariants {
  import opened Protocol
  import opened ResultMatching
  import opened JobLifecycle
  import opened ControlPlane

  // ----- the invariant, one table at a time -----

  ghost predicate RowTimes(row: JobRow, clock: Time) {
    && row.envelope.issuedAt <= clock
    && (row.completedAt.Some? ==> row.envelope.issuedAt <= row.completedAt.value <= clock)
    && (row.result.Some? ==> row.completedAt.Some?)
  }

  ghost predicate Matched(row: JobRow) {
    row.result.Some? ==> ResultMatchesJob(row.envelope, row.result.value)
  }

  predicate KeyFits(e: Envelope) {
    match e.job
    case EvaluateSetups(_) => e.idempotencyKey.EvaluationKey?
    case LibraryAction(_) => e.idempotencyKey == LibraryKey(e.jobId)
    case ScanProject(_, _) => e.idempotencyKey == ScanKey(e.jobId)
    case PlanSetup(_, _) => e.idempotencyKey == PlanKey(e.jobId)
    case ApplyPlan(_, _, _) => e.idempotencyKey.ApplyKey?
    case RollbackOperation(_, operation) => e.idempotencyKey == RollbackKey(operation)
  }

  /** A setup operation runs on a registered checkout, on that checkout's device. */
  ghost predicate Placed(instances: map<InstanceId, Instance>, e: Envelope) {
    IsSetupOperation(e.job) ==>
      && e.projectInstanceId.Some?
      && e.projectInstanceId.value in instances
      && instances[e.projectInstanceId.value].organizationId == e.organizationId
      && instances[e.projectInstanceId.value].deviceId == e.deviceId
  }

  ghost predicate RowFine(id: JobId, row: JobRow, clock: Time) {
    && row.envelope.jobId == id && KeyFits(row.envelope)
    && RowOk(row) && RowTimes(row, clock) && Matched(row)
  }

  ghost predicate JobsOk(db: Db, clock: Time) {
    forall id | id in db.jobs ::
      RowFine(id, db.jobs[id], clock) && Placed(db.instances, db.jobs[id].envelope)
  }

  ghost predicate SameInstance(a: Envelope, b: Envelope) {
    a.organizationId == b.organizationId && a.projectInstanceId == b.projectInstanceId
  }

  /** At most one setup operation of a checkout is pending, leased or acknowledged. */
  ghost predicate SingleFlight(jobs: map<JobId, JobRow>) {
    forall a, b | a in jobs && b in jobs :: Collide(jobs[a], jobs[b]) ==> a == b
  }

  ghost predicate Collide(a: JobRow, b: JobRow) {
    && IsSetupOperation(a.envelope.job) && Active(a)
    && IsSetupOperation(b.envelope.job) && Active(b)
    && SameInstance(a.envelope, b.envelope)
  }

  /** The reviewed plan that an approval stands for. */
  ghost predicate ReviewedPlan(plan: JobRow, apply: Envelope)
    requires apply.job.ApplyPlan?
  {
    && plan.envelope.job.PlanSetup?
    && plan.state == Succeeded && plan.result.Some? && plan.result.value.result.PlanResult?
    && plan.completedAt.Some? && plan.completedAt.value <= apply.issuedAt
    && SameInstance(plan.envelope, apply)
    && apply.job.revision == plan.envelope.job.revision
    && var reviewed := plan.result.value.result.plan;
       && reviewed.planDigest == apply.job.approval.planDigest
       && reviewed.setupRevisionId == apply.job.revision.setupRevisionId
       && reviewed.setupRevisionId == apply.job.approval.setupRevisionId
       && |reviewed.conflicts| == 0
  }

  ghost predicate ApprovalOk(jobs: map<JobId, JobRow>, id: ApprovalId, a: ApprovalRow) {
    && a.approval.approvalId == id
    && a.consumedBy in jobs && a.sourcePlan in jobs
    && var apply := jobs[a.consumedBy].envelope;
       && apply.job.ApplyPlan? && apply.job.approval == a.approval
       && apply.idempotencyKey == ApplyKey(a.sourcePlan)
       && a.approval.organizationId == apply.organizationId
       && Some(a.approval.projectInstanceId) == apply.projectInstanceId
       && ReviewedPlan(jobs[a.sourcePlan], apply)
  }

  ghost predicate Approved(approvals: map<ApprovalId, ApprovalRow>, e: Envelope) {
    e.job.ApplyPlan? ==>
      e.job.approval.approvalId in approvals && approvals[e.job.approval.approvalId].consumedBy == e.jobId
  }

  ghost predicate ApprovalsOk(db: Db) {
    && (forall id | id in db.approvals :: ApprovalOk(db.jobs, id, db.approvals[id]))
    && (forall a, b | a in db.approvals && b in db.approvals ::
          db.approvals[a].sourcePlan == db.approvals[b].sourcePlan ==> a == b)
    && (forall id | id in db.jobs :: Approved(db.approvals, db.jobs[id].envelope))
  }

  /** The apply job behind a receipt row, and what the row still repeats of its result. */
  ghost predicate ReceiptOk(jobs: map<JobId, JobRow>, operation: OperationId, r: ReceiptRow) {
    && r.jobId in jobs
    && var apply := jobs[r.jobId];
       && apply.envelope.job.ApplyPlan? && apply.state == Succeeded
       && apply.result.Some? && apply.result.value.result.ApplyReceipt?
       && r.organizationId == apply.envelope.organizationId
       && r.deviceId == apply.envelope.deviceId
       && Some(r.projectInstanceId) == apply.envelope.projectInstanceId
       && var receipt := apply.result.value.result;
          && receipt.operationId == operation
          && r.setupRevisionId == receipt.setupRevisionId
          && r.planDigest == receipt.planDigest
  }

  ghost predicate Rollbacks(row: JobRow, operation: OperationId) {
    row.envelope.job.RollbackOperation? && row.envelope.job.operationId == operation
  }

  ghost predicate RolledBackBy(row: JobRow, operation: OperationId) {
    Rollbacks(row, operation) && row.state == Succeeded
  }

  /** Until a rollback of the operation succeeds, its row says what the apply receipt said. */
  ghost predicate OutcomeOk(jobs: map<JobId, JobRow>, operation: OperationId, r: ReceiptRow)
    requires ReceiptOk(jobs, operation, r)
  {
    var receipt := jobs[r.jobId].result.value.result;
    || (r.outcome == receipt.outcome && r.recoverability == receipt.recoverability
        && forall id | id in jobs :: !RolledBackBy(jobs[id], operation))
    || (r.outcome == RolledBack && exists id :: id in jobs && RolledBackBy(jobs[id], operation))
  }

  ghost predicate Receipted(receipts: map<OperationId, ReceiptRow>, row: JobRow) {
    row.envelope.job.ApplyPlan? && row.state == Succeeded ==>
      && row.result.Some? && row.result.value.result.ApplyReceipt?
      && row.result.value.result.operationId in receipts
      && receipts[row.result.value.result.operationId].jobId == row.envelope.jobId
  }

  ghost predicate ReceiptsOk(db: Db) {
    && (forall op | op in db.receipts ::
          ReceiptOk(db.jobs, op, db.receipts[op]) && OutcomeOk(db.jobs, op, db.receipts[op]))
    && (forall id | id in db.jobs :: Receipted(db.receipts, db.jobs[id]))
  }

  /** A rollback job was not issued before the end of the operation it undoes, on the same checkout. */
  ghost predicate Grounded(jobs: map<JobId, JobRow>, receipts: map<OperationId, ReceiptRow>, e: Envelope) {
    e.job.RollbackOperation? ==>
      && e.job.operationId in receipts
      && var r := receipts[e.job.operationId];
         && r.organizationId == e.organizationId
         && Some(r.projectInstanceId) == e.projectInstanceId
         && r.jobId in jobs
         && jobs[r.jobId].completedAt.Some?
         && jobs[r.jobId].completedAt.value <= e.issuedAt
  }

  ghost predicate RollbacksOk(db: Db) {
    && (forall id | id in db.jobs :: Grounded(db.jobs, db.receipts, db.jobs[id].envelope))
    && (forall a, b | a in db.jobs && b in db.jobs ::
          (db.jobs[a].envelope.job.RollbackOperation?
           && Rollbacks(db.jobs[b], db.jobs[a].envelope.job.operationId)) ==> a == b)
  }

  ghost predicate Inv(db: Db, clock: Time) {
    && JobsOk(db, clock)
    && SingleFlight(db.jobs)
    && ApprovalsOk(db)
    && ReceiptsOk(db)
    && RollbacksOk(db)
  }

  // ----- steps that only move rows along their life -----

  /** The row stays, or was active and moved on. */
  ghost predicate Advanced(id: JobId, row: JobRow, next: JobRow, clock: Time) {
    next == row || (Active(row) && next.envelope == row.envelope && RowFine(id, next, clock))
  }

  /** The row advanced without earning a receipt. */
  ghost predicate Moved(id: JobId, row: JobRow, next: JobRow, clock: Time) {
    && Advanced(id, row, next, clock)
    && (next != row && next.state == Succeeded ==>
          !row.envelope.job.ApplyPlan? && !row.envelope.job.RollbackOperation?)
  }

  ghost predicate InstancesKept(before: map<InstanceId, Instance>, after: map<InstanceId, Instance>) {
    forall i | i in before ::
      && i in after
      && after[i].organizationId == before[i].organizationId
      && after[i].deviceId == before[i].deviceId
  }

  ghost predicate RowsAdvanced(db: Db, after: Db, clock: Time) {
    && after.jobs.Keys == db.jobs.Keys
    && (forall id | id in db.jobs :: Advanced(id, db.jobs[id], after.jobs[id], clock))
    && after.approvals == db.approvals
    && InstancesKept(db.instances, after.instances)
  }

  ghost predicate RowsMoved(db: Db, after: Db, clock: Time) {
    && RowsAdvanced(db, after, clock)
    && (forall id | id in db.jobs :: Moved(id, db.jobs[id], after.jobs[id], clock))
    && after.receipts == db.receipts
  }

  lemma AdvancingKeepsJobsOk(db: Db, after: Db, clock: Time, later: Time)
    requires JobsOk(db, clock) && clock <= later && RowsAdvanced(db, after, later)
    ensures JobsOk(after, later)
  {
    forall id | id in after.jobs
      ensures RowFine(id, after.jobs[id], later) && Placed(after.instances, after.jobs[id].envelope)
    {
      assert Advanced(id, db.jobs[id], after.jobs[id], later);
      assert RowFine(id, db.jobs[id], clock) && Placed(db.instances, db.jobs[id].envelope);
    }
  }

  lemma AdvancingKeepsSingleFlight(db: Db, after: Db, later: Time)
    requires SingleFlight(db.jobs) && RowsAdvanced(db, after, later)
    ensures SingleFlight(after.jobs)
  {
    forall a, b | a in after.jobs && b in after.jobs && Collide(after.jobs[a], after.jobs[b])
      ensures a == b
    {
      assert Advanced(a, db.jobs[a], after.jobs[a], later) && Advanced(b, db.jobs[b], after.jobs[b], later);
      assert Collide(db.jobs[a], db.jobs[b]);
    }
  }

  lemma AdvancingKeepsApprovals(db: Db, after: Db, later: Time)
    requires ApprovalsOk(db) && RowsAdvanced(db, after, later)
    ensures ApprovalsOk(after)
  {
    forall id | id in after.approvals
      ensures ApprovalOk(after.jobs, id, after.approvals[id])
    {
      var a := db.approvals[id];
      assert ApprovalOk(db.jobs, id, a);
      assert Advanced(a.consumedBy, db.jobs[a.consumedBy], after.jobs[a.consumedBy], later);
      assert Advanced(a.sourcePlan, db.jobs[a.sourcePlan], after.jobs[a.sourcePlan], later);
    }
    forall id | id in after.jobs
      ensures Approved(after.approvals, after.jobs[id].envelope)
    {
      assert Advanced(id, db.jobs[id], after.jobs[id], later);
      assert Approved(db.approvals, db.jobs[id].envelope);
    }
  }

  lemma MovingKeepsOutcome(db: Db, after: Db, later: Time, op: OperationId)
    requires RowsMoved(db, after, later) && op in db.receipts
    requires ReceiptOk(db.jobs, op, db.receipts[op]) && OutcomeOk(db.jobs, op, db.receipts[op])
    ensures ReceiptOk(after.jobs, op, after.receipts[op]) && OutcomeOk(after.jobs, op, after.receipts[op])
  {
    var r := db.receipts[op];
    assert Moved(r.jobId, db.jobs[r.jobId], after.jobs[r.jobId], later);
    forall id | id in after.jobs
      ensures RolledBackBy(after.jobs[id], op) <==> RolledBackBy(db.jobs[id], op)
    {
      assert Moved(id, db.jobs[id], after.jobs[id], later);
    }
  }

  lemma MovingKeepsReceipts(db: Db, after: Db, later: Time)
    requires ReceiptsOk(db) && RowsMoved(db, after, later)
    ensures ReceiptsOk(after)
  {
    forall op | op in after.receipts
      ensures ReceiptOk(after.jobs, op, after.receipts[op]) && OutcomeOk(after.jobs, op, after.receipts[op])
    {
      MovingKeepsOutcome(db, after, later, op);
    }
    forall id | id in after.jobs
      ensures Receipted(after.receipts, after.jobs[id])
    {
      assert Moved(id, db.jobs[id], after.jobs[id], later);
      assert Receipted(db.receipts, db.jobs[id]);
    }
  }

  /** Grounding survives as long as finished rows and receipt origins stay. */
  ghost predicate OriginsKept(db: Db, after: Db) {
    && after.jobs.Keys == db.jobs.Keys
    && (forall id | id in db.jobs ::
          after.jobs[id].envelope == db.jobs[id].envelope
          && (Terminal(db.jobs[id]) ==> after.jobs[id] == db.jobs[id]))
    && (forall op | op in db.receipts ::
          && op in after.receipts
          && after.receipts[op].jobId == db.receipts[op].jobId
          && after.receipts[op].organizationId == db.receipts[op].organizationId
          && after.receipts[op].projectInstanceId == db.receipts[op].projectInstanceId)
  }

  lemma OriginsKeepGrounding(db: Db, after: Db, e: Envelope)
    requires ReceiptsOk(db) && OriginsKept(db, after) && Grounded(db.jobs, db.receipts, e)
    ensures Grounded(after.jobs, after.receipts, e)
  {
    if e.job.RollbackOperation? {
      assert ReceiptOk(db.jobs, e.job.operationId, db.receipts[e.job.operationId]);
    }
  }

  lemma OriginsKeepRollbacks(db: Db, after: Db)
    requires ReceiptsOk(db) && RollbacksOk(db) && OriginsKept(db, after)
    ensures RollbacksOk(after)
  {
    forall id | id in after.jobs
      ensures Grounded(after.jobs, after.receipts, after.jobs[id].envelope)
    {
      OriginsKeepGrounding(db, after, db.jobs[id].envelope);
    }
    forall a, b | a in after.jobs && b in after.jobs
      ensures (after.jobs[a].envelope.job.RollbackOperation?
               && Rollbacks(after.jobs[b], after.jobs[a].envelope.job.operationId)) ==> a == b
    {
      assert after.jobs[a].envelope == db.jobs[a].envelope && after.jobs[b].envelope == db.jobs[b].envelope;
    }
  }

  lemma MovingKeepsOrigins(db: Db, after: Db, later: Time)
    requires RowsMoved(db, after, later)
    ensures OriginsKept(db, after)
  {
    forall id | id in db.jobs
      ensures after.jobs[id].envelope == db.jobs[id].envelope
              && (Terminal(db.jobs[id]) ==> after.jobs[id] == db.jobs[id])
    {
      assert Moved(id, db.jobs[id], after.jobs[id], later);
    }
  }

  lemma MovingKeepsInv(db: Db, after: Db, clock: Time, later: Time)
    requires Inv(db, clock) && clock <= later && RowsMoved(db, after, later)
    ensures Inv(after, later)
  {
    AdvancingKeepsJobsOk(db, after, clock, later);
    AdvancingKeepsSingleFlight(db, after, later);
    AdvancingKeepsApprovals(db, after, later);
    MovingKeepsReceipts(db, after, later);
    assert OriginsKept(db, after) by { MovingKeepsOrigins(db, after, later); }
    OriginsKeepRollbacks(db, after);
  }

  // ----- new jobs -----

  ghost predicate Insertable(db: Db, e: Envelope, clock: Time) {
    && e.jobId !in db.jobs && KeyFits(e) && Placed(db.instances, e)
    && e.issuedAt == clock
    && (IsSetupOperation(e.job) ==> Idle(db.jobs, e.organizationId, e.projectInstanceId.value))
  }

  function Insert(db: Db, e: Envelope): Db { db.(jobs := db.jobs[e.jobId := NewRow(e)]) }

  lemma InsertKeepsJobs(db: Db, e: Envelope, clock: Time)
    requires JobsOk(db, clock) && SingleFlight(db.jobs) && Insertable(db, e, clock)
    ensures JobsOk(Insert(db, e), clock) && SingleFlight(Insert(db, e).jobs)
  {
    var after := Insert(db, e);
    forall a, b | a in after.jobs && b in after.jobs && Collide(after.jobs[a], after.jobs[b])
      ensures a == b
    {
      if a != e.jobId && b != e.jobId { assert Collide(db.jobs[a], db.jobs[b]); }
    }
  }

  /** Rows that are only read through keys already present do not see an insertion. */
  lemma InsertKeepsReceipts(db: Db, e: Envelope)
    requires ReceiptsOk(db) && e.jobId !in db.jobs
    ensures ReceiptsOk(Insert(db, e))
  {
    var after := Insert(db, e);
    forall op | op in after.receipts
      ensures ReceiptOk(after.jobs, op, after.receipts[op]) && OutcomeOk(after.jobs, op, after.receipts[op])
    {
      var r := db.receipts[op];
      assert ReceiptOk(db.jobs, op, r) && OutcomeOk(db.jobs, op, r);
      forall id | id in db.jobs
        ensures id in after.jobs && after.jobs[id] == db.jobs[id]
      {
      }
    }
    forall id | id in after.jobs
      ensures Receipted(after.receipts, after.jobs[id])
    {
      if id != e.jobId { assert Receipted(db.receipts, db.jobs[id]); }
    }
  }

  lemma InsertKeepsApprovals(db: Db, e: Envelope)
    requires ApprovalsOk(db) && e.jobId !in db.jobs && !e.job.ApplyPlan?
    ensures ApprovalsOk(Insert(db, e))
  {
    var after := Insert(db, e);
    forall id | id in after.approvals
      ensures ApprovalOk(after.jobs, id, after.approvals[id])
    {
      assert ApprovalOk(db.jobs, id, db.approvals[id]);
    }
    forall id | id in after.jobs
      ensures Approved(after.approvals, after.jobs[id].envelope)
    {
      if id != e.jobId { assert Approved(db.approvals, db.jobs[id].envelope); }
    }
  }

  lemma InsertKeepsRollbacks(db: Db, e: Envelope)
    requires RollbacksOk(db) && e.jobId !in db.jobs
    requires Grounded(db.jobs, db.receipts, e)
    requires e.job.RollbackOperation? ==>
               forall id | id in db.jobs :: !Rollbacks(db.jobs[id], e.job.operationId)
    ensures RollbacksOk(Insert(db, e))
  {
    var after := Insert(db, e);
    forall id | id in after.jobs
      ensures Grounded(after.jobs, after.receipts, after.jobs[id].envelope)
    {
      if id != e.jobId { assert Grounded(db.jobs, db.receipts, db.jobs[id].envelope); }
    }
    forall a, b | a in after.jobs && b in after.jobs
      ensures (after.jobs[a].envelope.job.RollbackOperation?
               && Rollbacks(after.jobs[b], after.jobs[a].envelope.job.operationId)) ==> a == b
    {
      if a != e.jobId && b != e.jobId {
        assert after.jobs[a] == db.jobs[a] && after.jobs[b] == db.jobs[b];
      }
    }
  }

  /** A scan, library, evaluation or plan job. */
  lemma PlainInsertKeepsInv(db: Db, e: Envelope, clock: Time)
    requires Inv(db, clock) && Insertable(db, e, clock)
    requires !e.job.ApplyPlan? && !e.job.RollbackOperation?
    ensures Inv(Insert(db, e), clock)
  {
    InsertKeepsJobs(db, e, clock);
    InsertKeepsReceipts(db, e);
    InsertKeepsApprovals(db, e);
    InsertKeepsRollbacks(db, e);
  }

  lemma RollbackInsertKeepsInv(db: Db, e: Envelope, clock: Time)
    requires Inv(db, clock) && Insertable(db, e, clock) && e.job.RollbackOperation?
    requires Grounded(db.jobs, db.receipts, e)
    requires forall id | id in db.jobs :: !Rollbacks(db.jobs[id], e.job.operationId)
    ensures Inv(Insert(db, e), clock)
  {
    InsertKeepsJobs(db, e, clock);
    InsertKeepsReceipts(db, e);
    InsertKeepsApprovals(db, e);
    InsertKeepsRollbacks(db, e);
  }

  lemma ApprovalInsertKeepsApprovals(db: Db, e: Envelope, row: ApprovalRow)
    requires ApprovalsOk(db) && e.jobId !in db.jobs && e.job.ApplyPlan? && e.idempotencyKey.ApplyKey?
    requires row == ApprovalRow(e.job.approval, e.jobId, e.idempotencyKey.planJob)
    requires e.job.approval.approvalId !in db.approvals
    requires forall id | id in db.approvals :: db.approvals[id].sourcePlan != row.sourcePlan
    requires row.sourcePlan in db.jobs && ReviewedPlan(db.jobs[row.sourcePlan], e)
    requires e.job.approval.organizationId == e.organizationId
    requires Some(e.job.approval.projectInstanceId) == e.projectInstanceId
    ensures ApprovalsOk(Insert(db, e).(approvals := db.approvals[e.job.approval.approvalId := row]))
  {
    var after := Insert(db, e).(approvals := db.approvals[e.job.approval.approvalId := row]);
    forall id | id in after.approvals
      ensures ApprovalOk(after.jobs, id, after.approvals[id])
    {
      if id != e.job.approval.approvalId { assert ApprovalOk(db.jobs, id, db.approvals[id]); }
    }
    forall id | id in after.jobs
      ensures Approved(after.approvals, after.jobs[id].envelope)
    {
      if id != e.jobId { assert Approved(db.approvals, db.jobs[id].envelope); }
    }
  }

  lemma ApplyInsertKeepsInv(db: Db, e: Envelope, row: ApprovalRow, clock: Time)
    requires Inv(db, clock) && Insertable(db, e, clock) && e.job.ApplyPlan?
    requires e.idempotencyKey.ApplyKey?
    requires row == ApprovalRow(e.job.approval, e.jobId, e.idempotencyKey.planJob)
    requires e.job.approval.approvalId !in db.approvals
    requires forall id | id in db.approvals :: db.approvals[id].sourcePlan != row.sourcePlan
    requires row.sourcePlan in db.jobs && ReviewedPlan(db.jobs[row.sourcePlan], e)
    requires e.job.approval.organizationId == e.organizationId
    requires Some(e.job.approval.projectInstanceId) == e.projectInstanceId
    ensures Inv(Insert(db, e).(approvals := db.approvals[e.job.approval.approvalId := row]), clock)
  {
    InsertKeepsJobs(db, e, clock);
    InsertKeepsReceipts(db, e);
    InsertKeepsRollbacks(db, e);
    ApprovalInsertKeepsApprovals(db, e, row);
    var inserted := Insert(db, e);
    var after := inserted.(approvals := db.approvals[e.job.approval.approvalId := row]);
    assert after.jobs == inserted.jobs && after.receipts == inserted.receipts;
    assert ReceiptsOk(after) && RollbacksOk(after);
  }

  // ----- completions that write receipts -----

  /** `next` is the accepted, successful completion of the row `id`. */
  ghost predicate Succeeds(db: Db, id: JobId, next: JobRow, clock: Time) {
    && id in db.jobs && Active(db.jobs[id])
    && next.envelope == db.jobs[id].envelope && RowFine(id, next, clock)
    && next.state == Succeeded && next.result.Some?
    && next.completedAt == Some(clock)
  }

  /** Which rollbacks of `op` succeeded decides, with its own apply row, what a receipt says. */
  lemma SameRollbacksKeepOutcome(db: Db, after: Db, op: OperationId)
    requires op in db.receipts && op in after.receipts && after.receipts[op] == db.receipts[op]
    requires ReceiptOk(db.jobs, op, db.receipts[op]) && OutcomeOk(db.jobs, op, db.receipts[op])
    requires after.jobs.Keys == db.jobs.Keys
    requires after.jobs[db.receipts[op].jobId] == db.jobs[db.receipts[op].jobId]
    requires forall id | id in db.jobs :: RolledBackBy(after.jobs[id], op) <==> RolledBackBy(db.jobs[id], op)
    ensures ReceiptOk(after.jobs, op, after.receipts[op]) && OutcomeOk(after.jobs, op, after.receipts[op])
  {
  }

  function WriteReceipt(db: Db, id: JobId, next: JobRow, op: OperationId, row: ReceiptRow): Db {
    db.(jobs := db.jobs[id := next], receipts := db.receipts[op := row])
  }

  /** The receipt row of an accepted apply receipt. */
  ghost predicate Records(row: ReceiptRow, next: JobRow) {
    && next.result.Some? && next.result.value.result.ApplyReceipt?
    && row.jobId == next.envelope.jobId
    && row.organizationId == next.envelope.organizationId
    && row.deviceId == next.envelope.deviceId
    && Some(row.projectInstanceId) == next.envelope.projectInstanceId
    && var receipt := next.result.value.result;
       && row.setupRevisionId == receipt.setupRevisionId && row.planDigest == receipt.planDigest
       && row.outcome == receipt.outcome && row.recoverability == receipt.recoverability
  }

  /** An apply that succeeds rolls nothing back, and its own operation was never rolled back. */
  lemma ApplySuccessRollsNothingBack(db: Db, id: JobId, next: JobRow, row: ReceiptRow, clock: Time)
    requires RollbacksOk(db) && Succeeds(db, id, next, clock)
    requires next.envelope.job.ApplyPlan? && next.result.value.result.ApplyReceipt?
    requires next.result.value.result.operationId !in db.receipts
    ensures var op := next.result.value.result.operationId;
      var after := WriteReceipt(db, id, next, op, row);
      forall o, j | o in after.receipts && j in db.jobs ::
        && (RolledBackBy(after.jobs[j], o) <==> RolledBackBy(db.jobs[j], o))
        && !RolledBackBy(after.jobs[j], op)
  {
    var op := next.result.value.result.operationId;
    forall j | j in db.jobs ensures !Rollbacks(db.jobs[j], op) {
      assert Grounded(db.jobs, db.receipts, db.jobs[j].envelope);
    }
  }

  lemma ApplySuccessAddsItsReceipt(db: Db, id: JobId, next: JobRow, row: ReceiptRow, clock: Time)
    requires Succeeds(db, id, next, clock) && next.envelope.job.ApplyPlan? && Records(row, next)
    requires var op := next.result.value.result.operationId;
      forall j | j in db.jobs :: !RolledBackBy(WriteReceipt(db, id, next, op, row).jobs[j], op)
    ensures var op := next.result.value.result.operationId;
      var after := WriteReceipt(db, id, next, op, row);
      ReceiptOk(after.jobs, op, row) && OutcomeOk(after.jobs, op, row)
  {
  }

  lemma ApplySuccessKeepsReceipted(db: Db, id: JobId, next: JobRow, row: ReceiptRow, clock: Time)
    requires ReceiptsOk(db) && Succeeds(db, id, next, clock) && Records(row, next)
    requires next.result.value.result.operationId !in db.receipts
    ensures var after := WriteReceipt(db, id, next, next.result.value.result.operationId, row);
      forall j | j in after.jobs :: Receipted(after.receipts, after.jobs[j])
  {
    var after := WriteReceipt(db, id, next, next.result.value.result.operationId, row);
    forall j | j in after.jobs ensures Receipted(after.receipts, after.jobs[j]) {
      if j != id { assert Receipted(db.receipts, db.jobs[j]); }
    }
  }

  lemma ApplySuccessKeepsOldReceipt(db: Db, after: Db, id: JobId, next: JobRow, op: OperationId, o: OperationId)
    requires ReceiptsOk(db) && id in db.jobs && Active(db.jobs[id])
    requires after.jobs == db.jobs[id := next]
    requires o in db.receipts && o in after.receipts && after.receipts[o] == db.receipts[o]
    requires forall j | j in db.jobs :: RolledBackBy(after.jobs[j], o) <==> RolledBackBy(db.jobs[j], o)
    ensures ReceiptOk(after.jobs, o, after.receipts[o]) && OutcomeOk(after.jobs, o, after.receipts[o])
  {
    assert ReceiptOk(db.jobs, o, db.receipts[o]) && OutcomeOk(db.jobs, o, db.receipts[o]);
    SameRollbacksKeepOutcome(db, after, o);
  }

  lemma ApplySuccessKeepsReceipts(db: Db, id: JobId, next: JobRow, row: ReceiptRow, clock: Time)
    requires ReceiptsOk(db) && RollbacksOk(db) && Succeeds(db, id, next, clock)
    requires next.envelope.job.ApplyPlan? && Records(row, next)
    requires next.result.value.result.operationId !in db.receipts
    ensures ReceiptsOk(WriteReceipt(db, id, next, next.result.value.result.operationId, row))
  {
    var op := next.result.value.result.operationId;
    var after := WriteReceipt(db, id, next, op, row);
    ApplySuccessRollsNothingBack(db, id, next, row, clock);
    ApplySuccessAddsItsReceipt(db, id, next, row, clock);
    forall o | o in after.receipts
      ensures ReceiptOk(after.jobs, o, after.receipts[o]) && OutcomeOk(after.jobs, o, after.receipts[o])
    {
      if o != op { ApplySuccessKeepsOldReceipt(db, after, id, next, op, o); }
    }
    ApplySuccessKeepsReceipted(db, id, next, row, clock);
  }

  lemma RollbackSuccessKeepsReceipts(db: Db, id: JobId, next: JobRow, row: ReceiptRow, clock: Time)
    requires ReceiptsOk(db) && Succeeds(db, id, next, clock)
    requires next.envelope.job.RollbackOperation? && next.envelope.job.operationId in db.receipts
    requires row == db.receipts[next.envelope.job.operationId].(
                      outcome := RolledBack, recoverability := row.recoverability,
                      completedAt := row.completedAt)
    ensures ReceiptsOk(WriteReceipt(db, id, next, next.envelope.job.operationId, row))
  {
    var op := next.envelope.job.operationId;
    var after := WriteReceipt(db, id, next, op, row);
    assert RolledBackBy(after.jobs[id], op);
    forall o | o in after.receipts
      ensures ReceiptOk(after.jobs, o, after.receipts[o]) && OutcomeOk(after.jobs, o, after.receipts[o])
    {
      assert ReceiptOk(db.jobs, o, db.receipts[o]) && OutcomeOk(db.jobs, o, db.receipts[o]);
      if o != op { SameRollbacksKeepOutcome(db, after, o); }
    }
    forall j | j in after.jobs
      ensures Receipted(after.receipts, after.jobs[j])
    {
      assert Receipted(db.receipts, db.jobs[j]);
    }
  }

  lemma SuccessAdvances(db: Db, id: JobId, next: JobRow, op: OperationId, row: ReceiptRow, clock: Time)
    requires Succeeds(db, id, next, clock)
    requires op in db.receipts ==>
               && row.jobId == db.receipts[op].jobId
               && row.organizationId == db.receipts[op].organizationId
               && row.projectInstanceId == db.receipts[op].projectInstanceId
    ensures RowsAdvanced(db, WriteReceipt(db, id, next, op, row), clock)
    ensures OriginsKept(db, WriteReceipt(db, id, next, op, row))
  {
  }

  lemma SuccessKeepsTheRest(
    db: Db, id: JobId, next: JobRow, op: OperationId, row: ReceiptRow, clock: Time, later: Time)
    requires Inv(db, clock) && clock <= later && Succeeds(db, id, next, later)
    requires op in db.receipts ==>
               && row.jobId == db.receipts[op].jobId
               && row.organizationId == db.receipts[op].organizationId
               && row.projectInstanceId == db.receipts[op].projectInstanceId
    ensures var after := WriteReceipt(db, id, next, op, row);
      JobsOk(after, later) && SingleFlight(after.jobs) && ApprovalsOk(after) && RollbacksOk(after)
  {
    var after := WriteReceipt(db, id, next, op, row);
    assert RowsAdvanced(db, after, later) && OriginsKept(db, after) by {
      SuccessAdvances(db, id, next, op, row, later);
    }
    AdvancingKeepsJobsOk(db, after, clock, later);
    AdvancingKeepsSingleFlight(db, after, later);
    AdvancingKeepsApprovals(db, after, later);
    OriginsKeepRollbacks(db, after);
  }

  lemma ApplySuccessKeepsInv(db: Db, id: JobId, next: JobRow, row: ReceiptRow, clock: Time, later: Time)
    requires Inv(db, clock) && clock <= later && Succeeds(db, id, next, later)
    requires next.envelope.job.ApplyPlan? && Records(row, next)
    requires next.result.value.result.operationId !in db.receipts
    ensures Inv(WriteReceipt(db, id, next, next.result.value.result.operationId, row), later)
  {
    ApplySuccessKeepsReceipts(db, id, next, row, later);
    SuccessKeepsTheRest(db, id, next, next.result.value.result.operationId, row, clock, later);
  }

  lemma RollbackSuccessKeepsInv(db: Db, id: JobId, next: JobRow, row: ReceiptRow, clock: Time, later: Time)
    requires Inv(db, clock) && clock <= later && Succeeds(db, id, next, later)
    requires next.envelope.job.RollbackOperation? && next.envelope.job.operationId in db.receipts
    requires row == db.receipts[next.envelope.job.operationId].(
                      outcome := RolledBack, recoverability := row.recoverability,
                      completedAt := row.completedAt)
    ensures Inv(WriteReceipt(db, id, next, next.envelope.job.operationId, row), later)
  {
    RollbackSuccessKeepsReceipts(db, id, next, row, later);
    SuccessKeepsTheRest(db, id, next, next.envelope.job.operationId, row, clock, later);
  }
}
