/** What a client is told about a checkout, read off the rows: its health, the revision in place, the
    plan and the rollback on offer, and every operation listed. */
module StatusAnswers {
  import opened Protocol
  import opened ResultMatching
  import opened JobLifecycle
  import opened Invariants
  import opened ControlPlaneRuns
  import opened ReadSide
  import opened TableFacts
  import CP = ControlPlane
  import Reads = CheckoutReads
  import Theorems = ControlPlaneTheorems

  // ----- what one row tells -----

  /** The operation failed or was cancelled, and its result asks for a person. */
  predicate NeedsPerson(row: JobRow) {
    && (row.state == Failed || row.state == Cancelled) && row.result.Some?
    && match row.result.value.result
       case ApplyReceipt(_, _, _, _, _, recoverability, _) => recoverability == ManualIntervention
       case RollbackReceipt(_, _, _, _, recoverability) => recoverability == ManualIntervention
       case CancellationReceipt(_, _, _, recoverability, _) => recoverability == ManualIntervention
       case Error(_, _, recoverability) => recoverability == ManualIntervention
       case _ => false
  }

  /** When the operation ended, or else was issued. */
  function Ended(row: JobRow): Time { if row.completedAt.Some? then row.completedAt.value else row.envelope.issuedAt }

  /** The plan the row carries was completed after `since`. */
  predicate PlannedAfter(row: JobRow, since: Option<Time>) {
    && row.result.Some? && row.result.value.result.PlanResult?
    && row.completedAt.Some? && (since.Some? ==> row.completedAt.value > since.value)
  }

  function LastEnd(rows: Rows): Option<Time> {
    if rows.operations == [] then None else Some(Ended(rows.operations[0]))
  }

  /** A plan of the assigned revision is newer than the newest operation. */
  predicate PlannedSince(rows: Rows) {
    rows.assignedPlan.Some? && PlannedAfter(rows.assignedPlan.value, LastEnd(rows))
  }

  /** The plan has a conflict, or an action that changes something. */
  predicate FindsWork(plan: Plan) {
    plan.conflicts != []
    || exists a | a in plan.actions :: a.change != Some(Unchanged) || a.metadataOnly == Some(true)
  }

  /** The revision an operation leaves behind. */
  function LeavesBehind(row: JobRow): Option<RevisionId> {
    match row.envelope.job
    case ApplyPlan(_, revision, _) => Some(revision.setupRevisionId)
    case _ =>
      if row.result.None? then None
      else match row.result.value.result
        case RollbackReceipt(_, _, restored, _, _) => restored
        case ApplyReceipt(_, _, revision, _, _, _, _) => Some(revision)
        case _ => None
  }

  /** The revision in place is `revision`: the assigned one when a newer plan finds nothing to do,
      otherwise what the newest succeeded operation left behind. */
  predicate InPlace(rows: Rows, revision: Option<RevisionId>) {
    if PlannedSince(rows) && !FindsWork(rows.assignedPlan.value.result.value.result.plan)
    then revision == rows.assignedRevision
    else if exists i :: 0 <= i < |rows.operations| && rows.operations[i].state == Succeeded
    then exists i :: 0 <= i < |rows.operations| && rows.operations[i].state == Succeeded
                     && (forall j | 0 <= j < i :: rows.operations[j].state != Succeeded)
                     && revision == LeavesBehind(rows.operations[i])
    else revision == None
  }

  predicate CallsForAttention(rows: Rows) {
    rows.operations != [] && NeedsPerson(rows.operations[0]) && !PlannedSince(rows)
  }

  predicate HasDrifted(rows: Rows, inPlace: Option<RevisionId>) {
    || (PlannedSince(rows) && FindsWork(rows.assignedPlan.value.result.value.result.plan))
    || (inPlace.Some? && inPlace != rows.assignedRevision)
  }

  lemma {:induction false} FirstSucceededIs(rows: seq<JobRow>)
    ensures match FirstSucceeded(Summaries(rows))
      case None => forall i | 0 <= i < |rows| :: rows[i].state != Succeeded
      case Some(s) => exists i :: 0 <= i < |rows| && rows[i].state == Succeeded && s == Summary(rows[i])
                                  && forall j | 0 <= j < i :: rows[j].state != Succeeded
  {
    if rows != [] {
      FirstSucceededIs(rows[1..]);
      assert Summaries(rows)[1..] == Summaries(rows[1..]);
      if rows[0].state != Succeeded && FirstSucceeded(Summaries(rows[1..])).Some? {
        var s := FirstSucceeded(Summaries(rows[1..])).value;
        var i :| 0 <= i < |rows[1..]| && rows[1..][i].state == Succeeded && s == Summary(rows[1..][i])
                 && forall j | 0 <= j < i :: rows[1..][j].state != Succeeded;
        assert rows[i + 1] == rows[1..][i] && forall j | 0 < j < i + 1 :: rows[j] == rows[1..][j - 1];
      }
    }
  }

  lemma BarrierIsLastEnd(rows: Rows)
    ensures Barrier(Summaries(rows.operations)) == LastEnd(rows)
  {
  }

  lemma MaterializedIsInPlace(rows: Rows)
    ensures InPlace(rows, Derive(rows).materializedSetupRevisionId)
  {
    BarrierIsLastEnd(rows);
    FirstSucceededIs(rows.operations);
  }

  /** The health: attention when the newest operation asks for a person and nothing was planned
      since; otherwise drifted when a newer plan finds work, or another revision is in place than
      the one assigned; otherwise current when something is in place or nothing is assigned. */
  lemma HealthMeans(rows: Rows)
    ensures var status := Derive(rows);
      && InPlace(rows, status.materializedSetupRevisionId)
      && status.assignedSetupRevisionId == rows.assignedRevision
      && (status.health == Attention <==> CallsForAttention(rows))
      && (status.health == Drifted <==>
            !CallsForAttention(rows) && HasDrifted(rows, status.materializedSetupRevisionId))
      && (status.health == Current <==>
            && !CallsForAttention(rows) && !HasDrifted(rows, status.materializedSetupRevisionId)
            && (status.materializedSetupRevisionId.Some? || rows.assignedRevision == None))
  {
    MaterializedIsInPlace(rows);
    BarrierIsLastEnd(rows);
    if rows.operations != [] { assert Derive(rows).operations[0] == Summary(rows.operations[0]); }
  }

  // ----- what is on offer -----

  /** The plan on offer is that of the newest plan job, if it succeeded after the newest operation. */
  lemma ReviewedPlanMeans(rows: Rows)
    ensures var offer := Derive(rows).reviewedPlan;
      && (offer.Some? <==> rows.planAttempt.Some? && rows.planAttempt.value.state == Succeeded
                           && PlannedAfter(rows.planAttempt.value, LastEnd(rows)))
      && (offer.Some? ==>
            && offer.value.jobId == rows.planAttempt.value.envelope.jobId
            && offer.value.plan == rows.planAttempt.value.result.value.result.plan)
  {
    BarrierIsLastEnd(rows);
  }

  /** The row is an apply that succeeded with a receipt that can be rolled back. */
  predicate CanBeUndone(row: JobRow) {
    && row.envelope.job.ApplyPlan? && row.state == Succeeded && row.result.Some?
    && match row.result.value.result
       case ApplyReceipt(_, _, _, _, outcome, recoverability, _) =>
         recoverability == RollbackAvailable && (outcome == Applied || outcome == NoChange)
       case RollbackReceipt(_, _, _, outcome, recoverability) =>
         recoverability == RollbackAvailable && (outcome == Applied || outcome == NoChange)
       case _ => false
  }

  /** A rollback is offered exactly of the newest operation, if it can be undone, its revision is
      the one in place, nothing is running, and nothing calls for attention. */
  lemma RollbackOfferMeans(rows: Rows, op: OperationId)
    ensures RecoverableOperationId(Some(Derive(rows))) == Some(op) <==>
      && rows.operations != [] && rows.active == None && !CallsForAttention(rows)
      && CanBeUndone(rows.operations[0])
      && Derive(rows).materializedSetupRevisionId == LeavesBehind(rows.operations[0])
      && rows.operations[0].result.value.result.operationId == op
  {
    HealthMeans(rows);
    if rows.operations != [] { assert Derive(rows).operations[0] == Summary(rows.operations[0]); }
  }

  /** What a listed operation says of its row. */
  predicate Lists(s: OperationSummary, row: JobRow) {
    && s.jobId == row.envelope.jobId && s.state == row.state
    && s.issuedAt == row.envelope.issuedAt && s.completedAt == row.completedAt
    && s.setupRevisionId == LeavesBehind(row)
    && (match row.envelope.job
        case ApplyPlan(_, _, _) => s.kind == ApplyPlanKind
        case RollbackOperation(_, _) => s.kind == RollbackOperationKind
        case _ => true)
    && var own := if row.envelope.job.RollbackOperation? then Some(row.envelope.job.operationId) else None;
    && if row.result.None? then s.operationId == own && s.outcome == None && s.recoverability == None
       else match row.result.value.result
         case ApplyReceipt(_, operation, _, _, outcome, recoverability, _) =>
           && s.operationId == Some(operation) && s.outcome == Some(OfOperation(outcome))
           && s.recoverability == Some(recoverability)
         case RollbackReceipt(_, operation, _, outcome, recoverability) =>
           && s.operationId == Some(operation) && s.outcome == Some(OfOperation(outcome))
           && s.recoverability == Some(recoverability)
         case CancellationReceipt(_, operation, outcome, recoverability, _) =>
           && s.operationId == (if operation.Some? then operation else own)
           && s.outcome == Some(OfCancellation(outcome)) && s.recoverability == Some(recoverability)
         case Error(_, _, recoverability) =>
           s.operationId == own && s.outcome == None && s.recoverability == Some(recoverability)
         case _ => s.operationId == own && s.outcome == None && s.recoverability == None
  }

  /** The operations listed and the one in progress are those of the rows. */
  lemma ListMeans(rows: Rows)
    ensures var status := Derive(rows);
      && |status.operations| == |rows.operations|
      && (forall i | 0 <= i < |rows.operations| :: Lists(status.operations[i], rows.operations[i]))
      && (status.activeOperation.Some? <==> rows.active.Some?)
      && (rows.active.Some? && Operates(rows.active.value) ==>
            Describes(status.activeOperation.value, rows.active.value))
  {
    forall i | 0 <= i < |rows.operations| ensures Lists(Summaries(rows.operations)[i], rows.operations[i]) {
      ListsItsRow(rows.operations[i]);
    }
  }

  lemma ListsItsRow(row: JobRow)
    ensures Lists(Summary(row), row)
  {
  }

  // ----- over the tables -----

  predicate Changes(row: JobRow) {
    match row.envelope.job
    case ApplyPlan(_, _, _) => true
    case RollbackOperation(_, _) => true
    case _ => false
  }

  /** `a` is listed no later than `b`: later issued, or, issued together, later completed, a job not
      completed counting as the last, or, completed together, of the greater identifier. */
  predicate NoOlder(a: JobRow, b: JobRow) {
    || a.envelope.issuedAt > b.envelope.issuedAt
    || (a.envelope.issuedAt == b.envelope.issuedAt
        && (|| (a.completedAt.None? && b.completedAt.Some?)
            || (a.completedAt.Some? && b.completedAt.Some? && a.completedAt.value > b.completedAt.value)
            || (a.completedAt == b.completedAt && a.envelope.jobId >= b.envelope.jobId)))
  }

  ghost predicate IsNewest(db: CP.Db, org: OrganizationId, instance: InstanceId, id: JobId) {
    && id in db.jobs && OfCheckout(db.jobs[id], org, instance) && Changes(db.jobs[id])
    && forall other | other in db.jobs && OfCheckout(db.jobs[other], org, instance) && Changes(db.jobs[other]) ::
         NoOlder(db.jobs[id], db.jobs[other])
  }

  /** A succeeded plan of the revision assigned to the checkout's project, completed after `since`. */
  predicate PlansTheAssigned(
    db: CP.Db, org: OrganizationId, instance: InstanceId, target: Option<RevisionId>, plan: JobId, since: Time)
  {
    && plan in db.jobs && OfCheckout(db.jobs[plan], org, instance) && db.jobs[plan].envelope.job.PlanSetup?
    && db.jobs[plan].state == Succeeded
    && target == Some(db.jobs[plan].envelope.job.revision.setupRevisionId)
    && PlannedAfter(db.jobs[plan], Some(since))
  }

  lemma FirstListedIsNewest(db: CP.Db, clock: Time, org: OrganizationId, instance: InstanceId, rows: Rows)
    requires JobsOk(db, clock) && ReadSide.Reads(db, org, instance, rows)
    ensures rows.operations != [] ==>
      && IsNewest(db, org, instance, rows.operations[0].envelope.jobId)
      && db.jobs[rows.operations[0].envelope.jobId] == rows.operations[0]
    ensures rows.operations == [] ==> forall id :: !IsNewest(db, org, instance, id)
    ensures forall id | IsNewest(db, org, instance, id) ::
      rows.operations != [] && id == rows.operations[0].envelope.jobId
  {
    forall id | id in db.jobs && OfCheckout(db.jobs[id], org, instance) && Changes(db.jobs[id])
      ensures rows.operations != [] && NoOlder(rows.operations[0], db.jobs[id])
    {
      assert RowFine(id, db.jobs[id], clock);
      NewestIsFirst(db.jobs, org, instance, rows.operations, id);
    }
    if rows.operations != [] {
      var first := rows.operations[0];
      assert first in rows.operations && RowFine(first.envelope.jobId, first, clock);
      forall id | IsNewest(db, org, instance, id) ensures id == first.envelope.jobId {
        assert NoOlder(db.jobs[id], first) && NoOlder(first, db.jobs[id]);
        assert RowFine(id, db.jobs[id], clock);
      }
    }
  }

  lemma PlannedSinceOverTables(
    db: CP.Db, clock: Time, org: OrganizationId, instance: InstanceId, rows: Rows)
    requires JobsOk(db, clock) && ReadSide.Reads(db, org, instance, rows) && rows.operations != []
    ensures PlannedSince(rows) <==>
      exists plan :: PlansTheAssigned(db, org, instance, rows.assignedRevision, plan, Ended(rows.operations[0]))
  {
    if PlannedSince(rows) {
      assert PlansTheAssigned(db, org, instance, rows.assignedRevision, rows.assignedPlan.value.envelope.jobId,
                              Ended(rows.operations[0]));
    }
    if plan :| PlansTheAssigned(db, org, instance, rows.assignedRevision, plan, Ended(rows.operations[0])) {
      assert IsAssignedPlan(db.jobs[plan], org, instance, rows.assignedRevision);
      var chosen := rows.assignedPlan.value;
      assert RowFine(chosen.envelope.jobId, chosen, clock);
    }
  }

  /** Over every history: a checkout calls for attention exactly when its newest apply or rollback
      failed or was cancelled, asks for a person, and no plan of the assigned revision has been
      completed since. */
  lemma AttentionMeans(
    run: seq<World>, events: seq<Event>, k: nat, org: OrganizationId, instance: InstanceId, rows: Rows)
    requires IsHistory(run, events) && k < |run| && ReadSide.Reads(run[k].db, org, instance, rows)
    ensures var db := run[k].db;
      Derive(rows).health == Attention <==>
        exists id :: IsNewest(db, org, instance, id) && NeedsPerson(db.jobs[id])
                     && !exists plan :: PlansTheAssigned(
                          db, org, instance, rows.assignedRevision, plan, Ended(db.jobs[id]))
  {
    var db := run[k].db;
    assert JobsOk(db, run[k].clock) by { HistoryKeepsInv(run, events, k); }
    HealthMeans(rows);
    FirstListedIsNewest(db, run[k].clock, org, instance, rows);
    if rows.operations != [] { PlannedSinceOverTables(db, run[k].clock, org, instance, rows); }
  }

  /** The list is of the ten newest applies and rollbacks of the checkout, newest first: whatever is
      not on it is older than ten that are. */
  lemma TheTenNewestAreListed(db: CP.Db, org: OrganizationId, instance: InstanceId, rows: Rows)
    requires ReadSide.Reads(db, org, instance, rows)
    ensures |rows.operations| <= 10
    ensures forall i | 0 <= i < |rows.operations| ::
      && Changes(rows.operations[i]) && OfCheckout(rows.operations[i], org, instance)
      && rows.operations[i].envelope.jobId in db.jobs
      && db.jobs[rows.operations[i].envelope.jobId] == rows.operations[i]
    ensures forall i, j | 0 <= i < j < |rows.operations| ::
      rows.operations[i] != rows.operations[j] && NoOlder(rows.operations[i], rows.operations[j])
    ensures forall id | id in db.jobs && Changes(db.jobs[id]) && OfCheckout(db.jobs[id], org, instance)
                        && db.jobs[id] !in rows.operations ::
      |rows.operations| == 10 && forall i | 0 <= i < 10 :: NoOlder(rows.operations[i], db.jobs[id])
  {
    assert forall i | 0 <= i < |rows.operations| :: rows.operations[i] in rows.operations;
    forall id | id in db.jobs && Changes(db.jobs[id]) && OfCheckout(db.jobs[id], org, instance)
                && db.jobs[id] !in rows.operations
      ensures |rows.operations| == 10 && forall i | 0 <= i < 10 :: NoOlder(rows.operations[i], db.jobs[id])
    {
      assert IsOperation(db.jobs[id], org, instance);
      assert forall row | row in rows.operations :: ListedBefore(row, db.jobs[id]);
    }
  }

  // ----- right after a failure -----

  lemma AcceptedFailureRow(
    run: seq<World>, events: seq<Event>, k: nat, runner: Runner, id: JobId, lease: LeaseId,
    result: ResultEnvelope, digest: Digest, now: Time, after: CP.Db) returns (next: JobRow)
    requires IsHistory(run, events) && k < |run| && run[k].clock <= now
    requires CP.CompleteJob(run[k].db, runner, id, lease, result, digest, now) == (after, CP.Answered(Accepted))
    requires result.result.Error? || result.result.CancellationReceipt?
    requires result.result.recoverability == ManualIntervention
    ensures id in run[k].db.jobs && Active(run[k].db.jobs[id])
    ensures next.envelope == run[k].db.jobs[id].envelope && next.envelope.jobId == id
    ensures after.jobs == run[k].db.jobs[id := next] && NeedsPerson(next) && next.completedAt == Some(now)
  {
    var db := run[k].db;
    assert RowFine(id, db.jobs[id], run[k].clock) by { HistoryKeepsInv(run, events, k); }
    next := Theorems.AcceptedSubmission(db, runner, id, lease, result, digest, run[k].clock, now);
  }

  /** Right after an accepted result of an apply or a rollback that asks for a person, the checkout
      calls for attention, and offers neither a plan nor a rollback. */
  lemma FailedOperationReadsBack(
    run: seq<World>, events: seq<Event>, k: nat, runner: Runner, id: JobId, lease: LeaseId,
    result: ResultEnvelope, digest: Digest, now: Time, after: CP.Db,
    org: OrganizationId, instance: InstanceId, rows: Rows)
    requires IsHistory(run, events) && Ticks(run) && k < |run| && run[k].clock <= now
    requires CP.CompleteJob(run[k].db, runner, id, lease, result, digest, now) == (after, CP.Answered(Accepted))
    requires result.result.Error? || result.result.CancellationReceipt?
    requires result.result.recoverability == ManualIntervention
    requires id in after.jobs && OfCheckout(after.jobs[id], org, instance) && Changes(after.jobs[id])
    requires ReadSide.Reads(after, org, instance, rows)
    ensures Derive(rows).health == Attention
    ensures Derive(rows).reviewedPlan == None && RecoverableOperationId(Some(Derive(rows))) == None
  {
    var next := AcceptedFailureRow(run, events, k, runner, id, lease, result, digest, now, after);
    forall b | b in after.jobs && b != id
      ensures IsOperation(after.jobs[b], org, instance) ==>
                after.jobs[b].envelope.issuedAt < after.jobs[id].envelope.issuedAt
      ensures after.jobs[b].completedAt.Some? ==> after.jobs[b].completedAt.value <= now
    {
      Reads.OthersAreOlder(run, events, k, id, next, now, b, org, instance);
    }
    FailureIsFirst(after, org, instance, rows, id, now);
  }

  lemma FailureIsFirst(db: CP.Db, org: OrganizationId, instance: InstanceId, rows: Rows, id: JobId, now: Time)
    requires ReadSide.Reads(db, org, instance, rows)
    requires id in db.jobs && IsOperation(db.jobs[id], org, instance) && db.jobs[id].envelope.jobId == id
    requires NeedsPerson(db.jobs[id]) && db.jobs[id].completedAt == Some(now)
    requires forall b | b in db.jobs && b != id && IsOperation(db.jobs[b], org, instance) ::
               db.jobs[b].envelope.issuedAt < db.jobs[id].envelope.issuedAt
    requires forall b | b in db.jobs && b != id && db.jobs[b].completedAt.Some? :: db.jobs[b].completedAt.value <= now
    ensures Derive(rows).health == Attention
    ensures Derive(rows).reviewedPlan == None && RecoverableOperationId(Some(Derive(rows))) == None
  {
    NewestIsFirst(db.jobs, org, instance, rows.operations, id);
    assert rows.operations[0] == db.jobs[id];
    HealthMeans(rows);
    ReviewedPlanMeans(rows);
  }
}
