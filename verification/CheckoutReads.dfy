/** What a client reads about a checkout after an operation succeeded or the checkout moved to
    another project. */
module CheckoutReads {
  import opened Protocol
  import opened ResultMatching
  import opened JobLifecycle
  import opened Invariants
  import opened ControlPlaneRuns
  import opened ReadSide
  import opened Offers
  import opened CheckoutHistory
  import CP = ControlPlane
  import Theorems = ControlPlaneTheorems

  // ----- what a finished operation reads as -----

  /** The revision a receipt leaves in the checkout. */
  function Materialized(result: Result): Option<RevisionId>
    requires result.ApplyReceipt? || result.RollbackReceipt?
  {
    if result.ApplyReceipt? then Some(result.setupRevisionId) else result.restoredSetupRevisionId
  }

  /** What a client reads when `row` is the checkout's newest operation and just succeeded:
      nothing runs, no plan is on offer, the checkout holds what the receipt says, and it is
      current exactly when that is what its project is assigned. */
  ghost predicate ReadsAs(row: JobRow, rows: Rows)
    requires row.result.Some?
    requires row.result.value.result.ApplyReceipt? || row.result.value.result.RollbackReceipt?
  {
    var status := Derive(rows);
    && status.operations != [] && status.operations[0] == Summary(row)
    && status.activeOperation == None
    && status.reviewedPlan == None
    && status.materializedSetupRevisionId == Materialized(row.result.value.result)
    && status.health != Attention
    && (status.health == Current <==>
          status.materializedSetupRevisionId == status.assignedSetupRevisionId)
  }

  lemma NewestOperationReads(db: CP.Db, org: OrganizationId, instance: InstanceId, rows: Rows, id: JobId, now: Time)
    requires Reads(db, org, instance, rows)
    requires id in db.jobs && IsOperation(db.jobs[id], org, instance) && db.jobs[id].envelope.jobId == id
    requires forall b | b in db.jobs && b != id && IsOperation(db.jobs[b], org, instance) ::
               db.jobs[b].envelope.issuedAt < db.jobs[id].envelope.issuedAt
    requires forall b | b in db.jobs && IsPlan(db.jobs[b], org, instance) && db.jobs[b].completedAt.Some? ::
               db.jobs[b].completedAt.value <= now
    requires CP.Idle(db.jobs, org, instance)
    requires var row := db.jobs[id];
      && row.state == Succeeded && row.completedAt == Some(now) && row.result.Some?
      && (row.result.value.result.ApplyReceipt? || row.result.value.result.RollbackReceipt?)
      && (row.envelope.job.ApplyPlan? ==>
            row.result.value.result.ApplyReceipt?
            && row.result.value.result.setupRevisionId == row.envelope.job.revision.setupRevisionId)
    ensures ReadsAs(db.jobs[id], rows)
  {
    NewestIsFirst(db.jobs, org, instance, rows.operations, id);
    assert rows.operations[0] == db.jobs[id];
    assert Derive(rows).operations[0] == Summary(db.jobs[id]);
    assert FirstSucceeded(Derive(rows).operations) == Some(Summary(db.jobs[id]));
  }

  /** Facts about the row of an accepted receipt and its neighbours. */
  lemma AcceptedReceiptRow(
    run: seq<World>, events: seq<Event>, k: nat, runner: Runner, id: JobId, lease: LeaseId,
    result: ResultEnvelope, digest: Digest, now: Time, after: CP.Db)
    returns (next: JobRow)
    requires IsHistory(run, events) && k < |run| && run[k].clock <= now
    requires CP.CompleteJob(run[k].db, runner, id, lease, result, digest, now) == (after, CP.Answered(Accepted))
    requires result.result.ApplyReceipt? || result.result.RollbackReceipt?
    ensures var db := run[k].db;
      && id in db.jobs && Active(db.jobs[id]) && IsSetupOperation(db.jobs[id].envelope.job)
      && ResultMatchesJob(db.jobs[id].envelope, result)
      && next == Finish(db.jobs[id], result, digest, Some(now)) && next.state == Succeeded
      && next.envelope.jobId == id
      && after.jobs == db.jobs[id := next] && after.instances == db.instances
      && CP.Persist(db.(jobs := db.jobs[id := next]), next.envelope, result.result, now) == CP.Persisted(after)
  {
    var db := run[k].db;
    assert RowFine(id, db.jobs[id], run[k].clock) && Approved(db.approvals, db.jobs[id].envelope) by {
      HistoryKeepsInv(run, events, k);
    }
    next := Theorems.AcceptedSubmission(db, runner, id, lease, result, digest, run[k].clock, now);
    Theorems.PersistedIsRecorded(db, id, next, result, now, after);
  }

  /** Beside the operation that has just succeeded nothing is active, newer, or completed later. */
  lemma OthersAreOlder(
    run: seq<World>, events: seq<Event>, k: nat, id: JobId, next: JobRow, now: Time, b: JobId,
    org: OrganizationId, instance: InstanceId)
    requires IsHistory(run, events) && Ticks(run) && k < |run| && run[k].clock <= now
    requires id in run[k].db.jobs && b in run[k].db.jobs && b != id
    requires Active(run[k].db.jobs[id]) && IsSetupOperation(run[k].db.jobs[id].envelope.job)
    requires next.envelope == run[k].db.jobs[id].envelope && CP.InstanceJob(next, org, instance)
    ensures !CP.ActiveOperation(run[k].db.jobs[b], org, instance)
    ensures IsOperation(run[k].db.jobs[b], org, instance) ==>
              run[k].db.jobs[b].envelope.issuedAt < next.envelope.issuedAt
    ensures run[k].db.jobs[b].completedAt.Some? ==> run[k].db.jobs[b].completedAt.value <= now
  {
    ActiveOperationIsNewest(run, events, k, id, b);
    assert SingleFlight(run[k].db.jobs) && RowFine(b, run[k].db.jobs[b], run[k].clock) by {
      HistoryKeepsInv(run, events, k);
    }
    OnlyOneOfTwoIsActive(run[k].db, id, b);
  }

  /** Right after an accepted apply or rollback receipt the checkout reads as that receipt. */
  lemma FinishedOperationReadsBack(
    run: seq<World>, events: seq<Event>, k: nat, runner: Runner, id: JobId, lease: LeaseId,
    result: ResultEnvelope, digest: Digest, now: Time, after: CP.Db,
    org: OrganizationId, instance: InstanceId, rows: Rows)
    requires IsHistory(run, events) && Ticks(run) && k < |run| && run[k].clock <= now
    requires CP.CompleteJob(run[k].db, runner, id, lease, result, digest, now) == (after, CP.Answered(Accepted))
    requires result.result.ApplyReceipt? || result.result.RollbackReceipt?
    requires id in after.jobs && CP.InstanceJob(after.jobs[id], org, instance)
    requires Reads(after, org, instance, rows)
    ensures after.jobs[id].result == Some(result)
    ensures ReadsAs(after.jobs[id], rows)
  {
    var db := run[k].db;
    var next := AcceptedReceiptRow(run, events, k, runner, id, lease, result, digest, now, after);
    forall b | b in after.jobs && b != id
      ensures !CP.ActiveOperation(after.jobs[b], org, instance)
      ensures IsOperation(after.jobs[b], org, instance) ==>
                after.jobs[b].envelope.issuedAt < after.jobs[id].envelope.issuedAt
      ensures after.jobs[b].completedAt.Some? ==> after.jobs[b].completedAt.value <= now
    {
      OthersAreOlder(run, events, k, id, next, now, b, org, instance);
    }
    NewestOperationReads(after, org, instance, rows, id, now);
  }

  /** A successful apply leaves its checkout current, unless the checkout has been bound to
      another project since the apply was queued. */
  lemma AppliedCheckoutIsCurrent(
    run: seq<World>, events: seq<Event>, k: nat, runner: Runner, id: JobId, lease: LeaseId,
    result: ResultEnvelope, digest: Digest, now: Time, after: CP.Db,
    org: OrganizationId, instance: InstanceId, rows: Rows)
    requires IsHistory(run, events) && Ticks(run) && k < |run| && run[k].clock <= now
    requires CP.CompleteJob(run[k].db, runner, id, lease, result, digest, now) == (after, CP.Answered(Accepted))
    requires result.result.ApplyReceipt?
    requires id in after.jobs && CP.InstanceJob(after.jobs[id], org, instance)
    requires instance in after.instances && Reads(after, org, instance, rows)
    requires after.jobs[id].envelope.job.ApplyPlan?
    requires after.instances[instance].projectId == after.jobs[id].envelope.job.projectId
    ensures Derive(rows).health == Current
    ensures Derive(rows).assignedSetupRevisionId == Some(result.result.setupRevisionId)
  {
    FinishedOperationReadsBack(run, events, k, runner, id, lease, result, digest, now, after, org, instance, rows);
    var next := AcceptedReceiptRow(run, events, k, runner, id, lease, result, digest, now, after);
  }

  /** A successful rollback leaves its checkout current exactly when it restored nothing, or its
      project had an assignment to move. */
  lemma RolledBackCheckoutIsCurrent(
    run: seq<World>, events: seq<Event>, k: nat, runner: Runner, id: JobId, lease: LeaseId,
    result: ResultEnvelope, digest: Digest, now: Time, after: CP.Db,
    org: OrganizationId, instance: InstanceId, rows: Rows)
    requires IsHistory(run, events) && Ticks(run) && k < |run| && run[k].clock <= now
    requires CP.CompleteJob(run[k].db, runner, id, lease, result, digest, now) == (after, CP.Answered(Accepted))
    requires result.result.RollbackReceipt?
    requires id in after.jobs && CP.InstanceJob(after.jobs[id], org, instance)
    requires instance in run[k].db.instances && Reads(after, org, instance, rows)
    ensures Derive(rows).materializedSetupRevisionId == result.result.restoredSetupRevisionId
    ensures Derive(rows).health == Current <==>
            || result.result.restoredSetupRevisionId == None
            || run[k].db.instances[instance].projectId in run[k].db.assignments
  {
    FinishedOperationReadsBack(run, events, k, runner, id, lease, result, digest, now, after, org, instance, rows);
    var next := AcceptedReceiptRow(run, events, k, runner, id, lease, result, digest, now, after);
  }

  // ----- the checkout's project -----

  /** Nothing moves a checkout to another project, and plans are requested for the project the
      checkout is bound to. */
  ghost predicate KeepsBinding(w: World, e: Event) {
    match e
    case Register(_, instance, project, _) =>
      instance in w.db.instances ==> project == w.db.instances[instance].projectId
    case RequestPlan(job) =>
      job.job.PlanSetup? && job.projectInstanceId.Some? && job.projectInstanceId.value in w.db.instances ==>
        job.job.projectId == w.db.instances[job.projectInstanceId.value].projectId
    case _ => true
  }

  ghost predicate BindingFixed(run: seq<World>, events: seq<Event>)
    requires |run| == |events| + 1
  {
    forall k | 0 <= k < |events| :: KeepsBinding(run[k], events[k])
  }

  ghost predicate PlanAtHome(db: CP.Db, id: JobId)
    requires id in db.jobs
  {
    var e := db.jobs[id].envelope;
    e.job.PlanSetup? && e.projectInstanceId.Some? && e.projectInstanceId.value in db.instances ==>
      e.job.projectId == db.instances[e.projectInstanceId.value].projectId
  }

  lemma BoundInstances(w: World, e: Event, next: World, i: InstanceId)
    requires Step(w, e, next) && KeepsBinding(w, e) && i in w.db.instances
    ensures i in next.db.instances && next.db.instances[i].projectId == w.db.instances[i].projectId
  {
    if !e.Register? { StepKeepsDevices(w, e, next); }
  }

  lemma {:induction false} PlansStayAtHome(run: seq<World>, events: seq<Event>, k: nat, id: JobId)
    requires IsHistory(run, events) && BindingFixed(run, events) && k < |run| && id in run[k].db.jobs
    ensures PlanAtHome(run[k].db, id)
  {
    if k > 0 {
      var w, e := run[k - 1], events[k - 1];
      assert EventAt(run, events, k - 1) && KeepsBinding(w, e);
      if id in w.db.jobs {
        PlansStayAtHome(run, events, k - 1, id);
        OldRowsKeepTheirEnvelope(run, events, k - 1, id);
        PlanKeepsItsCheckout(run, events, k - 1, id);
      } else {
        NewRowsAreInserted(w, e, run[k], id);
        if e.RequestPlan? { StepKeepsDevices(w, e, run[k]); }
      }
    }
  }

  lemma PlanKeepsItsCheckout(run: seq<World>, events: seq<Event>, k: nat, id: JobId)
    requires IsHistory(run, events) && k < |events| && id in run[k].db.jobs
    requires KeepsBinding(run[k], events[k]) && PlanAtHome(run[k].db, id)
    requires id in run[k + 1].db.jobs && run[k + 1].db.jobs[id].envelope == run[k].db.jobs[id].envelope
    ensures PlanAtHome(run[k + 1].db, id)
  {
    var e := run[k].db.jobs[id].envelope;
    if e.job.PlanSetup? {
      assert EventAt(run, events, k);
      assert Placed(run[k].db.instances, e) by { HistoryKeepsInv(run, events, k); }
      BoundInstances(run[k], events[k], run[k + 1], e.projectInstanceId.value);
    }
  }

  /** With a fixed binding an offered plan is never a mismatch either: what is left is a plan
      with conflicts, an absent runner, or success. */
  lemma OfferedPlanFitsItsCheckout(
    run: seq<World>, events: seq<Event>, k: nat, rows: Rows, input: CP.ApplyInput,
    after: CP.Db, outcome: CP.ApplyOutcome)
    requires IsHistory(run, events) && Ticks(run) && BindingFixed(run, events) && k < |run|
    requires Reads(run[k].db, input.organizationId, input.projectInstanceId, rows)
    requires Derive(rows).reviewedPlan.Some?
    requires Derive(rows).reviewedPlan.value.jobId == input.planJobId
    requires Derive(rows).reviewedPlan.value.plan.planDigest == input.planDigest
    requires CP.Approve(run[k].db, input, after, outcome)
    ensures outcome.PlanHasConflicts? || outcome.ApplyOffline? || outcome.ApplyIncapable? || outcome.ApplyQueued?
    ensures outcome.PlanHasConflicts? <==> Derive(rows).reviewedPlan.value.plan.conflicts != []
  {
    OfferedPlanIsApplicable(run, events, k, rows, input, after, outcome);
    PlansStayAtHome(run, events, k, input.planJobId);
  }

  /** The newest operation and the newest plan do not depend on which rows a query returns. */
  lemma ReadsAgree(db: CP.Db, other: CP.Db, org: OrganizationId, instance: InstanceId, rows: Rows, rows': Rows)
    requires Reads(db, org, instance, rows) && Reads(other, org, instance, rows') && other.jobs == db.jobs
    requires forall id | id in db.jobs :: db.jobs[id].envelope.jobId == id
    ensures rows.planAttempt == rows'.planAttempt
    ensures (rows.operations == [] <==> rows'.operations == [])
            && (rows.operations != [] ==> rows.operations[0] == rows'.operations[0])
  {
    if rows.operations != [] {
      assert rows.operations[0] in rows.operations;
      NewestIsFirst(db.jobs, org, instance, rows'.operations, rows.operations[0].envelope.jobId);
    }
    if rows'.operations != [] {
      assert rows'.operations[0] in rows'.operations;
      NewestIsFirst(db.jobs, org, instance, rows.operations, rows'.operations[0].envelope.jobId);
    }
  }

  /** Without a fixed binding the offer breaks: move the checkout of any offered plan to another
      project, and the plan is still offered, but approving it answers a mismatch. */
  lemma MovedCheckoutStillOffersAMismatch(
    run: seq<World>, events: seq<Event>, k: nat, rows: Rows, runner: Runner, project: ProjectId,
    moved: CP.Db, rows': Rows, input: CP.ApplyInput, after: CP.Db, outcome: CP.ApplyOutcome)
    requires IsHistory(run, events) && k < |run|
    requires Reads(run[k].db, input.organizationId, input.projectInstanceId, rows)
    requires Derive(rows).reviewedPlan.Some?
    requires Derive(rows).reviewedPlan.value.jobId == input.planJobId
    requires Derive(rows).reviewedPlan.value.plan.planDigest == input.planDigest
    requires input.planJobId in run[k].db.jobs && run[k].db.jobs[input.planJobId].envelope.job.PlanSetup?
    requires project != run[k].db.jobs[input.planJobId].envelope.job.projectId
    requires CP.RegisterInstance(run[k].db, runner, input.projectInstanceId, project, true) == (moved, CP.Registered)
    requires Reads(moved, input.organizationId, input.projectInstanceId, rows')
    requires CP.Approve(moved, input, after, outcome)
    ensures Derive(rows').reviewedPlan == Derive(rows).reviewedPlan
    ensures outcome == CP.PlanMismatch
  {
    var db := run[k].db;
    assert JobsOk(db, run[k].clock) && ApprovalsOk(db) by { HistoryKeepsInv(run, events, k); }
    assert Homes(db) by { HistoryKeepsHomes(run, events, k); }
    MovedOffer(db, run[k].clock, rows, runner, project, moved, rows', input, after, outcome);
  }

  lemma MovedOffer(
    db: CP.Db, clock: Time, rows: Rows, runner: Runner, project: ProjectId,
    moved: CP.Db, rows': Rows, input: CP.ApplyInput, after: CP.Db, outcome: CP.ApplyOutcome)
    requires JobsOk(db, clock) && ApprovalsOk(db) && Homes(db)
    requires Reads(db, input.organizationId, input.projectInstanceId, rows)
    requires Derive(rows).reviewedPlan.Some?
    requires Derive(rows).reviewedPlan.value.jobId == input.planJobId
    requires Derive(rows).reviewedPlan.value.plan.planDigest == input.planDigest
    requires input.planJobId in db.jobs && db.jobs[input.planJobId].envelope.job.PlanSetup?
    requires project != db.jobs[input.planJobId].envelope.job.projectId
    requires CP.RegisterInstance(db, runner, input.projectInstanceId, project, true) == (moved, CP.Registered)
    requires Reads(moved, input.organizationId, input.projectInstanceId, rows')
    requires CP.Approve(moved, input, after, outcome)
    ensures Derive(rows').reviewedPlan == Derive(rows).reviewedPlan
    ensures outcome == CP.PlanMismatch
  {
    RegistrationMoves(db, runner, input.projectInstanceId, project, moved);
    assert forall id | id in db.jobs :: db.jobs[id].envelope.jobId == id by {
      forall id | id in db.jobs ensures db.jobs[id].envelope.jobId == id { assert RowFine(id, db.jobs[id], clock); }
    }
    assert Derive(rows').reviewedPlan == Derive(rows).reviewedPlan by {
      SameRowsSameOffer(db, moved, input.organizationId, input.projectInstanceId, rows, rows');
    }
    MovedPlanIsAMismatch(db, clock, moved, rows, input, after, outcome);
  }

  lemma RegistrationMoves(db: CP.Db, runner: Runner, instance: InstanceId, project: ProjectId, moved: CP.Db)
    requires instance in db.instances
    requires CP.RegisterInstance(db, runner, instance, project, true) == (moved, CP.Registered)
    ensures instance in moved.instances
    ensures moved.instances[instance] == db.instances[instance].(projectId := project)
    ensures moved == db.(instances := db.instances[instance := moved.instances[instance]])
  {
  }

  lemma SameRowsSameOffer(
    db: CP.Db, other: CP.Db, org: OrganizationId, instance: InstanceId, rows: Rows, rows': Rows)
    requires Reads(db, org, instance, rows) && Reads(other, org, instance, rows') && other.jobs == db.jobs
    requires forall id | id in db.jobs :: db.jobs[id].envelope.jobId == id
    ensures Derive(rows').reviewedPlan == Derive(rows).reviewedPlan
  {
    ReadsAgree(db, other, org, instance, rows, rows');
    if rows.operations != [] {
      assert Derive(rows).operations[0] == Summary(rows.operations[0]) == Derive(rows').operations[0];
    }
    assert Barrier(Derive(rows).operations) == Barrier(Derive(rows').operations);
  }

  lemma MovedPlanIsAMismatch(
    db: CP.Db, clock: Time, moved: CP.Db, rows: Rows, input: CP.ApplyInput, after: CP.Db, outcome: CP.ApplyOutcome)
    requires JobsOk(db, clock) && ApprovalsOk(db) && Homes(db)
    requires Reads(db, input.organizationId, input.projectInstanceId, rows)
    requires Derive(rows).reviewedPlan.Some?
    requires Derive(rows).reviewedPlan.value.jobId == input.planJobId
    requires Derive(rows).reviewedPlan.value.plan.planDigest == input.planDigest
    requires input.projectInstanceId in moved.instances
    requires input.planJobId in db.jobs && db.jobs[input.planJobId].envelope.job.PlanSetup?
    requires moved == db.(
      instances := db.instances[input.projectInstanceId := moved.instances[input.projectInstanceId]])
    requires moved.instances[input.projectInstanceId]
             == db.instances[input.projectInstanceId].(projectId := moved.instances[input.projectInstanceId].projectId)
    requires moved.instances[input.projectInstanceId].projectId != db.jobs[input.planJobId].envelope.job.projectId
    requires CP.Approve(moved, input, after, outcome)
    ensures outcome == CP.PlanMismatch
  {
    OfferedPlan(db, clock, input.organizationId, input.projectInstanceId, rows, input.planJobId);
    forall id | id in moved.approvals
      ensures moved.approvals[id].sourcePlan != input.planJobId
    {
      OfferedPlanWasNeverApproved(db, input.organizationId, input.projectInstanceId, input.planJobId, id);
    }
    ApprovalFollowsThePlan(moved, input, Derive(rows).reviewedPlan.value.plan, after, outcome);
  }
}
