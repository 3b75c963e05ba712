/** One history, step by step: a plan is requested, run and offered, then approved, applied and
    offered for rollback. It shows that the theorems about offers speak of reachable states, and
    that moving the checkout in between breaks the offer of the plan. */
module ReachableExample {
  import opened Protocol
  import opened ResultMatching
  import opened JobLifecycle
  import opened Invariants
  import opened ControlPlaneRuns
  import opened ReadSide
  import CP = ControlPlane
  import Reads = CheckoutReads

  const RUNNER := Runner(0, 0)
  const REPORT := Report({PlanSetupKind, ApplyPlanKind, RollbackOperationKind}, false)
  const REVISION := Revision(0, 5, 1)
  const PLAN := Plan(5, 9, [], [])
  const PLAN_JOB := Envelope(1, PlanKey(1), 0, 0, Some(0), 4, 100, PlanSetup(0, REVISION))
  const PLAN_RESULT := ResultEnvelope(1, PlanKey(1), 0, 0, Some(0), PlanResult(0, PLAN))
  const APPLY := CP.ApplyInput(0, 0, 0, 1, 9, 1, 2, 8, 100, 0)
  const APPROVAL := Approval(1, 0, 0, 5, 9, 0, 8, 100)
  const APPLY_JOB := Envelope(2, ApplyKey(1), 0, 0, Some(0), 8, 100, ApplyPlan(0, REVISION, APPROVAL))
  const APPLY_RESULT := ResultEnvelope(
    2, ApplyKey(1), 0, 0, Some(0), ApplyReceipt(0, 3, 5, 9, Applied, RollbackAvailable, 1))

  const INSTANCES: map<InstanceId, CP.Instance> := map[0 := CP.Instance(0, 0, 0)]

  function Devices(seen: Option<Time>): map<DeviceId, CP.Device> {
    map[0 := CP.Device(0, true, seen, Some(REPORT))]
  }

  /** A database with these job rows and nothing else but the checkout. */
  function Tables(jobs: map<JobId, JobRow>, seen: Option<Time>): CP.Db {
    CP.Db(jobs, map[], map[], map[], INSTANCES, Devices(seen), map[5 := 0])
  }

  const LEASED_PLAN := Grant(NewRow(PLAN_JOB), 0, 50)
  const ACKNOWLEDGED_PLAN := AcknowledgeRow(LEASED_PLAN, 0, 0, 6).0
  const FINISHED_PLAN := Finish(ACKNOWLEDGED_PLAN, PLAN_RESULT, 0, Some(7))
  const LEASED_APPLY := Grant(NewRow(APPLY_JOB), 1, 50)
  const ACKNOWLEDGED_APPLY := AcknowledgeRow(LEASED_APPLY, 1, 0, 10).0
  const FINISHED_APPLY := Finish(ACKNOWLEDGED_APPLY, APPLY_RESULT, 0, Some(11))

  const EVENTS: seq<Event> := [
    Enroll(0, 0, REPORT),
    Register(RUNNER, 0, 0, true),
    AddRevision(0, 5, None),
    RequestPlan(PLAN_JOB),
    ClaimJob(RUNNER, REPORT, 0, 50),
    AcknowledgeJob(RUNNER, 1, 0, 0),
    SubmitResult(RUNNER, 1, 0, PLAN_RESULT, 0),
    ApprovePlan(APPLY),
    ClaimJob(RUNNER, REPORT, 1, 50),
    AcknowledgeJob(RUNNER, 2, 1, 0),
    SubmitResult(RUNNER, 2, 1, APPLY_RESULT, 0)]

  const APPROVALS: map<ApprovalId, CP.ApprovalRow> := map[1 := CP.ApprovalRow(APPROVAL, 2, 1)]
  const RECEIPT := CP.ReceiptRow(0, 0, 0, 2, 5, 9, Applied, RollbackAvailable, 11)

  const PLANNED_DB := Tables(map[1 := FINISHED_PLAN], Some(5))

  /** The database after `k` events. */
  function After(k: nat): CP.Db
    requires k <= 11
  {
    match k
    case 0 => START.db
    case 1 => CP.Db(map[], map[], map[], map[], map[], Devices(None), map[])
    case 2 => CP.Db(map[], map[], map[], map[], INSTANCES, Devices(None), map[])
    case 3 => Tables(map[], None)
    case 4 => Tables(map[1 := NewRow(PLAN_JOB)], None)
    case 5 => Tables(map[1 := LEASED_PLAN], Some(5))
    case 6 => Tables(map[1 := ACKNOWLEDGED_PLAN], Some(5))
    case 7 => PLANNED_DB
    case 8 => Tables(map[1 := FINISHED_PLAN, 2 := NewRow(APPLY_JOB)], Some(5)).(approvals := APPROVALS)
    case 9 => Tables(map[1 := FINISHED_PLAN, 2 := LEASED_APPLY], Some(9)).(approvals := APPROVALS)
    case 10 => Tables(map[1 := FINISHED_PLAN, 2 := ACKNOWLEDGED_APPLY], Some(9)).(approvals := APPROVALS)
    case _ => Tables(map[1 := FINISHED_PLAN, 2 := FINISHED_APPLY], Some(9)).(
                approvals := APPROVALS, receipts := map[3 := RECEIPT], assignments := map[0 := 5])
  }

  function WorldAt(k: nat): World
    requires k <= 11
  {
    World(After(k), k, if k < 5 then {} else if k < 9 then {0} else {0, 1})
  }

  function RunOf(k: nat): seq<World>
    requires k <= 11
  {
    seq(k + 1, i requires 0 <= i < k + 1 => WorldAt(i))
  }

  // ----- the steps -----

  lemma SetsUp()
    ensures Step(WorldAt(0), EVENTS[0], WorldAt(1))
    ensures Step(WorldAt(1), EVENTS[1], WorldAt(2))
    ensures Step(WorldAt(2), EVENTS[2], WorldAt(3))
  {
  }

  lemma QueuesThePlan()
    ensures Step(WorldAt(3), EVENTS[3], WorldAt(4))
  {
    var none: map<JobId, JobRow> := map[];
    assert CP.ExpirePending(none, 0, 0, 4) == none;
    assert CP.EnqueuePlan(After(3), PLAN_JOB, After(4), CP.PlanQueued(1));
  }

  /** A claim of the only job that is pending. */
  lemma ClaimsOne(db: CP.Db, after: CP.Db, id: JobId, lease: LeaseId, now: Time)
    requires id in db.jobs && db.jobs[id].state == Pending && BelongsTo(db.jobs[id], RUNNER)
    requires Supports(REPORT, db.jobs[id]) && db.jobs[id].envelope.expiresAt > now
    requires forall other | other in db.jobs && other != id :: Terminal(db.jobs[other])
    requires after == db.(jobs := db.jobs[id := Grant(db.jobs[id], lease, 50)],
                          devices := CP.TouchDevice(db.devices, RUNNER, now, Some(REPORT)))
    ensures CP.Claim(db, RUNNER, REPORT, lease, now, 50, after, Some(id))
  {
    assert CP.ExpireForDevice(db.jobs, 0, now) == db.jobs;
    assert CP.ClaimableFree(db.jobs[id], RUNNER, REPORT, now);
  }

  lemma ThePlanIsClaimed()
    ensures CP.Claim(After(4), RUNNER, REPORT, 0, 5, 50, After(5), Some(1))
  {
    ClaimsOne(After(4), After(5), 1, 0, 5);
  }

  lemma ClaimsThePlan()
    ensures Step(WorldAt(4), EVENTS[4], WorldAt(5))
  {
    ThePlanIsClaimed();
  }

  lemma AcknowledgesThePlan()
    ensures Step(WorldAt(5), EVENTS[5], WorldAt(6))
  {
    assert CP.Acknowledge(After(5), RUNNER, 1, 0, 0, 6).0 == After(6);
  }

  lemma FinishesThePlan()
    ensures Step(WorldAt(6), EVENTS[6], WorldAt(7))
  {
    assert ResultMatchesJob(PLAN_JOB, PLAN_RESULT);
    assert CP.CompleteJob(After(6), RUNNER, 1, 0, PLAN_RESULT, 0, 7).0 == After(7);
  }

  lemma NothingObjectsToThePlan()
    ensures CP.PlanFound(After(7), APPLY) && CP.ApplyObjection(After(7), APPLY) == None
    ensures CP.ApplyJob(After(7), APPLY) == APPLY_JOB
  {
    assert CP.PlanFound(After(7), APPLY) && CP.LatestPlan(After(7).jobs, 0, 0, 1);
  }

  lemma ThePlanIsApproved()
    ensures CP.Approve(After(7), APPLY, After(8), CP.ApplyQueued(2, 1, 0))
  {
    NothingObjectsToThePlan();
    assert CP.ExpirePending(After(7).jobs, 0, 0, 8) == After(7).jobs;
  }

  lemma QueuesTheApply()
    ensures Step(WorldAt(7), EVENTS[7], WorldAt(8))
  {
    ThePlanIsApproved();
  }

  lemma TheApplyIsClaimed()
    ensures CP.Claim(After(8), RUNNER, REPORT, 1, 9, 50, After(9), Some(2))
  {
    ClaimsOne(After(8), After(9), 2, 1, 9);
  }

  lemma ClaimsTheApply()
    ensures Step(WorldAt(8), EVENTS[8], WorldAt(9))
  {
    TheApplyIsClaimed();
  }

  lemma TheApplyIsAcknowledged()
    ensures CP.Acknowledge(After(9), RUNNER, 2, 1, 0, 10).0 == After(10)
  {
    assert After(9).jobs[2 := ACKNOWLEDGED_APPLY] == After(10).jobs;
  }

  lemma AcknowledgesTheApply()
    ensures Step(WorldAt(9), EVENTS[9], WorldAt(10))
  {
    TheApplyIsAcknowledged();
  }

  lemma TheApplyIsAccepted()
    ensures CompleteRow(ACKNOWLEDGED_APPLY, 1, APPLY_RESULT, 0, Some(11), ResultMatchesJob(APPLY_JOB, APPLY_RESULT))
            == (FINISHED_APPLY, Accepted)
    ensures ACKNOWLEDGED_APPLY.envelope == APPLY_JOB && FINISHED_APPLY.state == Succeeded
  {
    assert ResultMatchesJob(APPLY_JOB, APPLY_RESULT);
  }

  lemma TheReceiptIsWritten()
    ensures CP.Persist(After(10).(jobs := After(11).jobs), APPLY_JOB, APPLY_RESULT.result, 11)
            == CP.Persisted(After(11))
  {
  }

  lemma TheApplyIsCompleted()
    ensures CP.CompleteJob(After(10), RUNNER, 2, 1, APPLY_RESULT, 0, 11).0 == After(11)
  {
    TheApplyIsAccepted();
    TheReceiptIsWritten();
    assert After(10).jobs[2 := FINISHED_APPLY] == After(11).jobs;
  }

  lemma FinishesTheApply()
    ensures Step(WorldAt(10), EVENTS[10], WorldAt(11))
  {
    TheApplyIsCompleted();
  }

  lemma PlanningHappens(i: nat)
    requires 3 <= i < 7
    ensures Step(WorldAt(i), EVENTS[i], WorldAt(i + 1))
  {
    match i {
      case 3 => QueuesThePlan();
      case 4 => ClaimsThePlan();
      case 5 => AcknowledgesThePlan();
      case 6 => FinishesThePlan();
    }
  }

  lemma ApplyingHappens(i: nat)
    requires 7 <= i < 11
    ensures Step(WorldAt(i), EVENTS[i], WorldAt(i + 1))
  {
    match i {
      case 7 => QueuesTheApply();
      case 8 => ClaimsTheApply();
      case 9 => AcknowledgesTheApply();
      case 10 => FinishesTheApply();
    }
  }

  lemma IsAHistory(k: nat)
    requires k <= 11
    ensures IsHistory(RunOf(k), EVENTS[..k]) && Ticks(RunOf(k))
  {
    forall i | 0 <= i < k ensures EventAt(RunOf(k), EVENTS[..k], i) {
      if i < 3 { SetsUp(); } else if i < 7 { PlanningHappens(i); } else { ApplyingHappens(i); }
    }
  }

  // ----- what is offered -----

  const PLANNED := Rows(None, [], Some(FINISHED_PLAN), None, None)
  const APPLIED := Rows(Some(5), [FINISHED_APPLY], Some(FINISHED_PLAN), Some(FINISHED_PLAN), None)

  lemma PlannedRows(db: CP.Db)
    requires db.jobs == map[1 := FINISHED_PLAN] && db.assignments == map[]
    requires 0 in db.instances && db.instances[0].organizationId == 0
    ensures ReadSide.Reads(db, 0, 0, PLANNED)
  {
  }

  /** After seven events the plan is on offer. */
  lemma APlanIsOffered()
    ensures IsHistory(RunOf(7), EVENTS[..7]) && Ticks(RunOf(7)) && RunOf(7)[7].db == PLANNED_DB
    ensures ReadSide.Reads(PLANNED_DB, 0, 0, PLANNED)
    ensures Derive(PLANNED).reviewedPlan == Some(ReviewablePlan(1, PLAN))
  {
    IsAHistory(7);
    PlannedRows(PLANNED_DB);
  }

  lemma AppliedPlans()
    ensures PlanAttempt(After(11).jobs, 0, 0, APPLIED.planAttempt)
    ensures AssignedPlan(After(11).jobs, 0, 0, Some(5), APPLIED.assignedPlan)
  {
  }

  lemma AppliedOperations(jobs: map<JobId, JobRow>)
    requires jobs == map[1 := FINISHED_PLAN, 2 := FINISHED_APPLY]
    ensures NewestOperations(jobs, 0, 0, [FINISHED_APPLY]) && CP.Idle(jobs, 0, 0)
  {
  }

  lemma AppliedRows()
    ensures ReadSide.Reads(After(11), 0, 0, APPLIED)
  {
    AppliedOperations(After(11).jobs);
    AppliedPlans();
  }

  lemma AppliedOffer()
    ensures RecoverableOperationId(Some(Derive(APPLIED))) == Some(3)
  {
    assert FirstSucceeded([Summary(FINISHED_APPLY)]) == Some(Summary(FINISHED_APPLY));
    assert Summaries(APPLIED.operations) == [Summary(FINISHED_APPLY)];
  }

  /** After eleven events the applied operation is offered for rollback. */
  lemma ARollbackIsOffered()
    ensures IsHistory(RunOf(11), EVENTS[..11]) && Ticks(RunOf(11)) && RunOf(11)[11].db == After(11)
    ensures ReadSide.Reads(After(11), 0, 0, APPLIED)
    ensures RecoverableOperationId(Some(Derive(APPLIED))) == Some(3)
  {
    IsAHistory(11);
    AppliedRows();
    AppliedOffer();
  }

  const MOVED: map<InstanceId, CP.Instance> := map[0 := CP.Instance(0, 1, 0)]

  lemma MovesTheCheckout()
    ensures CP.RegisterInstance(PLANNED_DB, RUNNER, 0, 1, true) == (PLANNED_DB.(instances := MOVED), CP.Registered)
  {
    assert INSTANCES[0 := CP.Instance(0, 1, 0)] == MOVED;
  }

  /** Had the checkout been moved to project 1 after the seventh event, the plan would still be on
      offer, and approving it would answer a mismatch. */
  lemma AMovedCheckoutRefusesItsPlan(after: CP.Db, outcome: CP.ApplyOutcome)
    requires CP.Approve(PLANNED_DB.(instances := MOVED), APPLY, after, outcome)
    ensures CP.RegisterInstance(PLANNED_DB, RUNNER, 0, 1, true) == (PLANNED_DB.(instances := MOVED), CP.Registered)
    ensures ReadSide.Reads(PLANNED_DB.(instances := MOVED), 0, 0, PLANNED)
    ensures outcome == CP.PlanMismatch
  {
    MovesTheCheckout();
    PlannedRows(PLANNED_DB.(instances := MOVED));
    MovedOfferIsRefused(PLANNED_DB.(instances := MOVED), after, outcome);
  }

  lemma MovedOfferIsRefused(moved: CP.Db, after: CP.Db, outcome: CP.ApplyOutcome)
    requires CP.RegisterInstance(PLANNED_DB, RUNNER, 0, 1, true) == (moved, CP.Registered)
    requires ReadSide.Reads(moved, 0, 0, PLANNED)
    requires CP.Approve(moved, APPLY, after, outcome)
    ensures outcome == CP.PlanMismatch
  {
    APlanIsOffered();
    MovedOfferIsRefusedIn(RunOf(7), EVENTS[..7], moved, after, outcome);
  }

  lemma MovedOfferIsRefusedIn(
    run: seq<World>, events: seq<Event>, moved: CP.Db, after: CP.Db, outcome: CP.ApplyOutcome)
    requires IsHistory(run, events) && |events| == 7 && run[7].db == PLANNED_DB
    requires ReadSide.Reads(PLANNED_DB, 0, 0, PLANNED) && ReadSide.Reads(moved, 0, 0, PLANNED)
    requires Derive(PLANNED).reviewedPlan == Some(ReviewablePlan(1, PLAN))
    requires CP.RegisterInstance(PLANNED_DB, RUNNER, 0, 1, true) == (moved, CP.Registered)
    requires CP.Approve(moved, APPLY, after, outcome)
    ensures outcome == CP.PlanMismatch
  {
    Reads.MovedCheckoutStillOffersAMismatch(
      run, events, 7, PLANNED, RUNNER, 1, moved, PLANNED, APPLY, after, outcome);
  }
}
