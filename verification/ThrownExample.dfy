/** The history of the example goes on: a second plan is requested, run and approved, and the
    runner reports the second apply under the operation identifier of the first. The steps are
    taken from any state that is ready for them, of which the end of the example is one. */
module ThrownExample {
  import opened Protocol
  import opened ResultMatching
  import opened JobLifecycle
  import opened Invariants
  import opened ControlPlaneRuns
  import opened ReachableExample
  import CP = ControlPlane

  const SECOND_PLAN := Plan(5, 8, [], [])
  const SECOND_PLAN_JOB := Envelope(3, PlanKey(3), 0, 0, Some(0), 12, 100, PlanSetup(0, REVISION))
  const SECOND_PLAN_RESULT := ResultEnvelope(3, PlanKey(3), 0, 0, Some(0), PlanResult(0, SECOND_PLAN))
  const SECOND_APPLY := CP.ApplyInput(0, 0, 0, 3, 8, 2, 4, 16, 100, 0)
  const SECOND_APPROVAL := Approval(2, 0, 0, 5, 8, 0, 16, 100)
  const SECOND_APPLY_JOB := Envelope(
    4, ApplyKey(3), 0, 0, Some(0), 16, 100, ApplyPlan(0, REVISION, SECOND_APPROVAL))

  const LEASED_SECOND_PLAN := Grant(NewRow(SECOND_PLAN_JOB), 2, 50)
  const ACKNOWLEDGED_SECOND_PLAN := AcknowledgeRow(LEASED_SECOND_PLAN, 2, 0, 14).0
  const FINISHED_SECOND_PLAN := Finish(ACKNOWLEDGED_SECOND_PLAN, SECOND_PLAN_RESULT, 0, Some(15))
  const LEASED_SECOND_APPLY := Grant(NewRow(SECOND_APPLY_JOB), 3, 50)
  const ACKNOWLEDGED_SECOND_APPLY := AcknowledgeRow(LEASED_SECOND_APPLY, 3, 0, 18).0

  const MORE_EVENTS: seq<Event> := [
    RequestPlan(SECOND_PLAN_JOB),
    ClaimJob(RUNNER, REPORT, 2, 50),
    AcknowledgeJob(RUNNER, 3, 2, 0),
    SubmitResult(RUNNER, 3, 2, SECOND_PLAN_RESULT, 0),
    ApprovePlan(SECOND_APPLY),
    ClaimJob(RUNNER, REPORT, 3, 50),
    AcknowledgeJob(RUNNER, 4, 3, 0)]

  /** The checkout is there and idle, its device is active, and the new identifiers are unused. */
  ghost predicate Ready(b: CP.Db) {
    && CP.DeviceFound(b, 0, 0) && b.instances[0] == CP.Instance(0, 0, 0)
    && b.devices[0].active && b.devices[0].report == Some(REPORT)
    && CP.RevisionKnown(b, 0, 5)
    && 3 !in b.jobs && 4 !in b.jobs && 2 !in b.approvals
    && (forall id | id in b.jobs :: Terminal(b.jobs[id]) && b.jobs[id].envelope.issuedAt < 12)
    && (forall id | id in b.approvals :: b.approvals[id].sourcePlan != 3)
  }

  function WithPlan(b: CP.Db, row: JobRow, seen: map<DeviceId, CP.Device>): CP.Db {
    b.(jobs := b.jobs[3 := row], devices := seen)
  }

  function WithApply(b: CP.Db, row: JobRow, seen: map<DeviceId, CP.Device>): CP.Db {
    b.(jobs := b.jobs[3 := FINISHED_SECOND_PLAN][4 := row], devices := seen,
       approvals := b.approvals[2 := CP.ApprovalRow(SECOND_APPROVAL, 4, 3)])
  }

  function SeenAt(b: CP.Db, now: Time): map<DeviceId, CP.Device> {
    CP.TouchDevice(b.devices, RUNNER, now, Some(REPORT))
  }

  // ----- the transactions -----

  lemma PlanIsQueued(b: CP.Db)
    requires Ready(b)
    ensures CP.EnqueuePlan(b, SECOND_PLAN_JOB, WithPlan(b, NewRow(SECOND_PLAN_JOB), b.devices), CP.PlanQueued(3))
  {
    assert CP.ExpirePending(b.jobs, 0, 0, 12) == b.jobs;
  }

  lemma PlanIsClaimed(b: CP.Db)
    requires Ready(b)
    ensures CP.Claim(WithPlan(b, NewRow(SECOND_PLAN_JOB), b.devices), RUNNER, REPORT, 2, 13, 50,
                     WithPlan(b, LEASED_SECOND_PLAN, SeenAt(b, 13)), Some(3))
  {
    var db := WithPlan(b, NewRow(SECOND_PLAN_JOB), b.devices);
    var after := WithPlan(b, LEASED_SECOND_PLAN, SeenAt(b, 13));
    assert after.jobs == db.jobs[3 := LEASED_SECOND_PLAN];
    ClaimsOne(db, after, 3, 2, 13);
  }

  lemma PlanIsAcknowledged(b: CP.Db, seen: map<DeviceId, CP.Device>)
    ensures CP.Acknowledge(WithPlan(b, LEASED_SECOND_PLAN, seen), RUNNER, 3, 2, 0, 14).0
            == WithPlan(b, ACKNOWLEDGED_SECOND_PLAN, seen)
  {
    assert b.jobs[3 := LEASED_SECOND_PLAN][3 := ACKNOWLEDGED_SECOND_PLAN] == b.jobs[3 := ACKNOWLEDGED_SECOND_PLAN];
  }

  lemma PlanIsFinished(b: CP.Db, seen: map<DeviceId, CP.Device>)
    ensures CP.CompleteJob(WithPlan(b, ACKNOWLEDGED_SECOND_PLAN, seen), RUNNER, 3, 2, SECOND_PLAN_RESULT, 0, 15).0
            == WithPlan(b, FINISHED_SECOND_PLAN, seen)
  {
    assert ResultMatchesJob(SECOND_PLAN_JOB, SECOND_PLAN_RESULT);
    assert b.jobs[3 := ACKNOWLEDGED_SECOND_PLAN][3 := FINISHED_SECOND_PLAN] == b.jobs[3 := FINISHED_SECOND_PLAN];
  }

  lemma NothingObjects(b: CP.Db)
    requires Ready(b)
    ensures var db := WithPlan(b, FINISHED_SECOND_PLAN, SeenAt(b, 13));
      && CP.PlanFound(db, SECOND_APPLY) && CP.ApplyObjection(db, SECOND_APPLY) == None
      && CP.ApplyJob(db, SECOND_APPLY) == SECOND_APPLY_JOB
  {
    var db := WithPlan(b, FINISHED_SECOND_PLAN, SeenAt(b, 13));
    assert CP.LatestPlan(db.jobs, 0, 0, 3);
  }

  lemma PlanIsApproved(b: CP.Db)
    requires Ready(b)
    ensures CP.Approve(WithPlan(b, FINISHED_SECOND_PLAN, SeenAt(b, 13)), SECOND_APPLY,
                       WithApply(b, NewRow(SECOND_APPLY_JOB), SeenAt(b, 13)), CP.ApplyQueued(4, 2, 0))
  {
    NothingObjects(b);
    var db := WithPlan(b, FINISHED_SECOND_PLAN, SeenAt(b, 13));
    assert CP.ExpirePending(db.jobs, 0, 0, 16) == db.jobs;
  }

  lemma ApplyIsClaimed(b: CP.Db)
    requires Ready(b)
    ensures CP.Claim(WithApply(b, NewRow(SECOND_APPLY_JOB), SeenAt(b, 13)), RUNNER, REPORT, 3, 17, 50,
                     WithApply(b, LEASED_SECOND_APPLY, SeenAt(b, 17)), Some(4))
  {
    var db := WithApply(b, NewRow(SECOND_APPLY_JOB), SeenAt(b, 13));
    var after := WithApply(b, LEASED_SECOND_APPLY, SeenAt(b, 17));
    assert after.jobs == db.jobs[4 := LEASED_SECOND_APPLY];
    assert after.devices == CP.TouchDevice(db.devices, RUNNER, 17, Some(REPORT));
    ClaimsOne(db, after, 4, 3, 17);
  }

  lemma ApplyIsAcknowledged(b: CP.Db, seen: map<DeviceId, CP.Device>)
    ensures CP.Acknowledge(WithApply(b, LEASED_SECOND_APPLY, seen), RUNNER, 4, 3, 0, 18).0
            == WithApply(b, ACKNOWLEDGED_SECOND_APPLY, seen)
  {
    var jobs := b.jobs[3 := FINISHED_SECOND_PLAN];
    assert jobs[4 := LEASED_SECOND_APPLY][4 := ACKNOWLEDGED_SECOND_APPLY] == jobs[4 := ACKNOWLEDGED_SECOND_APPLY];
  }

  // ----- the steps -----

  function LaterRun(b: CP.Db, leases: set<LeaseId>): seq<World> {
    [World(b, 11, leases),
     World(WithPlan(b, NewRow(SECOND_PLAN_JOB), b.devices), 12, leases),
     World(WithPlan(b, LEASED_SECOND_PLAN, SeenAt(b, 13)), 13, leases + {2}),
     World(WithPlan(b, ACKNOWLEDGED_SECOND_PLAN, SeenAt(b, 13)), 14, leases + {2}),
     World(WithPlan(b, FINISHED_SECOND_PLAN, SeenAt(b, 13)), 15, leases + {2}),
     World(WithApply(b, NewRow(SECOND_APPLY_JOB), SeenAt(b, 13)), 16, leases + {2}),
     World(WithApply(b, LEASED_SECOND_APPLY, SeenAt(b, 17)), 17, leases + {2} + {3}),
     World(WithApply(b, ACKNOWLEDGED_SECOND_APPLY, SeenAt(b, 17)), 18, leases + {2} + {3})]
  }

  lemma RequestsThePlan(b: CP.Db, leases: set<LeaseId>, next: World)
    requires Ready(b) && next == World(WithPlan(b, NewRow(SECOND_PLAN_JOB), b.devices), 12, leases)
    ensures Step(World(b, 11, leases), RequestPlan(SECOND_PLAN_JOB), next)
  {
    PlanIsQueued(b);
  }

  lemma ClaimStep(w: World, lease: LeaseId, next: World, id: JobId)
    requires w.clock <= next.clock && lease !in w.leases && next.leases == w.leases + {lease}
    requires CP.Claim(w.db, RUNNER, REPORT, lease, next.clock, 50, next.db, Some(id))
    ensures Step(w, ClaimJob(RUNNER, REPORT, lease, 50), next)
  {
  }

  lemma AcknowledgeStep(w: World, id: JobId, lease: LeaseId, next: World)
    requires w.clock <= next.clock && next.leases == w.leases
    requires next.db == CP.Acknowledge(w.db, RUNNER, id, lease, 0, next.clock).0
    ensures Step(w, AcknowledgeJob(RUNNER, id, lease, 0), next)
  {
  }

  lemma SubmitStep(w: World, id: JobId, lease: LeaseId, result: ResultEnvelope, next: World)
    requires w.clock <= next.clock && next.leases == w.leases
    requires next.db == CP.CompleteJob(w.db, RUNNER, id, lease, result, 0, next.clock).0
    ensures Step(w, SubmitResult(RUNNER, id, lease, result, 0), next)
  {
  }

  lemma ApproveStep(w: World, input: CP.ApplyInput, next: World, outcome: CP.ApplyOutcome)
    requires w.clock <= next.clock == input.issuedAt && next.leases == w.leases
    requires input.applyJobId !in w.db.jobs && input.approvalId !in w.db.approvals
    requires CP.Approve(w.db, input, next.db, outcome)
    ensures Step(w, ApprovePlan(input), next)
  {
  }

  lemma RequestStep(b: CP.Db, leases: set<LeaseId>)
    requires Ready(b)
    ensures Step(LaterRun(b, leases)[0], MORE_EVENTS[0], LaterRun(b, leases)[1])
  {
    RequestsThePlan(b, leases, LaterRun(b, leases)[1]);
  }

  lemma ClaimsThePlanAgain(b: CP.Db, w: World, next: World)
    requires Ready(b) && 2 !in w.leases && next.leases == w.leases + {2} && w.clock <= next.clock == 13
    requires w.db == WithPlan(b, NewRow(SECOND_PLAN_JOB), b.devices)
    requires next.db == WithPlan(b, LEASED_SECOND_PLAN, SeenAt(b, 13))
    ensures Step(w, ClaimJob(RUNNER, REPORT, 2, 50), next)
  {
    PlanIsClaimed(b);
    ClaimStep(w, 2, next, 3);
  }

  lemma PlanClaimStep(b: CP.Db, leases: set<LeaseId>)
    requires Ready(b) && 2 !in leases
    ensures Step(LaterRun(b, leases)[1], MORE_EVENTS[1], LaterRun(b, leases)[2])
  {
    ClaimsThePlanAgain(b, LaterRun(b, leases)[1], LaterRun(b, leases)[2]);
  }

  lemma PlannedSteps(b: CP.Db, leases: set<LeaseId>, k: nat)
    requires 2 <= k < 4
    ensures Step(LaterRun(b, leases)[k], MORE_EVENTS[k], LaterRun(b, leases)[k + 1])
  {
    var run := LaterRun(b, leases);
    if k == 2 {
      PlanIsAcknowledged(b, SeenAt(b, 13));
      AcknowledgeStep(run[2], 3, 2, run[3]);
    } else {
      PlanIsFinished(b, SeenAt(b, 13));
      SubmitStep(run[3], 3, 2, SECOND_PLAN_RESULT, run[4]);
    }
  }

  lemma ApprovalStep(b: CP.Db, leases: set<LeaseId>)
    requires Ready(b)
    ensures Step(LaterRun(b, leases)[4], MORE_EVENTS[4], LaterRun(b, leases)[5])
  {
    PlanIsApproved(b);
    ApproveStep(LaterRun(b, leases)[4], SECOND_APPLY, LaterRun(b, leases)[5], CP.ApplyQueued(4, 2, 0));
  }

  lemma ClaimsTheApplyAgain(b: CP.Db, w: World, next: World)
    requires Ready(b) && 3 !in w.leases && next.leases == w.leases + {3} && w.clock <= next.clock == 17
    requires w.db == WithApply(b, NewRow(SECOND_APPLY_JOB), SeenAt(b, 13))
    requires next.db == WithApply(b, LEASED_SECOND_APPLY, SeenAt(b, 17))
    ensures Step(w, ClaimJob(RUNNER, REPORT, 3, 50), next)
  {
    ApplyIsClaimed(b);
    ClaimStep(w, 3, next, 4);
  }

  lemma ApplyClaimStep(b: CP.Db, leases: set<LeaseId>)
    requires Ready(b) && 3 !in leases
    ensures Step(LaterRun(b, leases)[5], MORE_EVENTS[5], LaterRun(b, leases)[6])
  {
    ClaimsTheApplyAgain(b, LaterRun(b, leases)[5], LaterRun(b, leases)[6]);
  }

  lemma ApplyAcknowledgeStep(b: CP.Db, leases: set<LeaseId>)
    ensures Step(LaterRun(b, leases)[6], MORE_EVENTS[6], LaterRun(b, leases)[7])
  {
    ApplyIsAcknowledged(b, SeenAt(b, 17));
    AcknowledgeStep(LaterRun(b, leases)[6], 4, 3, LaterRun(b, leases)[7]);
  }

  // ----- the whole history -----

  lemma TheExampleIsReady()
    ensures Ready(After(11)) && WorldAt(11) == World(After(11), 11, {0, 1})
    ensures 3 in After(11).receipts
  {
  }

  /** The example, and the seven worlds after it. */
  function LongRun(): seq<World> { RunOf(11) + LaterRun(After(11), {0, 1})[1..] }

  lemma Continues(run: seq<World>, events: seq<Event>, later: seq<World>, more: seq<Event>)
    requires IsHistory(run, events) && |later| == |more| + 1 && later[0] == run[|events|]
    requires forall k | 0 <= k < |more| :: Step(later[k], more[k], later[k + 1])
    ensures IsHistory(run + later[1..], events + more)
    ensures (run + later[1..])[|events| + |more|] == later[|more|]
  {
    var whole, all := run + later[1..], events + more;
    forall k | 0 <= k < |all| ensures EventAt(whole, all, k) {
      if k < |events| {
        assert EventAt(run, events, k);
      } else {
        assert Step(later[k - |events|], more[k - |events|], later[k - |events| + 1]);
      }
    }
  }

  lemma LongRunIsAHistory()
    ensures IsHistory(LongRun(), EVENTS + MORE_EVENTS)
    ensures LongRun()[18].db == WithApply(After(11), ACKNOWLEDGED_SECOND_APPLY, SeenAt(After(11), 17))
  {
    IsAHistory(11);
    TheExampleIsReady();
    assert EVENTS[..11] == EVENTS;
    forall k | 0 <= k < 7
      ensures Step(LaterRun(After(11), {0, 1})[k], MORE_EVENTS[k], LaterRun(After(11), {0, 1})[k + 1])
    {
      if k == 0 {
        RequestStep(After(11), {0, 1});
      } else if k == 1 {
        PlanClaimStep(After(11), {0, 1});
      } else if k < 4 {
        PlannedSteps(After(11), {0, 1}, k);
      } else if k == 4 {
        ApprovalStep(After(11), {0, 1});
      } else if k == 5 {
        ApplyClaimStep(After(11), {0, 1});
      } else {
        ApplyAcknowledgeStep(After(11), {0, 1});
      }
    }
    Continues(RunOf(11), EVENTS, LaterRun(After(11), {0, 1}), MORE_EVENTS);
  }

  // ----- the exception -----

  const REUSED := ResultEnvelope(
    4, ApplyKey(3), 0, 0, Some(0), ApplyReceipt(0, 3, 5, 8, Applied, RollbackAvailable, 1))

  lemma TheReceiptIsTaken(b: CP.Db, seen: map<DeviceId, CP.Device>)
    requires 3 in b.receipts
    ensures var db := WithApply(b, ACKNOWLEDGED_SECOND_APPLY, seen);
      CP.CompleteJob(db, RUNNER, 4, 3, REUSED, 0, 19) == (db, CP.Thrown(CP.DuplicateOperation))
  {
    assert ResultMatchesJob(SECOND_APPLY_JOB, REUSED);
  }

  /** After eighteen events the second apply is reported under operation 3, which is the first one:
      the submission throws, and nothing is written. */
  lemma AReusedOperationThrows()
    ensures IsHistory(LongRun(), EVENTS + MORE_EVENTS)
    ensures CP.CompleteJob(LongRun()[18].db, RUNNER, 4, 3, REUSED, 0, 19)
            == (LongRun()[18].db, CP.Thrown(CP.DuplicateOperation))
  {
    LongRunIsAHistory();
    TheExampleIsReady();
    TheReceiptIsTaken(After(11), SeenAt(After(11), 17));
  }
}
