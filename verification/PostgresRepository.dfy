/** The repositories over the database, statement by statement, proved against the transactions
    of `ControlPlane`. A query is a scan of a table; a thrown exception restores what the
    transaction had written. */
module PostgresRepository {
  import opened Protocol
  import opened ResultMatching
  import opened JobLifecycle
  import CP = ControlPlane

  /** ORDER BY ... LIMIT 1: some wanted row that no wanted row precedes. */
  method First(rows: map<JobId, JobRow>, wanted: JobRow -> bool, before: (JobRow, JobRow) -> bool)
    returns (first: Option<JobId>)
    requires forall a, b :: before(a, b) || before(b, a)
    requires forall a, b, c :: before(a, b) && before(b, c) ==> before(a, c)
    ensures match first
            case None => forall id | id in rows :: !wanted(rows[id])
            case Some(id) =>
              && id in rows && wanted(rows[id])
              && forall other | other in rows && wanted(rows[other]) :: before(rows[id], rows[other])
  {
    first := None;
    var todo := rows.Keys;
    while todo != {}
      invariant todo <= rows.Keys
      invariant first.Some? ==> first.value in rows.Keys - todo && wanted(rows[first.value])
      invariant forall id | id in rows && id !in todo && wanted(rows[id]) ::
                  first.Some? && before(rows[first.value], rows[id])
      decreases |todo|
    {
      var id :| id in todo;
      todo := todo - {id};
      if wanted(rows[id]) && (first.None? || !before(rows[first.value], rows[id])) {
        first := Some(id);
      }
    }
  }

  predicate IssuedBefore(a: JobRow, b: JobRow) { a.envelope.issuedAt <= b.envelope.issuedAt }

  class PostgresRepository {
    var jobs: map<JobId, JobRow>
    var approvals: map<ApprovalId, CP.ApprovalRow>
    var receipts: map<OperationId, CP.ReceiptRow>
    var assignments: map<ProjectId, RevisionId>
    var instances: map<InstanceId, CP.Instance>
    var devices: map<DeviceId, CP.Device>
    var revisions: map<RevisionId, OrganizationId>

    function Tables(): CP.Db
      reads this
    {
      CP.Db(jobs, approvals, receipts, assignments, instances, devices, revisions)
    }

    /** Rows are keyed by their own identifier. */
    ghost predicate Valid()
      reads this
    {
      forall id | id in jobs :: jobs[id].envelope.jobId == id
    }

    constructor ()
      ensures Valid() && Tables() == CP.Db(map[], map[], map[], map[], map[], map[], map[])
    {
      jobs, approvals, receipts := map[], map[], map[];
      assignments, instances, devices, revisions := map[], map[], map[], map[];
    }

    // ----- switching -----

    method ExpirePendingSetupOperations(org: OrganizationId, instance: InstanceId, now: Time)
      requires Valid()
      modifies this`jobs
      ensures Valid() && jobs == CP.ExpirePending(old(jobs), org, instance, now)
    {
      ghost var before := jobs;
      var todo := jobs.Keys;
      while todo != {}
        invariant jobs.Keys == before.Keys && todo <= before.Keys
        invariant forall id | id in before ::
          jobs[id] == if id in todo then before[id] else CP.ExpirePendingRow(before[id], org, instance, now)
        decreases |todo|
      {
        var id :| id in todo;
        todo := todo - {id};
        var row := jobs[id];
        if row.envelope.organizationId == org && row.envelope.projectInstanceId == Some(instance)
           && (row.envelope.job.PlanSetup? || row.envelope.job.ApplyPlan? || row.envelope.job.RollbackOperation?)
           && row.state == Pending && row.envelope.expiresAt <= now
        {
          jobs := jobs[id := row.(state := Expired, completedAt := Some(now))];
        }
      }
    }

    method ActiveSetupOperation(org: OrganizationId, instance: InstanceId)
      returns (active: Option<CP.ActiveSummary>)
      requires Valid()
      ensures active == None <==> CP.Idle(jobs, org, instance)
      ensures active.Some? ==>
        exists id :: CP.FirstActive(jobs, org, instance, id) && active == Some(CP.Summarize(jobs[id]))
    {
      var first := First(jobs, row => CP.ActiveOperation(row, org, instance), CP.Before);
      if first.None? { return None; }
      assert CP.FirstActive(jobs, org, instance, first.value);
      active := Some(CP.Summarize(jobs[first.value]));
    }

    /** A plan without a checkout is an error of the caller: no answer, nothing changed. */
    method EnqueuePlan(job: Envelope) returns (outcome: Option<CP.PlanOutcome>)
      requires Valid() && job.jobId !in jobs
      modifies this`jobs
      ensures Valid()
      ensures job.projectInstanceId == None ==> outcome == None && Tables() == old(Tables())
      ensures job.projectInstanceId.Some? ==>
        outcome.Some? && CP.EnqueuePlan(old(Tables()), job, Tables(), outcome.value)
    {
      if job.projectInstanceId == None { return None; }
      var instance := job.projectInstanceId.value;
      ExpirePendingSetupOperations(job.organizationId, instance, job.issuedAt);
      var active := ActiveSetupOperation(job.organizationId, instance);
      if active.Some? { return Some(CP.PlanBlocked(active.value)); }
      jobs := jobs[job.jobId := NewRow(job)];
      outcome := Some(CP.PlanQueued(job.jobId));
    }

    method ExistingApproval(input: CP.ApplyInput) returns (existing: Option<ApprovalId>)
      ensures match existing
              case None => forall id :: !CP.MatchingApproval(Tables(), input, id)
              case Some(id) => CP.MatchingApproval(Tables(), input, id)
    {
      var todo := approvals.Keys;
      while todo != {}
        invariant forall id :: CP.MatchingApproval(Tables(), input, id) ==> id in todo
        decreases |todo|
      {
        var id :| id in todo;
        if CP.MatchingApproval(Tables(), input, id) { return Some(id); }
        todo := todo - {id};
      }
      existing := None;
    }

    method LatestPlanAttempt(org: OrganizationId, instance: InstanceId) returns (latest: Option<JobId>)
      requires Valid()
      ensures forall id: JobId :: CP.LatestPlan(jobs, org, instance, id) <==> latest == Some(id)
    {
      latest := First(jobs, row => CP.InstanceJob(row, org, instance) && row.envelope.job.PlanSetup?,
                      (a, b) => CP.Before(b, a));
      forall id: JobId
        ensures CP.LatestPlan(jobs, org, instance, id) <==> latest == Some(id)
      {
      }
    }

    /** The checks between the two reads of the tables, in the order they are made. */
    method ObjectionToPlan(input: CP.ApplyInput) returns (objection: Option<CP.ApplyOutcome>)
      requires Valid() && CP.PlanFound(Tables(), input)
      ensures objection == CP.ApplyObjection(Tables(), input)
    {
      var latest := LatestPlanAttempt(input.organizationId, input.projectInstanceId);
      if latest != Some(input.planJobId) { return Some(CP.PlanSuperseded); }
      var row := jobs[input.planJobId];
      var instance := instances[input.projectInstanceId];
      if row.state != Succeeded || row.result == None { return Some(CP.PlanNotReady); }
      var result := row.result.value.result;
      if !result.PlanResult? || result.projectId != instance.projectId { return Some(CP.PlanMismatch); }
      if result.plan.planDigest != input.planDigest
         || result.plan.setupRevisionId != row.envelope.job.revision.setupRevisionId
      {
        return Some(CP.PlanMismatch);
      }
      if |result.plan.conflicts| > 0 { return Some(CP.PlanHasConflicts); }
      var availability := CP.RunnerAvailability(devices[instance.deviceId], ApplyPlanKind, input.runnerFreshAfter);
      if availability.RunnerOffline? { return Some(CP.ApplyOffline); }
      if availability.CapabilityMissing? { return Some(CP.ApplyIncapable); }
      objection := None;
    }

    method ApproveAndEnqueueApply(input: CP.ApplyInput) returns (outcome: CP.ApplyOutcome)
      requires Valid() && input.applyJobId !in jobs && input.approvalId !in approvals
      modifies this`jobs, this`approvals
      ensures Valid() && CP.Approve(old(Tables()), input, Tables(), outcome)
    {
      var org := input.organizationId;
      if !CP.PlanFound(Tables(), input) { return CP.PlanMissing; }
      var existing := ExistingApproval(input);
      if existing.Some? {
        var row := approvals[existing.value];
        return CP.ApplyExisting(row.consumedBy, existing.value, instances[row.approval.projectInstanceId].deviceId);
      }
      var objection := ObjectionToPlan(input);
      if objection.Some? { return objection.value; }
      var instance := instances[input.projectInstanceId];
      var revision := jobs[input.planJobId].envelope.job.revision;
      ExpirePendingSetupOperations(org, input.projectInstanceId, input.issuedAt);
      var active := ActiveSetupOperation(org, input.projectInstanceId);
      if active.Some? { return CP.ApplyBlocked(active.value); }
      var approval := Approval(
        input.approvalId, org, input.projectInstanceId, revision.setupRevisionId, input.planDigest,
        input.userId, input.issuedAt, input.expiresAt);
      var job := Envelope(
        input.applyJobId, ApplyKey(input.planJobId), org, instance.deviceId, Some(input.projectInstanceId),
        input.issuedAt, input.expiresAt, ApplyPlan(instance.projectId, revision, approval));
      jobs := jobs[job.jobId := NewRow(job)];
      approvals := approvals[approval.approvalId := CP.ApprovalRow(approval, job.jobId, input.planJobId)];
      outcome := CP.ApplyQueued(job.jobId, approval.approvalId, instance.deviceId);
    }

    method ExistingRequest(org: OrganizationId, device: DeviceId, key: IdempotencyKey) returns (existing: Option<JobId>)
      ensures match existing
              case None => forall id | id in jobs :: !CP.SameRequest(jobs[id], org, device, key)
              case Some(id) => id in jobs && CP.SameRequest(jobs[id], org, device, key)
    {
      existing := First(jobs, row => CP.SameRequest(row, org, device, key), (a, b) => true);
    }

    method EnqueueRollback(input: CP.RollbackInput) returns (outcome: CP.RollbackOutcome)
      requires Valid() && input.jobId !in jobs
      modifies this`jobs
      ensures Valid() && CP.Rollback(old(Tables()), input, Tables(), outcome)
    {
      var org := input.organizationId;
      if !CP.ReceiptFound(Tables(), input) { return CP.ReceiptMissing; }
      var receipt := receipts[input.operationId];
      var instance := instances[input.projectInstanceId];
      if receipt.outcome == RolledBack || receipt.recoverability != RollbackAvailable {
        return CP.NotRecoverable;
      }
      var availability := CP.RunnerAvailability(
        devices[instance.deviceId], RollbackOperationKind, input.runnerFreshAfter);
      if availability.RunnerOffline? { return CP.RollbackOffline; }
      if availability.CapabilityMissing? { return CP.RollbackIncapable; }
      var key := RollbackKey(input.operationId);
      var existing := ExistingRequest(org, instance.deviceId, key);
      if existing.Some? { return CP.RollbackExisting(existing.value, instance.deviceId); }
      ExpirePendingSetupOperations(org, input.projectInstanceId, input.issuedAt);
      var active := ActiveSetupOperation(org, input.projectInstanceId);
      if active.Some? { return CP.RollbackBlocked(active.value); }
      var job := Envelope(
        input.jobId, key, org, instance.deviceId, Some(input.projectInstanceId),
        input.issuedAt, input.expiresAt, RollbackOperation(instance.projectId, input.operationId));
      jobs := jobs[job.jobId := NewRow(job)];
      outcome := CP.RollbackQueued(job.jobId, instance.deviceId);
    }

    // ----- runner transport -----

    method TouchDevice(runner: Runner, now: Time, report: Option<Report>)
      modifies this`devices
      ensures devices == CP.TouchDevice(old(devices), runner, now, report)
    {
      if runner.deviceId in devices {
        var device := devices[runner.deviceId];
        if device.organizationId == runner.organizationId && device.active {
          device := device.(lastSeenAt := Some(now));
          if report.Some? { device := device.(report := report); }
          devices := devices[runner.deviceId := device];
        }
      }
    }

    method ExpireForDevice(device: DeviceId, now: Time)
      requires Valid()
      modifies this`jobs
      ensures Valid() && jobs == CP.ExpireForDevice(old(jobs), device, now)
    {
      ghost var before := jobs;
      ghost var after := CP.ExpireForDevice(before, device, now);
      var todo := jobs.Keys;
      while todo != {}
        invariant jobs.Keys == before.Keys && todo <= before.Keys
        invariant forall id | id in before :: jobs[id] == if id in todo then before[id] else after[id]
        decreases |todo|
      {
        var id :| id in todo;
        todo := todo - {id};
        var row := jobs[id];
        if row.envelope.deviceId == device && (row.state == Pending || row.state == Leased)
           && row.envelope.expiresAt <= now
        {
          jobs := jobs[id := row.(state := Expired)];
        }
      }
    }

    /** A job the device already holds under a live lease. */
    method ExistingLease(runner: Runner, report: Report, now: Time) returns (live: Option<JobId>)
      ensures live == None <==> forall id | id in jobs :: !CP.ClaimableLive(jobs[id], runner, report, now)
      ensures live.Some? ==> CP.OldestLive(jobs, runner, report, now, live.value)
    {
      live := First(jobs, row => CP.ClaimableLive(row, runner, report, now), IssuedBefore);
    }

    method GrantOldest(runner: Runner, report: Report, leaseId: LeaseId, now: Time, leaseExpiresAt: Time)
      returns (granted: Option<JobId>)
      requires Valid()
      modifies this`jobs
      ensures Valid()
      ensures granted == None <==> forall id | id in old(jobs) :: !CP.ClaimableFree(old(jobs)[id], runner, report, now)
      ensures granted == None ==> jobs == old(jobs)
      ensures granted.Some? ==>
        && CP.OldestFree(old(jobs), runner, report, now, granted.value)
        && jobs == old(jobs)[granted.value := Grant(old(jobs)[granted.value], leaseId, leaseExpiresAt)]
    {
      granted := First(jobs, row => CP.ClaimableFree(row, runner, report, now), IssuedBefore);
      if granted.Some? {
        var job := jobs[granted.value];
        jobs := jobs[granted.value := job.(
          state := Leased, leaseId := Some(leaseId), leaseExpiresAt := Some(leaseExpiresAt),
          requestDigest := None, acknowledgedAt := None, attemptCount := job.attemptCount + 1)];
      }
    }

    method ClaimJob(runner: Runner, report: Report, leaseId: LeaseId, now: Time, leaseExpiresAt: Time)
      returns (leased: Option<JobId>)
      requires Valid()
      modifies this`jobs, this`devices
      ensures Valid()
      ensures CP.Claim(old(Tables()), runner, report, leaseId, now, leaseExpiresAt, Tables(), leased)
    {
      TouchDevice(runner, now, Some(report));
      ExpireForDevice(runner.deviceId, now);
      leased := ExistingLease(runner, report, now);
      if leased.Some? { return; }
      leased := GrantOldest(runner, report, leaseId, now, leaseExpiresAt);
    }

    method AcknowledgeJob(runner: Runner, id: JobId, leaseId: LeaseId, requestDigest: Digest, now: Time)
      returns (outcome: Outcome)
      requires Valid()
      modifies this`jobs
      ensures Valid()
      ensures (Tables(), outcome) == CP.Acknowledge(old(Tables()), runner, id, leaseId, requestDigest, now)
    {
      if !CP.Addressed(Tables(), runner, id) { return Unknown; }
      var job := jobs[id];
      assert jobs[id := job] == jobs;
      if job.state == JobState.Acknowledged {
        return if job.leaseId == Some(leaseId) && job.requestDigest == Some(requestDigest)
          then Duplicate else ConflictOutcome;
      }
      if job.state != Leased || job.leaseId != Some(leaseId) { return ConflictOutcome; }
      jobs := jobs[id := job.(state := JobState.Acknowledged, requestDigest := Some(requestDigest),
                              acknowledgedAt := Some(now))];
      outcome := Accepted;
    }

    /** Answers the exception it throws, if any; the caller then rolls everything back. */
    method PersistPortableReceipt(job: Envelope, result: Result, now: Time)
      returns (failure: Option<CP.Failure>)
      modifies this`receipts, this`assignments
      ensures match CP.Persist(old(Tables()), job, result, now)
              case Persisted(after) => failure == None && Tables() == after
              case NotPersisted(f) => failure == Some(f) && Tables() == old(Tables())
    {
      if result.ApplyReceipt? {
        if !job.job.ApplyPlan? || job.projectInstanceId == None { return Some(CP.ReceiptWithoutApproval); }
        if result.operationId in receipts { return Some(CP.DuplicateOperation); }
        if !CP.RevisionKnown(Tables(), job.organizationId, result.setupRevisionId) {
          return Some(CP.UnknownRevision);
        }
        receipts := receipts[result.operationId := CP.ReceiptRow(
          job.organizationId, job.deviceId, job.projectInstanceId.value, job.jobId,
          result.setupRevisionId, result.planDigest, result.outcome, result.recoverability, now)];
        assignments := assignments[result.projectId := result.setupRevisionId];
      } else if result.RollbackReceipt? {
        if result.operationId !in receipts
           || receipts[result.operationId].organizationId != job.organizationId
           || Some(receipts[result.operationId].projectInstanceId) != job.projectInstanceId
        {
          return Some(CP.RollbackWithoutReceipt);
        }
        var saved := receipts;
        receipts := receipts[result.operationId := receipts[result.operationId].(
          outcome := RolledBack, recoverability := result.recoverability, completedAt := now)];
        if job.projectInstanceId.value in instances
           && instances[job.projectInstanceId.value].organizationId == job.organizationId
        {
          var project := instances[job.projectInstanceId.value].projectId;
          if project in assignments {
            if result.restoredSetupRevisionId.Some? {
              var restored := result.restoredSetupRevisionId.value;
              if !CP.RevisionKnown(Tables(), job.organizationId, restored) {
                receipts := saved;
                return Some(CP.UnknownRevision);
              }
              assignments := assignments[project := restored];
            } else {
              assignments := assignments - {project};
            }
          }
        }
      }
      failure := None;
    }

    method CompleteJob(
      runner: Runner, id: JobId, leaseId: LeaseId, result: ResultEnvelope, resultDigest: Digest, now: Time)
      returns (completion: CP.Completion)
      requires Valid()
      modifies this
      ensures Valid()
      ensures (Tables(), completion)
              == CP.CompleteJob(old(Tables()), runner, id, leaseId, result, resultDigest, now)
    {
      if !CP.Addressed(Tables(), runner, id) { return CP.Answered(Unknown); }
      var job := jobs[id];
      if job.resultDigest.Some? {
        return CP.Answered(if job.resultDigest == Some(resultDigest) then Duplicate else ConflictOutcome);
      }
      if job.state != JobState.Acknowledged || job.leaseId != Some(leaseId) {
        return CP.Answered(ConflictOutcome);
      }
      if !ResultMatchesJob(job.envelope, result) { return CP.Answered(ConflictOutcome); }
      var terminalState := TerminalState(result.result);
      var saved := jobs;
      jobs := jobs[id := job.(state := terminalState, result := Some(result),
                              resultDigest := Some(resultDigest), completedAt := Some(now))];
      if terminalState == Succeeded {
        var failure := PersistPortableReceipt(job.envelope, result.result, now);
        if failure.Some? {
          jobs := saved;
          return CP.Thrown(failure.value);
        }
      }
      completion := CP.Answered(Accepted);
    }

    method JobControl(runner: Runner, id: JobId, leaseId: LeaseId, now: Time, leaseExpiresAt: Time)
      returns (outcome: ControlOutcome)
      requires Valid()
      modifies this`jobs, this`devices
      ensures Valid()
      ensures (Tables(), outcome) == CP.Control(old(Tables()), runner, id, leaseId, now, leaseExpiresAt)
    {
      TouchDevice(runner, now, None);
      if CP.Addressed(Tables(), runner, id) && jobs[id].leaseId == Some(leaseId)
         && (jobs[id].state == Leased || jobs[id].state == JobState.Acknowledged)
      {
        var job := jobs[id];
        jobs := jobs[id := job.(leaseExpiresAt := Some(leaseExpiresAt))];
        return Available(job.cancelRequestedAt.Some?);
      }
      assert id in jobs ==> jobs[id := jobs[id]] == jobs;
      outcome := if CP.Addressed(Tables(), runner, id) then ControlConflict else ControlUnknown;
    }

    method CancelJob(organization: OrganizationId, id: JobId, now: Time)
      returns (cancelled: bool)
      requires Valid()
      modifies this`jobs
      ensures Valid()
      ensures (Tables(), cancelled) == CP.RequestCancellation(old(Tables()), organization, id, now)
    {
      if id !in jobs || jobs[id].envelope.organizationId != organization { return false; }
      var job := jobs[id];
      assert jobs[id := job] == jobs;
      if !Active(job) { return false; }
      if job.state == Pending {
        jobs := jobs[id := job.(cancelRequestedAt := Some(now), state := Cancelled, completedAt := Some(now))];
      } else {
        jobs := jobs[id := job.(cancelRequestedAt := Some(now))];
      }
      cancelled := true;
    }

    /** `known`: the project exists in the runner's organization. */
    method RegisterProjectInstance(runner: Runner, instance: InstanceId, project: ProjectId, known: bool)
      returns (registration: CP.Registration)
      modifies this`instances
      ensures (Tables(), registration) == CP.RegisterInstance(old(Tables()), runner, instance, project, known)
    {
      if !known { return CP.Refused; }
      if instance in instances
         && (instances[instance].organizationId != runner.organizationId
             || instances[instance].deviceId != runner.deviceId)
      {
        return CP.Refused;
      }
      if exists other | other in instances ::
           other != instance && instances[other].projectId == project
           && instances[other].deviceId == runner.deviceId
      {
        return CP.DuplicateCheckout;
      }
      instances := instances[instance := CP.Instance(runner.organizationId, project, runner.deviceId)];
      registration := CP.Registered;
    }
  }
}
