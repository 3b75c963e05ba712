/** The control plane's tables and what each transaction does to them: queueing plans, applies
    and rollbacks, and the runner's claim, acknowledgement, control and completion calls.
    Every transaction is a relation between the tables before and after and its answer; where
    a query may return any of several rows, the relation allows each of them. */
module ControlPlane {
  import opened Protocol
  import opened ResultMatching
  import opened JobLifecycle

  datatype Instance = Instance(
    organizationId: OrganizationId, projectId: ProjectId, deviceId: DeviceId)

  datatype Device = Device(
    organizationId: OrganizationId, active: bool, lastSeenAt: Option<Time>, report: Option<Report>)

  datatype ApprovalRow = ApprovalRow(approval: Approval, consumedBy: JobId, sourcePlan: JobId)

  datatype ReceiptRow = ReceiptRow(
    organizationId: OrganizationId,
    deviceId: DeviceId,
    projectInstanceId: InstanceId,
    jobId: JobId,
    setupRevisionId: RevisionId,
    planDigest: Digest,
    outcome: OperationOutcome,
    recoverability: Recoverability,
    completedAt: Time)

  datatype Db = Db(
    jobs: map<JobId, JobRow>,
    approvals: map<ApprovalId, ApprovalRow>,
    receipts: map<OperationId, ReceiptRow>,
    assignments: map<ProjectId, RevisionId>,
    instances: map<InstanceId, Instance>,
    devices: map<DeviceId, Device>,
    revisions: map<RevisionId, OrganizationId>)

  // ----- the setup operations of one project checkout -----

  predicate InstanceJob(row: JobRow, org: OrganizationId, instance: InstanceId) {
    row.envelope.organizationId == org && row.envelope.projectInstanceId == Some(instance)
  }

  predicate ActiveOperation(row: JobRow, org: OrganizationId, instance: InstanceId) {
    InstanceJob(row, org, instance) && IsSetupOperation(row.envelope.job) && Active(row)
  }

  function ExpirePending(
    jobs: map<JobId, JobRow>, org: OrganizationId, instance: InstanceId, now: Time)
    : map<JobId, JobRow>
  {
    map id | id in jobs :: ExpirePendingRow(jobs[id], org, instance, now)
  }

  function ExpirePendingRow(row: JobRow, org: OrganizationId, instance: InstanceId, now: Time): JobRow {
    if InstanceJob(row, org, instance) && IsSetupOperation(row.envelope.job)
       && row.state == Pending && row.envelope.expiresAt <= now
    then row.(state := Expired, completedAt := Some(now))
    else row
  }

  ghost predicate Idle(jobs: map<JobId, JobRow>, org: OrganizationId, instance: InstanceId) {
    forall id | id in jobs :: !ActiveOperation(jobs[id], org, instance)
  }

  /** `a` precedes `b` in the order (issued_at, id). */
  predicate Before(a: JobRow, b: JobRow) {
    || a.envelope.issuedAt < b.envelope.issuedAt
    || (a.envelope.issuedAt == b.envelope.issuedAt && a.envelope.jobId <= b.envelope.jobId)
  }

  ghost predicate FirstActive(
    jobs: map<JobId, JobRow>, org: OrganizationId, instance: InstanceId, id: JobId)
  {
    && id in jobs && ActiveOperation(jobs[id], org, instance)
    && forall other | other in jobs ::
         ActiveOperation(jobs[other], org, instance) ==> Before(jobs[id], jobs[other])
  }

  datatype ActiveSummary = ActiveSummary(
    jobId: JobId, kind: JobKind, state: JobState, setupRevisionId: Option<RevisionId>,
    cancelRequested: bool, issuedAt: Time)

  function Summarize(row: JobRow): ActiveSummary {
    ActiveSummary(
      row.envelope.jobId, KindOf(row.envelope.job), row.state,
      if row.envelope.job.PlanSetup? || row.envelope.job.ApplyPlan?
      then Some(row.envelope.job.revision.setupRevisionId) else None,
      row.cancelRequestedAt.Some?, row.envelope.issuedAt)
  }

  predicate DeviceFound(db: Db, org: OrganizationId, instance: InstanceId) {
    && instance in db.instances
    && db.instances[instance].organizationId == org
    && db.instances[instance].deviceId in db.devices
    && db.devices[db.instances[instance].deviceId].organizationId == org
  }

  datatype Availability = RunnerAvailable | RunnerOffline | CapabilityMissing

  function RunnerAvailability(device: Device, kind: JobKind, freshAfter: Time): Availability {
    if !device.active || device.lastSeenAt == None || device.lastSeenAt.value < freshAfter
    then RunnerOffline
    else if device.report.Some? && kind in device.report.value.kinds then RunnerAvailable
    else CapabilityMissing
  }

  // ----- queueing a plan -----

  datatype PlanOutcome = PlanQueued(jobId: JobId) | PlanBlocked(active: ActiveSummary)

  ghost predicate EnqueuePlan(db: Db, job: Envelope, after: Db, outcome: PlanOutcome)
    requires job.projectInstanceId.Some?
  {
    var instance := job.projectInstanceId.value;
    var jobs := ExpirePending(db.jobs, job.organizationId, instance, job.issuedAt);
    if Idle(jobs, job.organizationId, instance) then
      && after == db.(jobs := jobs[job.jobId := NewRow(job)])
      && outcome == PlanQueued(job.jobId)
    else
      && after == db.(jobs := jobs)
      && exists id :: FirstActive(jobs, job.organizationId, instance, id)
                      && outcome == PlanBlocked(Summarize(jobs[id]))
  }

  // ----- approving a reviewed plan -----

  datatype ApplyInput = ApplyInput(
    organizationId: OrganizationId, userId: UserId, projectInstanceId: InstanceId,
    planJobId: JobId, planDigest: Digest, approvalId: ApprovalId, applyJobId: JobId,
    issuedAt: Time, expiresAt: Time, runnerFreshAfter: Time)

  datatype ApplyOutcome =
    | ApplyQueued(jobId: JobId, approvalId: ApprovalId, deviceId: DeviceId)
    | ApplyExisting(jobId: JobId, approvalId: ApprovalId, deviceId: DeviceId)
    | PlanMissing | PlanNotReady | PlanMismatch | PlanSuperseded | PlanHasConflicts
    | ApplyOffline | ApplyIncapable
    | ApplyBlocked(active: ActiveSummary)

  predicate PlanFound(db: Db, input: ApplyInput) {
    && DeviceFound(db, input.organizationId, input.projectInstanceId)
    && input.planJobId in db.jobs
    && InstanceJob(db.jobs[input.planJobId], input.organizationId, input.projectInstanceId)
    && db.jobs[input.planJobId].envelope.job.PlanSetup?
  }

  predicate MatchingApproval(db: Db, input: ApplyInput, id: ApprovalId) {
    && id in db.approvals
    && db.approvals[id].approval.organizationId == input.organizationId
    && db.approvals[id].sourcePlan == input.planJobId
    && db.approvals[id].approval.planDigest == input.planDigest
    && DeviceFound(db, input.organizationId, db.approvals[id].approval.projectInstanceId)
  }

  ghost predicate LatestPlan(
    jobs: map<JobId, JobRow>, org: OrganizationId, instance: InstanceId, id: JobId)
  {
    && id in jobs && InstanceJob(jobs[id], org, instance) && jobs[id].envelope.job.PlanSetup?
    && forall other | other in jobs ::
         InstanceJob(jobs[other], org, instance) && jobs[other].envelope.job.PlanSetup?
         ==> Before(jobs[other], jobs[id])
  }

  /** The plan the row carries, when it is the plan the caller reviewed. */
  predicate PlanFits(row: JobRow, projectId: ProjectId, planDigest: Digest)
    requires row.result.Some? && row.envelope.job.PlanSetup?
  {
    var result := row.result.value.result;
    && result.PlanResult?
    && result.projectId == projectId
    && result.plan.planDigest == planDigest
    && result.plan.setupRevisionId == row.envelope.job.revision.setupRevisionId
  }

  /** Everything that is decided before the tables are touched; None when nothing objects. */
  ghost function ApplyObjection(db: Db, input: ApplyInput): Option<ApplyOutcome>
    requires PlanFound(db, input)
  {
    var row := db.jobs[input.planJobId];
    var instance := db.instances[input.projectInstanceId];
    if !LatestPlan(db.jobs, input.organizationId, input.projectInstanceId, input.planJobId)
    then Some(PlanSuperseded)
    else if row.state != Succeeded || row.result == None then Some(PlanNotReady)
    else if !PlanFits(row, instance.projectId, input.planDigest) then Some(PlanMismatch)
    else if |row.result.value.result.plan.conflicts| > 0 then Some(PlanHasConflicts)
    else match RunnerAvailability(db.devices[instance.deviceId], ApplyPlanKind, input.runnerFreshAfter)
      case RunnerOffline => Some(ApplyOffline)
      case CapabilityMissing => Some(ApplyIncapable)
      case RunnerAvailable => None
  }

  function ApprovalFor(input: ApplyInput, revision: Revision): Approval {
    Approval(input.approvalId, input.organizationId, input.projectInstanceId,
             revision.setupRevisionId, input.planDigest, input.userId,
             input.issuedAt, input.expiresAt)
  }

  function ApplyJob(db: Db, input: ApplyInput): Envelope
    requires PlanFound(db, input)
  {
    var instance := db.instances[input.projectInstanceId];
    var revision := db.jobs[input.planJobId].envelope.job.revision;
    Envelope(input.applyJobId, ApplyKey(input.planJobId), input.organizationId, instance.deviceId,
             Some(input.projectInstanceId), input.issuedAt, input.expiresAt,
             ApplyPlan(instance.projectId, revision, ApprovalFor(input, revision)))
  }

  ghost predicate Approve(db: Db, input: ApplyInput, after: Db, outcome: ApplyOutcome) {
    if !PlanFound(db, input) then after == db && outcome == PlanMissing
    else if exists id :: MatchingApproval(db, input, id) then
      && after == db
      && exists id :: MatchingApproval(db, input, id)
           && outcome == ApplyExisting(
                db.approvals[id].consumedBy, id,
                db.instances[db.approvals[id].approval.projectInstanceId].deviceId)
    else if ApplyObjection(db, input).Some? then
      after == db && outcome == ApplyObjection(db, input).value
    else
      var jobs := ExpirePending(db.jobs, input.organizationId, input.projectInstanceId, input.issuedAt);
      if Idle(jobs, input.organizationId, input.projectInstanceId) then
        var job := ApplyJob(db, input);
        && after == db.(
             jobs := jobs[input.applyJobId := NewRow(job)],
             approvals := db.approvals[input.approvalId :=
               ApprovalRow(job.job.approval, input.applyJobId, input.planJobId)])
        && outcome == ApplyQueued(input.applyJobId, input.approvalId, job.deviceId)
      else
        && after == db.(jobs := jobs)
        && exists id :: FirstActive(jobs, input.organizationId, input.projectInstanceId, id)
                        && outcome == ApplyBlocked(Summarize(jobs[id]))
  }

  // ----- queueing a rollback -----

  datatype RollbackInput = RollbackInput(
    organizationId: OrganizationId, projectInstanceId: InstanceId, operationId: OperationId,
    jobId: JobId, issuedAt: Time, expiresAt: Time, runnerFreshAfter: Time)

  datatype RollbackOutcome =
    | RollbackQueued(jobId: JobId, deviceId: DeviceId)
    | RollbackExisting(jobId: JobId, deviceId: DeviceId)
    | ReceiptMissing | NotRecoverable | RollbackOffline | RollbackIncapable
    | RollbackBlocked(active: ActiveSummary)

  predicate ReceiptFound(db: Db, input: RollbackInput) {
    && DeviceFound(db, input.organizationId, input.projectInstanceId)
    && input.operationId in db.receipts
    && db.receipts[input.operationId].organizationId == input.organizationId
    && db.receipts[input.operationId].projectInstanceId == input.projectInstanceId
  }

  function RollbackObjection(db: Db, input: RollbackInput): Option<RollbackOutcome>
    requires ReceiptFound(db, input)
  {
    var receipt := db.receipts[input.operationId];
    var device := db.devices[db.instances[input.projectInstanceId].deviceId];
    if receipt.outcome == RolledBack || receipt.recoverability != RollbackAvailable
    then Some(NotRecoverable)
    else match RunnerAvailability(device, RollbackOperationKind, input.runnerFreshAfter)
      case RunnerOffline => Some(RollbackOffline)
      case CapabilityMissing => Some(RollbackIncapable)
      case RunnerAvailable => None
  }

  predicate SameRequest(
    row: JobRow, org: OrganizationId, device: DeviceId, key: IdempotencyKey)
  {
    && row.envelope.organizationId == org && row.envelope.deviceId == device
    && row.envelope.idempotencyKey == key
  }

  function RollbackJob(db: Db, input: RollbackInput): Envelope
    requires ReceiptFound(db, input)
  {
    var instance := db.instances[input.projectInstanceId];
    Envelope(input.jobId, RollbackKey(input.operationId), input.organizationId, instance.deviceId,
             Some(input.projectInstanceId), input.issuedAt, input.expiresAt,
             RollbackOperation(instance.projectId, input.operationId))
  }

  ghost predicate Rollback(db: Db, input: RollbackInput, after: Db, outcome: RollbackOutcome) {
    if !ReceiptFound(db, input) then after == db && outcome == ReceiptMissing
    else if RollbackObjection(db, input).Some? then
      after == db && outcome == RollbackObjection(db, input).value
    else
      var job := RollbackJob(db, input);
      if exists id :: id in db.jobs
                      && SameRequest(db.jobs[id], input.organizationId, job.deviceId, job.idempotencyKey)
      then
        && after == db
        && exists id :: id in db.jobs
             && SameRequest(db.jobs[id], input.organizationId, job.deviceId, job.idempotencyKey)
             && outcome == RollbackExisting(id, job.deviceId)
      else
        var jobs := ExpirePending(db.jobs, input.organizationId, input.projectInstanceId, input.issuedAt);
        if Idle(jobs, input.organizationId, input.projectInstanceId) then
          && after == db.(jobs := jobs[input.jobId := NewRow(job)])
          && outcome == RollbackQueued(input.jobId, job.deviceId)
        else
          && after == db.(jobs := jobs)
          && exists id :: FirstActive(jobs, input.organizationId, input.projectInstanceId, id)
                          && outcome == RollbackBlocked(Summarize(jobs[id]))
  }

  // ----- claiming -----

  function TouchDevice(devices: map<DeviceId, Device>, runner: Runner, now: Time, report: Option<Report>)
    : map<DeviceId, Device>
  {
    if runner.deviceId in devices
       && devices[runner.deviceId].organizationId == runner.organizationId
       && devices[runner.deviceId].active
    then
      var device := devices[runner.deviceId];
      devices[runner.deviceId := device.(
        lastSeenAt := Some(now), report := if report.Some? then report else device.report)]
    else devices
  }

  function ExpireForDevice(jobs: map<JobId, JobRow>, device: DeviceId, now: Time): map<JobId, JobRow> {
    map id | id in jobs ::
      if jobs[id].envelope.deviceId == device && EnvelopeExpired(jobs[id], now)
      then Expire(jobs[id]) else jobs[id]
  }

  predicate ClaimableLive(row: JobRow, runner: Runner, report: Report, now: Time) {
    BelongsTo(row, runner) && LeaseLive(row, now) && Supports(report, row)
  }

  predicate ClaimableFree(row: JobRow, runner: Runner, report: Report, now: Time) {
    && BelongsTo(row, runner) && Supports(report, row)
    && !EnvelopeExpired(row, now)
    && (row.state == Pending || LeaseLapsed(row, now))
  }

  ghost predicate OldestLive(
    jobs: map<JobId, JobRow>, runner: Runner, report: Report, now: Time, id: JobId)
  {
    && id in jobs && ClaimableLive(jobs[id], runner, report, now)
    && forall other | other in jobs :: ClaimableLive(jobs[other], runner, report, now)
         ==> jobs[id].envelope.issuedAt <= jobs[other].envelope.issuedAt
  }

  ghost predicate OldestFree(
    jobs: map<JobId, JobRow>, runner: Runner, report: Report, now: Time, id: JobId)
  {
    && id in jobs && ClaimableFree(jobs[id], runner, report, now)
    && forall other | other in jobs :: ClaimableFree(jobs[other], runner, report, now)
         ==> jobs[id].envelope.issuedAt <= jobs[other].envelope.issuedAt
  }

  /** `chosen` is the job handed to the runner, if any. */
  ghost predicate Claim(
    db: Db, runner: Runner, report: Report, lease: LeaseId, now: Time, until: Time,
    after: Db, chosen: Option<JobId>)
  {
    var jobs := ExpireForDevice(db.jobs, runner.deviceId, now);
    && after == db.(jobs := after.jobs, devices := TouchDevice(db.devices, runner, now, Some(report)))
    && if exists id :: id in jobs && ClaimableLive(jobs[id], runner, report, now) then
         && chosen.Some? && OldestLive(jobs, runner, report, now, chosen.value)
         && after.jobs == jobs
       else if exists id :: id in jobs && ClaimableFree(jobs[id], runner, report, now) then
         && chosen.Some? && OldestFree(jobs, runner, report, now, chosen.value)
         && after.jobs == jobs[chosen.value := Grant(jobs[chosen.value], lease, until)]
       else chosen == None && after.jobs == jobs
  }

  /** What a claim does to one row. */
  ghost predicate ClaimedRow(
    row: JobRow, next: JobRow, chosen: bool, lease: LeaseId, now: Time, until: Time)
  {
    || next == row
    || (EnvelopeExpired(row, now) && next == Expire(row))
    || (chosen && Active(row) && next == Grant(row, lease, until))
  }

  lemma ClaimOnRows(
    db: Db, runner: Runner, report: Report, lease: LeaseId, now: Time, until: Time,
    after: Db, chosen: Option<JobId>)
    requires Claim(db, runner, report, lease, now, until, after, chosen)
    ensures after == db.(jobs := after.jobs, devices := after.devices)
    ensures after.jobs.Keys == db.jobs.Keys
    ensures forall id | id in db.jobs ::
      ClaimedRow(db.jobs[id], after.jobs[id], chosen == Some(id), lease, now, until)
  {
  }

  // ----- acknowledgement, control, cancellation -----

  predicate Addressed(db: Db, runner: Runner, id: JobId) {
    id in db.jobs && BelongsTo(db.jobs[id], runner)
  }

  function Acknowledge(db: Db, runner: Runner, id: JobId, lease: LeaseId, digest: Digest, now: Time)
    : (Db, Outcome)
  {
    if !Addressed(db, runner, id) then (db, Unknown)
    else
      var r := AcknowledgeRow(db.jobs[id], lease, digest, now);
      (db.(jobs := db.jobs[id := r.0]), r.1)
  }

  function Control(db: Db, runner: Runner, id: JobId, lease: LeaseId, now: Time, until: Time)
    : (Db, ControlOutcome)
  {
    var seen := db.(devices := TouchDevice(db.devices, runner, now, None));
    if !Addressed(db, runner, id) then (seen, ControlUnknown)
    else
      var r := ControlRow(db.jobs[id], lease, until);
      (seen.(jobs := db.jobs[id := r.0]), r.1)
  }

  function RequestCancellation(db: Db, org: OrganizationId, id: JobId, now: Time): (Db, bool) {
    if id !in db.jobs || db.jobs[id].envelope.organizationId != org then (db, false)
    else (db.(jobs := db.jobs[id := CancelRow(db.jobs[id], now, Some(now))]), Active(db.jobs[id]))
  }

  // ----- completion and receipts -----

  /** `DuplicateOperation` is the primary key of the receipts, `UnknownRevision` the reference of
      receipts and assignments to the organization's setup revisions. */
  datatype Failure = ReceiptWithoutApproval | DuplicateOperation | RollbackWithoutReceipt | UnknownRevision
  datatype Persisted = Persisted(db: Db) | NotPersisted(failure: Failure)
  datatype Completion = Answered(outcome: Outcome) | Thrown(failure: Failure)

  predicate RevisionKnown(db: Db, org: OrganizationId, revision: RevisionId) {
    revision in db.revisions && db.revisions[revision] == org
  }

  /** The receipt row, the assignment it moves, or the exception that rolls everything back. */
  function Persist(db: Db, job: Envelope, result: Result, now: Time): Persisted {
    if result.ApplyReceipt? then
      if !job.job.ApplyPlan? || job.projectInstanceId == None then NotPersisted(ReceiptWithoutApproval)
      else if result.operationId in db.receipts then NotPersisted(DuplicateOperation)
      else if !RevisionKnown(db, job.organizationId, result.setupRevisionId) then NotPersisted(UnknownRevision)
      else Persisted(db.(
        receipts := db.receipts[result.operationId := ReceiptRow(
          job.organizationId, job.deviceId, job.projectInstanceId.value, job.jobId,
          result.setupRevisionId, result.planDigest, result.outcome, result.recoverability, now)],
        assignments := db.assignments[result.projectId := result.setupRevisionId]))
    else if result.RollbackReceipt? then
      if result.operationId !in db.receipts
         || db.receipts[result.operationId].organizationId != job.organizationId
         || Some(db.receipts[result.operationId].projectInstanceId) != job.projectInstanceId
      then NotPersisted(RollbackWithoutReceipt)
      else if MovesAssignment(db, job) && result.restoredSetupRevisionId.Some?
              && !RevisionKnown(db, job.organizationId, result.restoredSetupRevisionId.value)
      then NotPersisted(UnknownRevision)
      else Persisted(db.(
        receipts := db.receipts[result.operationId := db.receipts[result.operationId].(
          outcome := RolledBack, recoverability := result.recoverability, completedAt := now)],
        assignments := Reassign(db, job, result.restoredSetupRevisionId)))
    else Persisted(db)
  }

  /** The checkout's project has an assignment for a rollback to move. */
  predicate MovesAssignment(db: Db, job: Envelope) {
    && job.projectInstanceId.Some? && job.projectInstanceId.value in db.instances
    && db.instances[job.projectInstanceId.value].organizationId == job.organizationId
    && db.instances[job.projectInstanceId.value].projectId in db.assignments
  }

  function Reassign(db: Db, job: Envelope, restored: Option<RevisionId>): map<ProjectId, RevisionId> {
    if MovesAssignment(db, job) then
      var project := db.instances[job.projectInstanceId.value].projectId;
      if restored.Some? then db.assignments[project := restored.value]
      else db.assignments - {project}
    else db.assignments
  }

  function CompleteJob(
    db: Db, runner: Runner, id: JobId, lease: LeaseId, result: ResultEnvelope, digest: Digest, now: Time)
    : (Db, Completion)
  {
    if !Addressed(db, runner, id) then (db, Answered(Unknown))
    else
      var row := db.jobs[id];
      var r := CompleteRow(row, lease, result, digest, Some(now), ResultMatchesJob(row.envelope, result));
      if r.1 != Accepted then (db, Answered(r.1))
      else
        var completed := db.(jobs := db.jobs[id := r.0]);
        if r.0.state != Succeeded then (completed, Answered(Accepted))
        else match Persist(completed, row.envelope, result.result, now)
          case Persisted(after) => (after, Answered(Accepted))
          case NotPersisted(failure) => (db, Thrown(failure))
  }

  // ----- registration -----

  datatype Registration = Registered | Refused | DuplicateCheckout

  /** A checkout may be bound to another project of its organization later, never to another
      device. `known` says whether the project exists. A second checkout of one project on one
      device violates the unique index, which is an exception; only `Registered` changes
      anything. */
  function RegisterInstance(
    db: Db, runner: Runner, instance: InstanceId, project: ProjectId, known: bool): (Db, Registration)
  {
    if !known then (db, Refused)
    else if instance in db.instances
            && (db.instances[instance].organizationId != runner.organizationId
                || db.instances[instance].deviceId != runner.deviceId)
    then (db, Refused)
    else if exists other | other in db.instances ::
              other != instance && db.instances[other].projectId == project
              && db.instances[other].deviceId == runner.deviceId
    then (db, DuplicateCheckout)
    else (db.(instances := db.instances[instance :=
            Instance(runner.organizationId, project, runner.deviceId)]), Registered)
  }

  // ----- revisions -----

  /** A setup revision is published; publishing the default of a project also assigns it. */
  function AddRevision(
    db: Db, org: OrganizationId, revision: RevisionId, defaultOf: Option<ProjectId>): Db
  {
    var known := db.(revisions := db.revisions[revision := org]);
    if defaultOf.Some? then known.(assignments := db.assignments[defaultOf.value := revision]) else known
  }
}
