/** What can be read off single rows of the tables, field by field. The answers of the transactions
    are stated in these terms, apart from how the transactions compute them. */
module TableFacts {
  import opened Protocol
  import opened JobLifecycle
  import CP = ControlPlane

  // ----- jobs -----

  predicate OfCheckout(row: JobRow, org: OrganizationId, instance: InstanceId) {
    row.envelope.organizationId == org && row.envelope.projectInstanceId == Some(instance)
  }

  /** A plan, an apply or a rollback. */
  predicate Operates(row: JobRow) {
    match row.envelope.job
    case PlanSetup(_, _) => true
    case ApplyPlan(_, _, _) => true
    case RollbackOperation(_, _) => true
    case _ => false
  }

  /** In the runner's hands, or waiting for it with time left. */
  predicate Busy(row: JobRow, now: Time) {
    match row.state
    case Pending => row.envelope.expiresAt > now
    case Leased => true
    case Acknowledged => true
    case _ => false
  }

  /** Waited too long. */
  predicate Overdue(row: JobRow, now: Time) { row.state == Pending && row.envelope.expiresAt <= now }

  /** No setup operation of the checkout is in anyone's hands or waiting with time left. */
  ghost predicate Free(jobs: map<JobId, JobRow>, org: OrganizationId, instance: InstanceId, now: Time) {
    forall id | id in jobs :: !(OfCheckout(jobs[id], org, instance) && Operates(jobs[id]) && Busy(jobs[id], now))
  }

  /** The checkout's overdue operations, and nothing else, have become expired. */
  ghost predicate OverdueExpired(
    jobs: map<JobId, JobRow>, after: map<JobId, JobRow>, org: OrganizationId, instance: InstanceId, now: Time)
  {
    forall id | id in jobs ::
      && id in after
      && if OfCheckout(jobs[id], org, instance) && Operates(jobs[id]) && Overdue(jobs[id], now)
         then after[id] == jobs[id].(state := Expired, completedAt := Some(now))
         else after[id] == jobs[id]
  }

  /** What a client is told about an operation in progress. */
  predicate Describes(active: CP.ActiveSummary, row: JobRow) {
    && active.jobId == row.envelope.jobId && active.state == row.state && active.issuedAt == row.envelope.issuedAt
    && (active.cancelRequested <==> row.cancelRequestedAt.Some?)
    && match row.envelope.job
       case PlanSetup(_, revision) =>
         active.kind == PlanSetupKind && active.setupRevisionId == Some(revision.setupRevisionId)
       case ApplyPlan(_, revision, _) =>
         active.kind == ApplyPlanKind && active.setupRevisionId == Some(revision.setupRevisionId)
       case RollbackOperation(_, _) => active.kind == RollbackOperationKind && active.setupRevisionId == None
       case _ => false
  }

  /** The summary is that of the checkout's oldest operation in progress. */
  ghost predicate TellsOfTheOldest(
    active: CP.ActiveSummary, jobs: map<JobId, JobRow>, org: OrganizationId, instance: InstanceId, now: Time)
  {
    exists id :: id in jobs
      && OfCheckout(jobs[id], org, instance) && Operates(jobs[id]) && Busy(jobs[id], now) && Describes(active, jobs[id])
      && forall other | other in jobs && OfCheckout(jobs[other], org, instance) && Operates(jobs[other])
                        && Busy(jobs[other], now) ::
           jobs[id].envelope.issuedAt <= jobs[other].envelope.issuedAt
  }

  /** A job nobody has touched. */
  predicate Untouched(row: JobRow) {
    && row.state == Pending && row.leaseId == None && row.leaseExpiresAt == None && row.attemptCount == 0
    && row.cancelRequestedAt == None && row.result == None && row.resultDigest == None
    && row.requestDigest == None && row.acknowledgedAt == None && row.completedAt == None
  }

  /** The lease is current, or has run out. */
  predicate UnderLease(row: JobRow, now: Time) {
    (row.state == Leased || row.state == Acknowledged) && row.leaseExpiresAt.Some? && row.leaseExpiresAt.value > now
  }

  predicate LeaseRanOut(row: JobRow, now: Time) {
    (row.state == Leased || row.state == Acknowledged) && row.leaseExpiresAt.Some? && row.leaseExpiresAt.value <= now
  }

  /** The job's own time is up before the runner has acknowledged it. */
  predicate TimeIsUp(row: JobRow, now: Time) {
    row.envelope.expiresAt <= now && (row.state == Pending || row.state == Leased)
  }

  /** The runner reports the kind of the job and, for the two commands that need them, snapshots. */
  predicate TakesOn(report: Report, job: Job) {
    match job
    case EvaluateSetups(_) => EvaluateSetupsKind in report.kinds
    case LibraryAction(command) =>
      && LibraryActionKind in report.kinds
      && (command == PreviewSetupSkill || command == SnapshotSetupSkill ==> report.setupSnapshots)
    case ScanProject(_, _) => ScanProjectKind in report.kinds
    case PlanSetup(_, _) => PlanSetupKind in report.kinds
    case ApplyPlan(_, _, _) => ApplyPlanKind in report.kinds
    case RollbackOperation(_, _) => RollbackOperationKind in report.kinds
  }

  /** The row after its job was leased once more: acknowledged by no one, all else as it was. */
  predicate LeasedAnew(row: JobRow, next: JobRow, lease: LeaseId, until: Time) {
    && next.state == Leased && next.leaseId == Some(lease) && next.leaseExpiresAt == Some(until)
    && next.attemptCount == row.attemptCount + 1
    && next.requestDigest == None && next.acknowledgedAt == None
    && next.envelope == row.envelope && next.cancelRequestedAt == row.cancelRequestedAt
    && next.result == row.result && next.resultDigest == row.resultDigest && next.completedAt == row.completedAt
  }

  // ----- devices -----

  /** The device is not revoked and was in touch since `limit`. */
  predicate Present(device: CP.Device, limit: Time) {
    device.active && device.lastSeenAt.Some? && device.lastSeenAt.value >= limit
  }

  predicate Reports(device: CP.Device, kind: JobKind) {
    device.report.Some? && kind in device.report.value.kinds
  }

  /** The checkout is known, and so is its device. */
  predicate Known(db: CP.Db, org: OrganizationId, instance: InstanceId) {
    && instance in db.instances && db.instances[instance].organizationId == org
    && db.instances[instance].deviceId in db.devices
    && db.devices[db.instances[instance].deviceId].organizationId == org
  }
}
