/** What the control plane tells a client about one project checkout: the rows it reads, the
    answer it derives from them, and the client's rule for offering a rollback. */
module ReadSide {
  import opened Protocol
  import opened JobLifecycle
  import CP = ControlPlane

  // ----- the rows read -----

  predicate IsOperation(row: JobRow, org: OrganizationId, instance: InstanceId) {
    CP.InstanceJob(row, org, instance)
    && (row.envelope.job.ApplyPlan? || row.envelope.job.RollbackOperation?)
  }

  predicate IsPlan(row: JobRow, org: OrganizationId, instance: InstanceId) {
    CP.InstanceJob(row, org, instance) && row.envelope.job.PlanSetup?
  }

  /** Descending completion time; a row without one comes first. */
  predicate CompletedAfter(a: JobRow, b: JobRow) {
    b.completedAt.Some? && (a.completedAt.None? || a.completedAt.value > b.completedAt.value)
  }

  /** The order (completed_at DESC, id DESC). */
  predicate CompletesBefore(a: JobRow, b: JobRow) {
    CompletedAfter(a, b) || (a.completedAt == b.completedAt && a.envelope.jobId >= b.envelope.jobId)
  }

  /** The order (issued_at DESC, completed_at DESC, id DESC). */
  predicate ListedBefore(a: JobRow, b: JobRow) {
    a.envelope.issuedAt > b.envelope.issuedAt
    || (a.envelope.issuedAt == b.envelope.issuedAt && CompletesBefore(a, b))
  }

  const LISTED := 10

  /** `rows` are the newest apply and rollback jobs of the checkout, newest first. */
  ghost predicate NewestOperations(
    jobs: map<JobId, JobRow>, org: OrganizationId, instance: InstanceId, rows: seq<JobRow>)
  {
    && |rows| <= LISTED
    && (forall row | row in rows ::
          IsOperation(row, org, instance) && row.envelope.jobId in jobs && jobs[row.envelope.jobId] == row)
    && (forall i, j | 0 <= i < j < |rows| ::
          rows[i].envelope.jobId != rows[j].envelope.jobId && ListedBefore(rows[i], rows[j]))
    && (forall id | id in jobs && IsOperation(jobs[id], org, instance) && jobs[id] !in rows ::
          |rows| == LISTED && forall row | row in rows :: ListedBefore(row, jobs[id]))
  }

  ghost predicate PlanAttempt(
    jobs: map<JobId, JobRow>, org: OrganizationId, instance: InstanceId, row: Option<JobRow>)
  {
    match row
    case None => forall id | id in jobs :: !IsPlan(jobs[id], org, instance)
    case Some(plan) =>
      CP.LatestPlan(jobs, org, instance, plan.envelope.jobId) && jobs[plan.envelope.jobId] == plan
  }

  predicate IsAssignedPlan(
    row: JobRow, org: OrganizationId, instance: InstanceId, assignedRevision: Option<RevisionId>)
  {
    && IsPlan(row, org, instance) && row.state == Succeeded && row.result.Some?
    && assignedRevision == Some(row.envelope.job.revision.setupRevisionId)
  }

  ghost predicate AssignedPlan(
    jobs: map<JobId, JobRow>, org: OrganizationId, instance: InstanceId, assignedRevision: Option<RevisionId>,
    row: Option<JobRow>)
  {
    match row
    case None => forall id | id in jobs :: !IsAssignedPlan(jobs[id], org, instance, assignedRevision)
    case Some(plan) =>
      && plan.envelope.jobId in jobs && jobs[plan.envelope.jobId] == plan
      && IsAssignedPlan(plan, org, instance, assignedRevision)
      && forall id | id in jobs && IsAssignedPlan(jobs[id], org, instance, assignedRevision) ::
           CompletesBefore(plan, jobs[id])
  }

  ghost predicate FirstActive(
    jobs: map<JobId, JobRow>, org: OrganizationId, instance: InstanceId, row: Option<JobRow>)
  {
    match row
    case None => CP.Idle(jobs, org, instance)
    case Some(active) =>
      CP.FirstActive(jobs, org, instance, active.envelope.jobId) && jobs[active.envelope.jobId] == active
  }

  function Assigned(db: CP.Db, instance: InstanceId): Option<RevisionId>
    requires instance in db.instances
  {
    var project := db.instances[instance].projectId;
    if project in db.assignments then Some(db.assignments[project]) else None
  }

  datatype Rows = Rows(
    assignedRevision: Option<RevisionId>,
    operations: seq<JobRow>,
    planAttempt: Option<JobRow>,
    assignedPlan: Option<JobRow>,
    active: Option<JobRow>)

  /** The five queries, over one state of the tables. */
  ghost predicate Reads(db: CP.Db, org: OrganizationId, instance: InstanceId, rows: Rows) {
    && instance in db.instances && db.instances[instance].organizationId == org
    && rows.assignedRevision == Assigned(db, instance)
    && NewestOperations(db.jobs, org, instance, rows.operations)
    && PlanAttempt(db.jobs, org, instance, rows.planAttempt)
    && AssignedPlan(db.jobs, org, instance, rows.assignedRevision, rows.assignedPlan)
    && FirstActive(db.jobs, org, instance, rows.active)
  }

  // ----- the answer derived from them -----

  datatype ReportedOutcome =
    | OfOperation(operation: OperationOutcome)
    | OfCancellation(cancellation: CancellationOutcome)

  datatype OperationSummary = OperationSummary(
    jobId: JobId, kind: JobKind, state: JobState,
    setupRevisionId: Option<RevisionId>, operationId: Option<OperationId>,
    outcome: Option<ReportedOutcome>, recoverability: Option<Recoverability>,
    issuedAt: Time, completedAt: Option<Time>)

  datatype Health = Attention | Drifted | Current | UnknownHealth
  datatype ReviewablePlan = ReviewablePlan(jobId: JobId, plan: Plan)

  datatype Status = Status(
    assignedSetupRevisionId: Option<RevisionId>,
    materializedSetupRevisionId: Option<RevisionId>,
    health: Health,
    activeOperation: Option<CP.ActiveSummary>,
    reviewedPlan: Option<ReviewablePlan>,
    operations: seq<OperationSummary>)

  function Summary(row: JobRow): OperationSummary {
    var result := if row.result.Some? then Some(row.result.value.result) else None;
    var receipted := result.Some?
      && (result.value.ApplyReceipt? || result.value.RollbackReceipt? || result.value.CancellationReceipt?);
    var revision :=
      if row.envelope.job.ApplyPlan? then Some(row.envelope.job.revision.setupRevisionId)
      else if result.Some? && result.value.RollbackReceipt? then result.value.restoredSetupRevisionId
      else if result.Some? && result.value.ApplyReceipt? then Some(result.value.setupRevisionId)
      else None;
    var receiptOperation :=
      if !receipted then None
      else if result.value.CancellationReceipt? then result.value.cancelledOperationId
      else Some(result.value.operationId);
    OperationSummary(
      row.envelope.jobId, KindOf(row.envelope.job), row.state, revision,
      if receiptOperation.Some? then receiptOperation
      else if row.envelope.job.RollbackOperation? then Some(row.envelope.job.operationId) else None,
      if !receipted then None
      else if result.value.CancellationReceipt? then Some(OfCancellation(result.value.cancellation))
      else Some(OfOperation(result.value.outcome)),
      if receipted || (result.Some? && result.value.Error?) then Some(result.value.recoverability) else None,
      row.envelope.issuedAt, row.completedAt)
  }

  function Summaries(rows: seq<JobRow>): (s: seq<OperationSummary>)
    ensures |s| == |rows| && forall i | 0 <= i < |rows| :: s[i] == Summary(rows[i])
  {
    seq(|rows|, i requires 0 <= i < |rows| => Summary(rows[i]))
  }

  function FirstSucceeded(operations: seq<OperationSummary>): Option<OperationSummary> {
    if operations == [] then None
    else if operations[0].state == Succeeded then Some(operations[0])
    else FirstSucceeded(operations[1..])
  }

  function PlanOf(row: Option<JobRow>): Option<Plan> {
    if row.Some? && row.value.result.Some? && row.value.result.value.result.PlanResult?
    then Some(row.value.result.value.result.plan) else None
  }

  /** The instant that a plan must postdate: the newest operation's end, or its issue. */
  function Barrier(operations: seq<OperationSummary>): Option<Time> {
    if operations == [] then None
    else if operations[0].completedAt.Some? then operations[0].completedAt
    else Some(operations[0].issuedAt)
  }

  predicate CompletedPast(row: Option<JobRow>, barrier: Option<Time>) {
    && row.Some? && row.value.completedAt.Some?
    && (barrier.None? || row.value.completedAt.value > barrier.value)
  }

  predicate HasChanges(plan: Plan) {
    |plan.conflicts| > 0 || exists action | action in plan.actions :: Actionable(action)
  }

  function Derive(rows: Rows): Status {
    var operations := Summaries(rows.operations);
    var latestCompleted := FirstSucceeded(operations);
    var barrier := Barrier(operations);
    var plan := PlanOf(rows.assignedPlan);
    var newer := plan.Some? && CompletedPast(rows.assignedPlan, barrier);
    var requiresAttention :=
      && operations != []
      && operations[0].recoverability == Some(ManualIntervention)
      && (operations[0].state == Failed || operations[0].state == Cancelled)
      && !newer;
    var materialized :=
      if newer && !HasChanges(plan.value) then rows.assignedRevision
      else if latestCompleted.Some? then latestCompleted.value.setupRevisionId else None;
    var hasDrift := newer && HasChanges(plan.value);
    var health :=
      if requiresAttention then Attention
      else if hasDrift || (materialized.Some? && materialized != rows.assignedRevision) then Drifted
      else if materialized.Some? || rows.assignedRevision.None? then Current
      else UnknownHealth;
    var reviewable :=
      && rows.planAttempt.Some? && rows.planAttempt.value.state == Succeeded
      && PlanOf(rows.planAttempt).Some? && CompletedPast(rows.planAttempt, barrier);
    Status(
      rows.assignedRevision, materialized, health,
      if rows.active.Some? then Some(CP.Summarize(rows.active.value)) else None,
      if reviewable
      then Some(ReviewablePlan(rows.planAttempt.value.envelope.jobId, PlanOf(rows.planAttempt).value))
      else None,
      operations)
  }

  /** The client's rule for offering a rollback. */
  function RecoverableOperationId(status: Option<Status>): Option<OperationId> {
    if status.None? || status.value.operations == [] then None
    else
      var latest := status.value.operations[0];
      if && status.value.activeOperation.None? && status.value.health != Attention
         && latest.kind == ApplyPlanKind && latest.state == Succeeded
         && latest.recoverability == Some(RollbackAvailable)
         && (latest.outcome == Some(OfOperation(Applied)) || latest.outcome == Some(OfOperation(NoChange)))
         && latest.setupRevisionId == status.value.materializedSetupRevisionId
      then latest.operationId
      else None
  }

  // ----- what is offered -----

  /** Nothing but the newest operation is ever offered for rollback: an apply that succeeded, whose
      revision is the one in place, while nothing runs. */
  lemma OnlyTheNewestIsOffered(rows: Rows)
    requires RecoverableOperationId(Some(Derive(rows))).Some?
    ensures rows.operations != [] && rows.active == None
    ensures var newest := rows.operations[0];
      && newest.envelope.job.ApplyPlan? && newest.state == Succeeded
      && Summary(newest).operationId == RecoverableOperationId(Some(Derive(rows)))
      && Summary(newest).recoverability == Some(RollbackAvailable)
      && Summary(newest).setupRevisionId == Derive(rows).materializedSetupRevisionId
      && Summary(newest).outcome in {Some(OfOperation(Applied)), Some(OfOperation(NoChange))}
  {
    assert Derive(rows).operations[0] == Summary(rows.operations[0]);
  }

  // ----- facts about the rows -----

  lemma NewestIsFirst(
    jobs: map<JobId, JobRow>, org: OrganizationId, instance: InstanceId, rows: seq<JobRow>, id: JobId)
    requires NewestOperations(jobs, org, instance, rows)
    requires id in jobs && IsOperation(jobs[id], org, instance)
    ensures rows != [] && rows[0] in rows
    ensures jobs[id] == rows[0] || ListedBefore(rows[0], jobs[id])
  {
    if jobs[id] in rows {
      var i :| 0 <= i < |rows| && rows[i] == jobs[id];
    }
  }
}
