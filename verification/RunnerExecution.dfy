/** The runner's dispatch of one leased job, around an engine whose outcomes are arbitrary, and
    exactly which of its envelopes the control plane accepts. */
module RunnerExecution {
  import opened Protocol
  import opened ResultMatching
  import opened CanonicalPlans
  import JobLifecycle
  import E = Evaluations

  datatype Identity = Identity(organizationId: OrganizationId, deviceId: DeviceId)

  /** The checkout as it is registered on this machine. */
  datatype Project = Project(organizationId: OrganizationId, projectId: ProjectId)

  /** The first reading of the job's control state. */
  datatype Control = Continue | CancelRequested | Unreadable

  /** `operationId` is absent when the journal's identifier is not a valid one. */
  datatype RecoveredOperation = RecoveredOperation(operationId: Option<OperationId>, actionsCompleted: nat)

  datatype Interruption =
    | RestoredAfterCancel(operation: RecoveredOperation)
    | RestoredAfterFailure(operation: RecoveredOperation)
    | LeftForAttention(operation: RecoveredOperation, cancelled: bool)

  datatype EngineError = Interrupted(interruption: Interruption) | OtherFailure
  datatype Recovery =
    | Recovered(operation: Option<RecoveredOperation>)
    | NotRecovered(interruption: Option<Interruption>)
  datatype ApplyEnding = AppliedAs(operationId: OperationId) | ApplyStopped(error: EngineError)
  datatype ApplyAttempt =
    | StagingFailed
    | FailedBeforeCheck(error: EngineError)
    | Checked(local: LocalPlan, ending: ApplyEnding)
  datatype RollbackAttempt = RolledBackTo(restored: Option<RevisionId>) | RollbackStopped(error: EngineError)

  /** Everything outside the dispatch: what each part of the machinery would answer. */
  datatype Engine = Engine(
    control: Control,
    recovery: Recovery,
    discoveries: Option<nat>,
    staged: Option<LocalPlan>,
    apply: ApplyAttempt,
    rollback: RollbackAttempt,
    library: Option<nat>,
    comparison: E.Comparison,
    naming: Naming,
    words: E.Wording)

  // ----- building results -----

  function ProtocolError(code: ErrorCode, retryable: bool): Result { Error(code, retryable, NotNeeded) }

  function OperationError(): Result { Error(OperationFailed, false, ManualIntervention) }

  function CancelledAs(
    projectId: ProjectId, operation: Option<RecoveredOperation>, fallback: Option<OperationId>,
    outcome: CancellationOutcome, recoverability: Recoverability): Result
  {
    CancellationReceipt(
      projectId,
      if operation.Some? && operation.value.operationId.Some? then operation.value.operationId else fallback,
      outcome, recoverability,
      if operation.Some? then operation.value.actionsCompleted else 0)
  }

  function InterruptionResult(projectId: ProjectId, interruption: Interruption): Result {
    match interruption
    case RestoredAfterCancel(operation) =>
      CancelledAs(projectId, Some(operation), None, CancelledAndRestored, NotNeeded)
    case LeftForAttention(operation, true) =>
      CancelledAs(projectId, Some(operation), None, NeedsAttention, ManualIntervention)
    case RestoredAfterFailure(_) => Error(OperationFailed, true, NotNeeded)
    case LeftForAttention(_, false) => OperationError()
  }

  function EngineErrorResult(projectId: ProjectId, error: EngineError): Result {
    match error
    case Interrupted(interruption) => InterruptionResult(projectId, interruption)
    case OtherFailure => OperationError()
  }

  function FallbackOperation(job: Job): Option<OperationId> {
    if job.RollbackOperation? then Some(job.operationId) else None
  }

  predicate Mutates(job: Job) { job.ApplyPlan? || job.RollbackOperation? }

  function CancellationBeforeExecution(project: Option<Project>, job: Job, engine: Engine): Result {
    if job.EvaluateSetups? then
      E.Incomplete(job.definition, VariantCancelled, engine.words.cancelledBefore, engine.words)
    else if project.None? || !Mutates(job) then ProtocolError(JobCancelled, false)
    else match engine.recovery
      case Recovered(operation) =>
        CancelledAs(project.value.projectId, operation, FallbackOperation(job), CancelledAndRestored, NotNeeded)
      case NotRecovered(interruption) =>
        CancelledAs(project.value.projectId,
                    if interruption.Some? then Some(interruption.value.operation) else None,
                    FallbackOperation(job), NeedsAttention, ManualIntervention)
  }

  // ----- apply -----

  datatype PlanCheck = Fits(plan: Plan) | Objection(code: ErrorCode) | NotPortable

  /** The check the engine runs between planning and touching the file system. */
  function CheckPlan(job: Envelope, now: Time, local: LocalPlan, naming: Naming): PlanCheck
    requires job.job.ApplyPlan?
  {
    var approval := job.job.approval;
    match CanonicalPlan(local, job.job.revision.setupRevisionId, naming)
    case None => NotPortable
    case Some(plan) =>
      if approval.organizationId != job.organizationId
         || Some(approval.projectInstanceId) != job.projectInstanceId
         || approval.setupRevisionId != job.job.revision.setupRevisionId
         || approval.planDigest != plan.planDigest
      then Objection(PlanDigestMismatch)
      else if approval.expiresAt <= now then Objection(ApprovalExpired)
      else if |plan.conflicts| > 0 then Objection(Conflict)
      else Fits(plan)
  }

  function Apply(job: Envelope, project: Project, now: Time, engine: Engine): Result
    requires job.job.ApplyPlan?
  {
    match engine.apply
    case StagingFailed => ProtocolError(OperationFailed, false)
    case FailedBeforeCheck(error) => EngineErrorResult(project.projectId, error)
    case Checked(local, ending) =>
      match CheckPlan(job, now, local, engine.naming)
      case NotPortable => OperationError()
      case Objection(code) => ProtocolError(code, false)
      case Fits(plan) =>
        match ending
        case ApplyStopped(error) => EngineErrorResult(project.projectId, error)
        case AppliedAs(operationId) =>
          var count := ActionablePlanCount(plan);
          ApplyReceipt(
            project.projectId, operationId, job.job.revision.setupRevisionId, plan.planDigest,
            if count == 0 then NoChange else Applied,
            if count == 0 then NotNeeded else RollbackAvailable,
            count)
  }

  // ----- dispatch -----

  function ProjectJob(job: Envelope, project: Project, now: Time, engine: Engine): Result
    requires !job.job.EvaluateSetups? && !job.job.LibraryAction?
  {
    if job.job.projectId != project.projectId then ProtocolError(UnknownProjectInstance, false)
    else match job.job
      case ScanProject(projectId, _) =>
        if engine.discoveries.Some? then ScanResult(projectId, engine.discoveries.value)
        else ProtocolError(OperationFailed, true)
      case PlanSetup(_, revision) =>
        var plan := if engine.staged.Some?
                    then CanonicalPlan(engine.staged.value, revision.setupRevisionId, engine.naming) else None;
        if plan.Some? then PlanResult(project.projectId, plan.value) else ProtocolError(Conflict, false)
      case ApplyPlan(_, _, _) => Apply(job, project, now, engine)
      case RollbackOperation(_, operationId) =>
        match engine.rollback
        case RolledBackTo(restored) =>
          RollbackReceipt(project.projectId, operationId, restored, RolledBack, NotNeeded)
        case RollbackStopped(error) => EngineErrorResult(project.projectId, error)
  }

  function FirstControl(lease: JobLifecycle.LeasedJob, engine: Engine): Control {
    if lease.cancelRequested then CancelRequested else engine.control
  }

  function ResultOf(
    identity: Identity, project: Option<Project>, lease: JobLifecycle.LeasedJob, now: Time, engine: Engine): Result
  {
    var job := lease.job;
    var control := FirstControl(lease, engine);
    if control == Unreadable then ProtocolError(OperationFailed, true)
    else if control == CancelRequested then CancellationBeforeExecution(project, job.job, engine)
    else if job.organizationId != identity.organizationId then ProtocolError(InvalidOrganization, false)
    else if job.deviceId != identity.deviceId then ProtocolError(InvalidDevice, false)
    else if project.Some? && Mutates(job.job) && engine.recovery.NotRecovered? then OperationError()
    else if job.expiresAt <= now then ProtocolError(ExpiredJob, false)
    else if job.job.EvaluateSetups? then
      if job.projectInstanceId.Some? then ProtocolError(Conflict, false)
      else E.Execute(job.job.definition, engine.comparison, engine.words)
    else if job.job.LibraryAction? then
      if job.projectInstanceId.Some? then ProtocolError(Conflict, false)
      else if engine.library.Some? then LibraryResponse(engine.library.value)
      else ProtocolError(OperationFailed, false)
    else if project.None? then ProtocolError(UnknownProjectInstance, false)
    else if project.value.organizationId != identity.organizationId then ProtocolError(InvalidOrganization, false)
    else ProjectJob(job, project.value, now, engine)
  }

  function Execute(
    identity: Identity, project: Option<Project>, lease: JobLifecycle.LeasedJob, now: Time, engine: Engine)
    : ResultEnvelope
  {
    var job := lease.job;
    ResultEnvelope(job.jobId, job.idempotencyKey, job.organizationId, identity.deviceId,
                   job.projectInstanceId, ResultOf(identity, project, lease, now, engine))
  }

  // ----- which envelopes the control plane accepts -----

  /** A cancelled apply or rollback answers for the project registered here, not the job's. */
  predicate CancelsForAnotherProject(project: Option<Project>, lease: JobLifecycle.LeasedJob, engine: Engine) {
    && FirstControl(lease, engine) == CancelRequested
    && Mutates(lease.job.job)
    && project.Some? && project.value.projectId != lease.job.job.projectId
  }

  /** A cancelled evaluation answers with a result even when its job names a checkout. */
  predicate CancelsAPlacedEvaluation(lease: JobLifecycle.LeasedJob, engine: Engine) {
    && FirstControl(lease, engine) == CancelRequested
    && lease.job.job.EvaluateSetups? && lease.job.projectInstanceId.Some?
  }

  /** The comparison is reached, and a reported side ran for more than 300 seconds. */
  predicate ReportsTooLongARun(identity: Identity, lease: JobLifecycle.LeasedJob, now: Time, engine: Engine) {
    var job := lease.job;
    && FirstControl(lease, engine) == Continue
    && job.job.EvaluateSetups? && job.projectInstanceId == None
    && job.organizationId == identity.organizationId && job.deviceId == identity.deviceId
    && now < job.expiresAt
    && E.RanTooLong(job.job.definition, engine.comparison, engine.words)
  }

  lemma InterruptionIsAcceptable(projectId: ProjectId, error: EngineError)
    ensures var r := EngineErrorResult(projectId, error);
      r.Error? || (r.CancellationReceipt? && r.projectId == projectId)
  {
  }

  lemma ApplyIsAcceptable(job: Envelope, project: Project, now: Time, engine: Engine)
    requires job.job.ApplyPlan? && job.job.projectId == project.projectId
    ensures var r := Apply(job, project, now, engine);
      || r.Error?
      || (r.CancellationReceipt? && r.projectId == project.projectId)
      || (r.ApplyReceipt? && r.projectId == project.projectId
          && r.setupRevisionId == job.job.revision.setupRevisionId
          && r.planDigest == job.job.approval.planDigest)
  {
    match engine.apply {
      case FailedBeforeCheck(error) => InterruptionIsAcceptable(project.projectId, error);
      case Checked(_, ApplyStopped(error)) => InterruptionIsAcceptable(project.projectId, error);
      case _ =>
    }
  }

  lemma ProjectJobIsAcceptable(job: Envelope, envelope: ResultEnvelope, project: Project, now: Time, engine: Engine)
    requires !job.job.EvaluateSetups? && !job.job.LibraryAction?
    requires envelope.idempotencyKey == job.idempotencyKey
    requires envelope.projectInstanceId == job.projectInstanceId
    requires envelope.result == ProjectJob(job, project, now, engine)
    ensures ResultMatchesJob(job, envelope)
  {
    if job.job.projectId == project.projectId {
      match job.job {
        case ApplyPlan(_, _, _) => ApplyIsAcceptable(job, project, now, engine);
        case RollbackOperation(_, _) =>
          if engine.rollback.RollbackStopped? { InterruptionIsAcceptable(project.projectId, engine.rollback.error); }
        case _ =>
      }
    }
  }

  lemma CancellationIsAcceptable(
    identity: Identity, project: Option<Project>, lease: JobLifecycle.LeasedJob, now: Time, engine: Engine)
    requires FirstControl(lease, engine) == CancelRequested
    ensures ResultMatchesJob(lease.job, Execute(identity, project, lease, now, engine)) <==>
            !CancelsForAnotherProject(project, lease, engine) && !CancelsAPlacedEvaluation(lease, engine)
  {
    if lease.job.job.EvaluateSetups? {
      E.IncompleteMatches(lease.job.job.definition, VariantCancelled, engine.words.cancelledBefore, engine.words);
    }
  }

  /** Every envelope the runner builds is accepted, in every branch, but for three cases that a
      caller can tell beforehand or bound. */
  lemma EnvelopesAreAcceptedExactly(
    identity: Identity, project: Option<Project>, lease: JobLifecycle.LeasedJob, now: Time, engine: Engine)
    ensures ResultMatchesJob(lease.job, Execute(identity, project, lease, now, engine)) <==>
            && !CancelsForAnotherProject(project, lease, engine)
            && !CancelsAPlacedEvaluation(lease, engine)
            && !ReportsTooLongARun(identity, lease, now, engine)
  {
    var job := lease.job;
    var envelope := Execute(identity, project, lease, now, engine);
    if FirstControl(lease, engine) == CancelRequested {
      CancellationIsAcceptable(identity, project, lease, now, engine);
    } else if envelope.result.Error? {
      if job.job.EvaluateSetups? { E.ResultMatchesUnlessTooLong(job.job.definition, engine.comparison, engine.words); }
    } else if job.job.EvaluateSetups? {
      E.ResultMatchesUnlessTooLong(job.job.definition, engine.comparison, engine.words);
    } else if !job.job.LibraryAction? {
      ProjectJobIsAcceptable(job, envelope, project.value, now, engine);
    }
  }

  /** In particular: when the registered project is the job's, device jobs name no checkout, and
      every side of a comparison stays within 300 seconds. */
  lemma WellPlacedJobsAreAccepted(
    identity: Identity, project: Option<Project>, lease: JobLifecycle.LeasedJob, now: Time, engine: Engine)
    requires project.Some? && !lease.job.job.EvaluateSetups? && !lease.job.job.LibraryAction?
             ==> project.value.projectId == lease.job.job.projectId
    requires lease.job.job.EvaluateSetups? || lease.job.job.LibraryAction? ==> lease.job.projectInstanceId == None
    requires engine.comparison.Compared? ==>
               engine.comparison.baseline.durationMs <= MAX_DURATION_MS
               && engine.comparison.candidate.durationMs <= MAX_DURATION_MS
    ensures ResultMatchesJob(lease.job, Execute(identity, project, lease, now, engine))
  {
    EnvelopesAreAcceptedExactly(identity, project, lease, now, engine);
  }

  /** One refused envelope: the rollback of operation 7 for project 1 is cancelled while project 2
      is registered here. */
  lemma ACancellationElsewhereIsRefused(identity: Identity, now: Time, engine: Engine)
    ensures var job := Envelope(1, RollbackKey(7), 0, 0, Some(0), 0, 100, RollbackOperation(1, 7));
      var lease := JobLifecycle.LeasedJob(0, 50, true, job);
      !ResultMatchesJob(job, Execute(identity, Some(Project(0, 2)), lease, now, engine))
  {
  }

  // ----- what a receipt is good for -----

  /** Where an apply receipt comes from. */
  lemma ReceiptsComeFromTheCheck(
    identity: Identity, project: Option<Project>, lease: JobLifecycle.LeasedJob, now: Time, engine: Engine)
    requires ResultOf(identity, project, lease, now, engine).ApplyReceipt?
    ensures var job := lease.job;
      && job.job.ApplyPlan? && engine.apply.Checked?
      && project.Some? && project.value.projectId == job.job.projectId
      && job.organizationId == identity.organizationId && job.deviceId == identity.deviceId && now < job.expiresAt
      && CheckPlan(job, now, engine.apply.local, engine.naming).Fits?
      && ResultOf(identity, project, lease, now, engine) == Apply(job, project.value, now, engine)
  {
  }

  /** An apply receipt exists only for the approved plan: approval, job and checkout belong
      together, the approval had not run out, the plan computed on this machine has the approved
      digest and no conflicts, and a rollback is promised exactly when something was changed. */
  lemma ReceiptsAreForTheApprovedPlan(
    identity: Identity, project: Option<Project>, lease: JobLifecycle.LeasedJob, now: Time, engine: Engine)
    requires Execute(identity, project, lease, now, engine).result.ApplyReceipt?
    ensures var (job, receipt) := (lease.job, Execute(identity, project, lease, now, engine).result);
      && job.job.ApplyPlan? && engine.apply.Checked?
      && project.Some? && project.value.projectId == job.job.projectId
      && job.organizationId == identity.organizationId == job.job.approval.organizationId
      && job.deviceId == identity.deviceId
      && job.projectInstanceId == Some(job.job.approval.projectInstanceId)
      && now < job.expiresAt && now < job.job.approval.expiresAt
      && receipt.setupRevisionId == job.job.approval.setupRevisionId == job.job.revision.setupRevisionId
      && receipt.planDigest == job.job.approval.planDigest
      && var local := engine.apply.local;
      && CanonicalPlan(local, receipt.setupRevisionId, engine.naming).Some?
      && CanonicalPlan(local, receipt.setupRevisionId, engine.naming).value.planDigest == receipt.planDigest
      && local.conflicts == []
      && (receipt.outcome == NoChange <==> forall a | a in local.actions :: a.kind == KeepAction)
      && (receipt.outcome == Applied <==> receipt.recoverability == RollbackAvailable)
      && (receipt.outcome == Applied || receipt.outcome == NoChange)
  {
    var job := lease.job;
    ReceiptsComeFromTheCheck(identity, project, lease, now, engine);
    CanonicalPlanMeaning(engine.apply.local, job.job.revision.setupRevisionId, engine.naming);
  }

  /** A job whose cancellation is read first ends cancelled, except an evaluation, whose
      cancelled comparison counts as a success. */
  lemma CancelledFirstEndsCancelled(
    identity: Identity, project: Option<Project>, lease: JobLifecycle.LeasedJob, now: Time, engine: Engine)
    requires FirstControl(lease, engine) == CancelRequested
    ensures JobLifecycle.TerminalState(Execute(identity, project, lease, now, engine).result)
            == if lease.job.job.EvaluateSetups? then JobLifecycle.Succeeded else JobLifecycle.Cancelled
  {
  }
}
