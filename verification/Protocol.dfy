/** The entities that travel between the control plane and the runner: job envelopes,
    result envelopes and the values inside them. Identifiers are opaque numbers (the order
    on them stands for the database's collation order) and instants are integers. */
module Protocol {

  datatype Option<+T> = None | Some(value: T)

  type Time = int
  type OrganizationId = nat
  type UserId = nat
  type DeviceId = nat
  type ProjectId = nat
  type InstanceId = nat
  type RevisionId = nat
  type JobId = nat
  type LeaseId = nat
  type ApprovalId = nat
  type OperationId = nat
  type Digest = nat

  /** Idempotency keys are built as "<prefix>-<id>"; the prefixes keep the families apart. */
  datatype IdempotencyKey =
    | LibraryKey(job: JobId)
    | ScanKey(job: JobId)
    | EvaluationKey(request: nat)
    | PlanKey(job: JobId)
    | ApplyKey(planJob: JobId)
    | RollbackKey(operation: OperationId)

  datatype Revision = Revision(setupId: nat, setupRevisionId: RevisionId, revisionNumber: nat)

  datatype Approval = Approval(
    approvalId: ApprovalId,
    organizationId: OrganizationId,
    projectInstanceId: InstanceId,
    setupRevisionId: RevisionId,
    planDigest: Digest,
    approvedBy: UserId,
    approvedAt: Time,
    expiresAt: Time)

  datatype EvaluationProfile = EvaluationProfile(
    harness: string,
    profileVersion: int,
    model: string,
    reasoningEffort: string,
    sandbox: string,
    contextMode: string,
    timeoutSeconds: int)

  datatype Evaluation = Evaluation(
    suiteId: string,
    profile: EvaluationProfile,
    baseline: Revision,
    candidate: Revision,
    repetitions: int)

  datatype LibraryCommand = PreviewSetupSkill | SnapshotSetupSkill | OtherCommand(id: nat)

  datatype Job =
    | EvaluateSetups(definition: Evaluation)
    | LibraryAction(command: LibraryCommand)
    | ScanProject(projectId: ProjectId, includeUnmanaged: bool)
    | PlanSetup(projectId: ProjectId, revision: Revision)
    | ApplyPlan(projectId: ProjectId, revision: Revision, approval: Approval)
    | RollbackOperation(projectId: ProjectId, operationId: OperationId)

  datatype JobKind =
    | EvaluateSetupsKind | LibraryActionKind | ScanProjectKind
    | PlanSetupKind | ApplyPlanKind | RollbackOperationKind

  function KindOf(job: Job): JobKind {
    match job
    case EvaluateSetups(_) => EvaluateSetupsKind
    case LibraryAction(_) => LibraryActionKind
    case ScanProject(_, _) => ScanProjectKind
    case PlanSetup(_, _) => PlanSetupKind
    case ApplyPlan(_, _, _) => ApplyPlanKind
    case RollbackOperation(_, _) => RollbackOperationKind
  }

  /** The jobs that change, or prepare a change of, one project checkout. */
  predicate IsSetupOperation(job: Job) {
    job.PlanSetup? || job.ApplyPlan? || job.RollbackOperation?
  }

  datatype Envelope = Envelope(
    jobId: JobId,
    idempotencyKey: IdempotencyKey,
    organizationId: OrganizationId,
    deviceId: DeviceId,
    projectInstanceId: Option<InstanceId>,
    issuedAt: Time,
    expiresAt: Time,
    job: Job)

  datatype Change = Add | Replace | Remove | Unchanged
  datatype PlanActionKind = RemoveManaged | Copy | Link
  datatype PlanAction = PlanAction(
    actionId: nat, kind: PlanActionKind, change: Option<Change>, metadataOnly: Option<bool>,
    artifactId: string, toolId: string, path: string)
  datatype Plan = Plan(
    setupRevisionId: RevisionId,
    planDigest: Digest,
    actions: seq<PlanAction>,
    conflicts: seq<string>)

  datatype OperationOutcome = Applied | RolledBack | NoChange
  datatype CancellationOutcome = CancelledAndRestored | NeedsAttention
  datatype Recoverability = NotNeeded | RollbackAvailable | ManualIntervention
  datatype ErrorCode =
    | UnsupportedProtocolVersion | ExpiredJob | InvalidOrganization | InvalidDevice
    | UnknownProjectInstance | CapabilityUnavailable | PlanDigestMismatch | ApprovalExpired
    | Conflict | OperationFailed | JobCancelled | IdempotencyMismatch

  datatype VariantStatus =
    | VariantCompleted | VariantFailed | VariantTimedOut | VariantCancelled | VariantInterrupted
  datatype Check = Check(id: string, caption: string, passed: bool)
  datatype Variant = Variant(
    setupRevisionId: RevisionId,
    status: VariantStatus,
    durationMs: int,
    checks: seq<Check>,
    summary: string,
    error: Option<string>)
  datatype Observed = Observed(
    harnessVersion: string,
    model: Option<string>,
    contextMode: string,
    nativeSkillActivation: bool,
    inheritedInstructionsDigest: Option<Digest>,
    ambientContextVerified: bool)

  datatype Result =
    | EvaluationResult(
        suiteId: string, profile: EvaluationProfile, observed: Observed,
        baseline: Variant, candidate: Variant)
    | LibraryResponse(value: nat)
    | ScanResult(projectId: ProjectId, discoveries: nat)
    | PlanResult(projectId: ProjectId, plan: Plan)
    | ApplyReceipt(
        projectId: ProjectId, operationId: OperationId, setupRevisionId: RevisionId,
        planDigest: Digest, outcome: OperationOutcome, recoverability: Recoverability,
        actionsApplied: nat)
    | RollbackReceipt(
        projectId: ProjectId, operationId: OperationId,
        restoredSetupRevisionId: Option<RevisionId>,
        outcome: OperationOutcome, recoverability: Recoverability)
    | CancellationReceipt(
        projectId: ProjectId, cancelledOperationId: Option<OperationId>,
        cancellation: CancellationOutcome, recoverability: Recoverability, actionsApplied: nat)
    | Error(code: ErrorCode, retryable: bool, recoverability: Recoverability)

  datatype ResultEnvelope = ResultEnvelope(
    jobId: JobId,
    idempotencyKey: IdempotencyKey,
    organizationId: OrganizationId,
    deviceId: DeviceId,
    projectInstanceId: Option<InstanceId>,
    result: Result)

  /** A plan action that the runner would carry out, and that counts as a change. */
  predicate Actionable(action: PlanAction) {
    action.change != Some(Unchanged) || action.metadataOnly == Some(true)
  }

  function ActionablePlanCount(plan: Plan): nat {
    CountActionable(plan.actions)
  }

  function CountActionable(actions: seq<PlanAction>): nat {
    if actions == [] then 0
    else (if Actionable(actions[0]) then 1 else 0) + CountActionable(actions[1..])
  }

  lemma {:induction false} CountZeroExactlyWhenNothingActionable(actions: seq<PlanAction>)
    ensures CountActionable(actions) == 0 <==> forall a | a in actions :: !Actionable(a)
  {
    if actions != [] {
      CountZeroExactlyWhenNothingActionable(actions[1..]);
      assert actions == [actions[0]] + actions[1..];
    }
  }
}
