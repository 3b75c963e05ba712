/** What the runner answers to a leased job, by what the engine did and which guard failed. */
module ExecutionAnswers {
  import opened Protocol
  import opened CanonicalPlans
  import opened RunnerExecution
  import JobLifecycle
  import E = Evaluations

  // ----- how a request is met before the job is run -----

  predicate ToldToStop(lease: JobLifecycle.LeasedJob, engine: Engine) {
    lease.cancelRequested || engine.control == CancelRequested
  }

  predicate LeftInTheDark(lease: JobLifecycle.LeasedJob, engine: Engine) {
    !lease.cancelRequested && engine.control == Unreadable
  }

  predicate TouchesFiles(job: Job) {
    match job
    case ApplyPlan(_, _, _) => true
    case RollbackOperation(_, _) => true
    case _ => false
  }

  predicate IsForDevice(job: Job) {
    match job
    case EvaluateSetups(_) => true
    case LibraryAction(_) => true
    case _ => false
  }

  /** The job is run: nobody cancelled it, it is for this device, an interrupted operation was
      recovered, and its time is not up. */
  predicate Starts(
    identity: Identity, project: Option<Project>, lease: JobLifecycle.LeasedJob, now: Time, engine: Engine)
  {
    && !lease.cancelRequested && engine.control == Continue
    && lease.job.organizationId == identity.organizationId && lease.job.deviceId == identity.deviceId
    && (project.Some? && TouchesFiles(lease.job.job) ==> engine.recovery.Recovered?)
    && now < lease.job.expiresAt
  }

  /** A project job is run where its project is registered. */
  predicate StartsAtHome(
    identity: Identity, project: Option<Project>, lease: JobLifecycle.LeasedJob, now: Time, engine: Engine)
  {
    && Starts(identity, project, lease, now, engine) && !IsForDevice(lease.job.job)
    && project.Some? && project.value.organizationId == identity.organizationId
    && project.value.projectId == lease.job.job.projectId
  }

  function Plainly(code: ErrorCode): Result { Error(code, false, NotNeeded) }

  /** The envelope repeats what identifies the job, under this device. */
  lemma EnvelopeRepeatsTheJob(
    identity: Identity, project: Option<Project>, lease: JobLifecycle.LeasedJob, now: Time, engine: Engine)
    ensures var envelope := Execute(identity, project, lease, now, engine);
      && envelope.jobId == lease.job.jobId && envelope.idempotencyKey == lease.job.idempotencyKey
      && envelope.organizationId == lease.job.organizationId && envelope.deviceId == identity.deviceId
      && envelope.projectInstanceId == lease.job.projectInstanceId
  {
  }

  /** Which error each guard gives, in the order in which they are tried. */
  lemma GuardsAnswer(
    identity: Identity, project: Option<Project>, lease: JobLifecycle.LeasedJob, now: Time, engine: Engine)
    ensures var (job, result) := (lease.job, Execute(identity, project, lease, now, engine).result);
      && (LeftInTheDark(lease, engine) ==> result == Error(OperationFailed, true, NotNeeded))
      && (!LeftInTheDark(lease, engine) && !ToldToStop(lease, engine) ==>
            if job.organizationId != identity.organizationId then result == Plainly(InvalidOrganization)
            else if job.deviceId != identity.deviceId then result == Plainly(InvalidDevice)
            else if project.Some? && TouchesFiles(job.job) && engine.recovery.NotRecovered?
            then result == Error(OperationFailed, false, ManualIntervention)
            else if job.expiresAt <= now then result == Plainly(ExpiredJob)
            else if IsForDevice(job.job) then job.projectInstanceId.Some? ==> result == Plainly(Conflict)
            else if project.None? then result == Plainly(UnknownProjectInstance)
            else if project.value.organizationId != identity.organizationId then result == Plainly(InvalidOrganization)
            else project.value.projectId != job.job.projectId ==> result == Plainly(UnknownProjectInstance))
  {
  }

  // ----- cancelled before it is run -----

  /** The operation a cancellation names: the one recovered, or else the one a rollback is about. */
  predicate NamesOperation(named: Option<OperationId>, job: Job, recovered: Option<RecoveredOperation>) {
    if recovered.Some? && recovered.value.operationId.Some? then named == recovered.value.operationId
    else match job
      case RollbackOperation(_, operation) => named == Some(operation)
      case _ => named == None
  }

  /** A job cancelled before it is run: an apply or a rollback answers by whether an interrupted
      operation could be restored, an evaluation with two cancelled sides, and any other job with an
      error. */
  lemma CancellationsAnswer(
    identity: Identity, project: Option<Project>, lease: JobLifecycle.LeasedJob, now: Time, engine: Engine)
    requires ToldToStop(lease, engine)
    ensures var (job, result) := (lease.job, Execute(identity, project, lease, now, engine).result);
      if job.job.EvaluateSetups? then
        var definition := job.job.definition;
        && result.EvaluationResult? && result.suiteId == definition.suiteId && result.profile == definition.profile
        && Observes(result.observed, "unavailable", None)
        && Unrun(result.baseline, definition.baseline, VariantCancelled, engine.words.cancelledBefore, engine.words)
        && Unrun(result.candidate, definition.candidate, VariantCancelled, engine.words.cancelledBefore, engine.words)
      else if project.None? || !TouchesFiles(job.job) then result == Plainly(JobCancelled)
      else
        match engine.recovery
        case Recovered(operation) =>
          && result.CancellationReceipt? && result.projectId == project.value.projectId
          && NamesOperation(result.cancelledOperationId, job.job, operation)
          && result.cancellation == CancelledAndRestored && result.recoverability == NotNeeded
          && result.actionsApplied == (if operation.Some? then operation.value.actionsCompleted else 0)
        case NotRecovered(interruption) =>
          && result.CancellationReceipt? && result.projectId == project.value.projectId
          && NamesOperation(result.cancelledOperationId, job.job,
                            if interruption.Some? then Some(interruption.value.operation) else None)
          && result.cancellation == NeedsAttention && result.recoverability == ManualIntervention
          && result.actionsApplied
             == (if interruption.Some? then interruption.value.operation.actionsCompleted else 0)
  {
  }

  // ----- scans, plans and library actions -----

  /** A scan answers with what was discovered, or an error that may be retried. */
  lemma ScansAnswer(
    identity: Identity, project: Option<Project>, lease: JobLifecycle.LeasedJob, now: Time, engine: Engine)
    requires StartsAtHome(identity, project, lease, now, engine) && lease.job.job.ScanProject?
    ensures Execute(identity, project, lease, now, engine).result == match engine.discoveries
      case Some(found) => ScanResult(lease.job.job.projectId, found)
      case None => Error(OperationFailed, true, NotNeeded)
  {
  }

  /** A plan answers with the canonical form of what was staged, if all of it is portable. */
  lemma PlansAnswer(
    identity: Identity, project: Option<Project>, lease: JobLifecycle.LeasedJob, now: Time, engine: Engine)
    requires StartsAtHome(identity, project, lease, now, engine) && lease.job.job.PlanSetup?
    ensures var (job, result) := (lease.job.job, Execute(identity, project, lease, now, engine).result);
      && (result.PlanResult? <==>
            && engine.staged.Some?
            && forall a | a in engine.staged.value.actions :: CanonicalAction(a, engine.naming).Some?)
      && (result.PlanResult? ==>
            && result.projectId == job.projectId
            && Some(result.plan)
               == CanonicalPlan(engine.staged.value, job.revision.setupRevisionId, engine.naming))
      && (!result.PlanResult? ==> result == Plainly(Conflict))
  {
    if engine.staged.Some? { PortableExactlyWhenAllAre(engine.staged.value.actions, engine.naming); }
  }

  lemma {:induction false} PortableExactlyWhenAllAre(actions: seq<LocalAction>, naming: Naming)
    ensures CanonicalActions(actions, naming).Some? <==> forall a | a in actions :: CanonicalAction(a, naming).Some?
  {
    if actions != [] {
      PortableExactlyWhenAllAre(actions[1..], naming);
      assert actions == [actions[0]] + actions[1..];
    }
  }

  /** A library action answers with the library's value. */
  lemma LibraryActionsAnswer(
    identity: Identity, project: Option<Project>, lease: JobLifecycle.LeasedJob, now: Time, engine: Engine)
    requires Starts(identity, project, lease, now, engine) && lease.job.job.LibraryAction?
    requires lease.job.projectInstanceId == None
    ensures Execute(identity, project, lease, now, engine).result == match engine.library
      case Some(value) => LibraryResponse(value)
      case None => Plainly(OperationFailed)
  {
  }

  // ----- applies and rollbacks -----

  /** How an interruption of the engine reads. */
  predicate TellsOf(result: Result, project: ProjectId, error: EngineError) {
    match error
    case Interrupted(RestoredAfterCancel(operation)) =>
      result == CancellationReceipt(
        project, operation.operationId, CancelledAndRestored, NotNeeded, operation.actionsCompleted)
    case Interrupted(LeftForAttention(operation, true)) =>
      result == CancellationReceipt(
        project, operation.operationId, NeedsAttention, ManualIntervention, operation.actionsCompleted)
    case Interrupted(RestoredAfterFailure(_)) => result == Error(OperationFailed, true, NotNeeded)
    case Interrupted(LeftForAttention(_, false)) => result == Error(OperationFailed, false, ManualIntervention)
    case OtherFailure => result == Error(OperationFailed, false, ManualIntervention)
  }

  /** A rollback answers with the revision it restored, or with how it was interrupted. */
  lemma RollbacksAnswer(
    identity: Identity, project: Option<Project>, lease: JobLifecycle.LeasedJob, now: Time, engine: Engine)
    requires StartsAtHome(identity, project, lease, now, engine) && lease.job.job.RollbackOperation?
    ensures var (job, result) := (lease.job.job, Execute(identity, project, lease, now, engine).result);
      match engine.rollback
      case RolledBackTo(restored) =>
        result == RollbackReceipt(job.projectId, job.operationId, restored, RolledBack, NotNeeded)
      case RollbackStopped(error) => TellsOf(result, job.projectId, error)
  {
  }

  /** The approval is for this job, its checkout and revision. */
  predicate IsFor(approval: Approval, job: Envelope)
    requires job.job.ApplyPlan?
  {
    && approval.organizationId == job.organizationId && job.projectInstanceId == Some(approval.projectInstanceId)
    && approval.setupRevisionId == job.job.revision.setupRevisionId
  }

  /** The receipt of an operation that carried out the plan. */
  predicate Receipts(result: Result, job: Job, operation: OperationId, plan: Plan)
    requires job.ApplyPlan?
  {
    && result.ApplyReceipt? && result.projectId == job.projectId && result.operationId == operation
    && result.setupRevisionId == job.revision.setupRevisionId && result.planDigest == plan.planDigest
    && result.actionsApplied == |ChangingActions(plan.actions)|
    && (if result.actionsApplied == 0
        then result.outcome == NoChange && result.recoverability == NotNeeded
        else result.outcome == Applied && result.recoverability == RollbackAvailable)
  }

  /** Where the actions are that change something. */
  function ChangingActions(actions: seq<PlanAction>): set<nat> {
    set i: nat | 0 <= i < |actions| && (actions[i].change != Some(Unchanged) || actions[i].metadataOnly == Some(true))
  }

  lemma {:induction false} CountGrows(actions: seq<PlanAction>, last: PlanAction)
    ensures CountActionable(actions + [last]) == CountActionable(actions) + if Actionable(last) then 1 else 0
  {
    if actions == [] {
      assert actions + [last] == [last] && [last][1..] == [];
    } else {
      CountGrows(actions[1..], last);
      assert (actions + [last])[1..] == actions[1..] + [last];
    }
  }

  lemma {:induction false} CountCountsChanges(actions: seq<PlanAction>)
    ensures CountActionable(actions) == |ChangingActions(actions)|
  {
    if actions == [] {
      assert ChangingActions(actions) == {};
    } else {
      var n := |actions| - 1;
      var before: seq<PlanAction> := actions[..n];
      CountCountsChanges(before);
      CountGrows(before, actions[n]);
      ChangesGrow(actions);
      assert actions == before + [actions[n]];
    }
  }

  lemma ChangesGrow(actions: seq<PlanAction>)
    requires actions != []
    ensures var n := |actions| - 1;
      |ChangingActions(actions)| == |ChangingActions(actions[..n])| + if Actionable(actions[n]) then 1 else 0
  {
    var n := |actions| - 1;
    var before := ChangingActions(actions[..n]);
    assert n !in before;
    if Actionable(actions[n]) {
      assert ChangingActions(actions) == before + {n};
    } else {
      assert ChangingActions(actions) == before;
    }
  }

  /** An apply answers by how far it got: the staging, the check of the plan computed here against
      the approval, and the operation itself. */
  lemma AppliesAnswer(
    identity: Identity, project: Option<Project>, lease: JobLifecycle.LeasedJob, now: Time, engine: Engine)
    requires StartsAtHome(identity, project, lease, now, engine) && lease.job.job.ApplyPlan?
    ensures var (job, result) := (lease.job, Execute(identity, project, lease, now, engine).result);
      match engine.apply
      case StagingFailed => result == Plainly(OperationFailed)
      case FailedBeforeCheck(error) => TellsOf(result, job.job.projectId, error)
      case Checked(local, ending) =>
        match CanonicalPlan(local, job.job.revision.setupRevisionId, engine.naming)
        case None => result == Error(OperationFailed, false, ManualIntervention)
        case Some(plan) =>
          var approval := job.job.approval;
          if !IsFor(approval, job) || approval.planDigest != plan.planDigest
          then result == Plainly(PlanDigestMismatch)
          else if approval.expiresAt <= now then result == Plainly(ApprovalExpired)
          else if plan.conflicts != [] then result == Plainly(Conflict)
          else match ending
            case ApplyStopped(error) => TellsOf(result, job.job.projectId, error)
            case AppliedAs(operation) => Receipts(result, job.job, operation, plan)
  {
    if engine.apply.Checked? {
      var plan := CanonicalPlan(engine.apply.local, lease.job.job.revision.setupRevisionId, engine.naming);
      if plan.Some? { CountCountsChanges(plan.value.actions); }
    }
  }

  // ----- evaluations -----

  /** What every evaluation says of itself: skill instructions only, nothing more was verified. */
  predicate Observes(observed: Observed, version: string, inherited: Option<Digest>) {
    && observed.harnessVersion == version && observed.inheritedInstructionsDigest == inherited
    && observed.model == None && observed.contextMode == "skillInstructions"
    && !observed.nativeSkillActivation && !observed.ambientContextVerified
  }

  /** A side that did not run. */
  predicate Unrun(v: Variant, revision: Revision, status: VariantStatus, reason: string, words: E.Wording) {
    && v.setupRevisionId == revision.setupRevisionId && v.status == status && v.durationMs == 0
    && v.checks == [] && v.summary == words.noScore && v.error == Some(reason)
  }

  predicate Names(answers: seq<E.CaseAnswer>, id: string) { exists a | a in answers :: a.id == id }

  /** Three answers, one for each case. */
  predicate IsEvidence(answers: seq<E.CaseAnswer>) {
    |answers| == 3 && Names(answers, "discount") && Names(answers, "clamp") && Names(answers, "contains")
  }

  /** A case is passed by naming its faulty line, or by naming none where there is none. */
  predicate IsGraded(checks: seq<Check>, answers: seq<E.CaseAnswer>) {
    checks == [
      Check("discount", "Discount arithmetic bug", E.CaseAnswer("discount", Some(3)) in answers),
      Check("clamp", "No false positive on correct clamp", E.CaseAnswer("clamp", None) in answers),
      Check("contains", "First-element membership bug", E.CaseAnswer("contains", Some(2)) in answers)]
  }

  function Passed(checks: seq<Check>): nat
    requires |checks| == 3
  {
    (if checks[0].passed then 1 else 0) + (if checks[1].passed then 1 else 0) + if checks[2].passed then 1 else 0
  }

  lemma MatchesOfThree(answers: seq<E.CaseAnswer>, id: string)
    requires |answers| == 3
    ensures E.Matching(answers, id)
            == (if answers[0].id == id then [answers[0]] else [])
               + (if answers[1].id == id then [answers[1]] else [])
               + (if answers[2].id == id then [answers[2]] else [])
  {
    var (b, c) := (answers[1..], answers[2..]);
    assert b[1..] == c && c[1..] == [];
    assert E.Matching(c, id) == (if c[0].id == id then [c[0]] else []) + E.Matching([], id);
    assert E.Matching(b, id) == (if b[0].id == id then [b[0]] else []) + E.Matching(c, id);
  }

  lemma GradeMeans(answers: seq<E.CaseAnswer>)
    ensures E.Grade(answers).Some? <==> IsEvidence(answers)
    ensures E.Grade(answers).Some? ==> IsGraded(E.Grade(answers).value, answers)
  {
    E.GradeMeaning(answers);
    E.CaseIdsDiffer();
    if |answers| == 3 {
      MatchesOfThree(answers, "discount");
      MatchesOfThree(answers, "clamp");
      MatchesOfThree(answers, "contains");
      assert answers == [answers[0], answers[1], answers[2]];
      if E.Grade(answers).Some? { PassedByNaming(answers); }
    }
  }

  lemma PassedByNaming(answers: seq<E.CaseAnswer>)
    requires |answers| == 3 && E.Grade(answers).Some?
    ensures IsGraded(E.Grade(answers).value, answers)
  {
    E.GradeMeaning(answers);
    var checks := E.Grade(answers).value;
    forall i | 0 <= i < 3
      ensures checks[i] == Check(E.CASES[i].id, E.CASES[i].caption,
                                 E.CaseAnswer(E.CASES[i].id, E.CASES[i].bugLine) in answers)
    {
      MatchesOfThree(answers, E.CASES[i].id);
    }
    assert checks == [checks[0], checks[1], checks[2]];
  }

  lemma CountOfThree(checks: seq<Check>)
    requires |checks| == 3
    ensures E.CountPassed(checks) == Passed(checks)
  {
    var (b, c) := (checks[1..], checks[2..]);
    assert b[1..] == c && c[1..] == [];
    assert E.CountPassed(c) == (if c[0].passed then 1 else 0) + E.CountPassed([]);
  }

  /** A side that ran: stopped with a reason, without the required evidence, or graded. */
  predicate Ran(v: Variant, revision: Revision, side: E.Side, words: E.Wording) {
    && v.setupRevisionId == revision.setupRevisionId && v.durationMs == side.durationMs
    && match side.ending
       case Stopped(status, reason) =>
         v.status == status && v.checks == [] && v.summary == words.noScore && v.error == Some(reason)
       case Graded(answers) =>
         if IsEvidence(answers)
         then
           && v.status == VariantCompleted && v.error == None && IsGraded(v.checks, answers)
           && v.summary == ["0123"[Passed(v.checks)]] + words.score
         else
           && v.status == VariantFailed && v.checks == [] && v.summary == words.noScore
           && v.error == Some(words.noEvidence)
  }

  lemma SidesRun(revision: Revision, side: E.Side, words: E.Wording)
    ensures Ran(E.RunVariant(revision, side, words), revision, side, words)
  {
    if side.ending.Graded? {
      GradeMeans(side.ending.answers);
      var grade := E.Grade(side.ending.answers);
      if grade.Some? { CountOfThree(grade.value); }
    }
  }

  /** An evaluation answers for its own suite and profile: two unrun sides when it is refused or the
      setups change underneath, otherwise both sides as they ran, the second only when the first was
      neither cancelled nor interrupted. */
  lemma EvaluationsAnswer(
    identity: Identity, project: Option<Project>, lease: JobLifecycle.LeasedJob, now: Time, engine: Engine)
    requires Starts(identity, project, lease, now, engine) && lease.job.job.EvaluateSetups?
    requires lease.job.projectInstanceId == None
    ensures var (definition, words) := (lease.job.job.definition, engine.words);
      var result := Execute(identity, project, lease, now, engine).result;
      && result.EvaluationResult? && result.suiteId == definition.suiteId && result.profile == definition.profile
      && match engine.comparison
         case Refused(reason) =>
           && Observes(result.observed, "unavailable", None)
           && Unrun(result.baseline, definition.baseline, VariantFailed, reason, words)
           && Unrun(result.candidate, definition.candidate, VariantFailed, reason, words)
         case Compared(version, inherited, baseline, changedFirst, candidate, changedSecond) =>
           if changedFirst || changedSecond then
             && Observes(result.observed, "unavailable", None)
             && Unrun(result.baseline, definition.baseline, VariantInterrupted, words.changed, words)
             && Unrun(result.candidate, definition.candidate, VariantInterrupted, words.changed, words)
           else
             && Observes(result.observed, version, inherited)
             && Ran(result.baseline, definition.baseline, baseline, words)
             && if result.baseline.status == VariantCancelled || result.baseline.status == VariantInterrupted
                then Unrun(result.candidate, definition.candidate, result.baseline.status, words.notStarted, words)
                else Ran(result.candidate, definition.candidate, candidate, words)
  {
    if engine.comparison.Compared? {
      var definition := lease.job.job.definition;
      SidesRun(definition.baseline, engine.comparison.baseline, engine.words);
      SidesRun(definition.candidate, engine.comparison.candidate, engine.words);
    }
  }
}
