/** Which result envelopes the control plane accepts for a job. */
module ResultMatching {
  import opened Protocol

  const MAX_DURATION_MS := 300_000
  const EXPECTED_CHECKS := ["discount", "clamp", "contains"]

  function ChecksNamed(checks: seq<Check>, id: string): nat {
    if checks == [] then 0
    else (if checks[0].id == id then 1 else 0) + ChecksNamed(checks[1..], id)
  }

  predicate VariantMatches(revision: Revision, v: Variant) {
    && v.setupRevisionId == revision.setupRevisionId
    && 0 <= v.durationMs <= MAX_DURATION_MS
    && |v.summary| <= 2_000
    && (v.error.Some? ==> |v.error.value| <= 1_000)
    && |v.checks| <= 20
    && (if v.status == VariantCompleted then
          |v.checks| == 3 && forall id | id in EXPECTED_CHECKS :: ChecksNamed(v.checks, id) == 1
        else
          |v.checks| == 0)
    && forall c | c in v.checks :: |c.id| <= 100 && |c.caption| <= 200
  }

  predicate EvaluationResultMatches(definition: Evaluation, r: Result)
    requires r.EvaluationResult?
  {
    && r.suiteId == definition.suiteId
    && r.profile == definition.profile
    && |r.observed.harnessVersion| <= 200
    && (r.observed.model.Some? ==> |r.observed.model.value| <= 200)
    && r.observed.contextMode == "skillInstructions"
    && !r.observed.nativeSkillActivation
    && !r.observed.ambientContextVerified
    && VariantMatches(definition.baseline, r.baseline)
    && VariantMatches(definition.candidate, r.candidate)
  }

  predicate ResultMatchesJob(job: Envelope, envelope: ResultEnvelope) {
    var result := envelope.result;
    if envelope.idempotencyKey != job.idempotencyKey
       || envelope.projectInstanceId != job.projectInstanceId then false
    else if result.Error? then true
    else if job.job.EvaluateSetups? then
      result.EvaluationResult? && envelope.projectInstanceId == None
      && EvaluationResultMatches(job.job.definition, result)
    else if result.EvaluationResult? then false
    else if job.job.LibraryAction? then
      result.LibraryResponse? && envelope.projectInstanceId == None
    else if result.LibraryResponse? then false
    else if result.projectId != job.job.projectId then false
    else if result.CancellationReceipt? then job.job.ApplyPlan? || job.job.RollbackOperation?
    else match job.job
      case ScanProject(_, _) => result.ScanResult?
      case PlanSetup(_, revision) =>
        result.PlanResult? && result.plan.setupRevisionId == revision.setupRevisionId
      case ApplyPlan(_, revision, approval) =>
        && result.ApplyReceipt?
        && result.setupRevisionId == revision.setupRevisionId
        && result.planDigest == approval.planDigest
      case RollbackOperation(_, operationId) =>
        result.RollbackReceipt? && result.operationId == operationId
  }
}
