/** The life of one runner job, as both repositories drive it, and what holds of any table of
    jobs whose rows only move along that life: terminal states absorb, a result is written
    once, and a lease that was replaced never comes back. */
module JobLifecycle {
  import opened Protocol

  datatype JobState = Pending | Leased | Acknowledged | Succeeded | Failed | Cancelled | Expired

  datatype JobRow = JobRow(
    envelope: Envelope,
    state: JobState,
    leaseId: Option<LeaseId>,
    leaseExpiresAt: Option<Time>,
    attemptCount: nat,
    cancelRequestedAt: Option<Time>,
    result: Option<ResultEnvelope>,
    resultDigest: Option<Digest>,
    requestDigest: Option<Digest>,
    acknowledgedAt: Option<Time>,
    completedAt: Option<Time>)

  datatype LeasedJob = LeasedJob(
    leaseId: LeaseId, leaseExpiresAt: Time, cancelRequested: bool, job: Envelope)

  datatype Outcome = Accepted | Duplicate | ConflictOutcome | Unknown
  datatype ControlOutcome = Available(cancelRequested: bool) | ControlConflict | ControlUnknown

  datatype Runner = Runner(organizationId: OrganizationId, deviceId: DeviceId)

  /** What a runner reports it can do; it decides which jobs the runner is offered. */
  datatype Report = Report(kinds: set<JobKind>, setupSnapshots: bool)

  function NewRow(envelope: Envelope): JobRow {
    JobRow(envelope, Pending, None, None, 0, None, None, None, None, None, None)
  }

  predicate Held(row: JobRow) { row.state == Leased || row.state == Acknowledged }
  predicate Active(row: JobRow) { row.state == Pending || Held(row) }
  predicate Terminal(row: JobRow) { !Active(row) }

  predicate IsSetupSnapshotCommand(command: LibraryCommand) {
    command == PreviewSetupSkill || command == SnapshotSetupSkill
  }

  predicate Supports(report: Report, row: JobRow) {
    && KindOf(row.envelope.job) in report.kinds
    && (row.envelope.job.LibraryAction? && IsSetupSnapshotCommand(row.envelope.job.command) ==>
          report.setupSnapshots)
  }

  predicate BelongsTo(row: JobRow, runner: Runner) {
    row.envelope.organizationId == runner.organizationId
    && row.envelope.deviceId == runner.deviceId
  }

  predicate LeaseLive(row: JobRow, now: Time) {
    Held(row) && row.leaseExpiresAt.Some? && row.leaseExpiresAt.value > now
  }

  predicate LeaseLapsed(row: JobRow, now: Time) {
    Held(row) && row.leaseExpiresAt.Some? && row.leaseExpiresAt.value <= now
  }

  /** The envelope ran out before the runner took responsibility for the job. */
  predicate EnvelopeExpired(row: JobRow, now: Time) {
    (row.state == Pending || row.state == Leased) && row.envelope.expiresAt <= now
  }

  function Expire(row: JobRow): JobRow { row.(state := Expired) }

  function Grant(row: JobRow, leaseId: LeaseId, leaseExpiresAt: Time): JobRow {
    row.(state := Leased,
         leaseId := Some(leaseId),
         leaseExpiresAt := Some(leaseExpiresAt),
         attemptCount := row.attemptCount + 1,
         requestDigest := None,
         acknowledgedAt := None)
  }

  function ToLeased(row: JobRow): LeasedJob
    requires row.leaseId.Some? && row.leaseExpiresAt.Some?
  {
    LeasedJob(row.leaseId.value, row.leaseExpiresAt.value,
              row.cancelRequestedAt.Some?, row.envelope)
  }

  function TerminalState(result: Result): JobState {
    if result.CancellationReceipt? || (result.Error? && result.code == JobCancelled) then Cancelled
    else if result.Error? then Failed
    else Succeeded
  }

  function Finish(row: JobRow, result: ResultEnvelope, digest: Digest, completedAt: Option<Time>): JobRow {
    row.(state := TerminalState(result.result),
         result := Some(result),
         resultDigest := Some(digest),
         completedAt := completedAt)
  }

  // ----- single-row calls, the same in both repositories -----

  function AcknowledgeRow(row: JobRow, leaseId: LeaseId, digest: Digest, now: Time): (JobRow, Outcome) {
    if row.state == Acknowledged then
      (row, if row.leaseId == Some(leaseId) && row.requestDigest == Some(digest)
            then Duplicate else ConflictOutcome)
    else if row.state != Leased || row.leaseId != Some(leaseId) then (row, ConflictOutcome)
    else (row.(state := Acknowledged, requestDigest := Some(digest), acknowledgedAt := Some(now)),
          Accepted)
  }

  function ControlRow(row: JobRow, leaseId: LeaseId, leaseExpiresAt: Time): (JobRow, ControlOutcome) {
    if row.leaseId != Some(leaseId) || !Held(row) then (row, ControlConflict)
    else (row.(leaseExpiresAt := Some(leaseExpiresAt)), Available(row.cancelRequestedAt.Some?))
  }

  /** `matches` is the repository's own check of the result against the job. */
  function CompleteRow(
    row: JobRow, leaseId: LeaseId, result: ResultEnvelope, digest: Digest,
    completedAt: Option<Time>, matches: bool): (JobRow, Outcome)
  {
    if row.resultDigest.Some? then
      (row, if row.resultDigest == Some(digest) then Duplicate else ConflictOutcome)
    else if row.state != Acknowledged || row.leaseId != Some(leaseId) then (row, ConflictOutcome)
    else if !matches then (row, ConflictOutcome)
    else (Finish(row, result, digest, completedAt), Accepted)
  }

  function CancelRow(row: JobRow, now: Time, completedAt: Option<Time>): JobRow {
    if row.state == Pending then
      row.(cancelRequestedAt := Some(now), state := Cancelled, completedAt := completedAt)
    else if Held(row) then row.(cancelRequestedAt := Some(now))
    else row
  }

  // ----- what one step may do to one row -----

  /** `row` becomes `next` in one step; `leases` holds every lease id handed out before it. */
  ghost predicate RowStep(row: JobRow, next: JobRow, leases: set<LeaseId>) {
    || next == row
    || ExpireStep(row, next)
    || GrantStep(row, next, leases)
    || AcknowledgeStep(row, next)
    || ControlStep(row, next)
    || CompleteStep(row, next)
    || CancelStep(row, next)
  }

  ghost predicate ExpireStep(row: JobRow, next: JobRow) {
    && (row.state == Pending || row.state == Leased)
    && next == Expire(row).(completedAt := next.completedAt)
  }

  ghost predicate GrantStep(row: JobRow, next: JobRow, leases: set<LeaseId>) {
    && Active(row)
    && next.leaseId.Some? && next.leaseId.value !in leases && next.leaseExpiresAt.Some?
    && next == Grant(row, next.leaseId.value, next.leaseExpiresAt.value)
  }

  ghost predicate AcknowledgeStep(row: JobRow, next: JobRow) {
    exists l, d, now :: next == AcknowledgeRow(row, l, d, now).0
  }

  ghost predicate ControlStep(row: JobRow, next: JobRow) {
    exists l, t :: next == ControlRow(row, l, t).0
  }

  ghost predicate CompleteStep(row: JobRow, next: JobRow) {
    exists l, r, d, t, m :: next == CompleteRow(row, l, r, d, t, m).0
  }

  ghost predicate CancelStep(row: JobRow, next: JobRow) {
    exists now, t :: next == CancelRow(row, now, t)
  }

  /** The shape every row keeps. */
  ghost predicate RowOk(row: JobRow) {
    && (Held(row) ==> row.leaseId.Some? && row.leaseExpiresAt.Some?)
    && (row.attemptCount == 0 <==> row.leaseId == None)
    && (row.state == Pending ==> row.attemptCount == 0)
    && (row.state == Acknowledged ==> row.requestDigest.Some?)
    && (row.result.Some? <==> row.resultDigest.Some?)
    && (row.result.Some? ==> row.state == TerminalState(row.result.value.result))
    && (row.state == Succeeded || row.state == Failed ==> row.result.Some?)
  }

  lemma RowStepKeepsShape(row: JobRow, next: JobRow, leases: set<LeaseId>)
    requires RowOk(row) && RowStep(row, next, leases)
    ensures RowOk(next)
    ensures next.envelope == row.envelope
    ensures Terminal(row) ==> next == row
    ensures row.result.Some? ==> next == row
    ensures next.leaseId == row.leaseId
            || (next.leaseId.Some? && next.leaseId.value !in leases)
  {
  }

  // ----- tables and runs of tables -----

  /** A job table together with every lease id it has ever handed out. */
  datatype Table = Table(rows: map<JobId, JobRow>, leases: set<LeaseId>)

  ghost predicate TableOk(t: Table) {
    forall id | id in t.rows ::
      && RowOk(t.rows[id])
      && (t.rows[id].leaseId.Some? ==> t.rows[id].leaseId.value in t.leases)
  }

  /** Rows are never deleted, old rows take one row step, new rows are pending. */
  ghost predicate TableStep(t: Table, u: Table) {
    && t.rows.Keys <= u.rows.Keys
    && t.leases <= u.leases
    && (forall id | id in u.rows ::
          if id in t.rows then RowStep(t.rows[id], u.rows[id], t.leases)
          else u.rows[id] == NewRow(u.rows[id].envelope))
    && (forall id | id in u.rows ::
          u.rows[id].leaseId.Some? ==> u.rows[id].leaseId.value in u.leases)
  }

  /** One table step seen from one old row. */
  lemma StepOnRow(t: Table, u: Table, id: JobId)
    requires TableOk(t) && TableStep(t, u) && id in t.rows
    ensures id in u.rows && u.rows[id].envelope == t.rows[id].envelope
    ensures Terminal(t.rows[id]) || t.rows[id].result.Some? ==> u.rows[id] == t.rows[id]
    ensures u.rows[id].leaseId == t.rows[id].leaseId
            || (u.rows[id].leaseId.Some? && u.rows[id].leaseId.value !in t.leases)
  {
    RowStepKeepsShape(t.rows[id], u.rows[id], t.leases);
  }

  ghost predicate IsRun(run: seq<Table>) {
    && |run| > 0
    && TableOk(run[0])
    && forall k | 0 <= k < |run| - 1 :: StepAt(run, k)
  }

  ghost predicate StepAt(run: seq<Table>, k: nat)
    requires k + 1 < |run|
  {
    TableStep(run[k], run[k + 1])
  }

  lemma TableStepKeepsTableOk(t: Table, u: Table)
    requires TableOk(t) && TableStep(t, u)
    ensures TableOk(u)
  {
    forall id | id in u.rows
      ensures RowOk(u.rows[id])
    {
      if id in t.rows { RowStepKeepsShape(t.rows[id], u.rows[id], t.leases); }
    }
  }

  lemma {:induction false} RunKeepsTableOk(run: seq<Table>, k: nat)
    requires IsRun(run) && k < |run|
    ensures TableOk(run[k])
  {
    if k > 0 {
      RunKeepsTableOk(run, k - 1);
      assert StepAt(run, k - 1);
      TableStepKeepsTableOk(run[k - 1], run[k]);
    }
  }

  /** Terminal states absorb and a stored result is never rewritten, over whole runs. */
  lemma {:induction false} FinishedForGood(run: seq<Table>, i: nat, k: nat, id: JobId)
    requires IsRun(run) && i <= k < |run|
    requires id in run[i].rows && (Terminal(run[i].rows[id]) || run[i].rows[id].result.Some?)
    ensures id in run[k].rows && run[k].rows[id] == run[i].rows[id]
  {
    if i < k {
      FinishedForGood(run, i, k - 1, id);
      RunKeepsTableOk(run, k - 1);
      assert StepAt(run, k - 1);
      StepOnRow(run[k - 1], run[k], id);
    }
  }

  /** A lease that is no longer a job's current lease never becomes current again. */
  ghost predicate Retired(t: Table, id: JobId, lease: LeaseId) {
    id in t.rows && lease in t.leases && t.rows[id].leaseId != Some(lease)
  }

  lemma {:induction false} RetiredForGood(run: seq<Table>, i: nat, k: nat, id: JobId, lease: LeaseId)
    requires IsRun(run) && i <= k < |run|
    requires Retired(run[i], id, lease)
    ensures Retired(run[k], id, lease)
  {
    if i < k {
      RetiredForGood(run, i, k - 1, id, lease);
      RunKeepsTableOk(run, k - 1);
      assert StepAt(run, k - 1);
      StepOnRow(run[k - 1], run[k], id);
    }
  }

  lemma {:induction false} LeasesOnlyGrow(run: seq<Table>, i: nat, k: nat, id: JobId)
    requires IsRun(run) && i <= k < |run| && id in run[i].rows
    ensures id in run[k].rows && run[i].leases <= run[k].leases
  {
    if i < k {
      LeasesOnlyGrow(run, i, k - 1, id);
      assert StepAt(run, k - 1);
    }
  }

  /** Lease fencing: once a job holding `lease` is found under another lease, no later
      acknowledgement, control or completion call carrying `lease` changes the job, and none
      of them is accepted. A completion call can at most hear that it repeats the stored one. */
  lemma StaleLeaseIsFenced(
    run: seq<Table>, i: nat, j: nat, k: nat, id: JobId, lease: LeaseId,
    digest: Digest, result: ResultEnvelope, now: Time, until: Time,
    completedAt: Option<Time>, matches: bool)
    requires IsRun(run) && i <= j <= k < |run|
    requires id in run[i].rows && run[i].rows[id].leaseId == Some(lease)
    requires id in run[j].rows && run[j].rows[id].leaseId != Some(lease)
    ensures id in run[k].rows
    ensures var row := run[k].rows[id];
      && AcknowledgeRow(row, lease, digest, now) == (row, ConflictOutcome)
      && ControlRow(row, lease, until) == (row, ControlConflict)
      && CompleteRow(row, lease, result, digest, completedAt, matches).0 == row
      && (CompleteRow(row, lease, result, digest, completedAt, matches).1 == Duplicate
          <==> row.resultDigest == Some(digest))
      && CompleteRow(row, lease, result, digest, completedAt, matches).1 != Accepted
  {
    RunKeepsTableOk(run, i);
    LeasesOnlyGrow(run, i, j, id);
    RetiredForGood(run, j, k, id, lease);
  }

  /** A completion is accepted only from the current lease of an acknowledged job without a
      result, and from then on every submission, under any lease, is answered from the stored
      digest and changes nothing. */
  lemma CompletionIsFinal(
    run: seq<Table>, i: nat, k: nat, id: JobId,
    lease: LeaseId, result: ResultEnvelope, digest: Digest, completedAt: Option<Time>,
    lease': LeaseId, result': ResultEnvelope, digest': Digest, completedAt': Option<Time>,
    matches': bool)
    requires IsRun(run) && i < k < |run| && id in run[i].rows && id in run[i + 1].rows
    requires CompleteRow(run[i].rows[id], lease, result, digest, completedAt, true)
             == (run[i + 1].rows[id], Accepted)
    ensures run[i].rows[id].state == Acknowledged
            && run[i].rows[id].leaseId == Some(lease)
            && run[i].rows[id].result == None
    ensures id in run[k].rows && run[k].rows[id] == run[i + 1].rows[id]
            && run[k].rows[id].result == Some(result)
    ensures CompleteRow(run[k].rows[id], lease', result', digest', completedAt', matches')
            == (run[k].rows[id], if digest' == digest then Duplicate else ConflictOutcome)
  {
    RunKeepsTableOk(run, i);
    FinishedForGood(run, i + 1, k, id);
  }
}
