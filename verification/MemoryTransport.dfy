/** The in-memory job repository: the repository object itself, proved against functions on
    its job map, and what holds over every run of its calls. */
module MemoryTransport {
  import opened Protocol
  import opened ResultMatching
  import opened JobLifecycle
  import opened Sorting

  /** The job map: its rows, and the order in which iteration meets its keys. */
  datatype Store = Store(order: seq<JobId>, jobs: map<JobId, JobRow>)

  ghost predicate StoreOk(s: Store) {
    && Distinct(s.order)
    && (forall id :: id in s.order <==> id in s.jobs)
    && (forall id | id in s.jobs :: RowOk(s.jobs[id]) && s.jobs[id].envelope.jobId == id)
  }

  // ----- the specification of each call -----

  function Enqueue(s: Store, envelope: Envelope): Store {
    Store(if envelope.jobId in s.jobs then s.order else s.order + [envelope.jobId],
          s.jobs[envelope.jobId := NewRow(envelope)])
  }

  predicate Offers(row: JobRow, device: DeviceId, report: Report) {
    row.envelope.deviceId == device && Supports(report, row)
  }

  predicate LiveFor(row: JobRow, device: DeviceId, report: Report, now: Time) {
    Offers(row, device, report) && LeaseLive(row, now)
  }

  /** A row the claim may grant: pending with time left, or held under a lapsed lease. */
  predicate Eligible(row: JobRow, device: DeviceId, report: Report, now: Time) {
    && !EnvelopeExpired(row, now)
    && (row.state == Pending || LeaseLapsed(row, now))
    && Offers(row, device, report)
  }

  function Swept(row: JobRow, now: Time): JobRow {
    if EnvelopeExpired(row, now) then Expire(row) else row
  }

  function FirstLive(
    ids: seq<JobId>, jobs: map<JobId, JobRow>, device: DeviceId, report: Report, now: Time)
    : Option<JobId>
    requires forall id | id in ids :: id in jobs
  {
    if ids == [] then None
    else if LiveFor(jobs[ids[0]], device, report, now) then Some(ids[0])
    else FirstLive(ids[1..], jobs, device, report, now)
  }

  /** By issue time, stable in the order of the map. */
  function IssueOrder(jobs: map<JobId, JobRow>): (JobId, JobId) -> bool {
    (a: JobId, b: JobId) => IssuedAt(jobs, a) <= IssuedAt(jobs, b)
  }

  function IssuedAt(jobs: map<JobId, JobRow>, id: JobId): Time {
    if id in jobs then jobs[id].envelope.issuedAt else 0
  }

  function ScanCandidates(
    ids: seq<JobId>, jobs: map<JobId, JobRow>, device: DeviceId, report: Report,
    leaseId: LeaseId, now: Time, leaseExpiresAt: Time): (map<JobId, JobRow>, Option<JobId>)
    requires forall id | id in ids :: id in jobs
  {
    if ids == [] then (jobs, None)
    else
      var row := jobs[ids[0]];
      if EnvelopeExpired(row, now) then
        ScanCandidates(ids[1..], jobs[ids[0] := Expire(row)], device, report, leaseId, now, leaseExpiresAt)
      else if Eligible(row, device, report, now) then
        (jobs[ids[0] := Grant(row, leaseId, leaseExpiresAt)], Some(ids[0]))
      else ScanCandidates(ids[1..], jobs, device, report, leaseId, now, leaseExpiresAt)
  }

  function Candidates(s: Store): (ids: seq<JobId>)
    ensures forall id :: id in ids <==> id in s.order
  {
    SortSorts(s.order, IssueOrder(s.jobs));
    SortBy(s.order, IssueOrder(s.jobs))
  }

  function Claim(
    s: Store, device: DeviceId, report: Report, leaseId: LeaseId, now: Time, leaseExpiresAt: Time)
    : (Store, Option<JobId>)
    requires forall id | id in s.order :: id in s.jobs
  {
    var live := FirstLive(s.order, s.jobs, device, report, now);
    if live.Some? then (s, live)
    else
      var scanned := ScanCandidates(Candidates(s), s.jobs, device, report, leaseId, now, leaseExpiresAt);
      (s.(jobs := scanned.0), scanned.1)
  }

  predicate Addressed(s: Store, runner: Runner, id: JobId) {
    id in s.jobs && BelongsTo(s.jobs[id], runner)
  }

  function Put(s: Store, id: JobId, row: JobRow): Store { s.(jobs := s.jobs[id := row]) }

  function Acknowledge(s: Store, runner: Runner, id: JobId, leaseId: LeaseId, digest: Digest, now: Time)
    : (Store, Outcome)
  {
    if !Addressed(s, runner, id) then (s, Unknown)
    else
      var r := AcknowledgeRow(s.jobs[id], leaseId, digest, now);
      (Put(s, id, r.0), r.1)
  }

  /** The looser check of this repository: any result that is neither an evaluation nor a
      library response passes for any project job with the same project. */
  predicate MemoryMatches(job: Envelope, envelope: ResultEnvelope) {
    var result := envelope.result;
    && envelope.idempotencyKey == job.idempotencyKey
    && envelope.projectInstanceId == job.projectInstanceId
    && (!result.Error? ==>
          if job.job.EvaluateSetups? then
            result.EvaluationResult? && EvaluationResultMatches(job.job.definition, result)
          else if result.EvaluationResult? then false
          else if job.job.LibraryAction? then result.LibraryResponse?
          else !result.LibraryResponse? && result.projectId == job.job.projectId)
    && (result.CancellationReceipt? ==> job.job.ApplyPlan? || job.job.RollbackOperation?)
  }

  function Complete(
    s: Store, runner: Runner, id: JobId, leaseId: LeaseId, result: ResultEnvelope, digest: Digest)
    : (Store, Outcome)
  {
    if !Addressed(s, runner, id) then (s, Unknown)
    else
      var row := s.jobs[id];
      var r := CompleteRow(row, leaseId, result, digest, row.completedAt,
                           MemoryMatches(row.envelope, result));
      (Put(s, id, r.0), r.1)
  }

  function Control(s: Store, runner: Runner, id: JobId, leaseId: LeaseId, leaseExpiresAt: Time)
    : (Store, ControlOutcome)
  {
    if !Addressed(s, runner, id) then (s, ControlUnknown)
    else
      var r := ControlRow(s.jobs[id], leaseId, leaseExpiresAt);
      (Put(s, id, r.0), r.1)
  }

  function RequestCancellation(s: Store, organization: OrganizationId, id: JobId, now: Time)
    : (Store, bool)
  {
    if id !in s.jobs || s.jobs[id].envelope.organizationId != organization then (s, false)
    else (Put(s, id, CancelRow(s.jobs[id], now, s.jobs[id].completedAt)), Active(s.jobs[id]))
  }

  // ----- the repository -----

  class InMemoryRunnerTransportRepository {
    var order: seq<JobId>
    var jobs: map<JobId, JobRow>

    ghost function Contents(): Store
      reads this
    {
      Store(order, jobs)
    }

    ghost predicate Valid()
      reads this
    {
      StoreOk(Contents())
    }

    constructor ()
      ensures Contents() == Store([], map[]) && Valid()
    {
      order := [];
      jobs := map[];
    }

    method EnqueueJob(job: Envelope)
      requires Valid()
      modifies this
      ensures Valid() && Contents() == Enqueue(old(Contents()), job)
    {
      if job.jobId !in jobs {
        order := order + [job.jobId];
      }
      jobs := jobs[job.jobId := NewRow(job)];
      assert forall id :: id in order <==> id in old(order) || id == job.jobId;
    }

    method ClaimJob(
      runner: Runner, report: Report, leaseId: LeaseId, now: Time, leaseExpiresAt: Time)
      returns (leased: Option<LeasedJob>)
      requires Valid()
      modifies this
      ensures Valid()
      ensures var claim := Claim(old(Contents()), runner.deviceId, report, leaseId, now, leaseExpiresAt);
        && Contents() == claim.0
        && (match claim.1
            case None => leased == None
            case Some(id) => id in jobs && jobs[id].leaseId.Some? && jobs[id].leaseExpiresAt.Some?
                             && leased == Some(ToLeased(jobs[id])))
    {
      ghost var before := Contents();
      ghost var claim := Claim(before, runner.deviceId, report, leaseId, now, leaseExpiresAt);
      assert StoreOk(claim.0) by {
        ClaimKeepsStoreOk(before, runner.deviceId, report, leaseId, now, leaseExpiresAt);
      }
      var live := LiveJob(runner, report, now);
      if live.Some? {
        assert claim == (before, live);
        return Some(ToLeased(jobs[live.value]));
      }
      var granted := LeaseCandidate(runner, report, leaseId, now, leaseExpiresAt);
      assert (Contents(), granted) == claim;
      leased := if granted.Some? then Some(ToLeased(jobs[granted.value])) else None;
    }

    /** The first pass of a claim: a job this device already holds. */
    method LiveJob(runner: Runner, report: Report, now: Time) returns (live: Option<JobId>)
      requires Valid()
      ensures live == FirstLive(order, jobs, runner.deviceId, report, now)
      ensures live.Some? ==> live.value in jobs && LeaseLive(jobs[live.value], now)
    {
      var i := 0;
      while i < |order|
        invariant i <= |order|
        invariant FirstLive(order, jobs, runner.deviceId, report, now)
                  == FirstLive(order[i..], jobs, runner.deviceId, report, now)
      {
        var job := jobs[order[i]];
        if job.envelope.deviceId == runner.deviceId
           && (job.state == Leased || job.state == JobState.Acknowledged)
           && job.leaseExpiresAt.Some? && job.leaseExpiresAt.value > now && Supports(report, job)
        {
          return Some(order[i]);
        }
        i := i + 1;
      }
      live := None;
    }

    /** The second pass, over all jobs in issue order. */
    method LeaseCandidate(
      runner: Runner, report: Report, leaseId: LeaseId, now: Time, leaseExpiresAt: Time)
      returns (granted: Option<JobId>)
      requires Valid()
      modifies this`jobs
      ensures (jobs, granted) == ScanCandidates(
                Candidates(old(Contents())), old(jobs), runner.deviceId, report, leaseId, now, leaseExpiresAt)
      ensures granted.Some? ==> granted.value in jobs
                                && jobs[granted.value].leaseId == Some(leaseId)
                                && jobs[granted.value].leaseExpiresAt == Some(leaseExpiresAt)
    {
      var candidates := Candidates(Store(order, jobs));
      granted := GrantFirst(candidates, runner, report, leaseId, now, leaseExpiresAt);
    }

    /** Expires what ran out, and grants the first candidate that is left. */
    method GrantFirst(
      candidates: seq<JobId>, runner: Runner, report: Report, leaseId: LeaseId, now: Time, leaseExpiresAt: Time)
      returns (granted: Option<JobId>)
      requires forall id | id in candidates :: id in jobs
      modifies this`jobs
      ensures (jobs, granted) == ScanCandidates(
                candidates, old(jobs), runner.deviceId, report, leaseId, now, leaseExpiresAt)
      ensures granted.Some? ==> granted.value in jobs
                                && jobs[granted.value].leaseId == Some(leaseId)
                                && jobs[granted.value].leaseExpiresAt == Some(leaseExpiresAt)
    {
      ghost var target := ScanCandidates(
        candidates, jobs, runner.deviceId, report, leaseId, now, leaseExpiresAt);
      var i := 0;
      while i < |candidates|
        invariant i <= |candidates| && jobs.Keys == old(jobs).Keys
        invariant target == ScanCandidates(
                    candidates[i..], jobs, runner.deviceId, report, leaseId, now, leaseExpiresAt)
      {
        var id := candidates[i];
        var job := jobs[id];
        i := i + 1;
        if job.envelope.expiresAt <= now && (job.state == Pending || job.state == Leased) {
          jobs := jobs[id := job.(state := JobState.Expired)];
          continue;
        }
        var available := job.state == Pending
          || ((job.state == Leased || job.state == JobState.Acknowledged)
              && job.leaseExpiresAt.Some? && job.leaseExpiresAt.value <= now);
        if !available || job.envelope.deviceId != runner.deviceId || !Supports(report, job) {
          continue;
        }
        job := job.(state := Leased, leaseId := Some(leaseId), leaseExpiresAt := Some(leaseExpiresAt),
                    attemptCount := job.attemptCount + 1, requestDigest := None, acknowledgedAt := None);
        jobs := jobs[id := job];
        return Some(id);
      }
      granted := None;
    }

    method AcknowledgeJob(runner: Runner, id: JobId, leaseId: LeaseId, requestDigest: Digest, now: Time)
      returns (outcome: Outcome)
      requires Valid()
      modifies this
      ensures Valid()
      ensures (Contents(), outcome)
              == Acknowledge(old(Contents()), runner, id, leaseId, requestDigest, now)
    {
      if id !in jobs || !BelongsTo(jobs[id], runner) {
        return Unknown;
      }
      var job := jobs[id];
      if job.state == JobState.Acknowledged {
        jobs := jobs[id := job];
        return if job.leaseId == Some(leaseId) && job.requestDigest == Some(requestDigest)
          then Duplicate else ConflictOutcome;
      }
      if job.state != Leased || job.leaseId != Some(leaseId) {
        jobs := jobs[id := job];
        return ConflictOutcome;
      }
      jobs := jobs[id := job.(state := JobState.Acknowledged, requestDigest := Some(requestDigest),
                              acknowledgedAt := Some(now))];
      outcome := Accepted;
    }

    method CompleteJob(
      runner: Runner, id: JobId, leaseId: LeaseId, result: ResultEnvelope, resultDigest: Digest)
      returns (outcome: Outcome)
      requires Valid()
      modifies this
      ensures Valid()
      ensures (Contents(), outcome)
              == Complete(old(Contents()), runner, id, leaseId, result, resultDigest)
    {
      if id !in jobs || !BelongsTo(jobs[id], runner) {
        return Unknown;
      }
      var job := jobs[id];
      assert jobs == jobs[id := job];
      if job.resultDigest.Some? {
        return if job.resultDigest == Some(resultDigest) then Duplicate else ConflictOutcome;
      }
      if job.leaseId != Some(leaseId) || job.state != JobState.Acknowledged {
        return ConflictOutcome;
      }
      if !MemoryMatches(job.envelope, result) {
        return ConflictOutcome;
      }
      jobs := jobs[id := job.(result := Some(result), resultDigest := Some(resultDigest),
                              state := TerminalState(result.result))];
      outcome := Accepted;
    }

    method JobControl(runner: Runner, id: JobId, leaseId: LeaseId, leaseExpiresAt: Time)
      returns (outcome: ControlOutcome)
      requires Valid()
      modifies this
      ensures Valid()
      ensures (Contents(), outcome) == Control(old(Contents()), runner, id, leaseId, leaseExpiresAt)
    {
      if id !in jobs || !BelongsTo(jobs[id], runner) {
        return ControlUnknown;
      }
      var job := jobs[id];
      assert jobs == jobs[id := job];
      if job.leaseId != Some(leaseId) || (job.state != Leased && job.state != JobState.Acknowledged) {
        return ControlConflict;
      }
      jobs := jobs[id := job.(leaseExpiresAt := Some(leaseExpiresAt))];
      outcome := Available(job.cancelRequestedAt.Some?);
    }

    method CancelJob(organization: OrganizationId, id: JobId, now: Time)
      returns (cancelled: bool)
      requires Valid()
      modifies this
      ensures Valid()
      ensures (Contents(), cancelled) == RequestCancellation(old(Contents()), organization, id, now)
    {
      if id !in jobs || jobs[id].envelope.organizationId != organization {
        return false;
      }
      var job := jobs[id];
      assert jobs == jobs[id := job];
      if job.state == Pending {
        jobs := jobs[id := job.(cancelRequestedAt := Some(now), state := Cancelled)];
        return true;
      }
      if Held(job) {
        jobs := jobs[id := job.(cancelRequestedAt := Some(now))];
        return true;
      }
      cancelled := false;
    }
  }

  // ----- what a claim does, read off row by row -----

  /** `p` is the position of the job the scan grants, or the end when it grants none. */
  lemma {:induction false} ScanMeaning(
    ids: seq<JobId>, jobs: map<JobId, JobRow>, device: DeviceId, report: Report,
    leaseId: LeaseId, now: Time, leaseExpiresAt: Time) returns (p: nat)
    requires Distinct(ids) && forall id | id in ids :: id in jobs
    ensures var (after, granted) := ScanCandidates(ids, jobs, device, report, leaseId, now, leaseExpiresAt);
      && after.Keys == jobs.Keys
      && p <= |ids|
      && (forall k | 0 <= k < p ::
            !Eligible(jobs[ids[k]], device, report, now)
            && after[ids[k]] == Swept(jobs[ids[k]], now))
      && (if p == |ids| then granted == None
          else && granted == Some(ids[p])
               && Eligible(jobs[ids[p]], device, report, now)
               && after[ids[p]] == Grant(jobs[ids[p]], leaseId, leaseExpiresAt))
      && (forall k | p < k < |ids| :: after[ids[k]] == jobs[ids[k]])
      && (forall id | id in jobs && id !in ids :: after[id] == jobs[id])
  {
    if ids == [] { return 0; }
    var row := jobs[ids[0]];
    if !EnvelopeExpired(row, now) && Eligible(row, device, report, now) { return 0; }
    var jobs' := if EnvelopeExpired(row, now) then jobs[ids[0] := Expire(row)] else jobs;
    var q := ScanMeaning(ids[1..], jobs', device, report, leaseId, now, leaseExpiresAt);
    p := q + 1;
    assert ids[0] !in ids[1..];
    assert forall k | 1 <= k < |ids| :: ids[k] == ids[1..][k - 1] && jobs'[ids[k]] == jobs[ids[k]];
  }

  lemma {:induction false} FirstLiveMeaning(
    ids: seq<JobId>, jobs: map<JobId, JobRow>, device: DeviceId, report: Report, now: Time)
    requires forall id | id in ids :: id in jobs
    ensures match FirstLive(ids, jobs, device, report, now)
            case None => forall id | id in ids :: !LiveFor(jobs[id], device, report, now)
            case Some(id) => id in ids && LiveFor(jobs[id], device, report, now)
  {
    if ids != [] {
      FirstLiveMeaning(ids[1..], jobs, device, report, now);
      assert ids == [ids[0]] + ids[1..];
    }
  }

  lemma CandidatesAreDistinct(s: Store)
    requires StoreOk(s)
    ensures Distinct(Candidates(s)) && forall id :: id in Candidates(s) <==> id in s.jobs
  {
    SortSorts(s.order, IssueOrder(s.jobs));
    PermutationsStayDistinct(s.order, Candidates(s));
  }

  ghost predicate ClaimedRow(
    row: JobRow, next: JobRow, device: DeviceId, report: Report, leaseId: LeaseId, now: Time, until: Time)
  {
    || next == row
    || (EnvelopeExpired(row, now) && next == Expire(row))
    || (Eligible(row, device, report, now) && next == Grant(row, leaseId, until))
  }

  lemma {:induction false} ScanRow(
    ids: seq<JobId>, jobs: map<JobId, JobRow>, device: DeviceId, report: Report,
    leaseId: LeaseId, now: Time, until: Time, id: JobId)
    requires Distinct(ids) && (forall i | i in ids :: i in jobs) && id in jobs
    ensures var after := ScanCandidates(ids, jobs, device, report, leaseId, now, until).0;
      && after.Keys == jobs.Keys
      && ClaimedRow(jobs[id], after[id], device, report, leaseId, now, until)
      && (id !in ids ==> after[id] == jobs[id])
  {
    if ids != [] {
      assert ids[0] !in ids[1..];
      var row := jobs[ids[0]];
      if EnvelopeExpired(row, now) {
        ScanRow(ids[1..], jobs[ids[0] := Expire(row)], device, report, leaseId, now, until, id);
      } else if !Eligible(row, device, report, now) {
        ScanRow(ids[1..], jobs, device, report, leaseId, now, until, id);
      }
    }
  }

  lemma ClaimRow(
    s: Store, device: DeviceId, report: Report, leaseId: LeaseId, now: Time, until: Time, id: JobId)
    requires StoreOk(s) && id in s.jobs
    ensures var after := Claim(s, device, report, leaseId, now, until).0;
      && after.order == s.order && after.jobs.Keys == s.jobs.Keys
      && ClaimedRow(s.jobs[id], after.jobs[id], device, report, leaseId, now, until)
  {
    CandidatesAreDistinct(s);
    ScanRow(Candidates(s), s.jobs, device, report, leaseId, now, until, id);
  }

  lemma ClaimKeepsStoreOk(
    s: Store, device: DeviceId, report: Report, leaseId: LeaseId, now: Time, until: Time)
    requires StoreOk(s)
    ensures StoreOk(Claim(s, device, report, leaseId, now, until).0)
  {
    var after := Claim(s, device, report, leaseId, now, until).0;
    assert after.order == s.order;
    if s.order != [] { ClaimRow(s, device, report, leaseId, now, until, s.order[0]); }
    forall id | id in s.jobs
      ensures id in after.jobs && RowOk(after.jobs[id]) && after.jobs[id].envelope.jobId == id
    {
      ClaimRow(s, device, report, leaseId, now, until, id);
    }
  }
}
