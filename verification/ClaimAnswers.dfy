/** Which job a claim hands out, and what it writes, read off the rows, for both repositories. */
module ClaimAnswers {
  import opened Protocol
  import opened JobLifecycle
  import opened TableFacts
  import CP = ControlPlane
  import M = MemoryTransport
  import Agree = RepositoriesAgree

  lemma SupportMeansTakesOn(report: Report, row: JobRow)
    ensures Supports(report, row) <==> TakesOn(report, row.envelope.job)
  {
  }

  // ----- the database -----

  predicate OfRunner(row: JobRow, runner: Runner) {
    row.envelope.organizationId == runner.organizationId && row.envelope.deviceId == runner.deviceId
  }

  /** A job of the runner that it reports it can do, under a current lease. */
  predicate Holds(row: JobRow, runner: Runner, report: Report, now: Time) {
    OfRunner(row, runner) && TakesOn(report, row.envelope.job) && UnderLease(row, now) && !TimeIsUp(row, now)
  }

  /** A job of the runner that it reports it can do, waiting with time left, or let go. */
  predicate Awaits(row: JobRow, runner: Runner, report: Report, now: Time) {
    && OfRunner(row, runner) && TakesOn(report, row.envelope.job)
    && (row.state == Pending || LeaseRanOut(row, now)) && !TimeIsUp(row, now)
  }

  /** What the claim has told the device's row. */
  predicate DeviceSeen(
    devices: map<DeviceId, CP.Device>, after: map<DeviceId, CP.Device>, runner: Runner, now: Time,
    report: Option<Report>)
  {
    if runner.deviceId in devices && devices[runner.deviceId].organizationId == runner.organizationId
       && devices[runner.deviceId].active
    then
      && after.Keys == devices.Keys
      && (forall d | d in devices && d != runner.deviceId :: after[d] == devices[d])
      && after[runner.deviceId] == devices[runner.deviceId].(
           lastSeenAt := Some(now), report := if report.Some? then report else devices[runner.deviceId].report)
    else after == devices
  }

  lemma TouchMeansSeen(devices: map<DeviceId, CP.Device>, runner: Runner, now: Time, report: Option<Report>)
    ensures DeviceSeen(devices, CP.TouchDevice(devices, runner, now, report), runner, now, report)
  {
  }

  /** What the claim has done to a row it does not hand out. */
  predicate Passed(row: JobRow, next: JobRow, device: DeviceId, now: Time) {
    next == if row.envelope.deviceId == device && TimeIsUp(row, now) then row.(state := Expired) else row
  }

  lemma SweptRow(jobs: map<JobId, JobRow>, runner: Runner, report: Report, now: Time, id: JobId)
    requires id in jobs
    ensures var swept := CP.ExpireForDevice(jobs, runner.deviceId, now);
      && id in swept && Passed(jobs[id], swept[id], runner.deviceId, now)
      && (CP.ClaimableLive(swept[id], runner, report, now) <==> Holds(jobs[id], runner, report, now))
      && (CP.ClaimableFree(swept[id], runner, report, now) <==> Awaits(jobs[id], runner, report, now))
      && (Holds(jobs[id], runner, report, now) || Awaits(jobs[id], runner, report, now) ==> swept[id] == jobs[id])
  {
    SupportMeansTakesOn(report, jobs[id]);
  }

  ghost predicate OldestHeld(jobs: map<JobId, JobRow>, runner: Runner, report: Report, now: Time, id: JobId) {
    && id in jobs && Holds(jobs[id], runner, report, now)
    && forall other | other in jobs && Holds(jobs[other], runner, report, now) ::
         jobs[id].envelope.issuedAt <= jobs[other].envelope.issuedAt
  }

  ghost predicate OldestAwaiting(jobs: map<JobId, JobRow>, runner: Runner, report: Report, now: Time, id: JobId) {
    && id in jobs && Awaits(jobs[id], runner, report, now)
    && forall other | other in jobs && Awaits(jobs[other], runner, report, now) ::
         jobs[id].envelope.issuedAt <= jobs[other].envelope.issuedAt
  }

  /** The database hands out nothing exactly when the runner holds no job that it can do and none
      awaits it. Otherwise it repeats the oldest job held, or leases the oldest one that awaits;
      a job of a kind that was not reported is never handed out. */
  lemma DatabaseClaimAnswersExactly(
    db: CP.Db, runner: Runner, report: Report, lease: LeaseId, now: Time, until: Time,
    after: CP.Db, chosen: Option<JobId>)
    requires CP.Claim(db, runner, report, lease, now, until, after, chosen)
    ensures chosen == None <==>
      forall id | id in db.jobs ::
        !Holds(db.jobs[id], runner, report, now) && !Awaits(db.jobs[id], runner, report, now)
    ensures after.jobs.Keys == db.jobs.Keys
    ensures forall id | id in db.jobs && chosen != Some(id) ::
      Passed(db.jobs[id], after.jobs[id], runner.deviceId, now)
    ensures chosen.Some? ==>
      && chosen.value in db.jobs && TakesOn(report, db.jobs[chosen.value].envelope.job)
      && if exists id :: id in db.jobs && Holds(db.jobs[id], runner, report, now)
         then OldestHeld(db.jobs, runner, report, now, chosen.value)
              && after.jobs[chosen.value] == db.jobs[chosen.value]
         else OldestAwaiting(db.jobs, runner, report, now, chosen.value)
              && LeasedAnew(db.jobs[chosen.value], after.jobs[chosen.value], lease, until)
    ensures after == db.(jobs := after.jobs, devices := after.devices)
    ensures DeviceSeen(db.devices, after.devices, runner, now, Some(report))
  {
    TouchMeansSeen(db.devices, runner, now, Some(report));
    ChosenFromSwept(db, runner, report, lease, now, until, after, chosen);
    var swept := CP.ExpireForDevice(db.jobs, runner.deviceId, now);
    SweptRows(db.jobs, runner, report, now);
    ChosenMeans(db.jobs, swept, after.jobs, runner, report, lease, now, until, chosen);
  }

  /** The rows after the sweep, and what the two queries select of them. */
  ghost predicate SweptFor(
    jobs: map<JobId, JobRow>, swept: map<JobId, JobRow>, runner: Runner, report: Report, now: Time)
  {
    && swept.Keys == jobs.Keys
    && forall id | id in jobs ::
         && Passed(jobs[id], swept[id], runner.deviceId, now)
         && swept[id].envelope == jobs[id].envelope
         && (CP.ClaimableLive(swept[id], runner, report, now) <==> Holds(jobs[id], runner, report, now))
         && (CP.ClaimableFree(swept[id], runner, report, now) <==> Awaits(jobs[id], runner, report, now))
         && (Holds(jobs[id], runner, report, now) || Awaits(jobs[id], runner, report, now) ==> swept[id] == jobs[id])
  }

  lemma SweptRows(jobs: map<JobId, JobRow>, runner: Runner, report: Report, now: Time)
    ensures SweptFor(jobs, CP.ExpireForDevice(jobs, runner.deviceId, now), runner, report, now)
  {
    forall id | id in jobs
      ensures var swept := CP.ExpireForDevice(jobs, runner.deviceId, now);
        && Passed(jobs[id], swept[id], runner.deviceId, now) && swept[id].envelope == jobs[id].envelope
        && (CP.ClaimableLive(swept[id], runner, report, now) <==> Holds(jobs[id], runner, report, now))
        && (CP.ClaimableFree(swept[id], runner, report, now) <==> Awaits(jobs[id], runner, report, now))
        && (Holds(jobs[id], runner, report, now) || Awaits(jobs[id], runner, report, now) ==> swept[id] == jobs[id])
    {
      SweptRow(jobs, runner, report, now, id);
    }
  }

  lemma ChosenMeans(
    jobs: map<JobId, JobRow>, swept: map<JobId, JobRow>, after: map<JobId, JobRow>, runner: Runner, report: Report,
    lease: LeaseId, now: Time, until: Time, chosen: Option<JobId>)
    requires SweptFor(jobs, swept, runner, report, now)
    requires ChosenOf(swept, after, runner, report, lease, now, until, chosen)
    ensures chosen == None <==>
      forall id | id in jobs :: !Holds(jobs[id], runner, report, now) && !Awaits(jobs[id], runner, report, now)
    ensures after.Keys == jobs.Keys
    ensures forall id | id in jobs && chosen != Some(id) :: Passed(jobs[id], after[id], runner.deviceId, now)
    ensures chosen.Some? ==>
      && chosen.value in jobs && TakesOn(report, jobs[chosen.value].envelope.job)
      && if exists id :: id in jobs && Holds(jobs[id], runner, report, now)
         then OldestHeld(jobs, runner, report, now, chosen.value) && after[chosen.value] == jobs[chosen.value]
         else OldestAwaiting(jobs, runner, report, now, chosen.value)
              && LeasedAnew(jobs[chosen.value], after[chosen.value], lease, until)
  {
  }

  /** What a claim has done, over the swept rows. */
  ghost predicate ChosenOf(
    swept: map<JobId, JobRow>, after: map<JobId, JobRow>, runner: Runner, report: Report,
    lease: LeaseId, now: Time, until: Time, chosen: Option<JobId>)
  {
    if exists id :: id in swept && CP.ClaimableLive(swept[id], runner, report, now)
    then chosen.Some? && CP.OldestLive(swept, runner, report, now, chosen.value) && after == swept
    else if exists id :: id in swept && CP.ClaimableFree(swept[id], runner, report, now)
    then chosen.Some? && CP.OldestFree(swept, runner, report, now, chosen.value)
         && after.Keys == swept.Keys
         && LeasedAnew(swept[chosen.value], after[chosen.value], lease, until)
         && forall id | id in swept && id != chosen.value :: after[id] == swept[id]
    else chosen == None && after == swept
  }

  lemma ChosenFromSwept(
    db: CP.Db, runner: Runner, report: Report, lease: LeaseId, now: Time, until: Time,
    after: CP.Db, chosen: Option<JobId>)
    requires CP.Claim(db, runner, report, lease, now, until, after, chosen)
    ensures after == db.(jobs := after.jobs, devices := CP.TouchDevice(db.devices, runner, now, Some(report)))
    ensures ChosenOf(CP.ExpireForDevice(db.jobs, runner.deviceId, now), after.jobs,
                     runner, report, lease, now, until, chosen)
  {
  }

  // ----- memory -----

  /** Queueing a job puts it last, untouched; under an identifier it had, in place of the older job. */
  lemma EnqueuePutsLast(s: M.Store, envelope: Envelope)
    requires M.StoreOk(s)
    ensures var (after, id) := (M.Enqueue(s, envelope), envelope.jobId);
      && M.StoreOk(after)
      && after.order == (if id in s.order then s.order else s.order + [id])
      && after.jobs == s.jobs[id := after.jobs[id]]
      && after.jobs[id].envelope == envelope && Untouched(after.jobs[id])
  {
  }

  /** As above, but by device alone; a job in memory is repeated even when its time is up. */
  predicate HeldBy(row: JobRow, device: DeviceId, report: Report, now: Time) {
    row.envelope.deviceId == device && TakesOn(report, row.envelope.job) && UnderLease(row, now)
  }

  predicate AwaitsDevice(row: JobRow, device: DeviceId, report: Report, now: Time) {
    && row.envelope.deviceId == device && TakesOn(report, row.envelope.job)
    && (row.state == Pending || LeaseRanOut(row, now)) && !TimeIsUp(row, now)
  }

  lemma MemoryRow(row: JobRow, device: DeviceId, report: Report, now: Time)
    ensures M.LiveFor(row, device, report, now) <==> HeldBy(row, device, report, now)
    ensures M.Eligible(row, device, report, now) <==> AwaitsDevice(row, device, report, now)
    ensures EnvelopeExpired(row, now) <==> TimeIsUp(row, now)
  {
    SupportMeansTakesOn(report, row);
  }

  ghost predicate OldestForDevice(jobs: map<JobId, JobRow>, device: DeviceId, report: Report, now: Time, id: JobId) {
    && id in jobs && AwaitsDevice(jobs[id], device, report, now)
    && forall other | other in jobs && AwaitsDevice(jobs[other], device, report, now) ::
         jobs[id].envelope.issuedAt <= jobs[other].envelope.issuedAt
  }

  /** Memory hands out nothing exactly when the device holds no job that it can do and none awaits
      it. Otherwise it repeats a job held and writes nothing, or leases the oldest one that
      awaits, and every other row stays or is one whose time is up. */
  lemma MemoryClaimAnswersExactly(
    s: M.Store, device: DeviceId, report: Report, lease: LeaseId, now: Time, until: Time)
    requires M.StoreOk(s)
    ensures var (after, chosen) := M.Claim(s, device, report, lease, now, until);
      && (chosen == None <==>
            forall id | id in s.jobs ::
              !HeldBy(s.jobs[id], device, report, now) && !AwaitsDevice(s.jobs[id], device, report, now))
      && after.order == s.order && after.jobs.Keys == s.jobs.Keys
      && (chosen.Some? ==>
            && chosen.value in s.jobs && TakesOn(report, s.jobs[chosen.value].envelope.job)
            && if exists id :: id in s.jobs && HeldBy(s.jobs[id], device, report, now)
               then HeldBy(s.jobs[chosen.value], device, report, now) && after == s
               else OldestForDevice(s.jobs, device, report, now, chosen.value)
                    && LeasedAnew(s.jobs[chosen.value], after.jobs[chosen.value], lease, until))
      && (forall id | id in s.jobs && chosen != Some(id) ::
            after.jobs[id] == s.jobs[id]
            || (TimeIsUp(s.jobs[id], now) && after.jobs[id] == s.jobs[id].(state := Expired)))
      && ((forall id | id in s.jobs :: !HeldBy(s.jobs[id], device, report, now)) ==>
            forall id | id in s.jobs && TimeIsUp(s.jobs[id], now)
                        && (chosen.Some? ==> s.jobs[id].envelope.issuedAt < s.jobs[chosen.value].envelope.issuedAt) ::
              after.jobs[id].state == Expired)
  {
    var (after, chosen) := M.Claim(s, device, report, lease, now, until);
    forall id | id in s.jobs
      ensures M.LiveFor(s.jobs[id], device, report, now) <==> HeldBy(s.jobs[id], device, report, now)
      ensures M.Eligible(s.jobs[id], device, report, now) <==> AwaitsDevice(s.jobs[id], device, report, now)
    {
      MemoryRow(s.jobs[id], device, report, now);
    }
    M.FirstLiveMeaning(s.order, s.jobs, device, report, now);
    var live := M.FirstLive(s.order, s.jobs, device, report, now);
    if live == None {
      assert forall id | id in s.jobs :: id in s.order;
      Agree.MemoryGrantsTheOldest(s, device, report, lease, now, until);
      OthersOnlyExpire(s, device, report, lease, now, until);
      EarlierOnesExpire(s, device, report, lease, now, until);
    }
  }

  /** In a scan in issue order, whatever is older than the job granted lies before it. */
  lemma EarlierInTheScan(
    ids: seq<JobId>, jobs: map<JobId, JobRow>, after: map<JobId, JobRow>, p: nat, now: Time, id: JobId)
    requires (forall i | i in ids :: i in jobs) && after.Keys == jobs.Keys && p <= |ids| && Agree.Sorted(ids, jobs)
    requires forall k | 0 <= k < p :: after[ids[k]] == M.Swept(jobs[ids[k]], now)
    requires id in ids && TimeIsUp(jobs[id], now)
    requires p < |ids| ==> jobs[id].envelope.issuedAt < jobs[ids[p]].envelope.issuedAt
    ensures after[id].state == Expired
  {
    var k :| 0 <= k < |ids| && ids[k] == id;
    assert k < p;
  }

  lemma EarlierOnesExpire(s: M.Store, device: DeviceId, report: Report, lease: LeaseId, now: Time, until: Time)
    requires M.StoreOk(s) && M.FirstLive(s.order, s.jobs, device, report, now) == None
    ensures var (after, chosen) := M.Claim(s, device, report, lease, now, until);
      && after.jobs.Keys == s.jobs.Keys && (chosen.Some? ==> chosen.value in s.jobs)
      && forall id | id in s.jobs && TimeIsUp(s.jobs[id], now)
                     && (chosen.Some? ==> s.jobs[id].envelope.issuedAt < s.jobs[chosen.value].envelope.issuedAt) ::
           after.jobs[id].state == Expired
  {
    M.CandidatesAreDistinct(s);
    Agree.CandidatesAreSorted(s);
    var ids := M.Candidates(s);
    var p := M.ScanMeaning(ids, s.jobs, device, report, lease, now, until);
    var (after, chosen) := M.ScanCandidates(ids, s.jobs, device, report, lease, now, until);
    assert chosen == if p == |ids| then None else Some(ids[p]);
    forall id | id in s.jobs && TimeIsUp(s.jobs[id], now)
                && (chosen.Some? ==> s.jobs[id].envelope.issuedAt < s.jobs[chosen.value].envelope.issuedAt)
      ensures after[id].state == Expired
    {
      EarlierInTheScan(ids, s.jobs, after, p, now, id);
    }
  }

  lemma OthersOnlyExpire(s: M.Store, device: DeviceId, report: Report, lease: LeaseId, now: Time, until: Time)
    requires M.StoreOk(s) && M.FirstLive(s.order, s.jobs, device, report, now) == None
    ensures var (after, chosen) := M.Claim(s, device, report, lease, now, until);
      && after.order == s.order && after.jobs.Keys == s.jobs.Keys
      && forall id | id in s.jobs && chosen != Some(id) ::
           after.jobs[id] == s.jobs[id]
           || (TimeIsUp(s.jobs[id], now) && after.jobs[id] == s.jobs[id].(state := Expired))
  {
    M.CandidatesAreDistinct(s);
    var p := M.ScanMeaning(M.Candidates(s), s.jobs, device, report, lease, now, until);
  }
}
