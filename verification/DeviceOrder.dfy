/** How the database hands the jobs of one device out, when the device reports the same abilities
    throughout: first leases in issue order, and no two jobs at a time unless they were issued at
    the same instant. */
module DeviceOrder {
  import opened Protocol
  import opened JobLifecycle
  import opened Invariants
  import opened ControlPlaneRuns
  import CP = ControlPlane
  import History = CheckoutHistory
  import Theorems = ControlPlaneTheorems

  /** What each device reports, the same for the whole history. */
  type Reports = DeviceId -> Report

  ghost predicate Reporting(events: seq<Event>, reports: Reports) {
    forall k | 0 <= k < |events| && events[k].ClaimJob? :: events[k].report == reports(events[k].runner.deviceId)
  }

  predicate SameRunner(a: JobRow, b: JobRow) {
    a.envelope.organizationId == b.envelope.organizationId && a.envelope.deviceId == b.envelope.deviceId
  }

  predicate Supported(row: JobRow, reports: Reports) { Supports(reports(row.envelope.deviceId), row) }

  /** No supported job waits that was issued before a leased one, and jobs that are held together
      were issued together. */
  predicate InOrder(a: JobRow, b: JobRow, reports: Reports) {
    && (a.leaseId.Some? && b.state == Pending && Supported(b, reports) ==> a.envelope.issuedAt <= b.envelope.issuedAt)
    && (Held(a) && Held(b) ==> a.envelope.issuedAt == b.envelope.issuedAt)
  }

  ghost predicate Ordered(jobs: map<JobId, JobRow>, reports: Reports) {
    && (forall a | a in jobs && Held(jobs[a]) :: Supported(jobs[a], reports))
    && (forall a, b | a in jobs && b in jobs && SameRunner(jobs[a], jobs[b]) :: InOrder(jobs[a], jobs[b], reports))
  }

  // ----- steps that lease nothing -----

  predicate CalmRow(row: JobRow, next: JobRow) {
    && next.envelope == row.envelope && next.leaseId == row.leaseId
    && (Held(next) ==> Held(row)) && (next.state == Pending ==> row.state == Pending)
  }

  /** Rows are leased no further, and new ones are issued now. */
  ghost predicate Calm(jobs: map<JobId, JobRow>, after: map<JobId, JobRow>, now: Time) {
    forall id | id in after ::
      if id in jobs then CalmRow(jobs[id], after[id])
      else after[id].state == Pending && after[id].leaseId == None && after[id].envelope.issuedAt == now
  }

  lemma CalmKeepsOrdered(jobs: map<JobId, JobRow>, after: map<JobId, JobRow>, now: Time, reports: Reports)
    requires Ordered(jobs, reports) && Calm(jobs, after, now)
    requires forall id | id in jobs :: jobs[id].envelope.issuedAt <= now
    ensures Ordered(after, reports)
  {
    forall a, b | a in after && b in after && SameRunner(after[a], after[b])
      ensures InOrder(after[a], after[b], reports)
    {
      if a in jobs && b in jobs { assert InOrder(jobs[a], jobs[b], reports); }
    }
  }

  lemma OtherStepsAreCalm(w: World, e: Event, next: World)
    requires TableOk(Theorems.TableOf(w)) && Step(w, e, next) && !e.ClaimJob?
    ensures Calm(w.db.jobs, next.db.jobs, next.clock)
  {
    Theorems.StepMovesRows(w, e, next);
    forall id | id in next.db.jobs && id !in w.db.jobs
      ensures next.db.jobs[id].envelope.issuedAt == next.clock
    {
      History.NewRowsAreInserted(w, e, next, id);
    }
    forall id | id in w.db.jobs ensures CalmRow(w.db.jobs[id], next.db.jobs[id]) {
      LeasingNothingIsCalm(w.db.jobs[id], next.db.jobs[id], w.leases);
    }
  }

  lemma LeasingNothingIsCalm(row: JobRow, next: JobRow, leases: set<LeaseId>)
    requires RowStep(row, next, leases) && (next.leaseId.Some? ==> next.leaseId.value in leases)
    ensures CalmRow(row, next)
  {
  }

  // ----- the claim -----

  lemma SweepIsCalm(jobs: map<JobId, JobRow>, device: DeviceId, now: Time)
    ensures Calm(jobs, CP.ExpireForDevice(jobs, device, now), now)
  {
  }

  /** The granted job is an oldest one; whoever is still held beside it is as old. */
  lemma GrantKeepsPair(
    swept: map<JobId, JobRow>, runner: Runner, lease: LeaseId, now: Time, until: Time, reports: Reports,
    chosen: JobId, other: JobId)
    requires Ordered(swept, reports) && other in swept && other != chosen
    requires CP.OldestFree(swept, runner, reports(runner.deviceId), now, chosen)
    requires RowOk(swept[other]) && SameRunner(swept[chosen], swept[other])
    requires !EnvelopeExpired(swept[other], now)
    requires !CP.ClaimableLive(swept[other], runner, reports(runner.deviceId), now)
    ensures InOrder(Grant(swept[chosen], lease, until), swept[other], reports)
    ensures InOrder(swept[other], Grant(swept[chosen], lease, until), reports)
  {
    assert InOrder(swept[other], swept[chosen], reports) && InOrder(swept[chosen], swept[other], reports);
    if Held(swept[other]) || (swept[other].state == Pending && Supported(swept[other], reports)) {
      assert CP.ClaimableFree(swept[other], runner, reports(runner.deviceId), now);
    }
  }

  lemma GrantKeepsOrdered(
    swept: map<JobId, JobRow>, runner: Runner, lease: LeaseId, now: Time, until: Time, reports: Reports, chosen: JobId)
    requires Ordered(swept, reports)
    requires CP.OldestFree(swept, runner, reports(runner.deviceId), now, chosen)
    requires forall id | id in swept :: RowOk(swept[id])
    requires forall id | id in swept && swept[id].envelope.deviceId == runner.deviceId ::
      !EnvelopeExpired(swept[id], now)
    requires forall id | id in swept :: !CP.ClaimableLive(swept[id], runner, reports(runner.deviceId), now)
    ensures Ordered(swept[chosen := Grant(swept[chosen], lease, until)], reports)
  {
    var after := swept[chosen := Grant(swept[chosen], lease, until)];
    forall a, b | a in after && b in after && SameRunner(after[a], after[b])
      ensures InOrder(after[a], after[b], reports)
    {
      if a == chosen && b != chosen {
        GrantKeepsPair(swept, runner, lease, now, until, reports, chosen, b);
      } else if b == chosen && a != chosen {
        GrantKeepsPair(swept, runner, lease, now, until, reports, chosen, a);
      } else if a != chosen {
        assert InOrder(swept[a], swept[b], reports);
      }
    }
  }

  lemma ClaimEitherSweepsOrGrants(
    db: CP.Db, runner: Runner, report: Report, lease: LeaseId, now: Time, until: Time,
    after: CP.Db, chosen: Option<JobId>)
    requires CP.Claim(db, runner, report, lease, now, until, after, chosen)
    ensures var swept := CP.ExpireForDevice(db.jobs, runner.deviceId, now);
      || after.jobs == swept
      || (chosen.Some? && CP.OldestFree(swept, runner, report, now, chosen.value)
          && after.jobs == swept[chosen.value := Grant(swept[chosen.value], lease, until)]
          && forall id | id in swept :: !CP.ClaimableLive(swept[id], runner, report, now))
  {
  }

  lemma SweptRows(jobs: map<JobId, JobRow>, device: DeviceId, now: Time)
    requires forall id | id in jobs :: RowOk(jobs[id])
    ensures var swept := CP.ExpireForDevice(jobs, device, now);
      && (forall id | id in swept :: RowOk(swept[id]))
      && (forall id | id in swept && swept[id].envelope.deviceId == device :: !EnvelopeExpired(swept[id], now))
  {
  }

  lemma ClaimKeepsOrdered(
    db: CP.Db, runner: Runner, lease: LeaseId, now: Time, until: Time, after: CP.Db, chosen: Option<JobId>,
    reports: Reports)
    requires Ordered(db.jobs, reports) && forall id | id in db.jobs :: RowOk(db.jobs[id])
    requires forall id | id in db.jobs :: db.jobs[id].envelope.issuedAt <= now
    requires CP.Claim(db, runner, reports(runner.deviceId), lease, now, until, after, chosen)
    ensures Ordered(after.jobs, reports)
  {
    var swept := CP.ExpireForDevice(db.jobs, runner.deviceId, now);
    SweepIsCalm(db.jobs, runner.deviceId, now);
    CalmKeepsOrdered(db.jobs, swept, now, reports);
    ClaimEitherSweepsOrGrants(db, runner, reports(runner.deviceId), lease, now, until, after, chosen);
    if after.jobs != swept {
      SweptRows(db.jobs, runner.deviceId, now);
      GrantKeepsOrdered(swept, runner, lease, now, until, reports, chosen.value);
    }
  }

  // ----- every history -----

  lemma {:induction false} HistoryIsOrdered(run: seq<World>, events: seq<Event>, reports: Reports, k: nat)
    requires IsHistory(run, events) && Reporting(events, reports) && k < |run|
    ensures Ordered(run[k].db.jobs, reports)
  {
    if k > 0 {
      var w, e, next := run[k - 1], events[k - 1], run[k];
      HistoryIsOrdered(run, events, reports, k - 1);
      Theorems.HistoryIsOk(run, events, k - 1);
      assert EventAt(run, events, k - 1);
      assert forall id | id in w.db.jobs :: w.db.jobs[id].envelope.issuedAt <= next.clock by {
        RowsWereIssued(run, events, k - 1);
      }
      if e.ClaimJob? {
        var chosen :| CP.Claim(w.db, e.runner, e.report, e.lease, next.clock, e.until, next.db, chosen);
        ClaimKeepsOrdered(w.db, e.runner, e.lease, next.clock, e.until, next.db, chosen, reports);
      } else {
        OtherStepsAreCalm(w, e, next);
        CalmKeepsOrdered(w.db.jobs, next.db.jobs, next.clock, reports);
      }
    }
  }

  lemma RowsWereIssued(run: seq<World>, events: seq<Event>, k: nat)
    requires IsHistory(run, events) && k < |run|
    ensures forall id | id in run[k].db.jobs :: run[k].db.jobs[id].envelope.issuedAt <= run[k].clock
  {
    HistoryKeepsInv(run, events, k);
    forall id | id in run[k].db.jobs ensures run[k].db.jobs[id].envelope.issuedAt <= run[k].clock {
      assert RowFine(id, run[k].db.jobs[id], run[k].clock);
    }
  }

  /** Two jobs that a device holds at the same time were issued at the same instant. So when the
      jobs of a device have distinct issue times, it holds one at most, lapsed and renewed leases
      included. */
  lemma JobsHeldTogetherWereIssuedTogether(
    run: seq<World>, events: seq<Event>, reports: Reports, k: nat, a: JobId, b: JobId)
    requires IsHistory(run, events) && Reporting(events, reports) && k < |run|
    requires a in run[k].db.jobs && b in run[k].db.jobs && SameRunner(run[k].db.jobs[a], run[k].db.jobs[b])
    requires Held(run[k].db.jobs[a]) && Held(run[k].db.jobs[b])
    ensures run[k].db.jobs[a].envelope.issuedAt == run[k].db.jobs[b].envelope.issuedAt
  {
    HistoryIsOrdered(run, events, reports, k);
    assert InOrder(run[k].db.jobs[a], run[k].db.jobs[b], reports);
  }

  /** Supported jobs are first leased in the order they were issued: once a job has been leased,
      every supported job issued before it for that device was leased earlier or has ended. */
  lemma FirstLeasesFollowIssueOrder(
    run: seq<World>, events: seq<Event>, reports: Reports, k: nat, a: JobId, b: JobId)
    requires IsHistory(run, events) && Reporting(events, reports) && k < |run|
    requires a in run[k].db.jobs && b in run[k].db.jobs && SameRunner(run[k].db.jobs[a], run[k].db.jobs[b])
    requires Supported(run[k].db.jobs[a], reports)
    requires run[k].db.jobs[a].envelope.issuedAt < run[k].db.jobs[b].envelope.issuedAt
    requires run[k].db.jobs[b].attemptCount > 0
    ensures run[k].db.jobs[a].attemptCount > 0 || Terminal(run[k].db.jobs[a])
  {
    HistoryIsOrdered(run, events, reports, k);
    Theorems.HistoryIsOk(run, events, k);
    assert InOrder(run[k].db.jobs[b], run[k].db.jobs[a], reports);
  }

  // ----- two jobs issued at the same instant -----

  const RUNNER := Runner(0, 0)
  const SCANS := Report({ScanProjectKind}, false)
  const ONE := Envelope(1, ScanKey(1), 0, 0, None, 2, 100, ScanProject(0, false))
  const TWO := Envelope(2, ScanKey(2), 0, 0, None, 2, 100, ScanProject(1, false))

  function Devices(seen: Option<Time>): map<DeviceId, CP.Device> {
    map[0 := CP.Device(0, true, seen, Some(SCANS))]
  }

  function Tables(jobs: map<JobId, JobRow>, seen: Option<Time>): CP.Db {
    CP.Db(jobs, map[], map[], map[], map[], Devices(seen), map[])
  }

  const TIED_EVENTS: seq<Event> := [
    Enroll(0, 0, SCANS),
    EnqueueDeviceJob(ONE),
    EnqueueDeviceJob(TWO),
    ClaimJob(RUNNER, SCANS, 0, 4),
    ClaimJob(RUNNER, SCANS, 1, 9),
    JobControl(RUNNER, 1, 0, 9)]

  const TIED_RUN: seq<World> := [
    START,
    World(Tables(map[], None), 1, {}),
    World(Tables(map[1 := NewRow(ONE)], None), 2, {}),
    World(Tables(map[1 := NewRow(ONE), 2 := NewRow(TWO)], None), 2, {}),
    World(Tables(map[1 := Grant(NewRow(ONE), 0, 4), 2 := NewRow(TWO)], Some(3)), 3, {0}),
    World(Tables(map[1 := Grant(NewRow(ONE), 0, 4), 2 := Grant(NewRow(TWO), 1, 9)], Some(5)), 5, {0, 1}),
    World(Tables(map[1 := Grant(NewRow(ONE), 0, 9), 2 := Grant(NewRow(TWO), 1, 9)], Some(6)), 6, {0, 1})]

  lemma TheFirstIsClaimed()
    ensures CP.Claim(TIED_RUN[3].db, RUNNER, SCANS, 0, 3, 4, TIED_RUN[4].db, Some(1))
  {
    assert CP.ExpireForDevice(TIED_RUN[3].db.jobs, 0, 3) == TIED_RUN[3].db.jobs;
    assert CP.ClaimableFree(NewRow(ONE), RUNNER, SCANS, 3);
  }

  /** The lease of the first job has lapsed: both are free, and either is an oldest one. */
  lemma TheSecondIsClaimed()
    ensures CP.Claim(TIED_RUN[4].db, RUNNER, SCANS, 1, 5, 9, TIED_RUN[5].db, Some(2))
  {
    assert CP.ExpireForDevice(TIED_RUN[4].db.jobs, 0, 5) == TIED_RUN[4].db.jobs;
    assert CP.ClaimableFree(NewRow(TWO), RUNNER, SCANS, 5);
  }

  lemma TheFirstIsRenewed()
    ensures CP.Control(TIED_RUN[5].db, RUNNER, 1, 0, 6, 9).0 == TIED_RUN[6].db
  {
  }

  lemma BothAreQueued()
    ensures Step(TIED_RUN[0], TIED_EVENTS[0], TIED_RUN[1])
    ensures Step(TIED_RUN[1], TIED_EVENTS[1], TIED_RUN[2])
    ensures Step(TIED_RUN[2], TIED_EVENTS[2], TIED_RUN[3])
  {
  }

  lemma OneIsClaimed()
    ensures Step(TIED_RUN[3], TIED_EVENTS[3], TIED_RUN[4])
  {
    TheFirstIsClaimed();
  }

  lemma TwoIsClaimed()
    ensures Step(TIED_RUN[4], TIED_EVENTS[4], TIED_RUN[5])
  {
    TheSecondIsClaimed();
  }

  lemma OneIsRenewed()
    ensures Step(TIED_RUN[5], TIED_EVENTS[5], TIED_RUN[6])
  {
    TheFirstIsRenewed();
  }

  lemma TiedRunIsAHistory()
    ensures IsHistory(TIED_RUN, TIED_EVENTS)
  {
    forall k | 0 <= k < |TIED_EVENTS| ensures EventAt(TIED_RUN, TIED_EVENTS, k) {
      if k < 3 {
        BothAreQueued();
      } else if k == 3 {
        OneIsClaimed();
      } else if k == 4 {
        TwoIsClaimed();
      } else {
        OneIsRenewed();
      }
    }
  }

  /** A tie can give a device two jobs at a time, both under a live lease: the second is handed out
      while the first is lapsed, and the runner renews the first. */
  lemma ATieIsHeldTwice()
    ensures IsHistory(TIED_RUN, TIED_EVENTS) && Reporting(TIED_EVENTS, _ => SCANS)
    ensures LeaseLive(TIED_RUN[6].db.jobs[1], 6) && LeaseLive(TIED_RUN[6].db.jobs[2], 6)
    ensures SameRunner(TIED_RUN[6].db.jobs[1], TIED_RUN[6].db.jobs[2])
  {
    TiedRunIsAHistory();
  }
}
