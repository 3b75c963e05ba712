/** Whole runs of the in-memory repository: one held job per device, and first leases in
    issue order. */
module MemoryRuns {
  import opened Protocol
  import opened JobLifecycle
  import opened Sorting
  import M = MemoryTransport

  /** The repository and every lease id it was ever given. */
  datatype World = World(store: M.Store, leases: set<LeaseId>)

  datatype Call =
    | Enqueue(envelope: Envelope)
    | Claim(device: DeviceId, leaseId: LeaseId, now: Time, leaseExpiresAt: Time)
    | Acknowledge(runner: Runner, id: JobId, lease: LeaseId, digest: Digest, now: Time)
    | Submit(runner: Runner, id: JobId, lease: LeaseId, result: ResultEnvelope, digest: Digest)
    | Control(runner: Runner, id: JobId, lease: LeaseId, leaseExpiresAt: Time)
    | Cancel(organization: OrganizationId, id: JobId, now: Time)

  /** What each device reports, the same for the whole run. */
  type Reports = DeviceId -> Report

  const EMPTY := World(M.Store([], map[]), {})

  ghost predicate Allowed(w: World, call: Call) {
    match call
    case Enqueue(envelope) =>
      envelope.jobId !in w.store.jobs
      && forall id | id in w.store.jobs :: w.store.jobs[id].envelope.issuedAt <= envelope.issuedAt
    case Claim(_, leaseId, _, _) => leaseId !in w.leases
    case _ => true
  }

  ghost function Next(w: World, call: Call, reports: Reports): World
    requires M.StoreOk(w.store)
  {
    var s := w.store;
    match call
    case Enqueue(envelope) => w.(store := M.Enqueue(s, envelope))
    case Claim(device, leaseId, now, until) =>
      World(M.Claim(s, device, reports(device), leaseId, now, until).0, w.leases + {leaseId})
    case Acknowledge(runner, id, lease, digest, now) =>
      w.(store := M.Acknowledge(s, runner, id, lease, digest, now).0)
    case Submit(runner, id, lease, result, digest) =>
      w.(store := M.Complete(s, runner, id, lease, result, digest).0)
    case Control(runner, id, lease, until) =>
      w.(store := M.Control(s, runner, id, lease, until).0)
    case Cancel(organization, id, now) =>
      w.(store := M.RequestCancellation(s, organization, id, now).0)
  }

  function TableOf(w: World): Table { Table(w.store.jobs, w.leases) }

  ghost predicate IsMemoryRun(run: seq<World>, calls: seq<Call>, reports: Reports) {
    && |run| == |calls| + 1
    && run[0] == EMPTY
    && forall k | 0 <= k < |calls| :: CallAt(run, calls, reports, k)
  }

  ghost predicate CallAt(run: seq<World>, calls: seq<Call>, reports: Reports, k: nat)
    requires |run| == |calls| + 1 && k < |calls|
  {
    M.StoreOk(run[k].store) && Allowed(run[k], calls[k]) && run[k + 1] == Next(run[k], calls[k], reports)
  }

  ghost predicate WorldOk(w: World) {
    M.StoreOk(w.store) && TableOk(TableOf(w))
  }

  // ----- every call moves rows along the common life cycle -----

  lemma ClaimIsTableStep(w: World, device: DeviceId, report: Report, lease: LeaseId, now: Time, until: Time)
    requires WorldOk(w) && lease !in w.leases
    ensures var after := M.Claim(w.store, device, report, lease, now, until).0;
      M.StoreOk(after) && TableStep(TableOf(w), Table(after.jobs, w.leases + {lease}))
  {
    var after := M.Claim(w.store, device, report, lease, now, until).0;
    M.ClaimKeepsStoreOk(w.store, device, report, lease, now, until);
    assert after.order == w.store.order;
    assert forall id :: id in after.jobs <==> id in w.store.jobs;
    forall id | id in w.store.jobs
      ensures RowStep(w.store.jobs[id], after.jobs[id], w.leases)
      ensures after.jobs[id].leaseId.Some? ==> after.jobs[id].leaseId.value in w.leases + {lease}
    {
      M.ClaimRow(w.store, device, report, lease, now, until, id);
      var row, next := w.store.jobs[id], after.jobs[id];
      if next != row && !EnvelopeExpired(row, now) {
        assert GrantStep(row, next, w.leases);
      }
    }
  }

  lemma PutIsTableStep(w: World, id: JobId, next: JobRow)
    requires WorldOk(w) && id in w.store.jobs
    requires RowStep(w.store.jobs[id], next, w.leases) && RowOk(next)
    requires next.envelope == w.store.jobs[id].envelope && next.leaseId == w.store.jobs[id].leaseId
    ensures var after := w.(store := M.Put(w.store, id, next));
      M.StoreOk(after.store) && TableStep(TableOf(w), TableOf(after))
  {
  }

  lemma CallIsTableStep(w: World, call: Call, reports: Reports)
    requires WorldOk(w) && Allowed(w, call)
    ensures var next := Next(w, call, reports);
      WorldOk(next) && TableStep(TableOf(w), TableOf(next))
  {
    var next := Next(w, call, reports);
    match call {
      case Enqueue(envelope) =>
        assert next.store.order == w.store.order + [envelope.jobId];
      case Claim(device, lease, now, until) =>
        ClaimIsTableStep(w, device, reports(device), lease, now, until);
      case Acknowledge(runner, id, lease, digest, now) =>
        if M.Addressed(w.store, runner, id) {
          var row := AcknowledgeRow(w.store.jobs[id], lease, digest, now).0;
          assert AcknowledgeStep(w.store.jobs[id], row);
          PutIsTableStep(w, id, row);
        }
      case Submit(runner, id, lease, result, digest) =>
        if M.Addressed(w.store, runner, id) {
          var old_ := w.store.jobs[id];
          var row := CompleteRow(old_, lease, result, digest, old_.completedAt,
                                 M.MemoryMatches(old_.envelope, result)).0;
          assert CompleteStep(old_, row);
          PutIsTableStep(w, id, row);
        }
      case Control(runner, id, lease, until) =>
        if M.Addressed(w.store, runner, id) {
          var row := ControlRow(w.store.jobs[id], lease, until).0;
          assert ControlStep(w.store.jobs[id], row);
          PutIsTableStep(w, id, row);
        }
      case Cancel(organization, id, now) =>
        if id in w.store.jobs && w.store.jobs[id].envelope.organizationId == organization {
          var row := CancelRow(w.store.jobs[id], now, w.store.jobs[id].completedAt);
          assert CancelStep(w.store.jobs[id], row);
          PutIsTableStep(w, id, row);
        }
    }
    TableStepKeepsTableOk(TableOf(w), TableOf(next));
  }

  // ----- issue order and the single held job -----

  ghost predicate Queued(s: M.Store) {
    && (forall id | id in s.order :: id in s.jobs)
    && (forall i, j | 0 <= i < j < |s.order| ::
          s.jobs[s.order[i]].envelope.issuedAt <= s.jobs[s.order[j]].envelope.issuedAt)
  }

  /** Both rows are jobs this device is offered. */
  ghost predicate Rivals(a: JobRow, b: JobRow, reports: Reports) {
    && a.envelope.deviceId == b.envelope.deviceId
    && Supports(reports(a.envelope.deviceId), a)
    && Supports(reports(b.envelope.deviceId), b)
  }

  ghost predicate FirstLeasesInOrder(s: M.Store, reports: Reports)
    requires forall id | id in s.order :: id in s.jobs
  {
    forall i, j | 0 <= i < j < |s.order| ::
      Rivals(s.jobs[s.order[i]], s.jobs[s.order[j]], reports) && s.jobs[s.order[j]].attemptCount > 0
      ==> s.jobs[s.order[i]].state != Pending
  }

  ghost predicate OneHeldPerDevice(s: M.Store) {
    forall a, b | a in s.jobs && b in s.jobs ::
      (Held(s.jobs[a]) && Held(s.jobs[b])
       && s.jobs[a].envelope.deviceId == s.jobs[b].envelope.deviceId) ==> a == b
  }

  ghost predicate HeldAreSupported(s: M.Store, reports: Reports) {
    forall id | id in s.jobs ::
      Held(s.jobs[id]) ==> Supports(reports(s.jobs[id].envelope.deviceId), s.jobs[id])
  }

  ghost predicate Disciplined(s: M.Store, reports: Reports) {
    && M.StoreOk(s)
    && Queued(s)
    && FirstLeasesInOrder(s, reports)
    && OneHeldPerDevice(s)
    && HeldAreSupported(s, reports)
  }

  /** No row is granted: nothing becomes held or pending, attempts stay. */
  ghost predicate Calmer(row: JobRow, next: JobRow) {
    && next.envelope == row.envelope
    && next.attemptCount == row.attemptCount
    && (Held(next) ==> Held(row))
    && (next.state == Pending ==> row.state == Pending)
  }

  ghost predicate CalmStep(s: M.Store, t: M.Store) {
    && t.order == s.order && t.jobs.Keys == s.jobs.Keys
    && forall id | id in s.jobs :: Calmer(s.jobs[id], t.jobs[id])
  }

  lemma CalmStepKeepsOrder(s: M.Store, t: M.Store, reports: Reports)
    requires Queued(s) && FirstLeasesInOrder(s, reports) && CalmStep(s, t)
    ensures Queued(t) && FirstLeasesInOrder(t, reports)
  {
    forall i, j | 0 <= i < j < |t.order|
      ensures t.jobs[t.order[i]].envelope.issuedAt <= t.jobs[t.order[j]].envelope.issuedAt
      ensures Rivals(t.jobs[t.order[i]], t.jobs[t.order[j]], reports) && t.jobs[t.order[j]].attemptCount > 0
              ==> t.jobs[t.order[i]].state != Pending
    {
      var a, b := s.order[i], s.order[j];
      assert Calmer(s.jobs[a], t.jobs[a]) && Calmer(s.jobs[b], t.jobs[b]);
    }
  }

  lemma CalmStepKeepsDiscipline(s: M.Store, t: M.Store, reports: Reports)
    requires Disciplined(s, reports) && M.StoreOk(t) && CalmStep(s, t)
    ensures Disciplined(t, reports)
  {
    CalmStepKeepsOrder(s, t, reports);
    assert OneHeldPerDevice(t);
  }

  lemma QueuedStaysInOrder(s: M.Store)
    requires M.StoreOk(s) && Queued(s)
    ensures M.Candidates(s) == s.order
  {
    SortOfSorted(s.order, M.IssueOrder(s.jobs));
  }

  /** `t` is `s` after a sweep of the first `p` jobs and a grant of the one at `p`. */
  ghost predicate GrantedAt(
    s: M.Store, t: M.Store, device: DeviceId, reports: Reports,
    lease: LeaseId, now: Time, until: Time, p: nat)
    requires (forall id | id in s.order :: id in s.jobs) && p < |s.order|
  {
    && t.order == s.order && t.jobs.Keys == s.jobs.Keys
    && (forall id | id in s.order :: !M.LiveFor(s.jobs[id], device, reports(device), now))
    && M.Eligible(s.jobs[s.order[p]], device, reports(device), now)
    && (forall k | 0 <= k < p ::
          !M.Eligible(s.jobs[s.order[k]], device, reports(device), now)
          && t.jobs[s.order[k]] == M.Swept(s.jobs[s.order[k]], now))
    && t.jobs[s.order[p]] == Grant(s.jobs[s.order[p]], lease, until)
    && (forall k | p < k < |s.order| :: t.jobs[s.order[k]] == s.jobs[s.order[k]])
  }

  /** The heart of the matter: when a claim grants the job at `p`, any other job the device
      held came before it and was swept away as expired. */
  lemma HeldRivalWasSwept(
    s: M.Store, t: M.Store, device: DeviceId, reports: Reports,
    lease: LeaseId, now: Time, until: Time, p: nat, k: nat)
    requires Disciplined(s, reports) && p < |s.order| && k < |s.order| && k != p
    requires GrantedAt(s, t, device, reports, lease, now, until, p)
    requires s.jobs[s.order[k]].envelope.deviceId == device
    ensures !Held(t.jobs[s.order[k]])
  {
    var c, row := s.jobs[s.order[p]], s.jobs[s.order[k]];
    assert s.order[k] in s.jobs && s.order[p] in s.jobs && s.order[k] != s.order[p];
    if Held(row) {
      assert RowOk(row) && Supports(reports(device), row) && LeaseLapsed(row, now);
      assert !Held(c);
      assert Rivals(c, row, reports);
    }
  }

  lemma ClaimKeepsDiscipline(
    s: M.Store, device: DeviceId, reports: Reports, lease: LeaseId, now: Time, until: Time)
    requires Disciplined(s, reports)
    ensures Disciplined(M.Claim(s, device, reports(device), lease, now, until).0, reports)
  {
    var report := reports(device);
    var (t, granted) := M.Claim(s, device, report, lease, now, until);
    M.ClaimKeepsStoreOk(s, device, report, lease, now, until);
    M.FirstLiveMeaning(s.order, s.jobs, device, report, now);
    if M.FirstLive(s.order, s.jobs, device, report, now) == None {
      QueuedStaysInOrder(s);
      var p := M.ScanMeaning(s.order, s.jobs, device, report, lease, now, until);
      assert t.order == s.order;
      if p == |s.order| {
        forall id | id in s.jobs
          ensures Calmer(s.jobs[id], t.jobs[id])
        {
          var k :| 0 <= k < |s.order| && s.order[k] == id;
        }
        CalmStepKeepsDiscipline(s, t, reports);
      } else {
        GrantKeepsDiscipline(s, t, device, reports, lease, now, until, p);
      }
    }
  }

  lemma GrantKeepsOrder(
    s: M.Store, t: M.Store, device: DeviceId, reports: Reports,
    lease: LeaseId, now: Time, until: Time, p: nat)
    requires Queued(s) && FirstLeasesInOrder(s, reports) && p < |s.order|
    requires GrantedAt(s, t, device, reports, lease, now, until, p)
    ensures Queued(t) && FirstLeasesInOrder(t, reports)
  {
    forall i, j | 0 <= i < j < |t.order|
      ensures t.jobs[t.order[i]].envelope.issuedAt <= t.jobs[t.order[j]].envelope.issuedAt
      ensures Rivals(t.jobs[t.order[i]], t.jobs[t.order[j]], reports) && t.jobs[t.order[j]].attemptCount > 0
              ==> t.jobs[t.order[i]].state != Pending
    {
      var a, b := s.jobs[s.order[i]], s.jobs[s.order[j]];
      if Rivals(a, b, reports) && b.attemptCount > 0 {
        assert a.state != Pending;
      }
    }
  }

  lemma GrantOnRow(
    s: M.Store, t: M.Store, device: DeviceId, reports: Reports,
    lease: LeaseId, now: Time, until: Time, p: nat, id: JobId)
    requires Disciplined(s, reports) && p < |s.order| && id in s.jobs
    requires GrantedAt(s, t, device, reports, lease, now, until, p)
    ensures t.jobs[id].envelope == s.jobs[id].envelope
    ensures id != s.order[p] && Held(t.jobs[id]) ==>
              Held(s.jobs[id]) && t.jobs[id].envelope.deviceId != device
    ensures Held(t.jobs[id]) ==> Supports(reports(t.jobs[id].envelope.deviceId), t.jobs[id])
  {
    assert id in s.order;
    var k :| 0 <= k < |s.order| && s.order[k] == id;
    if k != p && s.jobs[id].envelope.deviceId == device {
      HeldRivalWasSwept(s, t, device, reports, lease, now, until, p, k);
    }
  }

  lemma GrantKeepsDiscipline(
    s: M.Store, t: M.Store, device: DeviceId, reports: Reports,
    lease: LeaseId, now: Time, until: Time, p: nat)
    requires Disciplined(s, reports) && M.StoreOk(t) && p < |s.order|
    requires GrantedAt(s, t, device, reports, lease, now, until, p)
    ensures Disciplined(t, reports)
  {
    GrantKeepsOrder(s, t, device, reports, lease, now, until, p);
    forall id | id in t.jobs
      ensures Held(t.jobs[id]) ==> Supports(reports(t.jobs[id].envelope.deviceId), t.jobs[id])
    {
      GrantOnRow(s, t, device, reports, lease, now, until, p, id);
    }
    forall a, b | a in t.jobs && b in t.jobs
      ensures (Held(t.jobs[a]) && Held(t.jobs[b])
               && t.jobs[a].envelope.deviceId == t.jobs[b].envelope.deviceId) ==> a == b
    {
      GrantOnRow(s, t, device, reports, lease, now, until, p, a);
      GrantOnRow(s, t, device, reports, lease, now, until, p, b);
    }
  }

  lemma EnqueueKeepsOrder(s: M.Store, envelope: Envelope, reports: Reports)
    requires Queued(s) && FirstLeasesInOrder(s, reports) && envelope.jobId !in s.jobs
    requires forall id | id in s.jobs :: s.jobs[id].envelope.issuedAt <= envelope.issuedAt
    ensures Queued(M.Enqueue(s, envelope)) && FirstLeasesInOrder(M.Enqueue(s, envelope), reports)
  {
    var t := M.Enqueue(s, envelope);
    assert t.order == s.order + [envelope.jobId];
    forall i, j | 0 <= i < j < |t.order|
      ensures t.jobs[t.order[i]].envelope.issuedAt <= t.jobs[t.order[j]].envelope.issuedAt
      ensures Rivals(t.jobs[t.order[i]], t.jobs[t.order[j]], reports) && t.jobs[t.order[j]].attemptCount > 0
              ==> t.jobs[t.order[i]].state != Pending
    {
      assert t.order[i] == s.order[i] && t.jobs[t.order[i]] == s.jobs[s.order[i]];
      if j < |s.order| { assert t.order[j] == s.order[j]; }
    }
  }

  lemma OtherCallIsCalm(w: World, call: Call, reports: Reports)
    requires M.StoreOk(w.store) && !call.Enqueue? && !call.Claim?
    ensures CalmStep(w.store, Next(w, call, reports).store)
  {
  }

  lemma CallKeepsDiscipline(w: World, call: Call, reports: Reports)
    requires WorldOk(w) && Disciplined(w.store, reports) && Allowed(w, call)
    ensures Disciplined(Next(w, call, reports).store, reports)
  {
    var next := Next(w, call, reports);
    if call.Claim? {
      ClaimKeepsDiscipline(w.store, call.device, reports, call.leaseId, call.now, call.leaseExpiresAt);
    } else {
      assert M.StoreOk(next.store) by { CallIsTableStep(w, call, reports); }
      if call.Enqueue? {
        EnqueueKeepsOrder(w.store, call.envelope, reports);
      } else {
        OtherCallIsCalm(w, call, reports);
        CalmStepKeepsDiscipline(w.store, next.store, reports);
      }
    }
  }

  // ----- theorems over whole runs -----

  lemma {:induction false} RunIsDisciplined(run: seq<World>, calls: seq<Call>, reports: Reports, k: nat)
    requires IsMemoryRun(run, calls, reports) && k < |run|
    ensures WorldOk(run[k]) && Disciplined(run[k].store, reports)
  {
    if k > 0 {
      RunIsDisciplined(run, calls, reports, k - 1);
      assert CallAt(run, calls, reports, k - 1);
      CallIsTableStep(run[k - 1], calls[k - 1], reports);
      CallKeepsDiscipline(run[k - 1], calls[k - 1], reports);
    }
  }

  /** The side condition inside `CallAt` never blocks a call. */
  lemma RunTakesAnyAllowedCall(run: seq<World>, calls: seq<Call>, reports: Reports, call: Call)
    requires IsMemoryRun(run, calls, reports) && Allowed(run[|calls|], call)
    ensures M.StoreOk(run[|calls|].store)
    ensures IsMemoryRun(run + [Next(run[|calls|], call, reports)], calls + [call], reports)
  {
    RunIsDisciplined(run, calls, reports, |calls|);
    var run', calls' := run + [Next(run[|calls|], call, reports)], calls + [call];
    forall k | 0 <= k < |calls'|
      ensures CallAt(run', calls', reports, k)
    {
      if k < |calls| {
        assert CallAt(run, calls, reports, k);
        assert run'[k] == run[k] && run'[k + 1] == run[k + 1] && calls'[k] == calls[k];
      }
    }
  }

  /** A run of the repository is a run of its job table, so everything proved of the job life
      cycle (fencing, final results) holds of it. */
  lemma MemoryRunIsTableRun(run: seq<World>, calls: seq<Call>, reports: Reports)
    requires IsMemoryRun(run, calls, reports)
    ensures IsRun(seq(|run|, i requires 0 <= i < |run| => TableOf(run[i])))
  {
    var tables := seq(|run|, i requires 0 <= i < |run| => TableOf(run[i]));
    forall k | 0 <= k < |tables| - 1
      ensures StepAt(tables, k)
    {
      RunIsDisciplined(run, calls, reports, k);
      assert CallAt(run, calls, reports, k);
      CallIsTableStep(run[k], calls[k], reports);
    }
  }

  /** Fencing as a caller meets it: once a job holding `lease` was found under another, a call that
      still carries `lease` is not accepted and leaves the repository as it was. */
  lemma StaleCallsChangeNothing(
    run: seq<World>, calls: seq<Call>, reports: Reports, i: nat, j: nat, k: nat,
    runner: Runner, id: JobId, lease: LeaseId, digest: Digest, result: ResultEnvelope, now: Time, until: Time)
    requires IsMemoryRun(run, calls, reports) && i <= j <= k < |run|
    requires id in run[i].store.jobs && run[i].store.jobs[id].leaseId == Some(lease)
    requires id in run[j].store.jobs && run[j].store.jobs[id].leaseId != Some(lease)
    ensures var s := run[k].store;
      && M.Acknowledge(s, runner, id, lease, digest, now).0 == s
      && M.Acknowledge(s, runner, id, lease, digest, now).1 != Accepted
      && M.Control(s, runner, id, lease, until).0 == s
      && !M.Control(s, runner, id, lease, until).1.Available?
      && M.Complete(s, runner, id, lease, result, digest).0 == s
      && M.Complete(s, runner, id, lease, result, digest).1 != Accepted
  {
    var tables := seq(|run|, n requires 0 <= n < |run| => TableOf(run[n]));
    MemoryRunIsTableRun(run, calls, reports);
    assert tables[i] == TableOf(run[i]) && tables[j] == TableOf(run[j]) && tables[k] == TableOf(run[k]);
    var s := run[k].store;
    LeasesOnlyGrow(tables, i, k, id);
    var row := s.jobs[id];
    StaleLeaseIsFenced(tables, i, j, k, id, lease, digest, result, now, until, row.completedAt,
                       M.MemoryMatches(row.envelope, result));
    assert s.jobs[id := row] == s.jobs;
  }

  /** At any time a device holds at most one job. */
  lemma AtMostOneHeldJobPerDevice(
    run: seq<World>, calls: seq<Call>, reports: Reports, k: nat, a: JobId, b: JobId)
    requires IsMemoryRun(run, calls, reports) && k < |run|
    requires a in run[k].store.jobs && b in run[k].store.jobs
    requires Held(run[k].store.jobs[a]) && Held(run[k].store.jobs[b])
    requires run[k].store.jobs[a].envelope.deviceId == run[k].store.jobs[b].envelope.deviceId
    ensures a == b
  {
    RunIsDisciplined(run, calls, reports, k);
  }

  /** Supported jobs are first leased in the order they were issued: once a job has been
      leased, every job issued before it for the same device was leased earlier or has ended
      without ever being leased. */
  lemma FirstLeasesFollowIssueOrder(
    run: seq<World>, calls: seq<Call>, reports: Reports, k: nat, a: JobId, b: JobId)
    requires IsMemoryRun(run, calls, reports) && k < |run|
    requires a in run[k].store.jobs && b in run[k].store.jobs
    requires Rivals(run[k].store.jobs[a], run[k].store.jobs[b], reports)
    requires run[k].store.jobs[a].envelope.issuedAt < run[k].store.jobs[b].envelope.issuedAt
    requires run[k].store.jobs[b].attemptCount > 0
    ensures run[k].store.jobs[a].attemptCount > 0 || Terminal(run[k].store.jobs[a])
  {
    RunIsDisciplined(run, calls, reports, k);
    var s := run[k].store;
    var i :| 0 <= i < |s.order| && s.order[i] == a;
    var j :| 0 <= j < |s.order| && s.order[j] == b;
    assert i < j;
    assert RowOk(s.jobs[a]);
  }
}
