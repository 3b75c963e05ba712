/** How the operations of a checkout follow one another over a history. */
module CheckoutHistory {
  import opened Protocol
  import opened ResultMatching
  import opened JobLifecycle
  import opened Invariants
  import opened ControlPlaneRuns
  import CP = ControlPlane
  import Theorems = ControlPlaneTheorems

  // ----- where new rows come from -----

  ghost predicate Inserted(w: World, e: Event, next: World, id: JobId) {
    && id in next.db.jobs
    && next.db.jobs[id].envelope.issuedAt == next.clock
    && (next.db.jobs[id].envelope.job.PlanSetup? ==> e.RequestPlan? && next.db.jobs[id].envelope == e.job)
  }

  lemma NewRowsAreInserted(w: World, e: Event, next: World, id: JobId)
    requires Step(w, e, next) && id in next.db.jobs && id !in w.db.jobs
    ensures Inserted(w, e, next, id)
  {
    Theorems.OnlyQueueingInserts(w, e, next);
    QueueingEffect(w, e, next);
  }

  lemma OldRowsKeepTheirEnvelope(run: seq<World>, events: seq<Event>, k: nat, id: JobId)
    requires IsHistory(run, events) && k < |events| && id in run[k].db.jobs
    ensures id in run[k + 1].db.jobs
    ensures run[k + 1].db.jobs[id].envelope == run[k].db.jobs[id].envelope
    ensures Active(run[k + 1].db.jobs[id]) ==> Active(run[k].db.jobs[id])
    ensures Terminal(run[k].db.jobs[id]) ==> run[k + 1].db.jobs[id] == run[k].db.jobs[id]
  {
    Theorems.HistoryIsOk(run, events, k);
    assert EventAt(run, events, k);
    Theorems.StepIsTableStep(run[k], events[k], run[k + 1]);
    StepOnRow(Theorems.TableOf(run[k]), Theorems.TableOf(run[k + 1]), id);
  }

  // ----- the active operation of a checkout is its newest -----

  ghost predicate Outdates(a: JobRow, b: JobRow) {
    IsSetupOperation(a.envelope.job) && IsSetupOperation(b.envelope.job)
    && SameInstance(a.envelope, b.envelope) && Active(a)
    ==> b.envelope.issuedAt < a.envelope.issuedAt
  }

  lemma {:induction false} ActiveOperationIsNewest(
    run: seq<World>, events: seq<Event>, k: nat, a: JobId, b: JobId)
    requires IsHistory(run, events) && Ticks(run) && k < |run|
    requires a in run[k].db.jobs && b in run[k].db.jobs && a != b
    ensures Outdates(run[k].db.jobs[a], run[k].db.jobs[b])
  {
    if k > 0 {
      var w := run[k - 1];
      assert EventAt(run, events, k - 1) && TickAt(run, k - 1);
      HistoryKeepsInv(run, events, k - 1);
      HistoryKeepsInv(run, events, k);
      forall id | id in {a, b}
        ensures id in w.db.jobs ==>
          && run[k].db.jobs[id].envelope == w.db.jobs[id].envelope
          && (Active(run[k].db.jobs[id]) ==> Active(w.db.jobs[id]))
          && w.db.jobs[id].envelope.issuedAt <= w.clock
        ensures id !in w.db.jobs ==> run[k].db.jobs[id].envelope.issuedAt == run[k].clock
        ensures id !in w.db.jobs ==> run[k].db.jobs[id] == NewRow(run[k].db.jobs[id].envelope)
      {
        if id in w.db.jobs {
          OldRowsKeepTheirEnvelope(run, events, k - 1, id);
          assert RowFine(id, w.db.jobs[id], w.clock);
        } else {
          NewRowsAreInserted(w, events[k - 1], run[k], id);
          NewRowsArePending(run, events, k - 1, id);
        }
      }
      if a in w.db.jobs && b in w.db.jobs {
        ActiveOperationIsNewest(run, events, k - 1, a, b);
      } else {
        OnlyOneOfTwoIsActive(run[k].db, a, b);
      }
    }
  }

  lemma OnlyOneOfTwoIsActive(db: CP.Db, a: JobId, b: JobId)
    requires SingleFlight(db.jobs) && a in db.jobs && b in db.jobs && a != b
    ensures !Collide(db.jobs[a], db.jobs[b])
  {
  }

  lemma NewRowsArePending(run: seq<World>, events: seq<Event>, k: nat, id: JobId)
    requires IsHistory(run, events) && k < |events| && id in run[k + 1].db.jobs && id !in run[k].db.jobs
    ensures run[k + 1].db.jobs[id] == NewRow(run[k + 1].db.jobs[id].envelope)
  {
    Theorems.HistoryIsOk(run, events, k);
    assert EventAt(run, events, k);
    Theorems.StepIsTableStep(run[k], events[k], run[k + 1]);
  }

  // ----- an active operation comes after the end of every other -----

  ghost predicate Follows(a: JobRow, b: JobRow) {
    IsSetupOperation(a.envelope.job) && IsSetupOperation(b.envelope.job)
    && SameInstance(a.envelope, b.envelope) && Active(a) && b.completedAt.Some?
    ==> b.completedAt.value <= a.envelope.issuedAt
  }

  /** While an operation is active, no other operation of its checkout ends. */
  lemma OthersRestWhileActive(run: seq<World>, events: seq<Event>, k: nat, a: JobId, b: JobId)
    requires IsHistory(run, events) && k < |events| && a != b
    requires a in run[k].db.jobs && b in run[k].db.jobs
    ensures a in run[k + 1].db.jobs && b in run[k + 1].db.jobs
    ensures var x, y := run[k + 1].db.jobs[a], run[k + 1].db.jobs[b];
      IsSetupOperation(x.envelope.job) && IsSetupOperation(y.envelope.job)
      && SameInstance(x.envelope, y.envelope) && Active(x)
      ==> y == run[k].db.jobs[b] && Active(run[k].db.jobs[a])
    ensures run[k + 1].db.jobs[a].envelope == run[k].db.jobs[a].envelope
    ensures run[k + 1].db.jobs[b].envelope == run[k].db.jobs[b].envelope
  {
    OldRowsKeepTheirEnvelope(run, events, k, a);
    OldRowsKeepTheirEnvelope(run, events, k, b);
    assert SingleFlight(run[k].db.jobs) by { HistoryKeepsInv(run, events, k); }
    OnlyOneOfTwoIsActive(run[k].db, a, b);
  }

  lemma {:induction false} ActiveOperationIsLast(
    run: seq<World>, events: seq<Event>, k: nat, a: JobId, b: JobId)
    requires IsHistory(run, events) && k < |run|
    requires a in run[k].db.jobs && b in run[k].db.jobs && a != b
    ensures Follows(run[k].db.jobs[a], run[k].db.jobs[b])
  {
    if k > 0 {
      var w := run[k - 1];
      assert EventAt(run, events, k - 1);
      if a in w.db.jobs && b in w.db.jobs {
        ActiveOperationIsLast(run, events, k - 1, a, b);
        OthersRestWhileActive(run, events, k - 1, a, b);
      } else {
        assert RowFine(b, run[k].db.jobs[b], run[k].clock) by { HistoryKeepsInv(run, events, k); }
        if b !in w.db.jobs {
          NewRowsArePending(run, events, k - 1, b);
        } else {
          NewRowsAreInserted(w, events[k - 1], run[k], a);
        }
      }
    }
  }

  // ----- on a clock that ticks, no success coincides with an issue -----

  /** No job succeeds at the instant at which a job is issued. */
  ghost predicate Apart(db: CP.Db) {
    forall a, b | a in db.jobs && b in db.jobs :: ApartRows(db.jobs[a], db.jobs[b])
  }

  ghost predicate ApartRows(a: JobRow, b: JobRow) {
    b.state == Succeeded && b.completedAt.Some? ==> b.completedAt.value != a.envelope.issuedAt
  }

  lemma OtherSuccesses(w: World, e: Event, next: World, id: JobId)
    requires Does(w.db, next.clock, e, next.db)
    requires !Queues(e)
    requires id in w.db.jobs && id in next.db.jobs && next.db.jobs[id].state == Succeeded
    ensures next.db.jobs[id] == w.db.jobs[id] || next.db.jobs[id].completedAt == Some(next.clock)
            || (next.db.jobs[id].completedAt == w.db.jobs[id].completedAt && w.db.jobs[id].state == Succeeded)
  {
    match e {
      case ClaimJob(runner, report, lease, until) =>
        var chosen :| CP.Claim(w.db, runner, report, lease, next.clock, until, next.db, chosen);
        CP.ClaimOnRows(w.db, runner, report, lease, next.clock, until, next.db, chosen);
        assert CP.ClaimedRow(w.db.jobs[id], next.db.jobs[id], chosen == Some(id), lease, next.clock, until);
      case SubmitResult(runner, id', lease, result, digest) =>
        SubmittedRow(w.db, runner, id', lease, result, digest, next.clock, id);
      case _ =>
    }
  }

  lemma SubmittedRow(
    db: CP.Db, runner: Runner, id: JobId, lease: LeaseId, result: ResultEnvelope, digest: Digest, now: Time,
    other: JobId)
    requires other in db.jobs
    ensures var after := CP.CompleteJob(db, runner, id, lease, result, digest, now).0;
      other in after.jobs
      && (after.jobs[other] == db.jobs[other] || after.jobs[other].completedAt == Some(now))
  {
  }

  lemma {:induction false} SuccessesAndIssuesAreApart(run: seq<World>, events: seq<Event>, k: nat)
    requires IsHistory(run, events) && Ticks(run) && k < |run|
    ensures Apart(run[k].db)
  {
    if k > 0 {
      SuccessesAndIssuesAreApart(run, events, k - 1);
      forall a, b | a in run[k].db.jobs && b in run[k].db.jobs
        ensures ApartRows(run[k].db.jobs[a], run[k].db.jobs[b])
      {
        PairStaysApart(run, events, k - 1, a, b);
      }
    }
  }

  lemma PairStaysApart(run: seq<World>, events: seq<Event>, k: nat, a: JobId, b: JobId)
    requires IsHistory(run, events) && Ticks(run) && k < |events| && Apart(run[k].db)
    requires a in run[k + 1].db.jobs && b in run[k + 1].db.jobs
    ensures ApartRows(run[k + 1].db.jobs[a], run[k + 1].db.jobs[b])
  {
    var w, e, next := run[k], events[k], run[k + 1];
    assert EventAt(run, events, k) && TickAt(run, k);
    assert forall id | id in w.db.jobs :: RowTimes(w.db.jobs[id], w.clock) by {
      HistoryKeepsInv(run, events, k);
      forall id | id in w.db.jobs ensures RowTimes(w.db.jobs[id], w.clock) {
        assert RowFine(id, w.db.jobs[id], w.clock);
      }
    }
    if b !in w.db.jobs {
      NewRowsArePending(run, events, k, b);
    } else if next.db.jobs[b].state == Succeeded {
      if a in w.db.jobs {
        OldRowsKeepTheirEnvelope(run, events, k, a);
        assert ApartRows(w.db.jobs[a], w.db.jobs[b]);
      } else {
        NewRowsAreInserted(w, e, next, a);
      }
      if Queues(e) {
        QueueingEffect(w, e, next);
      } else {
        Theorems.OnlyQueueingInserts(w, e, next);
        OtherSuccesses(w, e, next, b);
      }
    }
  }
}
