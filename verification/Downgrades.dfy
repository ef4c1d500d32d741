/** Where sends that carry a revision come from: a downgraded edit claimed again, or an operator's recovery. */
module Downgrades {
  import opened Tables
  import opened OutboundQueue
  import opened ProjectionAccept
  import opened Delivery
  import opened Machine
  import opened QueueEffects
  import opened Fencing
  import opened Leases
  import opened Projection

  /** A row that was enqueued as a send carries no revision unless it recovers another; a row that was
      enqueued as an edit is a send only after a pass downgraded it. */
  predicate BornPlain(h: History, id: JobId, j: Job) {
    && id in h.enqueuedAs
    && (h.enqueuedAs[id].SendMessage? && j.recoveryOf.None? ==> j.revision.None?)
    && (h.enqueuedAs[id].EditMessageText? && j.kind.SendMessage? ==> j.attempts >= 1)
  }

  /** A claim that took an edit as a send is not its first. */
  predicate ClaimedAgain(h: History, worker: Worker) {
    var c := worker.claim;
    c.id in h.enqueuedAs && h.enqueuedAs[c.id].EditMessageText? && c.kind.SendMessage? ==> c.attempts >= 2
  }

  ghost predicate BornInv(s: Sys) {
    && Ledger(s)
    && (forall id | id in s.db.jobs :: BornPlain(s.history, id, s.db.jobs[id]))
    && (forall w | w in s.workers :: ClaimedAgain(s.history, s.workers[w]))
  }

  // ---------------------------------------------------------------- new rows

  ghost predicate NewRowsPlain(before: Db, after: Db) {
    forall id | id in after.jobs && id !in before.jobs ::
      after.jobs[id].kind.SendMessage? && after.jobs[id].recoveryOf.None? ==> after.jobs[id].revision.None?
  }

  lemma InsertIsPlain(db: Db, order: NewJob, now: int)
    requires order.revision.None?
    ensures NewRowsPlain(db, InsertJob(db, order, now))
  {
  }

  lemma AcceptIsPlain(s: Sys, event: Event, interval: int, t: Sys)
    requires t == AcceptStep(s, event, interval)
    ensures NewRowsPlain(s.db, t.db)
  {
    if Accept(s.db, event, s.now, interval).1.Recorded? {
      var key := LockBinding(s.db.bindings, event.operation).value;
      var revision := NextRevision(s.db.jobs, key, s.db.bindings[key]);
      RecordIsPlain(s.db.(inbox := s.db.inbox + {event.id}), key, event, revision, s.now, interval);
    } else {
      AcceptSkips(s, event, interval, t);
    }
  }

  lemma RecordIsPlain(db: Db, key: BindingKey, event: Event, revision: int, now: int, interval: int)
    requires key in db.bindings
    ensures NewRowsPlain(db, Record(db, key, event, revision, now, interval))
  {
  }

  lemma NewRowsArePlain(s: Sys, step: Step, t: Sys)
    requires IdsBelow(s.db) && Enabled(s, step) && !SenderStep(step) && Producer(step) && t == OutsideNext(s, step)
    ensures NewRowsPlain(s.db, t.db)
  {
    match step
    case Tick(_) =>
    case Enqueue(order) => InsertIsPlain(s.db, order, s.now);
    case AcceptEvent(event, interval) => AcceptIsPlain(s, event, interval, t);
    case AdmitNotice(notice, candidates) =>
      NoticesHaveNoRevision(s.db.(inbox := s.db.inbox + {notice.event}), notice, candidates, s.now);
    case RecoverSend(_) =>
    case Interact(command) =>
      var order := PerformQueue(s.db, command, s.now);
      if order.Some? { InsertIsPlain(s.db, order.value, s.now); }
  }

  // ---------------------------------------------------------------- every step

  lemma BornOutside(s: Sys, t: Sys)
    requires BornInv(s) && OutsideMove(s, t) && NewRowsPlain(s.db, t.db)
    ensures BornInv(t)
  {
    LedgerOutside(s, t);
    forall id | id in t.db.jobs ensures BornPlain(t.history, id, t.db.jobs[id]) {
      if id in s.db.jobs {
        assert OutsideRow(s.db.jobs[id], t.db.jobs[id]) && BornPlain(s.history, id, s.db.jobs[id]);
      }
    }
    forall w | w in t.workers ensures ClaimedAgain(t.history, t.workers[w]) {
      assert ClaimedAgain(s.history, s.workers[w]) && WorkerWf(s.db.jobs, s.workers[w]);
      assert BornPlain(s.history, s.workers[w].claim.id, s.db.jobs[s.workers[w].claim.id]);
    }
  }

  lemma BornClaimRow(h: History, id: JobId, j: Job, now: int, ttl: nat)
    requires BornPlain(h, id, j)
    ensures BornPlain(h, id, Quarantined(j, now)) && BornPlain(h, id, ClaimedJob(j, now, ttl))
    ensures ClaimedAgain(h, Worker(SnapshotOf(id, ClaimedJob(j, now, ttl)), Guarding))
  {
  }

  lemma BornClaimed(s: Sys, w: WorkerId, head: Option<JobId>, t: Sys, id: JobId)
    requires Enabled(s, ClaimNext(w, head)) && t == ClaimStep(s, w, head) && id in t.db.jobs
    requires id in s.db.jobs ==> BornPlain(s.history, id, s.db.jobs[id])
    ensures BornPlain(t.history, id, t.db.jobs[id])
  {
    ClaimShape(s, w, head);
    BornClaimRow(s.history, id, s.db.jobs[id], s.now, s.limits.leaseTtl);
  }

  lemma BornClaimer(s: Sys, w: WorkerId, head: Option<JobId>, t: Sys, v: WorkerId)
    requires Enabled(s, ClaimNext(w, head)) && t == ClaimStep(s, w, head) && v in t.workers
    requires v in s.workers ==> ClaimedAgain(s.history, s.workers[v])
    requires head.Some? && head.value in s.db.jobs ==> BornPlain(s.history, head.value, s.db.jobs[head.value])
    ensures ClaimedAgain(t.history, t.workers[v])
  {
    ClaimShape(s, w, head);
    if head.Some? { BornClaimRow(s.history, head.value, s.db.jobs[head.value], s.now, s.limits.leaseTtl); }
  }

  lemma BornClaim(s: Sys, w: WorkerId, head: Option<JobId>, t: Sys)
    requires BornInv(s) && Enabled(s, ClaimNext(w, head)) && t == ClaimStep(s, w, head)
    ensures BornInv(t)
  {
    LedgerClaim(s, w, head);
    forall id | id in t.db.jobs ensures BornPlain(t.history, id, t.db.jobs[id]) { BornClaimed(s, w, head, t, id); }
    forall v | v in t.workers ensures ClaimedAgain(t.history, t.workers[v]) { BornClaimer(s, w, head, t, v); }
  }

  lemma BornSent(s: Sys, t: Sys, w: WorkerId, id: JobId)
    requires SenderRows(s, t, w) && WorkerWf(s.db.jobs, s.workers[w]) && id in t.db.jobs
    requires id in s.db.jobs ==> BornPlain(s.history, id, s.db.jobs[id])
    ensures BornPlain(t.history, id, t.db.jobs[id])
  {
  }

  lemma BornSender(s: Sys, step: Step, t: Sys)
    requires BornInv(s) && Enabled(s, step) && SenderStep(step) && !step.ClaimNext? && t == SenderNext(s, step)
    ensures BornInv(t)
  {
    LedgerSender(s, step, t);
    SenderStepRows(s, step, t);
    assert WorkerWf(s.db.jobs, s.workers[step.w]);
    forall id | id in t.db.jobs ensures BornPlain(t.history, id, t.db.jobs[id]) { BornSent(s, t, step.w, id); }
    SameClaims(s, t, step.w);
  }

  lemma SameClaims(s: Sys, t: Sys, w: WorkerId)
    requires BornInv(s) && SenderRows(s, t, w)
    ensures forall v | v in t.workers :: ClaimedAgain(t.history, t.workers[v])
  {
    forall v | v in t.workers ensures ClaimedAgain(t.history, t.workers[v]) {
      assert v in s.workers && ClaimedAgain(s.history, s.workers[v]);
    }
  }

  lemma BornNext(s: Sys, step: Step)
    requires BornInv(s) && Enabled(s, step) && Producer(step)
    ensures BornInv(Next(s, step))
  {
    if !SenderStep(step) {
      OutsideStep(s, step);
      NewRowsArePlain(s, step, OutsideNext(s, step));
      BornOutside(s, OutsideNext(s, step));
    } else if step.ClaimNext? {
      BornClaim(s, step.w, step.head, SenderNext(s, step));
    } else {
      BornSender(s, step, SenderNext(s, step));
    }
  }

  lemma {:induction false} BornAfter(s: Sys, steps: seq<Step>)
    requires BornInv(s) && Runs(s, steps) && AllProducers(steps)
    ensures BornInv(After(s, steps))
    decreases |steps|
  {
    if steps == [] {
    } else {
      BornNext(s, steps[0]);
      BornAfter(Next(s, steps[0]), steps[1..]);
    }
  }

  lemma ProducedBorn(s: Sys, now: int, limits: Limits)
    requires Produced(s, now, limits) && limits.maxAttempts >= 1
    ensures BornInv(s)
  {
    var steps :| AllProducers(steps) && Runs(Start(now, limits), steps) && After(Start(now, limits), steps) == s;
    BornAfter(Start(now, limits), steps);
  }

  /** Any number of workers: a claim that takes a send with a revision and is no recovery took a job that was
      enqueued as an edit, and is at least that job's second. */
  lemma SendsWithRevisionAreDowngrades(s: Sys, now: int, limits: Limits, w: WorkerId)
    requires Produced(s, now, limits) && limits.maxAttempts >= 1 && w in s.workers
    requires s.workers[w].claim.kind.SendMessage? && s.workers[w].claim.recoveryOf.None?
    requires s.workers[w].claim.revision.Some?
    ensures s.workers[w].claim.id in s.history.enqueuedAs
    ensures s.history.enqueuedAs[s.workers[w].claim.id].EditMessageText? && s.workers[w].claim.attempts >= 2
  {
    ProducedBorn(s, now, limits);
    assert WorkerWf(s.db.jobs, s.workers[w]) && ClaimedAgain(s.history, s.workers[w]);
    assert BornPlain(s.history, s.workers[w].claim.id, s.db.jobs[s.workers[w].claim.id]);
  }
}
