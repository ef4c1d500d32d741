/** Telegram applies the sendMessage of one job at most once, whatever the workers do. */
module AtMostOnce {
  import opened Tables
  import opened OutboundQueue
  import opened Delivery
  import opened Machine
  import opened QueueEffects
  import opened Fencing

  /** A job whose send was applied is done, or still held by a claim that will not send again. */
  predicate OnceJob(jobs: map<JobId, Job>, sends: nat, id: JobId) {
    && sends <= 1
    && (sends == 1 ==>
          && id in jobs && jobs[id].kind.SendMessage?
          && (jobs[id].state.Sent? || jobs[id].state.OutcomeUnknown? || jobs[id].state.Sending?))
  }

  predicate PastTheWire(p: Phase) {
    p.Acking? || (p.Settling? && p.outcome.OutcomeUnknown?)
  }

  /** A worker about to send holds the latest claim of a job that was never applied; a worker that
      holds the latest claim of an applied job is past its wire call. */
  predicate OnceWorker(jobs: map<JobId, Job>, sends: nat, worker: Worker)
    requires worker.claim.id in jobs
  {
    var c := worker.claim;
    var j := jobs[c.id];
    && (worker.phase.Wiring? && worker.phase.action.Send? ==>
          && c.attempts == j.attempts && j.kind.SendMessage? && sends == 0
          && (j.state.Sending? || j.state.OutcomeUnknown?))
    && (sends >= 1 && j.state.Sending? && c.attempts == j.attempts ==> PastTheWire(worker.phase))
  }

  ghost predicate Once(s: Sys) {
    && Base(s)
    && (forall id :: OnceJob(s.db.jobs, s.history.sends[id], id))
    && (forall w | w in s.workers :: OnceWorker(s.db.jobs, s.history.sends[s.workers[w].claim.id], s.workers[w]))
  }

  lemma OnceOutside(s: Sys, t: Sys)
    requires Once(s) && Base(t)
    requires Outside(s.db, t.db) && t.workers == s.workers && t.history.sends == s.history.sends
    ensures Once(t)
  {
    forall id ensures OnceJob(t.db.jobs, t.history.sends[id], id) {
      assert OnceJob(s.db.jobs, s.history.sends[id], id);
      if id in s.db.jobs { assert OutsideRow(s.db.jobs[id], t.db.jobs[id]); }
    }
    forall w | w in t.workers ensures OnceWorker(t.db.jobs, t.history.sends[t.workers[w].claim.id], t.workers[w]) {
      var id := s.workers[w].claim.id;
      assert WorkerWf(s.db.jobs, s.workers[w]);
      assert OnceWorker(s.db.jobs, s.history.sends[id], s.workers[w]);
      assert OutsideRow(s.db.jobs[id], t.db.jobs[id]);
    }
  }

  lemma OnceWorkerSurvivesClaim(before: map<JobId, Job>, after: map<JobId, Job>, now: int, ttl: nat,
                                head: Option<JobId>, sends: nat, worker: Worker)
    requires ClaimEffect(before, after, now, ttl, head)
    requires WorkerWf(before, worker) && OnceWorker(before, sends, worker)
    requires head.Some? ==> OnceJob(before, sends, worker.claim.id)
    ensures OnceWorker(after, sends, worker)
  {
    assert after[worker.claim.id] ==
      if head == Some(worker.claim.id) then ClaimedJob(before[worker.claim.id], now, ttl)
      else Quarantined(before[worker.claim.id], now);
  }

  lemma OnceJobSurvivesClaim(before: map<JobId, Job>, after: map<JobId, Job>, now: int, ttl: nat,
                             head: Option<JobId>, sends: nat, id: JobId)
    requires ClaimEffect(before, after, now, ttl, head) && OnceJob(before, sends, id)
    requires id in before ==> RowWf(before[id])
    ensures OnceJob(after, sends, id)
    ensures head == Some(id) ==> sends == 0
  {
    if id in before {
      assert after[id] == if head == Some(id) then ClaimedJob(before[id], now, ttl) else Quarantined(before[id], now);
    }
  }

  lemma OnceClaim(s: Sys, t: Sys, w: WorkerId, head: Option<JobId>)
    requires Once(s) && Base(t) && t.history.sends == s.history.sends
    requires ClaimEffect(s.db.jobs, t.db.jobs, s.now, s.limits.leaseTtl, head)
    requires t.workers == if head.None? then s.workers
                          else s.workers[w := Worker(SnapshotOf(head.value, t.db.jobs[head.value]), Guarding)]
    ensures Once(t)
  {
    forall id
      ensures OnceJob(t.db.jobs, t.history.sends[id], id)
      ensures head == Some(id) ==> t.history.sends[id] == 0
    {
      assert OnceJob(s.db.jobs, s.history.sends[id], id);
      OnceJobSurvivesClaim(s.db.jobs, t.db.jobs, s.now, s.limits.leaseTtl, head, s.history.sends[id], id);
    }
    forall v | v in s.workers
      ensures OnceWorker(t.db.jobs, t.history.sends[s.workers[v].claim.id], s.workers[v])
    {
      var id := s.workers[v].claim.id;
      assert WorkerWf(s.db.jobs, s.workers[v]);
      assert OnceWorker(s.db.jobs, s.history.sends[id], s.workers[v]);
      assert OnceJob(s.db.jobs, s.history.sends[id], id);
      OnceWorkerSurvivesClaim(s.db.jobs, t.db.jobs, s.now, s.limits.leaseTtl, head, s.history.sends[id], s.workers[v]);
    }
  }

  /** At most the row of one claim changed, and only if that claim is its latest. */
  predicate OwnRowOnly(s: Sys, t: Sys, c: Claimed) {
    && c.id in s.db.jobs && c.id in t.db.jobs && t.db.jobs == s.db.jobs[c.id := t.db.jobs[c.id]]
    && if c.attempts == s.db.jobs[c.id].attempts
       then t.db.jobs[c.id].attempts == c.attempts
            && (t.history.sends == s.history.sends || t.history.sends == s.history.sends + multiset{c.id})
       else t.db.jobs == s.db.jobs && t.history.sends == s.history.sends
  }

  /** The other workers cannot hold the claim whose holder just moved. */
  lemma OthersHoldOtherClaims(s: Sys, t: Sys, w: WorkerId, v: WorkerId)
    requires Once(s) && WorkerMoves(s, t, w) && v in t.workers && v != w
    requires OwnRowOnly(s, t, s.workers[w].claim)
    ensures t.workers[v].claim.id in t.db.jobs
    ensures OnceWorker(t.db.jobs, t.history.sends[t.workers[v].claim.id], t.workers[v])
  {
    assert WorkerWf(s.db.jobs, s.workers[v]);
    assert OnceWorker(s.db.jobs, s.history.sends[s.workers[v].claim.id], s.workers[v]);
    assert !SameClaim(s.workers[v].claim, s.workers[w].claim);
  }

  /** A step of one worker: what remains to check is its own row and its own phase. */
  lemma OnceMoves(s: Sys, t: Sys, w: WorkerId)
    requires Once(s) && Base(t) && WorkerMoves(s, t, w) && OwnRowOnly(s, t, s.workers[w].claim)
    requires OnceJob(t.db.jobs, t.history.sends[s.workers[w].claim.id], s.workers[w].claim.id)
    requires w in t.workers ==> OnceWorker(t.db.jobs, t.history.sends[s.workers[w].claim.id], t.workers[w])
    ensures Once(t)
  {
    forall id ensures OnceJob(t.db.jobs, t.history.sends[id], id) {
      assert OnceJob(s.db.jobs, s.history.sends[id], id);
    }
    forall v | v in t.workers && v != w
      ensures OnceWorker(t.db.jobs, t.history.sends[t.workers[v].claim.id], t.workers[v])
    {
      OthersHoldOtherClaims(s, t, w, v);
    }
  }

  /** No row and no send: only the worker's own phase moved, and not towards the wire. */
  lemma OnceQuiet(s: Sys, t: Sys, w: WorkerId)
    requires Once(s) && Base(t) && RowsKept(s, t, w) && t.history.sends == s.history.sends
    requires w in t.workers ==>
      !t.workers[w].phase.Wiring? && (PastTheWire(s.workers[w].phase) ==> PastTheWire(t.workers[w].phase))
    ensures Once(t)
  {
    assert WorkerWf(s.db.jobs, s.workers[w]);
    assert OnceWorker(s.db.jobs, s.history.sends[s.workers[w].claim.id], s.workers[w]);
    assert OnceJob(s.db.jobs, s.history.sends[s.workers[w].claim.id], s.workers[w].claim.id);
    OnceMoves(s, t, w);
  }

  lemma OncePrepare(s: Sys, w: WorkerId, t: Sys)
    requires Once(s) && Enabled(s, Prepare(w)) && t == PrepareStep(s, w) && Base(t)
    ensures Once(t)
  {
    var c := s.workers[w].claim;
    PrepareShape(s, w);
    assert OnceWorker(s.db.jobs, s.history.sends[c.id], s.workers[w]);
    assert OnceJob(s.db.jobs, s.history.sends[c.id], c.id);
    if Owns(s.db.jobs, c.id, c.attempts) { OnceMoves(s, t, w); } else { OnceQuiet(s, t, w); }
  }

  lemma OnceWire(s: Sys, w: WorkerId, reply: Reply, applied: bool, draw: nat, t: Sys)
    requires Once(s) && Enabled(s, Wire(w, reply, applied, draw)) && t == WireStep(s, w, reply, applied, draw) && Base(t)
    ensures Once(t)
  {
    var c := s.workers[w].claim;
    WireShape(s, w, reply, applied, draw);
    assert OnceWorker(s.db.jobs, s.history.sends[c.id], s.workers[w]);
    assert OnceJob(s.db.jobs, s.history.sends[c.id], c.id);
    if s.workers[w].phase.action.Send? && applied {
      assert PastTheWire(t.workers[w].phase);
      OnceMoves(s, t, w);
    } else {
      OnceQuiet(s, t, w);
    }
  }

  lemma OnceAck(s: Sys, w: WorkerId, replyLost: bool, t: Sys)
    requires Once(s) && Enabled(s, Acknowledge(w, replyLost)) && t == AckStep(s, w, replyLost) && Base(t)
    ensures Once(t)
  {
    var c := s.workers[w].claim;
    AckShape(s, w, replyLost);
    if Owns(s.db.jobs, c.id, c.attempts) {
      assert OnceJob(s.db.jobs, s.history.sends[c.id], c.id);
      OnceRewritten(s, t, w, t.db.jobs[c.id]);
    } else {
      OnceQuiet(s, t, w);
    }
  }

  /** The worker rewrote its row, and neither the row nor the worker lets the send be repeated. */
  lemma OnceRewritten(s: Sys, t: Sys, w: WorkerId, row: Job)
    requires Once(s) && Base(t) && RowRewritten(s, t, w, row)
    requires row.attempts == s.db.jobs[s.workers[w].claim.id].attempts && !row.state.Sending?
    requires s.history.sends[s.workers[w].claim.id] == 1 ==>
      row.kind.SendMessage? && (row.state.Sent? || row.state.OutcomeUnknown?)
    requires w in t.workers ==> !t.workers[w].phase.Wiring?
    ensures Once(t)
  {
    var id := s.workers[w].claim.id;
    assert OnceJob(s.db.jobs, s.history.sends[id], id);
    assert t.db.jobs[id] == row;
    OnceMoves(s, t, w);
  }

  /** An applied send is only ever settled as unknown by the worker that sent it. */
  lemma SettledStaysApplied(jobs: map<JobId, Job>, sends: nat, worker: Worker, now: int, maxAttempts: nat)
    requires worker.phase.Settling? && Owns(jobs, worker.claim.id, worker.claim.attempts)
    requires OnceJob(jobs, sends, worker.claim.id) && OnceWorker(jobs, sends, worker)
    ensures var row := Settled(jobs[worker.claim.id], now, maxAttempts, worker.phase.outcome);
      && row.attempts == jobs[worker.claim.id].attempts && !row.state.Sending?
      && (sends == 1 ==> row.kind.SendMessage? && row.state.OutcomeUnknown?)
  {
  }

  lemma OnceSettle(s: Sys, w: WorkerId, t: Sys)
    requires Once(s) && Enabled(s, SettleClaim(w)) && t == SettleStep(s, w) && Base(t)
    ensures Once(t)
  {
    var c := s.workers[w].claim;
    SettleShape(s, w);
    if Owns(s.db.jobs, c.id, c.attempts) {
      SettledStaysApplied(s.db.jobs, s.history.sends[c.id], s.workers[w], s.now, s.limits.maxAttempts);
      OnceRewritten(s, t, w, Settled(s.db.jobs[c.id], s.now, s.limits.maxAttempts, s.workers[w].phase.outcome));
    } else {
      OnceQuiet(s, t, w);
    }
  }

  lemma OnceSender(s: Sys, step: Step, t: Sys)
    requires Once(s) && Enabled(s, step) && SenderStep(step) && t == SenderNext(s, step) && Base(t)
    ensures Once(t)
  {
    match step
    case ClaimNext(w, head) => ClaimShape(s, w, head); OnceClaim(s, t, w, head);
    case Prepare(w) => OncePrepare(s, w, t);
    case Wire(w, reply, applied, draw) => OnceWire(s, w, reply, applied, draw, t);
    case Acknowledge(w, replyLost) => OnceAck(s, w, replyLost, t);
    case SettleClaim(w) => OnceSettle(s, w, t);
    case _ => OnceRest(s, step, t);
  }

  lemma OnceRest(s: Sys, step: Step, t: Sys)
    requires Once(s) && Enabled(s, step) && QuietStep(step) && t == SenderNext(s, step) && Base(t)
    ensures Once(t)
  {
    QuietShape(s, step, t);
    OnceQuiet(s, t, step.w);
  }

  lemma OnceNext(s: Sys, step: Step)
    requires Once(s) && Enabled(s, step)
    ensures Once(Next(s, step))
  {
    if SenderStep(step) {
      BaseSender(s, step, SenderNext(s, step));
      OnceSender(s, step, SenderNext(s, step));
    } else {
      OutsideStep(s, step);
      BaseOutside(s, OutsideNext(s, step));
      OnceOutside(s, OutsideNext(s, step));
    }
  }

  lemma {:induction false} OnceAfter(s: Sys, steps: seq<Step>)
    requires Once(s) && Runs(s, steps)
    ensures Once(After(s, steps))
    decreases |steps|
  {
    if steps == [] {
    } else {
      OnceNext(s, steps[0]);
      OnceAfter(Next(s, steps[0]), steps[1..]);
    }
  }

  /** In every run, with any number of workers that stall or crash anywhere, Telegram applies the
      sendMessage of one job at most once. */
  lemma SendAppliedAtMostOnce(now: int, limits: Limits, steps: seq<Step>, id: JobId)
    requires Runs(Start(now, limits), steps)
    ensures After(Start(now, limits), steps).history.sends[id] <= 1
  {
    OnceAfter(Start(now, limits), steps);
    assert OnceJob(After(Start(now, limits), steps).db.jobs, After(Start(now, limits), steps).history.sends[id], id);
  }
}
