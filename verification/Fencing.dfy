/** Claims, leases and fencing: who may change a row, and how often. */
module Fencing {
  import opened Tables
  import opened OutboundQueue
  import opened Delivery
  import opened Machine
  import opened QueueEffects

  // ---------------------------------------------------------------- well-formed rows and workers

  predicate RowWf(j: Job) {
    && (j.state.Sending? <==> j.lease.Some?)
    && (j.state == JobState.Ready ==> j.attempts == 0)
    && (j.state.Sending? ==> j.attempts >= 1)
    && !j.state.Planned? && !j.state.Cancelled?
  }

  predicate SameJob(c: Claimed, j: Job) {
    && c.bot == j.bot && c.chat == j.chat && c.operation == j.operation && c.revision == j.revision
    && c.dialogue == j.dialogue && c.recoveryOf == j.recoveryOf
  }

  /** What a worker's memory says about the row it claimed. The method facts hold while the claim is
      the row's latest one. */
  predicate WorkerWf(jobs: map<JobId, Job>, worker: Worker) {
    var c := worker.claim;
    && c.id in jobs
    && 1 <= c.attempts <= jobs[c.id].attempts
    && SameJob(c, jobs[c.id])
    && (c.kind.SendMessage? ==> jobs[c.id].kind.SendMessage?)
    && match worker.phase
       case Guarding => c.attempts == jobs[c.id].attempts ==> c.kind == jobs[c.id].kind
       case Gated(action) =>
         && (c.kind.SendMessage? ==> action.Send?)
         && (c.attempts == jobs[c.id].attempts ==> c.kind == jobs[c.id].kind)
       case Wiring(action, _) =>
         && (c.kind.SendMessage? ==> action.Send?)
         && (c.attempts == jobs[c.id].attempts ==> MethodOf(action) == jobs[c.id].kind)
       case Acking(action, _, _, _) =>
         && (c.kind.SendMessage? ==> action.Send?)
         && (c.attempts == jobs[c.id].attempts ==> MethodOf(action) == jobs[c.id].kind)
       case _ => true
  }

  predicate SameClaim(a: Claimed, b: Claimed) {
    a.id == b.id && a.attempts == b.attempts
  }

  ghost predicate Base(s: Sys) {
    && IdsBelow(s.db)
    && (forall id | id in s.db.jobs :: RowWf(s.db.jobs[id]))
    && (forall w | w in s.workers :: WorkerWf(s.db.jobs, s.workers[w]))
    && (forall v, w | v in s.workers && w in s.workers && v != w ::
          !SameClaim(s.workers[v].claim, s.workers[w].claim))
  }

  predicate SameRow(j: Job, k: Job) {
    && j.bot == k.bot && j.chat == k.chat && j.operation == k.operation && j.revision == k.revision
    && j.dialogue == k.dialogue && j.recoveryOf == k.recoveryOf && j.delivery == k.delivery
  }

  /** One row rewritten by the holder of its latest claim. */
  predicate RowByHolder(j: Job, k: Job) {
    SameRow(j, k) && j.attempts == k.attempts && RowWf(k)
  }

  lemma BaseOutside(s: Sys, t: Sys)
    requires Base(s) && Outside(s.db, t.db) && IdsBelow(t.db) && t.workers == s.workers
    ensures Base(t)
  {
    forall w | w in t.workers ensures WorkerWf(t.db.jobs, t.workers[w]) {
      assert WorkerWf(s.db.jobs, s.workers[w]);
      assert OutsideRow(s.db.jobs[s.workers[w].claim.id], t.db.jobs[s.workers[w].claim.id]);
    }
    forall id | id in t.db.jobs ensures RowWf(t.db.jobs[id]) {
      if id in s.db.jobs { assert OutsideRow(s.db.jobs[id], t.db.jobs[id]); }
    }
  }

  /** A claim gives its row the next attempt number, and only quarantines other rows. */
  predicate ClaimRow(j: Job, k: Job, claimed: bool) {
    SameRow(j, k) && j.kind == k.kind && RowWf(k) && k.attempts == j.attempts + if claimed then 1 else 0
  }

  predicate ClaimedRows(before: map<JobId, Job>, after: map<JobId, Job>, head: Option<JobId>) {
    && after.Keys == before.Keys
    && (head.Some? ==> head.value in before)
    && forall id | id in before :: ClaimRow(before[id], after[id], head == Some(id))
  }

  lemma WorkerSurvivesClaim(before: map<JobId, Job>, after: map<JobId, Job>, head: Option<JobId>, worker: Worker)
    requires ClaimedRows(before, after, head) && WorkerWf(before, worker)
    ensures WorkerWf(after, worker)
    ensures head.Some? ==> !SameClaim(worker.claim, SnapshotOf(head.value, after[head.value]))
  {
    assert ClaimRow(before[worker.claim.id], after[worker.claim.id], head == Some(worker.claim.id));
  }

  lemma BaseClaimed(s: Sys, t: Sys, w: WorkerId, head: Option<JobId>)
    requires Base(s) && w !in s.workers && t.db.nextJob == s.db.nextJob
    requires ClaimedRows(s.db.jobs, t.db.jobs, head)
    requires t.workers == if head.None? then s.workers
                          else s.workers[w := Worker(SnapshotOf(head.value, t.db.jobs[head.value]), Guarding)]
    ensures Base(t)
  {
    forall v | v in s.workers
      ensures WorkerWf(t.db.jobs, s.workers[v])
      ensures head.Some? ==> !SameClaim(s.workers[v].claim, SnapshotOf(head.value, t.db.jobs[head.value]))
    {
      WorkerSurvivesClaim(s.db.jobs, t.db.jobs, head, s.workers[v]);
    }
    if head.Some? {
      assert ClaimRow(s.db.jobs[head.value], t.db.jobs[head.value], true);
    }
  }

  lemma ClaimEffectRows(s: Sys, after: map<JobId, Job>, head: Option<JobId>)
    requires Base(s) && ClaimEffect(s.db.jobs, after, s.now, s.limits.leaseTtl, head)
    ensures ClaimedRows(s.db.jobs, after, head)
  {
  }

  lemma BaseClaim(s: Sys, w: WorkerId, head: Option<JobId>)
    requires Base(s) && Enabled(s, ClaimNext(w, head))
    ensures Base(ClaimStep(s, w, head))
  {
    ClaimShape(s, w, head);
    ClaimEffectRows(s, ClaimStep(s, w, head).db.jobs, head);
    BaseClaimed(s, ClaimStep(s, w, head), w, head);
  }

  /** A step of one worker that at most rewrites its own row keeps the base facts, once the facts about
      that worker itself are known. */
  lemma BaseOneWorker(s: Sys, t: Sys, w: WorkerId, id: JobId)
    requires Base(s) && w in s.workers && s.workers[w].claim.id == id
    requires t.db.nextJob == s.db.nextJob && OnlyWorker(s.workers, t.workers, w)
    requires w in t.workers ==> t.workers[w].claim == s.workers[w].claim
    requires t.db.jobs == s.db.jobs
             || (s.workers[w].claim.attempts == s.db.jobs[id].attempts && t.db.jobs.Keys == s.db.jobs.Keys
                 && t.db.jobs == s.db.jobs[id := t.db.jobs[id]] && RowByHolder(s.db.jobs[id], t.db.jobs[id]))
    requires t.db.jobs[id].kind == s.db.jobs[id].kind || t.db.jobs[id].kind.SendMessage?
    requires w in t.workers ==> WorkerWf(t.db.jobs, t.workers[w])
    ensures Base(t)
  {
    assert WorkerWf(s.db.jobs, s.workers[w]);
    forall v | v in t.workers ensures WorkerWf(t.db.jobs, t.workers[v]) {
      if v != w {
        assert WorkerWf(s.db.jobs, s.workers[v]);
        assert !SameClaim(s.workers[v].claim, s.workers[w].claim);
      }
    }
  }

  lemma BasePrepare(s: Sys, w: WorkerId, t: Sys)
    requires Base(s) && Enabled(s, Prepare(w)) && t == PrepareStep(s, w)
    ensures Base(t)
  {
    PrepareShape(s, w);
    assert WorkerWf(s.db.jobs, s.workers[w]);
    BaseOneWorker(s, t, w, s.workers[w].claim.id);
  }

  lemma BaseAck(s: Sys, w: WorkerId, replyLost: bool, t: Sys)
    requires Base(s) && Enabled(s, Acknowledge(w, replyLost)) && t == AckStep(s, w, replyLost)
    ensures Base(t)
  {
    AckShape(s, w, replyLost);
    assert WorkerWf(s.db.jobs, s.workers[w]);
    BaseOneWorker(s, t, w, s.workers[w].claim.id);
  }

  lemma SettledRow(j: Job, now: int, maxAttempts: nat, outcome: DeliveryOutcome)
    requires RowWf(j)
    ensures j.state.Sending? ==> RowByHolder(j, Settled(j, now, maxAttempts, outcome))
    ensures var k := Settled(j, now, maxAttempts, outcome);
      && k.kind == j.kind && k.state != JobState.Ready && !k.state.Sending?
      && (k.state.RetryWait? ==> j.attempts < maxAttempts)
  {
  }

  lemma BaseSettle(s: Sys, w: WorkerId, t: Sys)
    requires Base(s) && Enabled(s, SettleClaim(w)) && t == SettleStep(s, w)
    ensures Base(t)
  {
    var c := s.workers[w].claim;
    SettleShape(s, w);
    assert WorkerWf(s.db.jobs, s.workers[w]);
    SettledRow(s.db.jobs[c.id], s.now, s.limits.maxAttempts, s.workers[w].phase.outcome);
    BaseOneWorker(s, t, w, c.id);
  }

  lemma BaseQuiet(s: Sys, t: Sys, w: WorkerId)
    requires Base(s) && w in s.workers
    requires t.db.jobs == s.db.jobs && t.db.nextJob == s.db.nextJob && OnlyWorker(s.workers, t.workers, w)
    requires w in t.workers ==> t.workers[w].claim == s.workers[w].claim && WorkerWf(t.db.jobs, t.workers[w])
    ensures Base(t)
  {
    assert WorkerWf(s.db.jobs, s.workers[w]);
    BaseOneWorker(s, t, w, s.workers[w].claim.id);
  }

  lemma BaseGuard(s: Sys, w: WorkerId, t: Sys)
    requires Base(s) && Enabled(s, RunGuard(w)) && t == GuardStep(s, w)
    ensures Base(t)
  {
    GuardShape(s, w);
    assert WorkerWf(s.db.jobs, s.workers[w]);
    BaseQuiet(s, t, w);
  }

  lemma BaseWire(s: Sys, w: WorkerId, reply: Reply, applied: bool, draw: nat, t: Sys)
    requires Base(s) && Enabled(s, Wire(w, reply, applied, draw)) && t == WireStep(s, w, reply, applied, draw)
    ensures Base(t)
  {
    WireShape(s, w, reply, applied, draw);
    assert WorkerWf(s.db.jobs, s.workers[w]);
    BaseQuiet(s, t, w);
  }

  lemma BaseRest(s: Sys, step: Step, t: Sys)
    requires Base(s) && Enabled(s, step) && QuietStep(step) && !step.RunGuard? && t == SenderNext(s, step)
    ensures Base(t)
  {
    QuietShape(s, step, t);
    assert WorkerWf(s.db.jobs, s.workers[step.w]);
    BaseQuiet(s, t, step.w);
  }

  lemma BaseSender(s: Sys, step: Step, t: Sys)
    requires Base(s) && Enabled(s, step) && SenderStep(step) && t == SenderNext(s, step)
    ensures Base(t)
  {
    match step
    case ClaimNext(w, head) => BaseClaim(s, w, head);
    case Prepare(w) => BasePrepare(s, w, t);
    case Acknowledge(w, replyLost) => BaseAck(s, w, replyLost, t);
    case SettleClaim(w) => BaseSettle(s, w, t);
    case RunGuard(w) => BaseGuard(s, w, t);
    case Wire(w, reply, applied, draw) => BaseWire(s, w, reply, applied, draw, t);
    case _ => BaseRest(s, step, t);
  }

  lemma BaseNext(s: Sys, step: Step)
    requires Base(s) && Enabled(s, step)
    ensures Base(Next(s, step))
  {
    if SenderStep(step) {
      BaseSender(s, step, SenderNext(s, step));
    } else {
      OutsideStep(s, step);
      BaseOutside(s, OutsideNext(s, step));
    }
  }
}
