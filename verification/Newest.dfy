/** The newest render of a binding is never withdrawn before it is shown. */
module Newest {
  import opened Tables
  import opened OutboundQueue
  import opened ProjectionAccept
  import opened Delivery
  import opened Machine
  import opened QueueEffects
  import opened Fencing
  import opened Leases
  import opened Projection
  import opened Renders

  predicate Shows(bindings: map<BindingKey, Binding>, key: BindingKey, revision: int) {
    key in bindings && bindings[key].rendered >= revision
  }

  /** A withdrawn render has a newer one, or is already shown. */
  predicate FairlyWithdrawn(h: History, bindings: map<BindingKey, Binding>, j: Job) {
    j.state.Superseded? && j.operation.Some? && j.revision.Some? ==>
      var key := BindingKey(j.operation.value, j.chat);
      j.revision.value < |RendersOf(h, key)| || Shows(bindings, key, j.revision.value)
  }

  /** A worker that is about to withdraw a render has seen it shown. */
  predicate WithdrawsFairly(bindings: map<BindingKey, Binding>, worker: Worker) {
    worker.phase.Settling? && worker.phase.outcome.SupersededStale? && CarriesRender(worker.claim) ==>
      Shows(bindings, TargetOf(worker.claim), worker.claim.revision.value)
  }

  ghost predicate NewestInv(s: Sys) {
    && InProjection(s)
    && (forall id | id in s.db.jobs :: FairlyWithdrawn(s.history, s.db.bindings, s.db.jobs[id]))
    && (forall w | w in s.workers :: WithdrawsFairly(s.db.bindings, s.workers[w]))
  }

  /** Renders are only added, and rendered revisions only rise. */
  ghost predicate Forward(s: Sys, t: Sys) {
    && (forall key :: |RendersOf(s.history, key)| <= |RendersOf(t.history, key)|)
    && (forall key | key in s.db.bindings ::
          key in t.db.bindings && s.db.bindings[key].rendered <= t.db.bindings[key].rendered)
  }

  lemma StepIsForward(s: Sys, step: Step)
    requires InProjection(s) && Enabled(s, step)
    ensures Forward(s, Next(s, step))
  {
    forall key ensures |RendersOf(s.history, key)| <= |RendersOf(Next(s, step).history, key)| {
      RendersGrow(s, step, key);
    }
    forall key | key in s.db.bindings
      ensures key in Next(s, step).db.bindings
              && s.db.bindings[key].rendered <= Next(s, step).db.bindings[key].rendered
    {
      RenderedKept(s, step, key);
    }
  }

  /** Rows that are withdrawn afterwards were withdrawn before. */
  ghost predicate WithdrawsNothing(before: map<JobId, Job>, after: map<JobId, Job>) {
    forall id | id in after && after[id].state.Superseded? ::
      id in before && before[id].state.Superseded? && SameRevision(before[id], after[id])
  }

  lemma RowsStayFair(s: Sys, t: Sys)
    requires NewestInv(s) && Forward(s, t) && WithdrawsNothing(s.db.jobs, t.db.jobs)
    ensures forall id | id in t.db.jobs :: FairlyWithdrawn(t.history, t.db.bindings, t.db.jobs[id])
  {
    forall id | id in t.db.jobs ensures FairlyWithdrawn(t.history, t.db.bindings, t.db.jobs[id]) {
      if t.db.jobs[id].state.Superseded? {
        assert FairlyWithdrawn(s.history, s.db.bindings, s.db.jobs[id]);
      }
    }
  }

  lemma WorkerStaysFair(s: Sys, t: Sys, worker: Worker)
    requires Forward(s, t) && WithdrawsFairly(s.db.bindings, worker)
    ensures WithdrawsFairly(t.db.bindings, worker)
  {
  }

  // ---------------------------------------------------------------- everybody but a sender

  lemma InsertWithdrawsNothing(db: Db, order: NewJob, now: int)
    requires order.revision.None?
    ensures WithdrawsNothing(db.jobs, InsertJob(db, order, now).jobs)
  {
  }

  lemma AcceptRowsFair(s: Sys, event: Event, interval: int, t: Sys)
    requires NewestInv(s) && Forward(s, t) && t == AcceptStep(s, event, interval)
    ensures forall id | id in t.db.jobs :: FairlyWithdrawn(t.history, t.db.bindings, t.db.jobs[id])
  {
    if Accept(s.db, event, s.now, interval).1.Recorded? {
      var key := LockBinding(s.db.bindings, event.operation).value;
      AcceptRecords(s, event, interval, key, t);
      forall id | id in t.db.jobs ensures FairlyWithdrawn(t.history, t.db.bindings, t.db.jobs[id]) {
        RecordedRowFair(s, t, key, Render(event, s.db.nextJob), id);
      }
    } else {
      AcceptSkips(s, event, interval, t);
      RowsStayFair(s, t);
    }
  }

  lemma RecordedRowFair(s: Sys, t: Sys, key: BindingKey, r: Render, id: JobId)
    requires RecordsOne(s, t, key, r) && Forward(s, t) && id in t.db.jobs
    requires id in s.db.jobs ==> FairlyWithdrawn(s.history, s.db.bindings, s.db.jobs[id])
    requires !t.db.jobs[r.job].state.Superseded?
    ensures FairlyWithdrawn(t.history, t.db.bindings, t.db.jobs[id])
  {
    assert |RendersOf(t.history, key)| == |RendersOf(s.history, key)| + 1;
  }

  lemma OutsideWithdrawsNothing(s: Sys, step: Step, t: Sys)
    requires IdsBelow(s.db) && Enabled(s, step) && !SenderStep(step) && Producer(step) && !step.AcceptEvent?
    requires t == OutsideNext(s, step)
    ensures WithdrawsNothing(s.db.jobs, t.db.jobs)
  {
    match step
    case Tick(_) =>
    case Enqueue(order) => InsertWithdrawsNothing(s.db, order, s.now);
    case AdmitNotice(notice, candidates) =>
      DecideAllAdds(s.db.(inbox := s.db.inbox + {notice.event}), notice, candidates, s.now);
    case RecoverSend(_) =>
    case Interact(command) =>
      var order := PerformQueue(s.db, command, s.now);
      if order.Some? { InsertWithdrawsNothing(s.db, order.value, s.now); }
  }

  lemma NewestOutside(s: Sys, step: Step, t: Sys)
    requires NewestInv(s) && Enabled(s, step) && !SenderStep(step) && Producer(step) && t == OutsideNext(s, step)
    requires InProjection(t) && Forward(s, t)
    ensures NewestInv(t)
  {
    if step.AcceptEvent? {
      AcceptRowsFair(s, step.event, step.interval, t);
    } else {
      OutsideWithdrawsNothing(s, step, t);
      RowsStayFair(s, t);
    }
    OutsideStep(s, step);
    forall w | w in t.workers ensures WithdrawsFairly(t.db.bindings, t.workers[w]) {
      WorkerStaysFair(s, t, s.workers[w]);
    }
  }

  // ---------------------------------------------------------------- senders

  lemma GuardWithdrawsFairly(s: Sys, c: Claimed)
    requires InProjection(s) && CarriesRender(c) && TargetOf(c) in s.db.bindings
    requires Guard(c, s.db.bindings) == Withdraw
    ensures Shows(s.db.bindings, TargetOf(c), c.revision.value)
  {
  }

  lemma RewriteWithdrawsNothing(before: map<JobId, Job>, after: map<JobId, Job>, id: JobId, row: Job)
    requires id in before && after == before[id := row] && !row.state.Superseded?
    ensures WithdrawsNothing(before, after)
  {
  }

  lemma SettleWithdraws(s: Sys, w: WorkerId, t: Sys)
    requires Enabled(s, SettleClaim(w)) && t == SettleStep(s, w) && !s.workers[w].phase.outcome.SupersededStale?
    ensures WithdrawsNothing(s.db.jobs, t.db.jobs)
  {
    var c := s.workers[w].claim;
    SettleShape(s, w);
    if Owns(s.db.jobs, c.id, c.attempts) {
      OthersDoNotWithdraw(s.db.jobs[c.id], s.now, s.limits.maxAttempts, s.workers[w].phase.outcome);
      RewriteWithdrawsNothing(s.db.jobs, t.db.jobs, c.id, t.db.jobs[c.id]);
    }
  }

  lemma PrepareWithdraws(s: Sys, w: WorkerId, t: Sys)
    requires Enabled(s, Prepare(w)) && t == PrepareStep(s, w)
    ensures WithdrawsNothing(s.db.jobs, t.db.jobs)
  {
    var c := s.workers[w].claim;
    PrepareShape(s, w);
    if Owns(s.db.jobs, c.id, c.attempts) { RewriteWithdrawsNothing(s.db.jobs, t.db.jobs, c.id, t.db.jobs[c.id]); }
  }

  lemma AckWithdraws(s: Sys, w: WorkerId, replyLost: bool, t: Sys)
    requires Enabled(s, Acknowledge(w, replyLost)) && t == AckStep(s, w, replyLost)
    ensures WithdrawsNothing(s.db.jobs, t.db.jobs)
  {
    var c := s.workers[w].claim;
    AckShape(s, w, replyLost);
    if Owns(s.db.jobs, c.id, c.attempts) { RewriteWithdrawsNothing(s.db.jobs, t.db.jobs, c.id, t.db.jobs[c.id]); }
  }

  /** Only a settlement withdraws a row, and then it is the worker's own. */
  lemma SenderWithdraws(s: Sys, step: Step, t: Sys)
    requires Base(s) && Enabled(s, step) && SenderStep(step) && !step.ClaimNext? && t == SenderNext(s, step)
    requires !(step.SettleClaim? && s.workers[step.w].phase.outcome.SupersededStale?)
    ensures WithdrawsNothing(s.db.jobs, t.db.jobs)
  {
    match step
    case Prepare(w) => PrepareWithdraws(s, w, t);
    case Acknowledge(w, replyLost) => AckWithdraws(s, w, replyLost, t);
    case SettleClaim(w) => SettleWithdraws(s, w, t);
    case Wire(w, reply, applied, draw) => WireShape(s, w, reply, applied, draw);
    case _ => QuietShape(s, step, t);
  }

  lemma OthersDoNotWithdraw(j: Job, now: int, maxAttempts: nat, outcome: DeliveryOutcome)
    requires !outcome.SupersededStale?
    ensures !Settled(j, now, maxAttempts, outcome).state.Superseded?
  {
  }

  lemma WithdrawalIsFair(s: Sys, w: WorkerId, t: Sys)
    requires Enabled(s, SettleClaim(w)) && s.workers[w].phase.outcome.SupersededStale?
    requires t == SettleStep(s, w) && Forward(s, t) && NewestInv(s)
    ensures forall id | id in t.db.jobs :: FairlyWithdrawn(t.history, t.db.bindings, t.db.jobs[id])
  {
    SettleShape(s, w);
    var c := s.workers[w].claim;
    assert WorkerWf(s.db.jobs, s.workers[w]) && WithdrawsFairly(s.db.bindings, s.workers[w]);
    forall id | id in t.db.jobs ensures FairlyWithdrawn(t.history, t.db.bindings, t.db.jobs[id]) {
      assert FairlyWithdrawn(s.history, s.db.bindings, s.db.jobs[id]);
    }
  }

  lemma SenderWorkerFair(s: Sys, step: Step, t: Sys)
    requires NewestInv(s) && Enabled(s, step) && SenderStep(step) && !step.ClaimNext? && t == SenderNext(s, step)
    ensures step.w in t.workers ==> WithdrawsFairly(t.db.bindings, t.workers[step.w])
  {
    match step
    case RunGuard(w) => GuardedWorkerFair(s, w, t);
    case Prepare(w) => PrepareShape(s, w);
    case Wire(w, reply, applied, draw) => WireShape(s, w, reply, applied, draw);
    case Acknowledge(w, replyLost) => AckShape(s, w, replyLost);
    case AckFault(w) => AckFaultShape(s, w);
    case SettleClaim(w) => SettleShape(s, w);
    case Defer(_, _) =>
    case FollowThrough(w) => FollowShape(s, w);
    case Crash(w) => CrashShape(s, w);
  }

  lemma GuardedWorkerFair(s: Sys, w: WorkerId, t: Sys)
    requires NewestInv(s) && Enabled(s, RunGuard(w)) && t == GuardStep(s, w)
    ensures w in t.workers ==> WithdrawsFairly(t.db.bindings, t.workers[w])
  {
    GuardShape(s, w);
    var c := s.workers[w].claim;
    assert WorkerWf(s.db.jobs, s.workers[w]);
    if CarriesRender(c) {
      TargetIsBound(s, s.workers[w]);
      if Guard(c, s.db.bindings) == Withdraw { GuardWithdrawsFairly(s, c); }
    }
  }

  lemma NewestSender(s: Sys, step: Step, t: Sys)
    requires NewestInv(s) && Enabled(s, step) && SenderStep(step) && !step.ClaimNext? && t == SenderNext(s, step)
    requires InProjection(t) && Forward(s, t)
    ensures NewestInv(t)
  {
    if step.SettleClaim? && s.workers[step.w].phase.outcome.SupersededStale? {
      WithdrawalIsFair(s, step.w, t);
    } else {
      SenderWithdraws(s, step, t);
      RowsStayFair(s, t);
    }
    SenderWorkerFair(s, step, t);
    SenderStepRows(s, step, t);
    forall v | v in t.workers && v != step.w ensures WithdrawsFairly(t.db.bindings, t.workers[v]) {
      WorkerStaysFair(s, t, s.workers[v]);
    }
  }

  lemma ClaimWithdrawsNothing(before: map<JobId, Job>, after: map<JobId, Job>, now: int, ttl: nat, head: Option<JobId>)
    requires ClaimEffect(before, after, now, ttl, head)
    ensures WithdrawsNothing(before, after)
  {
  }

  lemma ClaimKeepsFair(s: Sys, t: Sys, w: WorkerId)
    requires NewestInv(s) && Forward(s, t)
    requires forall v | v in t.workers && v != w :: v in s.workers && t.workers[v] == s.workers[v]
    requires w in t.workers && w !in s.workers ==> t.workers[w].phase.Guarding?
    requires w in s.workers ==> w in t.workers && t.workers[w] == s.workers[w]
    ensures forall v | v in t.workers :: WithdrawsFairly(t.db.bindings, t.workers[v])
  {
    forall v | v in t.workers ensures WithdrawsFairly(t.db.bindings, t.workers[v]) {
      if v in s.workers { WorkerStaysFair(s, t, s.workers[v]); }
    }
  }

  lemma NewestClaim(s: Sys, w: WorkerId, head: Option<JobId>, t: Sys)
    requires NewestInv(s) && Enabled(s, ClaimNext(w, head)) && t == ClaimStep(s, w, head)
    requires InProjection(t) && Forward(s, t)
    ensures NewestInv(t)
  {
    ClaimShape(s, w, head);
    ClaimWithdrawsNothing(s.db.jobs, t.db.jobs, s.now, s.limits.leaseTtl, head);
    RowsStayFair(s, t);
    ClaimKeepsFair(s, t, w);
  }

  // ---------------------------------------------------------------- every run

  lemma NewestNext(s: Sys, step: Step)
    requires NewestInv(s) && Enabled(s, step) && Producer(step)
    ensures NewestInv(Next(s, step))
  {
    ProjectedNext(s, step);
    StepIsForward(s, step);
    if !SenderStep(step) {
      NewestOutside(s, step, OutsideNext(s, step));
    } else if step.ClaimNext? {
      NewestClaim(s, step.w, step.head, SenderNext(s, step));
    } else {
      NewestSender(s, step, SenderNext(s, step));
    }
  }

  lemma {:induction false} NewestAfter(s: Sys, steps: seq<Step>)
    requires NewestInv(s) && Runs(s, steps) && AllProducers(steps)
    ensures NewestInv(After(s, steps))
    decreases |steps|
  {
    if steps == [] {
    } else {
      NewestNext(s, steps[0]);
      NewestAfter(Next(s, steps[0]), steps[1..]);
    }
  }

  lemma ProducedNewest(s: Sys, now: int, limits: Limits)
    requires Produced(s, now, limits)
    ensures NewestInv(s)
  {
    var steps :| AllProducers(steps) && Runs(Start(now, limits), steps) && After(Start(now, limits), steps) == s;
    NewestAfter(Start(now, limits), steps);
  }

  /** With any number of workers, crashes and recoveries anywhere: a render is withdrawn only when a newer one
      was recorded or it is shown already. So the newest render of a binding is never lost to a withdrawal. */
  lemma NewestRenderIsNotWithdrawn(s: Sys, now: int, limits: Limits, key: BindingKey, k: nat)
    requires Produced(s, now, limits) && k < |RendersOf(s.history, key)|
    ensures var renders := RendersOf(s.history, key);
      && renders[k].job in s.db.jobs
      && (s.db.jobs[renders[k].job].state.Superseded? ==>
            k + 1 < |renders| || (key in s.db.bindings && s.db.bindings[key].rendered >= |renders|))
  {
    ProducedNewest(s, now, limits);
    assert Numbered(s.db.jobs, key, s.history.renders[key]);
    var job := RendersOf(s.history, key)[k].job;
    assert FairlyWithdrawn(s.history, s.db.bindings, s.db.jobs[job]);
  }
}
