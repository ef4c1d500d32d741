/** When a crash-free run has finished its jobs, every binding shows its newest render, unless Telegram
    refused it or may have applied it unseen. */
module Shown {
  import opened Tables
  import opened OutboundQueue
  import opened Acknowledgements
  import opened Delivery
  import opened Machine
  import opened QueueEffects
  import opened Fencing
  import opened Leases
  import opened Projection
  import opened Renders
  import opened Newest
  import opened Progress

  predicate WillAdvance(worker: Worker, id: JobId) {
    worker.claim.id == id && worker.phase.Following? && worker.phase.follow.Advance?
  }

  /** A delivered render is shown, or a worker is about to record that it is. */
  predicate RowShown(bindings: map<BindingKey, Binding>, workers: map<WorkerId, Worker>, id: JobId, j: Job) {
    j.state.Sent? && j.operation.Some? && j.revision.Some? ==>
      || Shows(bindings, BindingKey(j.operation.value, j.chat), j.revision.value)
      || exists w :: w in workers && WillAdvance(workers[w], id)
  }

  /** A worker settles an unmodified render only to advance it afterwards. */
  predicate WillShow(worker: Worker) {
    worker.phase.Settling? ==>
      && !worker.phase.outcome.Sent?
      && (worker.phase.outcome.NotModified? && CarriesRender(worker.claim) ==> worker.phase.follow.Advance?)
  }

  ghost predicate ShownInv(s: Sys) {
    && NewestInv(s)
    && (forall id | id in s.db.jobs :: RowShown(s.db.bindings, s.workers, id, s.db.jobs[id]))
    && (forall w | w in s.workers :: WillShow(s.workers[w]))
  }

  // ---------------------------------------------------------------- rows that a step leaves alone

  lemma RowStaysShown(s: Sys, t: Sys, id: JobId)
    requires Forward(s, t) && id in s.db.jobs && RowShown(s.db.bindings, s.workers, id, s.db.jobs[id])
    requires id in t.db.jobs && SameRevision(s.db.jobs[id], t.db.jobs[id])
    requires t.db.jobs[id].state.Sent? ==> s.db.jobs[id].state.Sent?
    requires forall w | w in s.workers && WillAdvance(s.workers[w], id) :: w in t.workers && t.workers[w] == s.workers[w]
    ensures RowShown(t.db.bindings, t.workers, id, t.db.jobs[id])
  {
    var j := s.db.jobs[id];
    if t.db.jobs[id].state.Sent? && CarriesRow(j) && !Shows(s.db.bindings, KeyOf(j), j.revision.value) {
      var w :| w in s.workers && WillAdvance(s.workers[w], id);
      assert w in t.workers && WillAdvance(t.workers[w], id);
    }
  }

  predicate CarriesRow(j: Job) { j.operation.Some? && j.revision.Some? }

  function KeyOf(j: Job): BindingKey
    requires CarriesRow(j)
  {
    BindingKey(j.operation.value, j.chat)
  }

  lemma OutsideRowShown(s: Sys, t: Sys, id: JobId)
    requires Forward(s, t) && Outside(s.db, t.db) && t.workers == s.workers && id in t.db.jobs
    requires id in s.db.jobs ==> RowShown(s.db.bindings, s.workers, id, s.db.jobs[id])
    ensures RowShown(t.db.bindings, t.workers, id, t.db.jobs[id])
  {
    if id in s.db.jobs {
      assert OutsideRow(s.db.jobs[id], t.db.jobs[id]);
      RowStaysShown(s, t, id);
    }
  }

  lemma ShownOutside(s: Sys, t: Sys)
    requires ShownInv(s) && NewestInv(t) && Forward(s, t) && OutsideMove(s, t)
    ensures ShownInv(t)
  {
    forall id | id in t.db.jobs ensures RowShown(t.db.bindings, t.workers, id, t.db.jobs[id]) {
      OutsideRowShown(s, t, id);
    }
  }

  ghost predicate WorkersKept(s: Sys, t: Sys, w: WorkerId) {
    && (forall v | v in s.workers :: v in t.workers && t.workers[v] == s.workers[v])
    && (forall v | v in t.workers && v !in s.workers :: v == w && t.workers[v].phase.Guarding?)
  }

  lemma ClaimKeepsWorkers(s: Sys, w: WorkerId, head: Option<JobId>, t: Sys)
    requires Enabled(s, ClaimNext(w, head)) && t == ClaimStep(s, w, head)
    ensures WorkersKept(s, t, w)
  {
    ClaimShape(s, w, head);
  }

  lemma ClaimedRowShown(s: Sys, w: WorkerId, head: Option<JobId>, t: Sys, id: JobId)
    requires ShownInv(s) && Forward(s, t) && WorkersKept(s, t, w) && id in t.db.jobs
    requires Enabled(s, ClaimNext(w, head)) && t == ClaimStep(s, w, head)
    ensures RowShown(t.db.bindings, t.workers, id, t.db.jobs[id])
  {
    ClaimShape(s, w, head);
    ClaimedRowRevision(s.db.jobs, t.db.jobs, s.now, s.limits.leaseTtl, head, id);
    RowStaysShown(s, t, id);
  }

  lemma ShownClaim(s: Sys, w: WorkerId, head: Option<JobId>, t: Sys)
    requires ShownInv(s) && NewestInv(t) && Forward(s, t)
    requires Enabled(s, ClaimNext(w, head)) && t == ClaimStep(s, w, head)
    ensures ShownInv(t)
  {
    ClaimKeepsWorkers(s, w, head, t);
    forall id | id in t.db.jobs ensures RowShown(t.db.bindings, t.workers, id, t.db.jobs[id]) {
      ClaimedRowShown(s, w, head, t, id);
    }
    forall v | v in t.workers ensures WillShow(t.workers[v]) {
      if v in s.workers { assert WillShow(s.workers[v]); }
    }
  }

  lemma ClaimedRowRevision(before: map<JobId, Job>, after: map<JobId, Job>, now: int, ttl: nat, head: Option<JobId>, id: JobId)
    requires ClaimEffect(before, after, now, ttl, head) && id in after
    ensures id in before && SameRevision(before[id], after[id])
    ensures after[id].state.Sent? ==> before[id].state.Sent?
  {
  }

  // ---------------------------------------------------------------- the worker's own row

  lemma AckShows(bindings: map<BindingKey, Binding>, c: Claimed, wire: JobKind, message: int, at: int)
    requires CarriesRender(c) && TargetOf(c) in bindings
    ensures Shows(AckedBindings(bindings, c, wire, message, at), TargetOf(c), c.revision.value)
  {
  }

  lemma OwnRowAcked(s: Sys, w: WorkerId, replyLost: bool, t: Sys)
    requires Enabled(s, Acknowledge(w, replyLost)) && t == AckStep(s, w, replyLost)
    requires Owns(s.db.jobs, s.workers[w].claim.id, s.workers[w].claim.attempts) && ShownInv(s)
    ensures var id := s.workers[w].claim.id;
      id in t.db.jobs && RowShown(t.db.bindings, t.workers, id, t.db.jobs[id])
  {
    var c := s.workers[w].claim;
    var phase := s.workers[w].phase;
    AckShape(s, w, replyLost);
    assert WorkerWf(s.db.jobs, s.workers[w]);
    if CarriesRender(c) {
      TargetIsBound(s, s.workers[w]);
      AckShows(s.db.bindings, c, MethodOf(phase.action), phase.message, phase.at);
    }
  }

  /** A worker that settles its row as sent goes on to advance the render. */
  lemma SentOnlyUnmodified(j: Job, now: int, maxAttempts: nat, worker: Worker)
    requires worker.phase.Settling? && WillShow(worker) && CarriesRender(worker.claim)
    requires Settled(j, now, maxAttempts, worker.phase.outcome).state.Sent?
    ensures worker.phase.follow.Advance?
  {
  }

  lemma SettledRevision(j: Job, now: int, maxAttempts: nat, outcome: DeliveryOutcome)
    ensures SameRevision(j, Settled(j, now, maxAttempts, outcome))
  {
  }

  lemma SettledWorkerAdvances(s: Sys, w: WorkerId, t: Sys)
    requires Enabled(s, SettleClaim(w)) && t == SettleStep(s, w) && s.workers[w].phase.follow.Advance?
    requires Owns(s.db.jobs, s.workers[w].claim.id, s.workers[w].claim.attempts)
    ensures w in t.workers && WillAdvance(t.workers[w], s.workers[w].claim.id)
  {
    SettleShape(s, w);
  }

  lemma SettledRowIs(s: Sys, w: WorkerId, t: Sys)
    requires Enabled(s, SettleClaim(w)) && t == SettleStep(s, w)
    requires Owns(s.db.jobs, s.workers[w].claim.id, s.workers[w].claim.attempts)
    ensures var id := s.workers[w].claim.id;
      id in t.db.jobs
      && t.db.jobs[id] == Settled(s.db.jobs[id], s.now, s.limits.maxAttempts, s.workers[w].phase.outcome)
  {
    SettleShape(s, w);
  }

  lemma OwnRowSettled(s: Sys, w: WorkerId, t: Sys)
    requires Enabled(s, SettleClaim(w)) && t == SettleStep(s, w)
    requires Owns(s.db.jobs, s.workers[w].claim.id, s.workers[w].claim.attempts)
    requires WorkerWf(s.db.jobs, s.workers[w]) && WillShow(s.workers[w])
    ensures var id := s.workers[w].claim.id;
      id in t.db.jobs && RowShown(t.db.bindings, t.workers, id, t.db.jobs[id])
  {
    var id := s.workers[w].claim.id;
    var j := s.db.jobs[id];
    SettledRowIs(s, w, t);
    SettledRevision(j, s.now, s.limits.maxAttempts, s.workers[w].phase.outcome);
    if t.db.jobs[id].state.Sent? && CarriesRow(j) {
      SentOnlyUnmodified(j, s.now, s.limits.maxAttempts, s.workers[w]);
      SettledWorkerAdvances(s, w, t);
    }
  }

  /** The follow-up of an unmodified render shows it. */
  lemma AdvanceShows(s: Sys, w: WorkerId, id: JobId, t: Sys)
    requires Enabled(s, FollowThrough(w)) && t == FollowStep(s, w) && WillAdvance(s.workers[w], id) && ShownInv(s)
    ensures id in t.db.jobs && t.db.jobs == s.db.jobs
    ensures CarriesRow(t.db.jobs[id]) ==> Shows(t.db.bindings, KeyOf(t.db.jobs[id]), t.db.jobs[id].revision.value)
  {
    FollowShape(s, w);
    assert WorkerWf(s.db.jobs, s.workers[w]);
    if CarriesRender(s.workers[w].claim) { TargetIsBound(s, s.workers[w]); }
  }

  // ---------------------------------------------------------------- senders

  /** A row that the worker does not hold, or that its step does not touch. */
  lemma OtherRowsStayShown(s: Sys, step: Step, t: Sys, id: JobId)
    requires SenderStep(step) && step.w in s.workers
    requires ShownInv(s) && Forward(s, t) && SenderRows(s, t, step.w) && id in t.db.jobs
    requires id != s.workers[step.w].claim.id || (t.db.jobs[id] == s.db.jobs[id] && !WillAdvance(s.workers[step.w], id))
    ensures RowShown(t.db.bindings, t.workers, id, t.db.jobs[id])
  {
    assert id in s.db.jobs && t.db.jobs[id] == s.db.jobs[id];
    forall w | w in s.workers && WillAdvance(s.workers[w], id)
      ensures w in t.workers && t.workers[w] == s.workers[w]
    {
      assert w != step.w;
    }
    RowStaysShown(s, t, id);
  }

  lemma OwnRowShown(s: Sys, step: Step, t: Sys)
    requires ShownInv(s) && Enabled(s, step) && SenderStep(step) && !step.ClaimNext? && CrashFree(s, step)
    requires t == SenderNext(s, step) && Forward(s, t) && SenderRows(s, t, step.w)
    ensures var id := s.workers[step.w].claim.id;
      id in t.db.jobs && RowShown(t.db.bindings, t.workers, id, t.db.jobs[id])
  {
    var c := s.workers[step.w].claim;
    assert WorkerWf(s.db.jobs, s.workers[step.w]);
    if step.Acknowledge? && Owns(s.db.jobs, c.id, c.attempts) {
      OwnRowAcked(s, step.w, step.replyLost, t);
    } else if step.SettleClaim? && Owns(s.db.jobs, c.id, c.attempts) {
      assert WillShow(s.workers[step.w]);
      OwnRowSettled(s, step.w, t);
    } else if step.FollowThrough? && WillAdvance(s.workers[step.w], c.id) {
      AdvanceShows(s, step.w, c.id, t);
    } else if step.Prepare? && Owns(s.db.jobs, c.id, c.attempts) {
      PrepareShape(s, step.w);
    } else {
      UntouchedRow(s, step, t);
      OtherRowsStayShown(s, step, t, c.id);
    }
  }

  /** All other steps leave the worker's own row as it was, and only a follow-up ends a follow-up. */
  lemma UntouchedRow(s: Sys, step: Step, t: Sys)
    requires Base(s) && Enabled(s, step) && SenderStep(step) && !step.ClaimNext? && CrashFree(s, step)
    requires t == SenderNext(s, step)
    requires var c := s.workers[step.w].claim;
      && (step.Acknowledge? || step.SettleClaim? || step.Prepare? ==> !Owns(s.db.jobs, c.id, c.attempts))
      && (step.FollowThrough? ==> !WillAdvance(s.workers[step.w], c.id))
    ensures t.db.jobs == s.db.jobs && !WillAdvance(s.workers[step.w], s.workers[step.w].claim.id)
  {
    match step
    case Prepare(w) => PrepareShape(s, w);
    case Acknowledge(w, replyLost) => AckShape(s, w, replyLost);
    case SettleClaim(w) => SettleShape(s, w);
    case Wire(w, reply, applied, draw) => WireShape(s, w, reply, applied, draw);
    case _ => QuietShape(s, step, t);
  }

  lemma FailureWillShow(limits: Limits, c: Claimed, action: WireAction, decision: Classified, draw: nat, at: int)
    ensures WillShow(Worker(c, Settling(FailureOutcome(limits, c, action, decision, draw), FollowUp(c, decision), at)))
  {
  }

  lemma WireWillShow(s: Sys, w: WorkerId, reply: Reply, applied: bool, draw: nat, t: Sys)
    requires Enabled(s, Wire(w, reply, applied, draw)) && t == WireStep(s, w, reply, applied, draw)
    ensures w in t.workers && WillShow(t.workers[w])
  {
    var c := s.workers[w].claim;
    var phase := s.workers[w].phase;
    if reply.Failed? { FailureWillShow(s.limits, c, phase.action, Classify(reply.shape), draw, phase.at); }
  }

  lemma MoverWillShow(s: Sys, step: Step, t: Sys)
    requires Enabled(s, step) && SenderStep(step) && !step.ClaimNext? && t == SenderNext(s, step)
    ensures step.w in t.workers ==> WillShow(t.workers[step.w])
  {
    match step
    case RunGuard(w) => GuardShape(s, w);
    case Prepare(w) => PrepareShape(s, w);
    case Wire(w, reply, applied, draw) => WireWillShow(s, w, reply, applied, draw, t);
    case Acknowledge(w, replyLost) => AckShape(s, w, replyLost);
    case AckFault(w) => AckFaultShape(s, w);
    case SettleClaim(w) => SettleShape(s, w);
    case Defer(_, _) =>
    case FollowThrough(w) => FollowShape(s, w);
    case Crash(w) => CrashShape(s, w);
  }

  lemma ShownSender(s: Sys, step: Step, t: Sys)
    requires ShownInv(s) && NewestInv(t) && Forward(s, t) && Enabled(s, step) && SenderStep(step) && !step.ClaimNext?
    requires CrashFree(s, step) && t == SenderNext(s, step)
    ensures ShownInv(t)
  {
    SenderStepRows(s, step, t);
    forall id | id in t.db.jobs ensures RowShown(t.db.bindings, t.workers, id, t.db.jobs[id]) {
      if id == s.workers[step.w].claim.id { OwnRowShown(s, step, t); } else { OtherRowsStayShown(s, step, t, id); }
    }
    MoverWillShow(s, step, t);
    forall v | v in t.workers ensures WillShow(t.workers[v]) {
      if v != step.w { assert t.workers[v] == s.workers[v] && WillShow(s.workers[v]); }
    }
  }

  // ---------------------------------------------------------------- every crash-free run

  lemma ShownNext(s: Sys, step: Step)
    requires ShownInv(s) && Enabled(s, step) && Producer(step) && CrashFree(s, step)
    ensures ShownInv(Next(s, step))
  {
    NewestNext(s, step);
    StepIsForward(s, step);
    if !SenderStep(step) {
      OutsideStep(s, step);
      ShownOutside(s, OutsideNext(s, step));
    } else if step.ClaimNext? {
      ShownClaim(s, step.w, step.head, SenderNext(s, step));
    } else {
      ShownSender(s, step, SenderNext(s, step));
    }
  }

  lemma {:induction false} ShownAfter(s: Sys, steps: seq<Step>)
    requires ShownInv(s) && Runs(s, steps) && AllProducers(steps) && RunsCrashFree(s, steps)
    ensures ShownInv(After(s, steps))
    decreases |steps|
  {
    if steps == [] {
    } else {
      ShownNext(s, steps[0]);
      ShownAfter(Next(s, steps[0]), steps[1..]);
    }
  }

  /** The job of the newest render of a binding. */
  function NewestJob(s: Sys, key: BindingKey): JobId
    requires RendersOf(s.history, key) != []
  {
    RendersOf(s.history, key)[|RendersOf(s.history, key)| - 1].job
  }

  lemma RestShowsNewest(s: Sys, key: BindingKey)
    requires ShownInv(s) && s.workers == map[] && AllFinished(s) && RendersOf(s.history, key) != []
    ensures key in s.db.bindings && NewestJob(s, key) in s.db.jobs
    ensures || s.db.bindings[key].rendered == |RendersOf(s.history, key)|
            || s.db.jobs[NewestJob(s, key)].state.FailedPermanent?
            || s.db.jobs[NewestJob(s, key)].state.OutcomeUnknown?
  {
    var id := NewestJob(s, key);
    assert Numbered(s.db.jobs, key, s.history.renders[key]);
    assert Agrees(s.db.bindings[key], RendersOf(s.history, key));
    assert RowWf(s.db.jobs[id]) && RowShown(s.db.bindings, s.workers, id, s.db.jobs[id]);
    assert FairlyWithdrawn(s.history, s.db.bindings, s.db.jobs[id]);
  }

  /** With any number of workers and no crash: once all jobs of a run are finished and all workers done,
      every binding shows its newest recorded event, unless the job of that very render was refused for good
      or quarantined. */
  lemma FinishedRunsShowTheNewest(now: int, limits: Limits, steps: seq<Step>, key: BindingKey)
    requires Runs(Start(now, limits), steps) && AllProducers(steps) && RunsCrashFree(Start(now, limits), steps)
    requires var s := After(Start(now, limits), steps);
      s.workers == map[] && AllFinished(s) && RendersOf(s.history, key) != []
    ensures var s := After(Start(now, limits), steps);
      && key in s.db.bindings && NewestJob(s, key) in s.db.jobs
      && (|| s.db.bindings[key].rendered == |RendersOf(s.history, key)|
          || s.db.jobs[NewestJob(s, key)].state.FailedPermanent?
          || s.db.jobs[NewestJob(s, key)].state.OutcomeUnknown?)
  {
    ShownAfter(Start(now, limits), steps);
    RestShowsNewest(After(Start(now, limits), steps), key);
  }
}
