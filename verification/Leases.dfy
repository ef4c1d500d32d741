/** Lease exclusion, fencing by attempt number, and bounded work. */
module Leases {
  import opened Tables
  import opened OutboundQueue
  import opened Delivery
  import opened Machine
  import opened QueueEffects
  import opened Fencing

  // ---------------------------------------------------------------- one lease per chat

  ghost predicate Exclusive(s: Sys) {
    forall i, j | i in s.db.jobs && j in s.db.jobs ::
      Leased(s.db.jobs[i], s.now) && Leased(s.db.jobs[j], s.now) && s.db.jobs[i].chat == s.db.jobs[j].chat
      ==> i == j
  }

  /** No lease is taken or prolonged. */
  ghost predicate LeasesOnlyEnd(s: Sys, t: Sys) {
    forall id | id in t.db.jobs && Leased(t.db.jobs[id], t.now) ::
      id in s.db.jobs && Leased(s.db.jobs[id], s.now) && s.db.jobs[id].chat == t.db.jobs[id].chat
  }

  lemma ExclusiveShrinks(s: Sys, t: Sys)
    requires Exclusive(s) && LeasesOnlyEnd(s, t)
    ensures Exclusive(t)
  {
  }

  lemma ExclusiveClaim(s: Sys, t: Sys, head: Option<JobId>)
    requires Exclusive(s) && t.now == s.now && ClaimEffect(s.db.jobs, t.db.jobs, s.now, s.limits.leaseTtl, head)
    requires head.Some? ==> Eligible(Quarantine(s.db, s.now).jobs, s.now, head.value)
    ensures Exclusive(t)
  {
    var clean := Quarantine(s.db, s.now).jobs;
    forall other | other in t.db.jobs && head != Some(other) && Leased(t.db.jobs[other], t.now)
      ensures Leased(s.db.jobs[other], s.now) && s.db.jobs[other].chat == t.db.jobs[other].chat
      ensures head.Some? ==> t.db.jobs[other].chat != t.db.jobs[head.value].chat
    {
      assert Leased(clean[other], s.now);
      assert head.Some? ==> !Busy(clean, s.now, clean[head.value].chat);
    }
  }

  lemma ExclusiveOutside(s: Sys, t: Sys)
    requires Base(s) && Exclusive(s) && Outside(s.db, t.db) && s.now <= t.now
    ensures Exclusive(t)
  {
    forall id | id in t.db.jobs && Leased(t.db.jobs[id], t.now)
      ensures id in s.db.jobs && Leased(s.db.jobs[id], s.now) && s.db.jobs[id].chat == t.db.jobs[id].chat
    {
      if id in s.db.jobs { assert OutsideRow(s.db.jobs[id], t.db.jobs[id]); }
    }
    ExclusiveShrinks(s, t);
  }

  /** One worker's step either keeps every row, or rewrites one without giving it a new lease. */
  ghost predicate SenderRows(s: Sys, t: Sys, w: WorkerId) {
    && WorkerMoves(s, t, w)
    && var c := s.workers[w].claim;
       if Owns(s.db.jobs, c.id, c.attempts) && t.db.jobs != s.db.jobs
       then t.db.jobs.Keys == s.db.jobs.Keys
            && t.db.jobs == s.db.jobs[c.id := t.db.jobs[c.id]]
            && SameRow(s.db.jobs[c.id], t.db.jobs[c.id])
            && t.db.jobs[c.id].attempts == c.attempts
            && (t.db.jobs[c.id].state.Sending? ==> t.db.jobs[c.id].lease == s.db.jobs[c.id].lease)
            && (s.db.jobs[c.id].kind.SendMessage? ==> t.db.jobs[c.id].kind.SendMessage?)
            && (t.db.jobs[c.id].state.RetryWait? ==> c.attempts < s.limits.maxAttempts)
            && t.db.jobs[c.id].state != JobState.Ready
       else t.db.jobs == s.db.jobs
  }

  /** The settlement log grows by at most the worker's own claim, and only when its row leaves `sending`. */
  predicate SenderLog(s: Sys, t: Sys, w: WorkerId)
    requires w in s.workers
  {
    var c := s.workers[w].claim;
    || t.history.settlements == s.history.settlements
    || (SettlementLogged(s, t, c) && Owns(s.db.jobs, c.id, c.attempts) && c.id in t.db.jobs
        && t.db.jobs[c.id].attempts == c.attempts && !t.db.jobs[c.id].state.Sending?)
  }

  lemma KeptRows(s: Sys, t: Sys, w: WorkerId)
    requires RowsKept(s, t, w) && t.history.settlements == s.history.settlements
    ensures SenderRows(s, t, w) && SenderLog(s, t, w)
  {
  }

  lemma RewrittenRows(s: Sys, t: Sys, w: WorkerId, row: Job)
    requires RowRewritten(s, t, w, row)
    requires var j := s.db.jobs[s.workers[w].claim.id];
      && SameRow(j, row) && row.attempts == j.attempts && row.state != JobState.Ready
      && (row.state.Sending? ==> row.lease == j.lease)
      && (j.kind.SendMessage? ==> row.kind.SendMessage?)
      && (row.state.RetryWait? ==> j.attempts < s.limits.maxAttempts)
    requires t.history.settlements == s.history.settlements
             || (SettlementLogged(s, t, s.workers[w].claim) && !row.state.Sending?)
    ensures SenderRows(s, t, w) && SenderLog(s, t, w)
  {
  }

  lemma PreparedRows(s: Sys, w: WorkerId)
    requires Base(s) && Enabled(s, Prepare(w))
    ensures SenderRows(s, PrepareStep(s, w), w) && SenderLog(s, PrepareStep(s, w), w)
  {
    var c := s.workers[w].claim;
    PrepareShape(s, w);
    assert WorkerWf(s.db.jobs, s.workers[w]);
    if Owns(s.db.jobs, c.id, c.attempts) {
      RewrittenRows(s, PrepareStep(s, w), w, PrepareStep(s, w).db.jobs[c.id]);
    } else {
      KeptRows(s, PrepareStep(s, w), w);
    }
  }

  lemma AckedRows(s: Sys, w: WorkerId, replyLost: bool)
    requires Base(s) && Enabled(s, Acknowledge(w, replyLost))
    ensures SenderRows(s, AckStep(s, w, replyLost), w) && SenderLog(s, AckStep(s, w, replyLost), w)
  {
    var c := s.workers[w].claim;
    AckShape(s, w, replyLost);
    assert WorkerWf(s.db.jobs, s.workers[w]);
    if Owns(s.db.jobs, c.id, c.attempts) {
      RewrittenRows(s, AckStep(s, w, replyLost), w, AckStep(s, w, replyLost).db.jobs[c.id]);
    } else {
      KeptRows(s, AckStep(s, w, replyLost), w);
    }
  }

  lemma SettledRows(s: Sys, w: WorkerId)
    requires Base(s) && Enabled(s, SettleClaim(w))
    ensures SenderRows(s, SettleStep(s, w), w) && SenderLog(s, SettleStep(s, w), w)
  {
    var c := s.workers[w].claim;
    SettleShape(s, w);
    assert WorkerWf(s.db.jobs, s.workers[w]);
    if Owns(s.db.jobs, c.id, c.attempts) {
      SettledRow(s.db.jobs[c.id], s.now, s.limits.maxAttempts, s.workers[w].phase.outcome);
      RewrittenRows(s, SettleStep(s, w), w, SettleStep(s, w).db.jobs[c.id]);
    } else {
      KeptRows(s, SettleStep(s, w), w);
    }
  }

  /** Every step of a sender after its claim obeys the row and log discipline. */
  lemma SenderStepRows(s: Sys, step: Step, t: Sys)
    requires Base(s) && Enabled(s, step) && SenderStep(step) && !step.ClaimNext? && t == SenderNext(s, step)
    ensures SenderRows(s, t, step.w) && SenderLog(s, t, step.w)
  {
    match step
    case Prepare(w) => PreparedRows(s, w);
    case Wire(w, reply, applied, draw) => WireShape(s, w, reply, applied, draw); KeptRows(s, t, w);
    case Acknowledge(w, replyLost) => AckedRows(s, w, replyLost);
    case SettleClaim(w) => SettledRows(s, w);
    case _ => QuietRows(s, step, t);
  }

  lemma QuietRows(s: Sys, step: Step, t: Sys)
    requires Enabled(s, step) && QuietStep(step) && t == SenderNext(s, step)
    ensures SenderRows(s, t, step.w) && SenderLog(s, t, step.w)
  {
    QuietShape(s, step, t);
    KeptRows(s, t, step.w);
  }

  lemma ExclusiveSender(s: Sys, t: Sys, w: WorkerId)
    requires Exclusive(s) && SenderRows(s, t, w)
    ensures Exclusive(t)
  {
    ExclusiveShrinks(s, t);
  }

  // ---------------------------------------------------------------- the attempt number counts claims

  function AttemptsOf(jobs: map<JobId, Job>, id: JobId): nat {
    if id in jobs then jobs[id].attempts else 0
  }

  predicate CountedClaim(jobs: map<JobId, Job>, settled: nat, c: ClaimId) {
    && settled <= 1
    && (settled == 1 ==>
          && c.job in jobs
          && (c.attempt < jobs[c.job].attempts
              || (c.attempt == jobs[c.job].attempts && !jobs[c.job].state.Sending?)))
  }

  ghost predicate Counted(s: Sys) {
    && (forall id :: s.history.claims[id] == AttemptsOf(s.db.jobs, id))
    && (forall c :: CountedClaim(s.db.jobs, s.history.settlements[c], c))
  }

  lemma CountedOutside(s: Sys, t: Sys)
    requires Base(s) && Counted(s) && Outside(s.db, t.db)
    requires t.history.claims == s.history.claims && t.history.settlements == s.history.settlements
    ensures Counted(t)
  {
    forall id ensures t.history.claims[id] == AttemptsOf(t.db.jobs, id) {
      assert s.history.claims[id] == AttemptsOf(s.db.jobs, id);
      if id in s.db.jobs { assert OutsideRow(s.db.jobs[id], t.db.jobs[id]); }
    }
    forall c ensures CountedClaim(t.db.jobs, t.history.settlements[c], c) {
      assert CountedClaim(s.db.jobs, s.history.settlements[c], c);
      if c.job in s.db.jobs { assert OutsideRow(s.db.jobs[c.job], t.db.jobs[c.job]); }
    }
  }

  lemma CountedClaimStep(s: Sys, t: Sys, head: Option<JobId>)
    requires Base(s) && Counted(s) && ClaimEffect(s.db.jobs, t.db.jobs, s.now, s.limits.leaseTtl, head)
    requires t.history.settlements == s.history.settlements
    requires t.history.claims == if head.None? then s.history.claims else s.history.claims + multiset{head.value}
    ensures Counted(t)
  {
    forall id ensures t.history.claims[id] == AttemptsOf(t.db.jobs, id) {
      assert s.history.claims[id] == AttemptsOf(s.db.jobs, id);
    }
    forall c ensures CountedClaim(t.db.jobs, t.history.settlements[c], c) {
      assert CountedClaim(s.db.jobs, s.history.settlements[c], c);
    }
  }

  lemma CountedSender(s: Sys, t: Sys, w: WorkerId)
    requires Base(s) && Counted(s) && SenderRows(s, t, w) && SenderLog(s, t, w)
    ensures Counted(t)
  {
    forall id ensures t.history.claims[id] == AttemptsOf(t.db.jobs, id) {
      assert s.history.claims[id] == AttemptsOf(s.db.jobs, id);
    }
    forall c ensures CountedClaim(t.db.jobs, t.history.settlements[c], c) {
      assert CountedClaim(s.db.jobs, s.history.settlements[c], c);
    }
  }

  // ---------------------------------------------------------------- bounded work

  /** A waiting job has attempts to spare; a job that was always a send never outlives its lease. */
  predicate BoundedJob(j: Job, expiries: nat, bornSend: bool, maxAttempts: nat) {
    && (j.state.RetryWait? ==> j.attempts < maxAttempts)
    && j.attempts <= maxAttempts + expiries
    && (bornSend ==> j.kind.SendMessage? && expiries == 0)
  }

  predicate BornSend(h: History, id: JobId) {
    id in h.enqueuedAs && h.enqueuedAs[id].SendMessage?
  }

  ghost predicate Bounded(s: Sys) {
    && s.db.jobs.Keys <= s.history.enqueuedAs.Keys <= s.db.jobs.Keys
    && (forall id | id in s.db.jobs ::
          BoundedJob(s.db.jobs[id], s.history.expiries[id], BornSend(s.history, id), s.limits.maxAttempts))
    && (forall id | id !in s.db.jobs :: s.history.expiries[id] == 0)
  }

  lemma BoundedOutside(s: Sys, t: Sys)
    requires Base(s) && Bounded(s) && Outside(s.db, t.db) && t.limits == s.limits
    requires t.history.expiries == s.history.expiries
    requires t.history.enqueuedAs.Keys == t.db.jobs.Keys
    requires forall id | id in s.db.jobs :: t.history.enqueuedAs[id] == s.history.enqueuedAs[id]
    requires forall id | id in t.db.jobs && id !in s.db.jobs :: t.history.enqueuedAs[id] == t.db.jobs[id].kind
    ensures Bounded(t)
  {
    forall id | id in t.db.jobs
      ensures BoundedJob(t.db.jobs[id], t.history.expiries[id], BornSend(t.history, id), t.limits.maxAttempts)
    {
      if id in s.db.jobs { assert OutsideRow(s.db.jobs[id], t.db.jobs[id]); }
    }
  }

  lemma BoundedClaimRow(j: Job, k: Job, now: int, ttl: nat, claimed: bool, expiries: nat, bornSend: bool, maxAttempts: nat)
    requires RowWf(j) && BoundedJob(j, expiries, bornSend, maxAttempts) && maxAttempts >= 1
    requires k == if claimed then ClaimedJob(j, now, ttl) else Quarantined(j, now)
    requires claimed ==> !ExpiredSend(j, now) && (Waiting(j) || LeaseExpired(j, now))
    ensures BoundedJob(k, if claimed && j.state.Sending? then expiries + 1 else expiries, bornSend, maxAttempts)
  {
  }

  lemma BoundedClaim(s: Sys, t: Sys, head: Option<JobId>)
    requires Base(s) && Bounded(s) && s.limits.maxAttempts >= 1 && t.limits == s.limits
    requires ClaimEffect(s.db.jobs, t.db.jobs, s.now, s.limits.leaseTtl, head)
    requires t.history.enqueuedAs == s.history.enqueuedAs
    requires t.history.expiries == if head.Some? && s.db.jobs[head.value].state.Sending?
                                   then s.history.expiries + multiset{head.value} else s.history.expiries
    ensures Bounded(t)
  {
    forall id | id in t.db.jobs
      ensures BoundedJob(t.db.jobs[id], t.history.expiries[id], BornSend(t.history, id), t.limits.maxAttempts)
    {
      BoundedClaimRow(s.db.jobs[id], t.db.jobs[id], s.now, s.limits.leaseTtl, head == Some(id), s.history.expiries[id],
                      BornSend(s.history, id), s.limits.maxAttempts);
    }
  }

  lemma BoundedSender(s: Sys, t: Sys, w: WorkerId)
    requires Base(s) && Bounded(s) && SenderRows(s, t, w)
    ensures Bounded(t)
  {
  }

  // ---------------------------------------------------------------- follow-ups

  predicate Settles(outcome: DeliveryOutcome) { outcome.NotModified? || outcome.FailedPermanent? }

  /** A follow-up runs only after the worker's own settlement has finished its job for good. */
  predicate OwnFollowUp(jobs: map<JobId, Job>, worker: Worker) {
    var c := worker.claim;
    && (worker.phase.Settling? && !worker.phase.follow.Nothing? ==> Settles(worker.phase.outcome))
    && (worker.phase.Following? ==>
          && c.id in jobs && jobs[c.id].attempts == c.attempts
          && (jobs[c.id].state.Sent? || jobs[c.id].state.FailedPermanent?))
  }

  ghost predicate OwnFollowUps(s: Sys) {
    forall w | w in s.workers :: OwnFollowUp(s.db.jobs, s.workers[w])
  }

  lemma FollowUpsOutside(s: Sys, t: Sys)
    requires OwnFollowUps(s) && Outside(s.db, t.db) && t.workers == s.workers
    ensures OwnFollowUps(t)
  {
    forall w | w in t.workers ensures OwnFollowUp(t.db.jobs, t.workers[w]) {
      assert OwnFollowUp(s.db.jobs, s.workers[w]);
      var id := s.workers[w].claim.id;
      if id in s.db.jobs { assert OutsideRow(s.db.jobs[id], t.db.jobs[id]); }
    }
  }

  lemma FollowUpsClaim(s: Sys, w: WorkerId, head: Option<JobId>, t: Sys)
    requires OwnFollowUps(s) && Enabled(s, ClaimNext(w, head)) && t == ClaimStep(s, w, head)
    ensures OwnFollowUps(t)
  {
    ClaimShape(s, w, head);
    forall v | v in t.workers ensures OwnFollowUp(t.db.jobs, t.workers[v]) {
      if v in s.workers {
        assert t.workers[v] == s.workers[v];
        FollowUpSurvivesClaim(s.db.jobs, t.db.jobs, s.now, s.limits.leaseTtl, head, s.workers[v]);
      }
    }
  }

  lemma FollowUpSurvivesClaim(before: map<JobId, Job>, after: map<JobId, Job>, now: int, ttl: nat, head: Option<JobId>,
                              worker: Worker)
    requires ClaimEffect(before, after, now, ttl, head) && OwnFollowUp(before, worker)
    ensures OwnFollowUp(after, worker)
  {
  }

  /** Other workers' follow-ups concern finished rows, which nobody rewrites. */
  lemma OtherFollowUps(s: Sys, t: Sys, w: WorkerId, v: WorkerId)
    requires OwnFollowUps(s) && SenderRows(s, t, w) && v in t.workers && v != w
    ensures OwnFollowUp(t.db.jobs, t.workers[v])
  {
    assert t.workers[v] == s.workers[v] && OwnFollowUp(s.db.jobs, s.workers[v]);
  }

  lemma FollowUpOfFailure(limits: Limits, c: Claimed, action: WireAction, decision: Classified, draw: nat)
    ensures !FollowUp(c, decision).Nothing? ==> Settles(FailureOutcome(limits, c, action, decision, draw))
  {
  }

  lemma WireFollowUp(s: Sys, w: WorkerId, reply: Reply, applied: bool, draw: nat, t: Sys)
    requires Enabled(s, Wire(w, reply, applied, draw)) && t == WireStep(s, w, reply, applied, draw)
    ensures w in t.workers && OwnFollowUp(t.db.jobs, t.workers[w])
  {
    if reply.Failed? {
      FollowUpOfFailure(s.limits, s.workers[w].claim, s.workers[w].phase.action, Classify(reply.shape), draw);
    }
  }

  lemma SettleFollowUp(s: Sys, w: WorkerId, t: Sys)
    requires OwnFollowUps(s) && Enabled(s, SettleClaim(w)) && t == SettleStep(s, w)
    ensures w in t.workers ==> OwnFollowUp(t.db.jobs, t.workers[w])
  {
    assert OwnFollowUp(s.db.jobs, s.workers[w]);
    SettleShape(s, w);
  }

  lemma DeferFollowUp(s: Sys, w: WorkerId, delay: nat, t: Sys)
    requires Enabled(s, Defer(w, delay)) && t == Enter(s, w, Settling(RetryWithBackoff(delay), Nothing, s.now))
    ensures w in t.workers && OwnFollowUp(t.db.jobs, t.workers[w])
  {
  }

  lemma MoverFollowUp(s: Sys, step: Step, t: Sys)
    requires OwnFollowUps(s) && Enabled(s, step) && SenderStep(step) && !step.ClaimNext? && t == SenderNext(s, step)
    ensures step.w in t.workers ==> OwnFollowUp(t.db.jobs, t.workers[step.w])
  {
    match step
    case Prepare(w) => PrepareShape(s, w);
    case Wire(w, reply, applied, draw) => WireFollowUp(s, w, reply, applied, draw, t);
    case Acknowledge(w, replyLost) => AckShape(s, w, replyLost);
    case SettleClaim(w) => SettleFollowUp(s, w, t);
    case RunGuard(w) => GuardShape(s, w);
    case Defer(w, delay) => DeferFollowUp(s, w, delay, t);
    case AckFault(w) => AckFaultShape(s, w);
    case FollowThrough(w) => FollowShape(s, w);
    case Crash(w) => CrashShape(s, w);
  }

  lemma FollowUpsSender(s: Sys, step: Step, t: Sys)
    requires Base(s) && OwnFollowUps(s) && Enabled(s, step) && SenderStep(step) && !step.ClaimNext?
    requires t == SenderNext(s, step)
    ensures OwnFollowUps(t)
  {
    SenderStepRows(s, step, t);
    MoverFollowUp(s, step, t);
    forall v | v in t.workers ensures OwnFollowUp(t.db.jobs, t.workers[v]) {
      if v != step.w { OtherFollowUps(s, t, step.w, v); }
    }
  }

  // ---------------------------------------------------------------- every run

  ghost predicate Ledger(s: Sys) {
    Base(s) && Exclusive(s) && Counted(s) && Bounded(s) && OwnFollowUps(s) && s.limits.maxAttempts >= 1
  }

  lemma LedgerClaim(s: Sys, w: WorkerId, head: Option<JobId>)
    requires Ledger(s) && Enabled(s, ClaimNext(w, head))
    ensures Ledger(ClaimStep(s, w, head))
  {
    var t := ClaimStep(s, w, head);
    BaseClaim(s, w, head);
    ClaimShape(s, w, head);
    ExclusiveClaim(s, t, head);
    CountedClaimStep(s, t, head);
    BoundedClaim(s, t, head);
    FollowUpsClaim(s, w, head, t);
  }

  lemma LedgerOutside(s: Sys, t: Sys)
    requires Ledger(s) && OutsideMove(s, t)
    ensures Ledger(t)
  {
    BaseOutside(s, t);
    ExclusiveOutside(s, t);
    CountedOutside(s, t);
    BoundedOutside(s, t);
    FollowUpsOutside(s, t);
  }

  lemma LedgerSender(s: Sys, step: Step, t: Sys)
    requires Ledger(s) && Enabled(s, step) && SenderStep(step) && !step.ClaimNext? && t == SenderNext(s, step)
    ensures Ledger(t)
  {
    BaseSender(s, step, t);
    SenderStepRows(s, step, t);
    ExclusiveSender(s, t, step.w);
    CountedSender(s, t, step.w);
    BoundedSender(s, t, step.w);
    FollowUpsSender(s, step, t);
  }

  lemma LedgerNext(s: Sys, step: Step)
    requires Ledger(s) && Enabled(s, step)
    ensures Ledger(Next(s, step))
  {
    if !SenderStep(step) {
      OutsideStep(s, step);
      LedgerOutside(s, OutsideNext(s, step));
    } else if step.ClaimNext? {
      LedgerClaim(s, step.w, step.head);
    } else {
      LedgerSender(s, step, SenderNext(s, step));
    }
  }

  lemma {:induction false} LedgerAfter(s: Sys, steps: seq<Step>)
    requires Ledger(s) && Runs(s, steps)
    ensures Ledger(After(s, steps))
    decreases |steps|
  {
    if steps == [] {
    } else {
      LedgerNext(s, steps[0]);
      LedgerAfter(Next(s, steps[0]), steps[1..]);
    }
  }

  ghost predicate Reachable(s: Sys, now: int, limits: Limits) {
    exists steps :: Runs(Start(now, limits), steps) && After(Start(now, limits), steps) == s
  }

  lemma ReachableLedger(s: Sys, now: int, limits: Limits)
    requires Reachable(s, now, limits) && limits.maxAttempts >= 1
    ensures Ledger(s)
  {
    var steps :| Runs(Start(now, limits), steps) && After(Start(now, limits), steps) == s;
    LedgerAfter(Start(now, limits), steps);
  }

  /** At every instant at most one job of a chat holds an unexpired lease. */
  lemma OneLeasePerChat(s: Sys, now: int, limits: Limits, i: JobId, j: JobId)
    requires Reachable(s, now, limits) && limits.maxAttempts >= 1
    requires i in s.db.jobs && j in s.db.jobs && s.db.jobs[i].chat == s.db.jobs[j].chat
    requires Leased(s.db.jobs[i], s.now) && Leased(s.db.jobs[j], s.now)
    ensures i == j
  {
    ReachableLedger(s, now, limits);
  }

  /** A sender's step changes only the row it claimed, and only while that claim is the latest one of its
      job; an outdated worker changes no table at all; each claim is settled at most once. */
  lemma OnlyTheLatestClaimWrites(s: Sys, now: int, limits: Limits, step: Step, id: JobId)
    requires Reachable(s, now, limits) && limits.maxAttempts >= 1
    requires Enabled(s, step) && SenderStep(step) && !step.ClaimNext?
    ensures var t := Next(s, step); var c := s.workers[step.w].claim;
      && t.db.jobs.Keys == s.db.jobs.Keys
      && (id in s.db.jobs && t.db.jobs[id] != s.db.jobs[id] ==>
            id == c.id && c.attempts == s.history.claims[id] && s.db.jobs[id].state.Sending?)
      && (forall claim :: t.history.settlements[claim] <= 1)
      && (c.attempts != s.history.claims[c.id] ==> t.db == s.db)
  {
    ReachableLedger(s, now, limits);
    LatestClaimWrites(s, step, SenderNext(s, step), id);
  }

  lemma OutdatedWritesNothing(s: Sys, step: Step, t: Sys)
    requires Ledger(s) && Enabled(s, step) && SenderStep(step) && !step.ClaimNext? && t == SenderNext(s, step)
    requires s.workers[step.w].claim.attempts != s.history.claims[s.workers[step.w].claim.id]
    ensures t.db == s.db
  {
    var c := s.workers[step.w].claim;
    assert s.history.claims[c.id] == AttemptsOf(s.db.jobs, c.id);
    assert !Owns(s.db.jobs, c.id, c.attempts);
    assert OwnFollowUp(s.db.jobs, s.workers[step.w]);
    NotOwnerWritesNothing(s, step, t);
  }

  lemma NotOwnerWritesNothing(s: Sys, step: Step, t: Sys)
    requires Enabled(s, step) && SenderStep(step) && !step.ClaimNext? && t == SenderNext(s, step)
    requires !Owns(s.db.jobs, s.workers[step.w].claim.id, s.workers[step.w].claim.attempts)
    requires !s.workers[step.w].phase.Following?
    ensures t.db == s.db
  {
    match step
    case Prepare(w) => PrepareShape(s, w);
    case Wire(w, reply, applied, draw) => WireShape(s, w, reply, applied, draw);
    case Acknowledge(w, replyLost) => AckShape(s, w, replyLost);
    case SettleClaim(w) => SettleShape(s, w);
    case RunGuard(w) => GuardShape(s, w);
    case Defer(w, delay) => DeferShape(s, w, delay);
    case AckFault(w) => AckFaultShape(s, w);
    case Crash(w) => CrashShape(s, w);
  }

  lemma LatestClaimWrites(s: Sys, step: Step, t: Sys, id: JobId)
    requires Ledger(s) && Enabled(s, step) && SenderStep(step) && !step.ClaimNext? && t == SenderNext(s, step)
    ensures t.db.jobs.Keys == s.db.jobs.Keys
    ensures var c := s.workers[step.w].claim;
      id in s.db.jobs && t.db.jobs[id] != s.db.jobs[id] ==>
        id == c.id && c.attempts == s.history.claims[id] && s.db.jobs[id].state.Sending?
    ensures forall claim :: t.history.settlements[claim] <= 1
    ensures s.workers[step.w].claim.attempts != s.history.claims[s.workers[step.w].claim.id] ==> t.db == s.db
  {
    var c := s.workers[step.w].claim;
    if c.attempts != s.history.claims[c.id] { OutdatedWritesNothing(s, step, t); }
    SettledOnce(s, step, t);
    SenderStepRows(s, step, t);
    RowOfLatestClaim(s, t, step.w, id);
  }

  lemma RowOfLatestClaim(s: Sys, t: Sys, w: WorkerId, id: JobId)
    requires Counted(s) && SenderRows(s, t, w)
    ensures t.db.jobs.Keys == s.db.jobs.Keys
    ensures var c := s.workers[w].claim;
      id in s.db.jobs && t.db.jobs[id] != s.db.jobs[id] ==>
        id == c.id && c.attempts == s.history.claims[id] && s.db.jobs[id].state.Sending?
  {
    assert s.history.claims[id] == AttemptsOf(s.db.jobs, id);
  }

  lemma SettledOnce(s: Sys, step: Step, t: Sys)
    requires Ledger(s) && Enabled(s, step) && SenderStep(step) && !step.ClaimNext? && t == SenderNext(s, step)
    ensures forall claim :: t.history.settlements[claim] <= 1
  {
    LedgerSender(s, step, t);
    forall claim ensures t.history.settlements[claim] <= 1 {
      assert CountedClaim(t.db.jobs, t.history.settlements[claim], claim);
    }
  }

  /** A job enqueued as a send is claimed at most `max_attempts` times; any other job at most
      `max_attempts` times plus the number of its leases that ran out. */
  lemma ClaimsAreBounded(s: Sys, now: int, limits: Limits, id: JobId)
    requires Reachable(s, now, limits) && limits.maxAttempts >= 1
    ensures s.history.claims[id] <= s.limits.maxAttempts + s.history.expiries[id]
    ensures BornSend(s.history, id) ==> s.history.claims[id] <= s.limits.maxAttempts
  {
    ReachableLedger(s, now, limits);
    assert s.history.claims[id] == AttemptsOf(s.db.jobs, id);
    if id in s.db.jobs {
      assert BoundedJob(s.db.jobs[id], s.history.expiries[id], BornSend(s.history, id), s.limits.maxAttempts);
    }
  }
}
