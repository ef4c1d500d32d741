/** Every notification decision tells the truth about its one job. */
module Mirror {
  import opened Tables
  import opened OutboundQueue
  import opened ProjectionAccept
  import opened Notifications
  import opened Delivery
  import opened Machine
  import opened QueueEffects
  import opened Fencing
  import opened Leases

  /** How a decision may read while its job is in a state. */
  predicate Reads(outcome: DecisionOutcome, state: JobState) {
    match state
    case Ready => outcome.Deferred? || outcome.Enqueued?
    case Sending => outcome.Deferred? || outcome.Enqueued? || outcome.RetryWait?
    case RetryWait => outcome.RetryWait?
    case Sent => outcome.Delivered?
    case FailedPermanent => outcome.FailedPermanent?
    case OutcomeUnknown => outcome.OutcomeUnknown?
    case _ => false
  }

  predicate NamesJob(k: DecisionKey, j: Job) {
    j.delivery.Notification? && j.delivery.notification == k.notification && j.chat == k.chat
  }

  predicate TrueDecision(jobs: map<JobId, Job>, k: DecisionKey, d: Decision) {
    && (d.outcome.Suppressed? <==> d.job.None?)
    && (d.job.Some? ==> d.job.value in jobs && NamesJob(k, jobs[d.job.value])
                        && Reads(d.outcome, jobs[d.job.value].state))
  }

  predicate DecidedJob(decisions: map<DecisionKey, Decision>, id: JobId, j: Job) {
    j.delivery.Notification? ==>
      && j.kind.SendMessage? && j.operation.None?
      && DecisionKey(j.delivery.notification, j.chat) in decisions
      && decisions[DecisionKey(j.delivery.notification, j.chat)].job == Some(id)
  }

  ghost predicate Mirrored(db: Db) {
    && IdsBelow(db)
    && (forall k | k in db.decisions :: TrueDecision(db.jobs, k, db.decisions[k]))
    && (forall id | id in db.jobs :: DecidedJob(db.decisions, id, db.jobs[id]))
  }

  /** A worker never withdraws a notification. */
  predicate KeepsNotice(jobs: map<JobId, Job>, worker: Worker) {
    worker.claim.id in jobs && jobs[worker.claim.id].delivery.Notification? ==>
      && worker.claim.kind.SendMessage?
      && !(worker.phase.Settling? && worker.phase.outcome.SupersededStale?)
  }

  ghost predicate MirrorInv(s: Sys) {
    && Base(s) && Mirrored(s.db)
    && forall w | w in s.workers :: KeepsNotice(s.db.jobs, s.workers[w])
  }

  // ---------------------------------------------------------------- everybody but a sender

  lemma MirrorInsert(db: Db, order: NewJob, now: int)
    requires Mirrored(db)
    ensures Mirrored(InsertJob(db, order, now))
  {
  }

  lemma MirrorAccept(db: Db, event: Event, now: int, interval: int)
    requires Mirrored(db)
    ensures Mirrored(Accept(db, event, now, interval).0)
  {
  }

  lemma MirrorDecideOne(db: Db, n: Notice, c: Candidate, releaseAt: Option<int>, now: int)
    requires Mirrored(db)
    ensures Mirrored(DecideOne(db, n, c, releaseAt, now))
  {
    var after := DecideOne(db, n, c, releaseAt, now);
    forall id | id in after.jobs ensures DecidedJob(after.decisions, id, after.jobs[id]) {
      if id in db.jobs { assert DecidedJob(db.decisions, id, db.jobs[id]); }
    }
    forall k | k in after.decisions ensures TrueDecision(after.jobs, k, after.decisions[k]) {
      if k in db.decisions { assert TrueDecision(db.jobs, k, db.decisions[k]); }
    }
  }

  lemma {:induction false} MirrorDecideAll(db: Db, n: Notice, candidates: seq<Candidate>, now: int)
    requires Mirrored(db)
    ensures DecideAll(db, n, candidates, now).Ok? ==> Mirrored(DecideAll(db, n, candidates, now).value.0)
    decreases |candidates|
  {
    if candidates != [] && ReleaseTime(candidates[0], n, now).Ok? {
      var releaseAt := ReleaseTime(candidates[0], n, now).value;
      MirrorDecideOne(db, n, candidates[0], releaseAt, now);
      MirrorDecideAll(DecideOne(db, n, candidates[0], releaseAt, now), n, candidates[1..], now);
    }
  }

  lemma MirrorRecover(db: Db, id: JobId, now: int)
    requires Mirrored(db)
    ensures Recover(db, id, now).Some? ==> Mirrored(Recover(db, id, now).value)
  {
    if Recover(db, id, now).Some? {
      var after := Recover(db, id, now).value;
      forall k | k in after.decisions ensures TrueDecision(after.jobs, k, after.decisions[k]) {
        assert TrueDecision(db.jobs, k, db.decisions[k]);
      }
      forall i | i in after.jobs ensures DecidedJob(after.decisions, i, after.jobs[i]) {
        assert DecidedJob(db.decisions, id, db.jobs[id]);
        if i in db.jobs { assert DecidedJob(db.decisions, i, db.jobs[i]); }
      }
    }
  }

  lemma MirrorOutsideDb(s: Sys, step: Step)
    requires Mirrored(s.db) && Enabled(s, step) && !SenderStep(step)
    ensures Mirrored(OutsideNext(s, step).db)
  {
    match step
    case Tick(_) =>
    case Enqueue(order) => MirrorInsert(s.db, order, s.now);
    case AcceptEvent(event, interval) => MirrorAccept(s.db, event, s.now, interval);
    case AdmitNotice(notice, candidates) =>
      MirrorDecideAll(s.db.(inbox := s.db.inbox + {notice.event}), notice, candidates, s.now);
    case RecoverSend(id) => MirrorRecover(s.db, id, s.now);
    case Interact(command) =>
      var order := PerformQueue(s.db, command, s.now);
      if order.Some? { MirrorInsert(s.db, order.value, s.now); }
  }

  lemma MirrorOutside(s: Sys, t: Sys)
    requires MirrorInv(s) && Outside(s.db, t.db) && t.workers == s.workers && Base(t) && Mirrored(t.db)
    ensures MirrorInv(t)
  {
    forall w | w in t.workers ensures KeepsNotice(t.db.jobs, t.workers[w]) {
      assert KeepsNotice(s.db.jobs, s.workers[w]);
      assert WorkerWf(s.db.jobs, s.workers[w]);
      assert OutsideRow(s.db.jobs[s.workers[w].claim.id], t.db.jobs[s.workers[w].claim.id]);
    }
  }

  // ---------------------------------------------------------------- senders

  lemma MirrorQuarantine(db: Db, now: int)
    requires Mirrored(db)
    ensures Mirrored(Quarantine(db, now))
  {
    var after := Quarantine(db, now);
    forall k | k in after.decisions ensures TrueDecision(after.jobs, k, after.decisions[k]) {
      assert TrueDecision(db.jobs, k, db.decisions[k]);
    }
    forall i | i in after.jobs ensures DecidedJob(after.decisions, i, after.jobs[i]) {
      assert DecidedJob(db.decisions, i, db.jobs[i]);
    }
  }

  /** One row rewritten together with the decisions that name it. */
  lemma MirrorRewrite(db: Db, after: Db, id: JobId)
    requires Mirrored(db) && id in db.jobs && id in after.jobs && after.nextJob == db.nextJob
    requires after.jobs == db.jobs[id := after.jobs[id]]
    requires var j := db.jobs[id]; var k := after.jobs[id];
      k.delivery == j.delivery && k.chat == j.chat && k.operation == j.operation
      && (j.delivery.Notification? ==> k.kind.SendMessage?)
    requires after.decisions.Keys == db.decisions.Keys
    requires forall k | k in db.decisions ::
      after.decisions[k] == db.decisions[k].(outcome := after.decisions[k].outcome)
      && (db.decisions[k].job == Some(id) ==>
            !after.decisions[k].outcome.Suppressed? && Reads(after.decisions[k].outcome, after.jobs[id].state))
      && (db.decisions[k].job != Some(id) ==> after.decisions[k] == db.decisions[k])
    ensures Mirrored(after)
  {
    forall k | k in after.decisions ensures TrueDecision(after.jobs, k, after.decisions[k]) {
      assert TrueDecision(db.jobs, k, db.decisions[k]);
    }
    forall i | i in after.jobs ensures DecidedJob(after.decisions, i, after.jobs[i]) {
      assert DecidedJob(db.decisions, i, db.jobs[i]);
    }
  }

  lemma MirrorLease(db: Db, now: int, ttl: nat, id: JobId)
    requires Mirrored(db) && id in db.jobs && (Waiting(db.jobs[id]) || db.jobs[id].state.Sending?)
    ensures Mirrored(db.(jobs := db.jobs[id := ClaimedJob(db.jobs[id], now, ttl)]))
  {
    var after := db.(jobs := db.jobs[id := ClaimedJob(db.jobs[id], now, ttl)]);
    forall k | k in db.decisions && db.decisions[k].job == Some(id)
      ensures !db.decisions[k].outcome.Suppressed? && Reads(db.decisions[k].outcome, after.jobs[id].state)
    {
      assert TrueDecision(db.jobs, k, db.decisions[k]);
    }
    assert DecidedJob(db.decisions, id, db.jobs[id]);
    MirrorRewrite(db, after, id);
  }

  lemma MirrorClaimDb(db: Db, now: int, ttl: nat, head: Option<JobId>)
    requires Mirrored(db) && IsHead(Quarantine(db, now).jobs, now, head)
    ensures Mirrored(Claim(db, now, ttl, head))
  {
    MirrorQuarantine(db, now);
    if head.Some? { MirrorLease(Quarantine(db, now), now, ttl, head.value); }
  }

  lemma MirrorClaim(s: Sys, w: WorkerId, head: Option<JobId>, t: Sys)
    requires MirrorInv(s) && Base(t) && Mirrored(t.db)
    requires ClaimEffect(s.db.jobs, t.db.jobs, s.now, s.limits.leaseTtl, head)
    requires t.workers == if head.None? then s.workers
                          else s.workers[w := Worker(SnapshotOf(head.value, t.db.jobs[head.value]), Guarding)]
    ensures MirrorInv(t)
  {
    forall v | v in t.workers ensures KeepsNotice(t.db.jobs, t.workers[v]) {
      if head.Some? && v == w {
        assert DecidedJob(t.db.decisions, head.value, t.db.jobs[head.value]);
      } else {
        assert KeepsNotice(s.db.jobs, s.workers[v]);
        assert WorkerWf(s.db.jobs, s.workers[v]);
      }
    }
  }

  /** Only the moving worker's promise has to be checked again. */
  lemma MirrorMoves(s: Sys, t: Sys, w: WorkerId)
    requires MirrorInv(s) && Base(t) && WorkerMoves(s, t, w) && Mirrored(t.db)
    requires t.db.jobs.Keys == s.db.jobs.Keys
    requires forall id | id in s.db.jobs :: t.db.jobs[id].delivery == s.db.jobs[id].delivery
    requires w in t.workers ==> KeepsNotice(t.db.jobs, t.workers[w])
    ensures MirrorInv(t)
  {
    forall v | v in t.workers ensures KeepsNotice(t.db.jobs, t.workers[v]) {
      if v != w { assert KeepsNotice(s.db.jobs, s.workers[v]); }
    }
  }

  lemma MirrorKept(s: Sys, t: Sys, w: WorkerId)
    requires MirrorInv(s) && Base(t) && RowsKept(s, t, w)
    requires w in t.workers ==> !(t.workers[w].phase.Settling? && t.workers[w].phase.outcome.SupersededStale?)
                                || (s.db.jobs[s.workers[w].claim.id].delivery.Notification? ==>
                                      s.workers[w].claim.kind.EditMessageText?)
    ensures MirrorInv(t)
  {
    assert KeepsNotice(s.db.jobs, s.workers[w]);
    assert WorkerWf(s.db.jobs, s.workers[w]);
    MirrorMoves(s, t, w);
  }

  lemma MirrorGuard(s: Sys, w: WorkerId, t: Sys)
    requires MirrorInv(s) && Enabled(s, RunGuard(w)) && t == GuardStep(s, w) && Base(t)
    ensures MirrorInv(t)
  {
    GuardShape(s, w);
    assert KeepsNotice(s.db.jobs, s.workers[w]);
    assert WorkerWf(s.db.jobs, s.workers[w]);
    assert DecidedJob(s.db.decisions, s.workers[w].claim.id, s.db.jobs[s.workers[w].claim.id]);
    MirrorKept(s, t, w);
  }

  lemma MirrorPrepare(s: Sys, w: WorkerId, t: Sys)
    requires MirrorInv(s) && Enabled(s, Prepare(w)) && t == PrepareStep(s, w) && Base(t)
    ensures MirrorInv(t)
  {
    PrepareShape(s, w);
    if Owns(s.db.jobs, s.workers[w].claim.id, s.workers[w].claim.attempts) {
      var c := s.workers[w].claim;
      var stored := MethodOf(s.workers[w].phase.action);
      MirrorPrepared(s, w, t, s.db.jobs[c.id].(kind := stored), stored);
    } else {
      MirrorKept(s, t, w);
    }
  }

  lemma MirrorPrepared(s: Sys, w: WorkerId, t: Sys, row: Job, stored: JobKind)
    requires MirrorInv(s) && Base(t) && w in s.workers && s.workers[w].phase.Gated?
    requires stored == MethodOf(s.workers[w].phase.action)
    requires Owns(s.db.jobs, s.workers[w].claim.id, s.workers[w].claim.attempts)
    requires row == s.db.jobs[s.workers[w].claim.id].(kind := stored)
    requires RowRewritten(s, t, w, row) && t.db == s.db.(jobs := t.db.jobs)
    requires w in t.workers && t.workers[w].phase.Wiring? && t.workers[w].phase.action == s.workers[w].phase.action
    ensures MirrorInv(t)
  {
    assert KeepsNotice(s.db.jobs, s.workers[w]);
    assert WorkerWf(s.db.jobs, s.workers[w]);
    PreparedMirrors(s.db, t.db, s.workers[w].claim.id, stored);
    MirrorMoves(s, t, w);
  }

  lemma PreparedMirrors(db: Db, after: Db, id: JobId, stored: JobKind)
    requires Mirrored(db) && id in db.jobs && after == db.(jobs := db.jobs[id := db.jobs[id].(kind := stored)])
    requires db.jobs[id].delivery.Notification? ==> stored.SendMessage?
    ensures Mirrored(after)
  {
    forall k | k in db.decisions && db.decisions[k].job == Some(id)
      ensures !db.decisions[k].outcome.Suppressed? && Reads(db.decisions[k].outcome, after.jobs[id].state)
    {
      assert TrueDecision(db.jobs, k, db.decisions[k]);
    }
    MirrorRewrite(db, after, id);
  }

  lemma MirrorAck(s: Sys, w: WorkerId, replyLost: bool, t: Sys)
    requires MirrorInv(s) && Enabled(s, Acknowledge(w, replyLost)) && t == AckStep(s, w, replyLost) && Base(t)
    ensures MirrorInv(t)
  {
    var c := s.workers[w].claim;
    AckShape(s, w, replyLost);
    assert KeepsNotice(s.db.jobs, s.workers[w]);
    assert DecidedJob(s.db.decisions, c.id, s.db.jobs[c.id]);
    if Owns(s.db.jobs, c.id, c.attempts) {
      MirrorRewrite(s.db, t.db, c.id);
      MirrorMoves(s, t, w);
    } else {
      MirrorKept(s, t, w);
    }
  }

  lemma SettledReads(j: Job, now: int, maxAttempts: nat, outcome: DeliveryOutcome, before: DecisionOutcome)
    requires !outcome.SupersededStale?
    ensures var k := Settled(j, now, maxAttempts, outcome);
      && Reads(OutcomeAfter(k.state, before), k.state) && !OutcomeAfter(k.state, before).Suppressed?
      && k.delivery == j.delivery && k.chat == j.chat && k.operation == j.operation && k.kind == j.kind
  {
  }

  lemma SettledDecision(s: Sys, w: WorkerId, t: Sys, k: DecisionKey)
    requires MirrorInv(s) && Enabled(s, SettleClaim(w)) && t == SettleStep(s, w)
    requires Owns(s.db.jobs, s.workers[w].claim.id, s.workers[w].claim.attempts)
    requires k in s.db.decisions && s.db.decisions[k].job == Some(s.workers[w].claim.id)
    ensures k in t.db.decisions && s.workers[w].claim.id in t.db.jobs
    ensures !t.db.decisions[k].outcome.Suppressed?
            && Reads(t.db.decisions[k].outcome, t.db.jobs[s.workers[w].claim.id].state)
  {
    var c := s.workers[w].claim;
    SettleShape(s, w);
    assert KeepsNotice(s.db.jobs, s.workers[w]);
    assert TrueDecision(s.db.jobs, k, s.db.decisions[k]);
    SettledReads(s.db.jobs[c.id], s.now, s.limits.maxAttempts, s.workers[w].phase.outcome, s.db.decisions[k].outcome);
  }

  lemma MirrorSettle(s: Sys, w: WorkerId, t: Sys)
    requires MirrorInv(s) && Enabled(s, SettleClaim(w)) && t == SettleStep(s, w) && Base(t)
    ensures MirrorInv(t)
  {
    var c := s.workers[w].claim;
    assert KeepsNotice(s.db.jobs, s.workers[w]);
    if Owns(s.db.jobs, c.id, c.attempts) {
      forall k | k in s.db.decisions && s.db.decisions[k].job == Some(c.id)
        ensures k in t.db.decisions && c.id in t.db.jobs
        ensures !t.db.decisions[k].outcome.Suppressed? && Reads(t.db.decisions[k].outcome, t.db.jobs[c.id].state)
      {
        SettledDecision(s, w, t, k);
      }
      MirrorSettledRow(s, w, t);
    } else {
      SettleShape(s, w);
      MirrorKept(s, t, w);
    }
  }

  lemma MirrorSettledRow(s: Sys, w: WorkerId, t: Sys)
    requires MirrorInv(s) && Enabled(s, SettleClaim(w)) && t == SettleStep(s, w) && Base(t)
    requires Owns(s.db.jobs, s.workers[w].claim.id, s.workers[w].claim.attempts)
    requires forall k | k in s.db.decisions && s.db.decisions[k].job == Some(s.workers[w].claim.id) ::
      && k in t.db.decisions && s.workers[w].claim.id in t.db.jobs
      && !t.db.decisions[k].outcome.Suppressed?
      && Reads(t.db.decisions[k].outcome, t.db.jobs[s.workers[w].claim.id].state)
    ensures MirrorInv(t)
  {
    SettleShape(s, w);
    SettledRow(s.db.jobs[s.workers[w].claim.id], s.now, s.limits.maxAttempts, s.workers[w].phase.outcome);
    assert KeepsNotice(s.db.jobs, s.workers[w]);
    MirrorRewrite(s.db, t.db, s.workers[w].claim.id);
    MirrorMoves(s, t, w);
  }

  lemma MirrorSender(s: Sys, step: Step, t: Sys)
    requires MirrorInv(s) && Enabled(s, step) && SenderStep(step) && t == SenderNext(s, step) && Base(t)
    ensures MirrorInv(t)
  {
    match step
    case ClaimNext(w, head) =>
      ClaimShape(s, w, head);
      MirrorClaimDb(s.db, s.now, s.limits.leaseTtl, head);
      MirrorClaim(s, w, head, t);
    case RunGuard(w) => MirrorGuard(s, w, t);
    case Prepare(w) => MirrorPrepare(s, w, t);
    case Acknowledge(w, replyLost) => MirrorAck(s, w, replyLost, t);
    case SettleClaim(w) => MirrorSettle(s, w, t);
    case Wire(w, reply, applied, draw) => WireShape(s, w, reply, applied, draw); MirrorKept(s, t, w);
    case _ => MirrorRest(s, step, t);
  }

  lemma MirrorRest(s: Sys, step: Step, t: Sys)
    requires MirrorInv(s) && Enabled(s, step) && QuietStep(step) && !step.RunGuard? && t == SenderNext(s, step) && Base(t)
    ensures MirrorInv(t)
  {
    QuietShape(s, step, t);
    if step.Defer? { DeferShape(s, step.w, step.delay); }
    MirrorKept(s, t, step.w);
  }

  lemma MirrorNext(s: Sys, step: Step)
    requires MirrorInv(s) && Enabled(s, step)
    ensures MirrorInv(Next(s, step))
  {
    if SenderStep(step) {
      BaseSender(s, step, SenderNext(s, step));
      MirrorSender(s, step, SenderNext(s, step));
    } else {
      var t := OutsideNext(s, step);
      OutsideStep(s, step);
      BaseOutside(s, t);
      MirrorOutsideDb(s, step);
      MirrorOutside(s, t);
    }
  }

  lemma {:induction false} MirrorAfter(s: Sys, steps: seq<Step>)
    requires MirrorInv(s) && Runs(s, steps)
    ensures MirrorInv(After(s, steps))
    decreases |steps|
  {
    if steps == [] {
    } else {
      MirrorNext(s, steps[0]);
      MirrorAfter(Next(s, steps[0]), steps[1..]);
    }
  }

  lemma ReachableMirrors(s: Sys, now: int, limits: Limits)
    requires Reachable(s, now, limits)
    ensures Mirrored(s.db)
  {
    var steps :| Runs(Start(now, limits), steps) && After(Start(now, limits), steps) == s;
    MirrorAfter(Start(now, limits), steps);
  }

  /** In every reachable state a decision is suppressed exactly when it has no job, otherwise it names
      exactly one job of its own chat and notification, no two decisions share a job, and it reads
      delivered, failed or unknown exactly when that job is in the matching state. */
  lemma DecisionsMirrorJobs(s: Sys, now: int, limits: Limits, k: DecisionKey, l: DecisionKey)
    requires Reachable(s, now, limits) && k in s.db.decisions && l in s.db.decisions
    ensures s.db.decisions[k].outcome.Suppressed? <==> s.db.decisions[k].job.None?
    ensures s.db.decisions[k].job.Some? && s.db.decisions[k].job == s.db.decisions[l].job ==> k == l
    ensures s.db.decisions[k].job.Some? ==>
      && s.db.decisions[k].job.value in s.db.jobs
      && var j := s.db.jobs[s.db.decisions[k].job.value]; var outcome := s.db.decisions[k].outcome;
         && NamesJob(k, j)
         && (outcome.Delivered? <==> j.state.Sent?)
         && (outcome.FailedPermanent? <==> j.state.FailedPermanent?)
         && (outcome.OutcomeUnknown? <==> j.state.OutcomeUnknown?)
         && (j.state.RetryWait? ==> outcome.RetryWait?)
  {
    ReachableMirrors(s, now, limits);
    assert TrueDecision(s.db.jobs, k, s.db.decisions[k]);
    assert TrueDecision(s.db.jobs, l, s.db.decisions[l]);
  }
}
