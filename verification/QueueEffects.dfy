/** What each step of the machine may do to the rows of the queue. */
module QueueEffects {
  import opened Tables
  import opened OutboundQueue
  import opened Interaction
  import opened Acknowledgements
  import opened ProjectionAccept
  import opened Notifications
  import opened CaptureProjection
  import opened Delivery
  import opened Machine

  predicate FreshRow(j: Job) {
    j.state == JobState.Ready && j.attempts == 0 && j.lease.None?
  }

  predicate WaitingEdit(j: Job) {
    j.kind.EditMessageText? && (j.state.Planned? || Waiting(j))
  }

  /** Everybody but a sender only withdraws a waiting edit, or detaches the class of a quarantined row. */
  predicate OutsideRow(j: Job, k: Job) {
    || k == j
    || (WaitingEdit(j) && k == j.(state := JobState.Superseded))
    || (j.state.OutcomeUnknown? && k == j.(delivery := Direct))
  }

  ghost predicate Outside(before: Db, after: Db) {
    && before.nextJob <= after.nextJob
    && (forall id | id in before.jobs :: id in after.jobs && OutsideRow(before.jobs[id], after.jobs[id]))
    && (forall id | id in after.jobs && id !in before.jobs ::
          before.nextJob <= id < after.nextJob && FreshRow(after.jobs[id]))
  }

  /** Rows only added, none touched. */
  ghost predicate Adds(before: Db, after: Db) {
    && before.nextJob <= after.nextJob
    && (forall id | id in before.jobs :: id in after.jobs && before.jobs[id] == after.jobs[id])
    && (forall id | id in after.jobs && id !in before.jobs ::
          before.nextJob <= id < after.nextJob && FreshRow(after.jobs[id]))
  }

  ghost predicate IdsBelow(db: Db) {
    forall id | id in db.jobs :: id < db.nextJob
  }

  // ---------------------------------------------------------------- everybody but a sender

  lemma MintSelectionsLeavesQueue(db: Db, id: DialogueId, scope: Scope, actions: seq<Capability>, now: int,
                                  expiresAt: int)
    ensures var m := MintSelections(db, id, scope, actions, now, expiresAt);
      m == db.(tokens := m.tokens, nextToken := m.nextToken)
    decreases |actions|
  {
  }

  lemma MintReadsLeavesQueue(db: Db, intents: seq<LibraryIntent>, now: int)
    ensures var m := MintLibraryReads(db, intents, now);
      m == db.(tokens := m.tokens, nextToken := m.nextToken)
    decreases |intents|
  {
  }

  /** The queue part of two databases differs by at most one enqueued job. */
  predicate Enqueues(db: Db, after: Db, order: Option<NewJob>, now: int) {
    && after.decisions == db.decisions && after.inbox == db.inbox
    && match order
       case None => after.jobs == db.jobs && after.nextJob == db.nextJob
       case Some(o) => after.jobs == InsertJob(db, o, now).jobs && after.nextJob == db.nextJob + 1
  }

  lemma AckQueue(db: Db, linked: Db, intent: OperationIntent, ack: NewJob, now: int) returns (order: Option<NewJob>)
    requires linked.jobs == db.jobs && linked.nextJob == db.nextJob
    requires linked.decisions == db.decisions && linked.inbox == db.inbox
    requires IntentKey(intent) in linked.bindings
    ensures Enqueues(db, EnsureAck(linked, intent, ack, now), order, now)
    ensures order == if NeedsAck(linked, intent) then Some(ack) else None
    ensures EnsureAck(linked, intent, ack, now).bindings == linked.bindings
  {
    order := if NeedsAck(linked, intent) then Some(ack) else None;
  }

  lemma CaptureQueue(db: Db, intent: OperationIntent, ack: NewJob, now: int) returns (order: Option<NewJob>)
    ensures var (after, answer) := RecordCapture(db, intent, ack, now);
      && Enqueues(db, after, order, now)
      && (order.Some? ==> order.value == ack && ConsistentProjection(intent, ack))
      && (answer.Projected? ==> EnsureBinding(db, IntentKey(intent), intent.scope.bot).bindings == after.bindings)
      && (!answer.Projected? ==> after == db && order.None?)
  {
    order := None;
    if RecordCapture(db, intent, ack, now).1.Projected? {
      var linked := EnsureLink(EnsureBinding(db, IntentKey(intent), intent.scope.bot), intent, now);
      order := AckQueue(db, linked, intent, ack, now);
    }
  }

  lemma CompletionQueue(db: Db, id: DialogueId, update: ReleasingUpdate, result: Option<Uuid>, job: NewJob, now: int)
    returns (order: Option<NewJob>)
    ensures var (after, answer) := CompleteDialogue(db, id, update, result, job, now);
      && Enqueues(db, after, order, now) && after.bindings == db.bindings
      && (order.Some? ==> order.value == job && job.revision.None? && job.kind.SendMessage?)
  {
    var (after, answer) := CompleteDialogue(db, id, update, result, job, now);
    order := if answer.Finished? then Some(job) else None;
  }

  lemma ReadsQueue(db: Db, intents: seq<LibraryIntent>, job: NewJob, now: int) returns (order: Option<NewJob>)
    ensures var (after, answer) := EnqueueLibraryReads(db, intents, job, now);
      && Enqueues(db, after, order, now) && after.bindings == db.bindings
      && (order.Some? ==> order.value == job)
  {
    MintReadsLeavesQueue(db, intents, now);
    var (after, answer) := EnqueueLibraryReads(db, intents, job, now);
    order := if answer.Issued? then Some(job) else None;
  }

  lemma PreviewQueue(db: Db, scope: Scope, preview: Offer, now: int, expiresAt: int)
    ensures var after := CreatePreview(db, scope, preview, now, expiresAt).0;
      Enqueues(db, after, None, now) && after.bindings == db.bindings
  {
    var id := db.nextDialogue;
    var d := Dialogue(scope.bot, scope.user, scope.chat, None, Stage.Preview, 0, Active, preview.target,
                      preview.account, None, None, id, None, expiresAt, None);
    MintSelectionsLeavesQueue(db.(dialogues := db.dialogues[id := d], nextDialogue := id + 1), id, scope,
                              preview.actions, now, expiresAt);
  }

  /** An interaction leaves the queue alone or enqueues one job; it never touches a decision, and only
      a capture touches a binding. */
  lemma PerformQueue(db: Db, command: Command, now: int) returns (order: Option<NewJob>)
    ensures Enqueues(db, Perform(db, command, now).0, order, now)
    ensures !command.Capture? ==> Perform(db, command, now).0.bindings == db.bindings
    ensures order.Some? && !command.IssueReads? ==> order.value.revision.None? && order.value.kind.SendMessage?
    ensures order.Some? && command.IssueReads? ==> order.value == command.job
  {
    order := None;
    if command.ShowPreview? {
      PreviewQueue(db, command.scope, command.preview, now, command.expiresAt);
    } else if command.IssueReads? {
      order := ReadsQueue(db, command.intents, command.job, now);
    } else if command.Complete? {
      order := CompletionQueue(db, command.dialogue, command.update, command.result, command.job, now);
    } else if command.Capture? {
      order := CaptureQueue(db, command.intent, command.ack, now);
    } else if command.CleanUp? {
    } else {
      CallbackQueue(db, command, now);
    }
  }

  /** Only the interaction tables changed. */
  predicate AuthorityMoved(db: Db, after: Db) {
    after == db.(dialogues := after.dialogues, tokens := after.tokens, nextToken := after.nextToken)
  }

  lemma SelectionMovesAuthority(db: Db, token: TokenId, scope: Scope, message: int, now: int)
    ensures AuthorityMoved(db, ConsumeSelection(db, token, scope, message, now).0)
  {
  }

  lemma DecisionMovesAuthority(db: Db, token: TokenId, update: ReleasingUpdate, user: int, chat: int, message: int, now: int)
    ensures AuthorityMoved(db, ConsumeDecision(db, token, update, user, chat, message, now).0)
  {
  }

  lemma TransitionMovesAuthority(db: Db, id: DialogueId, scope: Scope, step: Stage, version: nat, next: Stage, now: int)
    ensures AuthorityMoved(db, Transition(db, id, scope, step, version, next, now).0)
  {
  }

  lemma CallbackQueue(db: Db, command: Command, now: int)
    requires !command.ShowPreview? && !command.IssueReads? && !command.Complete? && !command.Capture?
    requires !command.CleanUp?
    ensures Enqueues(db, Perform(db, command, now).0, None, now)
    ensures Perform(db, command, now).0.bindings == db.bindings
  {
    match command
    case Stamp(_, _, _, _) =>
    case SelectMode(token, scope, message) => SelectionMovesAuthority(db, token, scope, message, now);
    case Decide(token, update, user, chat, message) =>
      DecisionMovesAuthority(db, token, update, user, chat, message, now);
    case Move(id, scope, step, version, next) => TransitionMovesAuthority(db, id, scope, step, version, next, now);
    case OpenLink(_, _, _, _) =>
    case ReadLibrary(_, _, _) =>
    case IssueLink(_) =>
  }

  lemma InsertIsOutside(db: Db, order: NewJob, now: int)
    requires IdsBelow(db)
    ensures Outside(db, InsertJob(db, order, now)) && IdsBelow(InsertJob(db, order, now))
  {
  }

  lemma AcceptIsOutside(db: Db, event: Event, now: int, interval: int)
    requires IdsBelow(db)
    ensures var after := Accept(db, event, now, interval).0; Outside(db, after) && IdsBelow(after)
  {
  }

  lemma AddsTransitive(a: Db, b: Db, c: Db)
    requires Adds(a, b) && Adds(b, c)
    ensures Adds(a, c)
  {
  }

  lemma {:induction false} DecideAllAdds(db: Db, n: Notice, candidates: seq<Candidate>, now: int)
    requires IdsBelow(db)
    ensures var r := DecideAll(db, n, candidates, now);
      r.Ok? ==> Adds(db, r.value.0) && IdsBelow(r.value.0)
    decreases |candidates|
  {
    if candidates != [] && ReleaseTime(candidates[0], n, now).Ok? {
      var first := DecideOne(db, n, candidates[0], ReleaseTime(candidates[0], n, now).value, now);
      assert Adds(db, first) && IdsBelow(first);
      DecideAllAdds(first, n, candidates[1..], now);
      var r := DecideAll(db, n, candidates, now);
      if r.Ok? { AddsTransitive(db, first, r.value.0); }
    }
  }

  /** Workers and the delivery log are left alone, and the queue changes only by fresh rows, withdrawn
      waiting edits and detached quarantined rows. */
  ghost predicate OutsideMove(s: Sys, t: Sys) {
    && Outside(s.db, t.db) && IdsBelow(t.db) && t.workers == s.workers && t.limits == s.limits
    && s.now <= t.now
    && t.history.sends == s.history.sends && t.history.claims == s.history.claims
    && t.history.expiries == s.history.expiries && t.history.settlements == s.history.settlements
    && (forall id | id in s.history.enqueuedAs :: id in t.history.enqueuedAs
                                                  && t.history.enqueuedAs[id] == s.history.enqueuedAs[id])
    && (s.history.enqueuedAs.Keys == s.db.jobs.Keys ==> t.history.enqueuedAs.Keys == t.db.jobs.Keys)
    && (forall id | id in t.db.jobs && id !in s.db.jobs :: id !in s.history.enqueuedAs ==>
          id in t.history.enqueuedAs && t.history.enqueuedAs[id] == t.db.jobs[id].kind)
  }

  lemma Remembered(s: Sys, t: Sys)
    requires Outside(s.db, t.db) && IdsBelow(t.db)
    requires t == s.(db := t.db, history := t.history, trail := t.trail)
    requires t.history == Remember(s.history, t.db).(renders := t.history.renders, judged := t.history.judged)
    ensures OutsideMove(s, t)
  {
  }

  lemma AcceptMoves(s: Sys, event: Event, interval: int, t: Sys)
    requires IdsBelow(s.db) && t == AcceptStep(s, event, interval)
    ensures OutsideMove(s, t)
  {
    AcceptIsOutside(s.db, event, s.now, interval);
    Remembered(s, t);
  }

  lemma AdmitMoves(s: Sys, notice: Notice, candidates: seq<Candidate>, t: Sys)
    requires IdsBelow(s.db) && t == AdmitStep(s, notice, candidates)
    ensures OutsideMove(s, t)
  {
    DecideAllAdds(s.db.(inbox := s.db.inbox + {notice.event}), notice, candidates, s.now);
    if Admit(s.db, notice, candidates, s.now).Ok? { Remembered(s, t); }
  }

  lemma RecoverMoves(s: Sys, id: JobId, t: Sys)
    requires IdsBelow(s.db) && t == RecoverStep(s, id)
    ensures OutsideMove(s, t)
  {
    if Recover(s.db, id, s.now).Some? { Remembered(s, t); }
  }

  lemma InteractMoves(s: Sys, command: Command, t: Sys)
    requires IdsBelow(s.db) && t == InteractStep(s, command)
    ensures OutsideMove(s, t)
  {
    var order := PerformQueue(s.db, command, s.now);
    if order.Some? { InsertIsOutside(s.db, order.value, s.now); }
    Remembered(s, t);
  }

  lemma EnqueueMoves(s: Sys, order: NewJob, t: Sys)
    requires IdsBelow(s.db) && t == EnqueueStep(s, order)
    ensures OutsideMove(s, t)
  {
    InsertIsOutside(s.db, order, s.now);
    Remembered(s, t);
  }

  /** Every step of anybody but a sender. */
  lemma OutsideStep(s: Sys, step: Step)
    requires IdsBelow(s.db) && Enabled(s, step) && !SenderStep(step)
    ensures OutsideMove(s, OutsideNext(s, step))
  {
    var t := OutsideNext(s, step);
    match step
    case Tick(_) =>
    case Enqueue(order) => EnqueueMoves(s, order, t);
    case AcceptEvent(event, interval) => AcceptMoves(s, event, interval, t);
    case AdmitNotice(notice, candidates) => AdmitMoves(s, notice, candidates, t);
    case RecoverSend(id) => RecoverMoves(s, id, t);
    case Interact(command) => InteractMoves(s, command, t);
  }

  // ---------------------------------------------------------------- senders

  lemma AckQueueEffect(db: Db, c: Claimed, wire: JobKind, message: int, at: int)
    ensures var r := RecordAck(db, c, wire, message, at);
      r.Ok? ==>
        && r.value.nextJob == db.nextJob && r.value.inbox == db.inbox
        && (if Owns(db.jobs, c.id, c.attempts)
            then r.value.jobs == db.jobs[c.id := db.jobs[c.id].(state := JobState.Sent, acknowledged := Some(message),
                                                                lease := None, lastError := None)]
                 && r.value.bindings == AckedBindings(db.bindings, c, wire, message, at)
                 && r.value.decisions == AckedDecisions(db.decisions, c.id)
            else r.value == db && c.id in db.jobs && db.jobs[c.id].state.Sent?)
    ensures Owns(db.jobs, c.id, c.attempts) ==> RecordAck(db, c, wire, message, at).Ok?
  {
  }

  lemma SettleQueueEffect(db: Db, id: JobId, attempt: nat, now: int, maxAttempts: nat, outcome: DeliveryOutcome)
    ensures var r := Settle(db, id, attempt, now, maxAttempts, outcome);
      && (r.Ok? <==> Owns(db.jobs, id, attempt))
      && (r.Ok? ==>
            var j := Settled(db.jobs[id], now, maxAttempts, outcome);
            r.value == db.(jobs := db.jobs[id := j], decisions := MirrorDecision(db.decisions, id, j.state)))
  {
  }

  /** The rows after a claim: expired sends quarantined, the head leased under its next attempt. */
  ghost predicate ClaimEffect(before: map<JobId, Job>, after: map<JobId, Job>, now: int, ttl: nat, head: Option<JobId>) {
    && after.Keys == before.Keys
    && (forall id | id in before :: after[id] ==
          if head == Some(id) then ClaimedJob(before[id], now, ttl) else Quarantined(before[id], now))
    && (head.Some? ==>
          && head.value in before && !ExpiredSend(before[head.value], now)
          && (Waiting(before[head.value]) || LeaseExpired(before[head.value], now)))
  }

  lemma ClaimQueueEffect(db: Db, now: int, ttl: nat, head: Option<JobId>)
    requires IsHead(Quarantine(db, now).jobs, now, head)
    ensures var after := Claim(db, now, ttl, head);
      && ClaimEffect(db.jobs, after.jobs, now, ttl, head)
      && after == db.(jobs := after.jobs, decisions := Quarantine(db, now).decisions)
  {
  }

  lemma ClaimShape(s: Sys, w: WorkerId, head: Option<JobId>)
    requires Enabled(s, ClaimNext(w, head))
    ensures var t := ClaimStep(s, w, head);
      && ClaimEffect(s.db.jobs, t.db.jobs, s.now, s.limits.leaseTtl, head)
      && t.db == s.db.(jobs := t.db.jobs, decisions := Quarantine(s.db, s.now).decisions)
      && t.now == s.now && t.limits == s.limits && t.trail == s.trail
      && t.workers == (if head.None? then s.workers
                       else s.workers[w := Worker(SnapshotOf(head.value, t.db.jobs[head.value]), Guarding)])
      && t.history == s.history.(claims := t.history.claims, expiries := t.history.expiries)
      && t.history.claims == (if head.None? then s.history.claims else s.history.claims + multiset{head.value})
      && t.history.expiries == (if head.Some? && s.db.jobs[head.value].state.Sending?
                                then s.history.expiries + multiset{head.value} else s.history.expiries)
  {
    ClaimQueueEffect(s.db, s.now, s.limits.leaseTtl, head);
  }

  /** Everything a step changes in one worker's slot, and nothing else about the workers. */
  predicate OnlyWorker(before: map<WorkerId, Worker>, after: map<WorkerId, Worker>, w: WorkerId) {
    forall v | v in before.Keys + after.Keys :: v != w ==> v in before && v in after && before[v] == after[v]
  }

  /** The delivery-side frame of every sender step: one worker moves, keeping its claim. */
  predicate WorkerMoves(s: Sys, t: Sys, w: WorkerId) {
    && w in s.workers
    && OnlyWorker(s.workers, t.workers, w)
    && (w in t.workers ==> t.workers[w].claim == s.workers[w].claim)
    && t.now == s.now && t.limits == s.limits && t.trail == s.trail
    && t.db.nextJob == s.db.nextJob && t.db.inbox == s.db.inbox
    && t.history.claims == s.history.claims && t.history.expiries == s.history.expiries
    && t.history.enqueuedAs == s.history.enqueuedAs && t.history.renders == s.history.renders
    && t.history.judged == s.history.judged
  }

  /** The worker moved without touching a row. */
  predicate RowsKept(s: Sys, t: Sys, w: WorkerId) {
    WorkerMoves(s, t, w) && t.db.jobs == s.db.jobs && t.db.decisions == s.db.decisions
  }

  predicate LogKept(s: Sys, t: Sys) {
    t.history.sends == s.history.sends && t.history.settlements == s.history.settlements
  }

  /** The worker rewrote the row whose latest claim it holds. */
  predicate RowRewritten(s: Sys, t: Sys, w: WorkerId, row: Job) {
    && WorkerMoves(s, t, w)
    && Owns(s.db.jobs, s.workers[w].claim.id, s.workers[w].claim.attempts)
    && t.db.jobs == s.db.jobs[s.workers[w].claim.id := row]
    && t.history.sends == s.history.sends
  }

  predicate SettlementLogged(s: Sys, t: Sys, c: Claimed) {
    t.history.settlements == s.history.settlements + multiset{ClaimId(c.id, c.attempts)}
  }

  lemma GuardShape(s: Sys, w: WorkerId)
    requires Enabled(s, RunGuard(w))
    ensures var t := GuardStep(s, w);
      && RowsKept(s, t, w) && LogKept(s, t) && t.db == s.db && w in t.workers
      && (match Guard(s.workers[w].claim, s.db.bindings)
          case Withdraw => t.workers[w].phase == Settling(SupersededStale, Nothing, s.now)
          case Act(action) => t.workers[w].phase == Gated(action))
  {
  }

  lemma DeferShape(s: Sys, w: WorkerId, delay: nat)
    requires Enabled(s, Defer(w, delay))
    ensures var t := Enter(s, w, Settling(RetryWithBackoff(delay), Nothing, s.now));
      RowsKept(s, t, w) && LogKept(s, t) && t.db == s.db
  {
  }

  lemma PrepareShape(s: Sys, w: WorkerId)
    requires Enabled(s, Prepare(w))
    ensures var t := PrepareStep(s, w); var c := s.workers[w].claim; var action := s.workers[w].phase.action;
      && LogKept(s, t) && t.db == s.db.(jobs := t.db.jobs)
      && if Owns(s.db.jobs, c.id, c.attempts)
         then RowRewritten(s, t, w, s.db.jobs[c.id].(kind := MethodOf(action)))
              && w in t.workers && t.workers[w].phase == Wiring(action, s.now)
         else RowsKept(s, t, w) && w !in t.workers
  {
  }

  /** The outcome that a failed call leads to, without its delay. */
  predicate FailureLeadsTo(shape: FailureShape, action: WireAction, c: Claimed, phase: Phase) {
    && phase.Settling?
    && phase.follow == FollowUp(c, Classify(shape))
    && (phase.outcome.OutcomeUnknown? <==> action.Send? && !ProvesRefusal(shape))
    && !phase.outcome.Sent? && !phase.outcome.SupersededStale?
  }

  lemma WireShape(s: Sys, w: WorkerId, reply: Reply, applied: bool, draw: nat)
    requires Enabled(s, Wire(w, reply, applied, draw))
    ensures var t := WireStep(s, w, reply, applied, draw);
      var c := s.workers[w].claim; var phase := s.workers[w].phase;
      && RowsKept(s, t, w) && t.db == s.db && w in t.workers
      && t.history.settlements == s.history.settlements
      && t.history.sends == (if phase.action.Send? && applied then s.history.sends + multiset{c.id} else s.history.sends)
      && (match reply
          case Acknowledged(message) => t.workers[w].phase == Acking(phase.action, message, phase.at, 0)
          case Failed(shape) => FailureLeadsTo(shape, phase.action, c, t.workers[w].phase))
  {
    if reply.Failed? { UnknownExactlyWithoutProof(reply.shape); }
  }

  lemma AckShape(s: Sys, w: WorkerId, replyLost: bool)
    requires Enabled(s, Acknowledge(w, replyLost))
    ensures var t := AckStep(s, w, replyLost); var c := s.workers[w].claim; var phase := s.workers[w].phase;
      && (w in t.workers ==> t.workers[w].phase == phase.(failures := phase.failures + 1))
      && if Owns(s.db.jobs, c.id, c.attempts)
         then RowRewritten(s, t, w, s.db.jobs[c.id].(state := JobState.Sent, acknowledged := Some(phase.message),
                                                     lease := None, lastError := None))
              && SettlementLogged(s, t, c)
              && t.db.decisions == AckedDecisions(s.db.decisions, c.id)
              && t.db.bindings == AckedBindings(s.db.bindings, c, MethodOf(phase.action), phase.message, phase.at)
         else RowsKept(s, t, w) && LogKept(s, t) && t.db == s.db
  {
    var phase := s.workers[w].phase;
    AckQueueEffect(s.db, s.workers[w].claim, MethodOf(phase.action), phase.message, phase.at);
  }

  lemma AckFaultShape(s: Sys, w: WorkerId)
    requires Enabled(s, AckFault(w))
    ensures var t := AckFailed(s, w); var phase := s.workers[w].phase;
      && RowsKept(s, t, w) && LogKept(s, t) && t.db == s.db
      && (w in t.workers ==> t.workers[w].phase == phase.(failures := phase.failures + 1))
  {
  }

  lemma SettleShape(s: Sys, w: WorkerId)
    requires Enabled(s, SettleClaim(w))
    ensures var t := SettleStep(s, w); var c := s.workers[w].claim; var phase := s.workers[w].phase;
      && t.db.bindings == s.db.bindings
      && if Owns(s.db.jobs, c.id, c.attempts)
         then var row := Settled(s.db.jobs[c.id], s.now, s.limits.maxAttempts, phase.outcome);
              && RowRewritten(s, t, w, row) && SettlementLogged(s, t, c)
              && t.db.decisions == MirrorDecision(s.db.decisions, c.id, row.state)
              && (w in t.workers <==> !phase.follow.Nothing?)
              && (w in t.workers ==> t.workers[w].phase == Following(phase.follow, phase.at))
         else RowsKept(s, t, w) && LogKept(s, t) && t.db == s.db && w !in t.workers
  {
    SettleQueueEffect(s.db, s.workers[w].claim.id, s.workers[w].claim.attempts, s.now, s.limits.maxAttempts,
                      s.workers[w].phase.outcome);
  }

  lemma FollowBindings(s: Sys, w: WorkerId)
    requires Enabled(s, FollowThrough(w))
    ensures FollowStep(s, w) == Leave(s, w).(db := s.db.(bindings := FollowStep(s, w).db.bindings))
  {
  }

  lemma FollowShape(s: Sys, w: WorkerId)
    requires Enabled(s, FollowThrough(w))
    ensures var t := FollowStep(s, w);
      RowsKept(s, t, w) && LogKept(s, t) && w !in t.workers && t.db == s.db.(bindings := t.db.bindings)
  {
    FollowBindings(s, w);
  }

  lemma CrashShape(s: Sys, w: WorkerId)
    requires Enabled(s, Crash(w))
    ensures RowsKept(s, Leave(s, w), w) && LogKept(s, Leave(s, w)) && Leave(s, w).db == s.db && w !in Leave(s, w).workers
  {
  }

  /** The steps that touch no row, no decision and no log: the worker only changes its phase. */
  predicate QuietStep(step: Step) {
    step.RunGuard? || step.Defer? || step.AckFault? || step.FollowThrough? || step.Crash?
  }

  lemma QuietShape(s: Sys, step: Step, t: Sys)
    requires Enabled(s, step) && QuietStep(step) && t == SenderNext(s, step)
    ensures RowsKept(s, t, step.w) && LogKept(s, t)
    ensures step.w in t.workers ==> !t.workers[step.w].phase.Wiring? && !t.workers[step.w].phase.Following?
    ensures step.w in t.workers && step.AckFault? ==>
      var phase := s.workers[step.w].phase; t.workers[step.w].phase == phase.(failures := phase.failures + 1)
    ensures step.w in t.workers && !step.AckFault? ==> t.workers[step.w].phase.Settling? || step.RunGuard?
  {
    match step
    case RunGuard(w) => GuardShape(s, w);
    case Defer(w, delay) => DeferShape(s, w, delay);
    case AckFault(w) => AckFaultShape(s, w);
    case FollowThrough(w) => FollowShape(s, w);
    case Crash(w) => CrashShape(s, w);
  }
}
