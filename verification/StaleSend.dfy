/** Where the render order stops: a downgraded edit is stored as a send, so when it is retried neither the
    sweep nor the revision guard holds it back. One concrete run of the single loop. */
module StaleSend {
  import opened Tables
  import opened OutboundQueue
  import opened Interaction
  import opened Acknowledgements
  import opened ProjectionAccept
  import opened CaptureProjection
  import opened Delivery
  import opened Machine
  import opened QueueEffects
  import opened Projection
  import opened Renders
  import opened Downgrades
  import opened Sender

  /** A property that the single loop, from its start, never leaves. */
  ghost predicate LoopKeeps(p: Sys -> bool) {
    && p(Start(0, LIMITS))
    && forall s, step | p(s) && Enabled(s, step) && OneLoop(step) :: p(Next(s, step))
  }

  lemma Goes(p: Sys -> bool, s: Sys, step: Step)
    requires LoopKeeps(p) && p(s) && Enabled(s, step) && OneLoop(step)
    ensures p(Next(s, step))
  {
  }

  const LIMITS := Limits(3, 1, 60, 0, 300)
  const KEY := BindingKey(5, 9)
  const ACK_ORDER := NewJob(1, 9, SendMessage, Some(5), None, None, Some(10_000))
  const INTENT := OperationIntent(Scope(1, 7, 9), None, 5, 0, 20_000)

  /** The acknowledgement of the capture, due much later. */
  const WAITING_ACK := Job(1, 9, SendMessage, Some(5), None, None, Direct, JobState.Ready, 0, 10_000, None, None, None, None)

  predicate Quiet(s: Sys, now: int) { s.workers == map[] && s.now == now && s.limits == LIMITS }

  predicate Holds(s: Sys, now: int, id: JobId, phase: Phase) {
    && s.now == now && s.limits == LIMITS
    && s.workers.Keys == {LOOP} && s.workers[LOOP].phase == phase
    && s.workers[LOOP].claim.id == id && id in s.db.jobs
    && s.workers[LOOP].claim == SnapshotOf(id, s.db.jobs[id]).(kind := s.workers[LOOP].claim.kind)
    && s.db.jobs[id].state.Sending?
  }

  lemma CaptureIntoNothing()
    ensures var (after, answer) := RecordCapture(EMPTY, INTENT, ACK_ORDER, 0);
      && after.jobs == map[0 := WAITING_ACK] && after.nextJob == 1 && after.inbox == {} && after.decisions == map[]
      && after.bindings == map[KEY := Binding(1, None, 0, None, None, false)]
  {
    var bound := EnsureBinding(EMPTY, KEY, 1);
    assert bound.bindings == map[KEY := Binding(1, None, 0, None, None, false)];
    var linked := EnsureLink(bound, INTENT, 0);
    assert !HasLiveLink(bound, INTENT, 0) && !HasAckJob(linked, KEY, 1);
    assert InsertJob(linked, ACK_ORDER, 0).jobs == map[0 := WAITING_ACK];
  }

  lemma Started(p: Sys -> bool) returns (s: Sys)
    requires LoopKeeps(p)
    ensures p(s) && Quiet(s, 0) && s.db == EMPTY
  {
    s := Start(0, LIMITS);
  }

  lemma Captures(p: Sys -> bool, s: Sys) returns (t: Sys)
    requires LoopKeeps(p) && p(s) && Quiet(s, 0)
    ensures p(t) && Quiet(t, 0) && t.db == RecordCapture(s.db, INTENT, ACK_ORDER, 0).0
  {
    var step := Interact(Capture(INTENT, ACK_ORDER));
    Goes(p, s, step);
    t := Next(s, step);
    assert t == InteractStep(s, step.command);
    assert Perform(s.db, step.command, 0) == RecordCapture(s.db, INTENT, ACK_ORDER, 0);
  }

  lemma Captured(p: Sys -> bool) returns (s: Sys)
    requires LoopKeeps(p)
    ensures p(s) && Quiet(s, 0)
    ensures s.db.jobs == map[0 := WAITING_ACK] && s.db.nextJob == 1 && s.db.inbox == {} && s.db.decisions == map[]
    ensures s.db.bindings == map[KEY := Binding(1, None, 0, None, None, false)]
  {
    var s0 := Started(p);
    CaptureIntoNothing();
    s := Captures(p, s0);
  }

  predicate NobodySends(jobs: map<JobId, Job>) {
    forall id | id in jobs :: !jobs[id].state.Sending?
  }

  lemma NothingToQuarantine(db: Db, now: int)
    requires NobodySends(db.jobs)
    ensures Quarantine(db, now) == db
  {
    assert Quarantine(db, now).jobs == db.jobs;
    assert Quarantine(db, now).decisions == db.decisions;
  }

  /** The only due job is the head. */
  predicate OnlyDue(jobs: map<JobId, Job>, now: int, id: JobId) {
    && id in jobs && Waiting(jobs[id]) && jobs[id].nextAttemptAt <= now
    && forall o | o in jobs :: o != id ==> !Waiting(jobs[o]) || jobs[o].nextAttemptAt > now
  }

  lemma OnlyDueIsHead(jobs: map<JobId, Job>, now: int, id: JobId)
    requires NobodySends(jobs) && OnlyDue(jobs, now, id)
    ensures IsHead(jobs, now, Some(id))
  {
    HeadIsGlobalMinimum(jobs, now, id);
  }

  lemma Claims(p: Sys -> bool, s: Sys, now: int, id: JobId) returns (t: Sys)
    requires LoopKeeps(p) && p(s) && Quiet(s, now) && NobodySends(s.db.jobs) && OnlyDue(s.db.jobs, now, id)
    ensures p(t) && Holds(t, now, id, Guarding)
    ensures t.db == s.db.(jobs := s.db.jobs[id := ClaimedJob(s.db.jobs[id], now, 300)])
    ensures t.workers[LOOP].claim == SnapshotOf(id, t.db.jobs[id])
  {
    NothingToQuarantine(s.db, now);
    OnlyDueIsHead(s.db.jobs, now, id);
    var step := ClaimNext(LOOP, Some(id));
    Goes(p, s, step);
    t := Next(s, step);
    assert t == ClaimStep(s, LOOP, Some(id));
    ClaimShape(s, LOOP, Some(id));
    assert t.db.jobs == s.db.jobs[id := ClaimedJob(s.db.jobs[id], now, 300)];
  }

  lemma GuardLetsSend(p: Sys -> bool, s: Sys, now: int, id: JobId) returns (t: Sys)
    requires LoopKeeps(p) && p(s) && Holds(s, now, id, Guarding)
    requires Guard(s.workers[LOOP].claim, s.db.bindings) == Act(Send)
    ensures p(t) && Holds(t, now, id, Gated(Send))
    ensures t.db == s.db && t.workers[LOOP].claim == s.workers[LOOP].claim
  {
    Goes(p, s, RunGuard(LOOP));
    t := Next(s, RunGuard(LOOP));
    GuardShape(s, LOOP);
    assert t.workers.Keys == {LOOP};
  }

  lemma Prepares(p: Sys -> bool, s: Sys, now: int, id: JobId) returns (t: Sys)
    requires LoopKeeps(p) && p(s) && Holds(s, now, id, Gated(Send))
    ensures p(t) && Holds(t, now, id, Wiring(Send, now))
    ensures t.db == s.db.(jobs := s.db.jobs[id := s.db.jobs[id].(kind := SendMessage)])
    ensures t.workers[LOOP].claim == s.workers[LOOP].claim
  {
    Goes(p, s, Prepare(LOOP));
    t := Next(s, Prepare(LOOP));
    PrepareShape(s, LOOP);
    assert t.workers.Keys == {LOOP};
  }

  /** The loop claims the only due job and prepares to place it on the wire as a send. */
  lemma SendPrepared(p: Sys -> bool, s: Sys, now: int, id: JobId) returns (t: Sys)
    requires LoopKeeps(p) && p(s) && Quiet(s, now) && NobodySends(s.db.jobs) && OnlyDue(s.db.jobs, now, id)
    requires Guard(SnapshotOf(id, ClaimedJob(s.db.jobs[id], now, 300)), s.db.bindings) == Act(Send)
    ensures p(t) && Holds(t, now, id, Wiring(Send, now))
    ensures t.db == s.db.(jobs := s.db.jobs[id := ClaimedJob(s.db.jobs[id], now, 300).(kind := SendMessage)])
    ensures t.workers[LOOP].claim.kind == s.db.jobs[id].kind
  {
    var s1 := Claims(p, s, now, id);
    var s2 := GuardLetsSend(p, s1, now, id);
    t := Prepares(p, s2, now, id);
    assert t.db.jobs == s.db.jobs[id := ClaimedJob(s.db.jobs[id], now, 300).(kind := SendMessage)];
  }

  const FLOOD := FailureShape.RateLimited(60)

  lemma FloodDelay(c: Claimed)
    ensures FailureOutcome(LIMITS, c, Send, Classify(FLOOD), 0) == RetryWithBackoff(60)
    ensures FollowUp(c, Classify(FLOOD)) == Nothing
  {
  }

  /** Telegram answers with a flood limit of a minute. */
  lemma FloodLimited(p: Sys -> bool, s: Sys, now: int, id: JobId) returns (t: Sys)
    requires LoopKeeps(p) && p(s) && Holds(s, now, id, Wiring(Send, now))
    ensures p(t) && Holds(t, now, id, Settling(RetryWithBackoff(60), Nothing, now)) && t.db == s.db
  {
    var step := Wire(LOOP, Failed(FLOOD), false, 0);
    Goes(p, s, step);
    t := Next(s, step);
    FloodDelay(s.workers[LOOP].claim);
    assert t == WireStep(s, LOOP, Failed(FLOOD), false, 0);
  }

  lemma PutBack(p: Sys -> bool, s: Sys, now: int, id: JobId) returns (t: Sys)
    requires LoopKeeps(p) && p(s) && Holds(s, now, id, Settling(RetryWithBackoff(60), Nothing, now))
    requires s.db.decisions == map[] && s.db.jobs[id].attempts == 1
    ensures p(t) && Quiet(t, now)
    ensures t.db == s.db.(jobs := s.db.jobs[id :=
      s.db.jobs[id].(state := JobState.RetryWait, nextAttemptAt := now + 60, lease := None)])
  {
    Goes(p, s, SettleClaim(LOOP));
    t := Next(s, SettleClaim(LOOP));
    assert t == SettleStep(s, LOOP);
    SettleQueueEffect(s.db, id, 1, now, LIMITS.maxAttempts, RetryWithBackoff(60));
    assert MirrorDecision(s.db.decisions, id, JobState.RetryWait) == map[];
    assert t.workers == map[];
  }

  /** Telegram acknowledges, and the acknowledgement is recorded. */
  lemma Delivered(p: Sys -> bool, s: Sys, now: int, id: JobId, message: int) returns (t: Sys)
    requires LoopKeeps(p) && p(s) && Holds(s, now, id, Wiring(Send, now)) && s.db.decisions == map[]
    requires s.db.jobs[id].dialogue.None?
    ensures p(t) && Quiet(t, now) && t.db.decisions == map[]
    ensures t.db.jobs == s.db.jobs[id :=
      s.db.jobs[id].(state := JobState.Sent, acknowledged := Some(message), lease := None, lastError := None)]
    ensures t.db.bindings == AckedBindings(s.db.bindings, s.workers[LOOP].claim, SendMessage, message, now)
  {
    var wire, ack := Wire(LOOP, Acknowledged(message), true, 0), Acknowledge(LOOP, false);
    Goes(p, s, wire);
    var s1 := Next(s, wire);
    WireShape(s, LOOP, Acknowledged(message), true, 0);
    Goes(p, s1, ack);
    t := Next(s1, ack);
    AckShape(s1, LOOP, false);
    assert t.workers == map[];
  }

  predicate Unrendered(b: Binding) { b == Binding(1, None, 0, None, b.lastEventAt, false) }

  lemma TopIsNext(jobs: map<JobId, Job>, b: Binding, top: nat)
    requires Unrendered(b) && Assigned(jobs, KEY) == (if top == 0 then {} else {top})
    ensures NextRevision(jobs, KEY, b) == top + 1
  {
  }

  lemma EventRecorded(db: Db, now: int, event: Event, top: nat)
    requires event.operation == 5 && !event.terminal && event.id !in db.inbox && IdsBelow(db)
    requires db.bindings.Keys == {KEY} && Unrendered(db.bindings[KEY])
    requires db.bindings[KEY].lastEventAt.Some? ==> db.bindings[KEY].lastEventAt.value <= event.occurredAt
    requires Assigned(db.jobs, KEY) == (if top == 0 then {} else {top})
    requires forall id | id in db.jobs :: db.jobs[id].kind.SendMessage?
    ensures Accept(db, event, now, 0).0 == db.(
      inbox := db.inbox + {event.id},
      jobs := db.jobs[db.nextJob := EditJob(KEY, db.bindings[KEY], event, top + 1, now, 0)],
      nextJob := db.nextJob + 1,
      bindings := db.bindings[KEY := db.bindings[KEY].(lastEventAt := Some(event.occurredAt))])
  {
    assert Locked(db.bindings, 5, KEY);
    assert LockBinding(db.bindings, 5) == Some(KEY);
    TopIsNext(db.jobs, db.bindings[KEY], top);
    assert Sweep(db.jobs, 5, 9, top + 1) == db.jobs;
  }

  lemma EventAccepted(p: Sys -> bool, s: Sys, now: int, event: Event) returns (t: Sys)
    requires LoopKeeps(p) && p(s) && Quiet(s, now)
    ensures p(t) && Quiet(t, now) && t.db == Accept(s.db, event, now, 0).0
  {
    var step := AcceptEvent(event, 0);
    Goes(p, s, step);
    t := Next(s, step);
  }

  /** The first revision, downgraded to a send and put back. */
  const PUT_BACK := Job(1, 9, SendMessage, Some(5), Some(1), None, Direct, JobState.RetryWait, 1, 60, None, None, None, None)

  lemma FirstAccepted(p: Sys -> bool) returns (s: Sys)
    requires LoopKeeps(p)
    ensures p(s) && Quiet(s, 0)
    ensures 1 in s.db.jobs && s.db.jobs == map[0 := WAITING_ACK, 1 := s.db.jobs[1]]
    ensures s.db.jobs[1] == Job(1, 9, EditMessageText, Some(5), Some(1), None, Direct, JobState.Ready, 0, 0, None, None,
                                None, None)
    ensures s.db.bindings == map[KEY := Binding(1, None, 0, None, Some(0), false)]
    ensures s.db.nextJob == 2 && s.db.inbox == {1} && s.db.decisions == map[]
  {
    var s0 := Captured(p);
    var event := Event(5, 1, 0, false);
    EventRecorded(s0.db, 0, event, 0);
    s := EventAccepted(p, s0, 0, event);
  }

  /** The first event is rendered as a send, because the message does not exist yet, and put back. */
  lemma FirstRenderPutBack(p: Sys -> bool) returns (s: Sys)
    requires LoopKeeps(p)
    ensures p(s) && Quiet(s, 0)
    ensures s.db.jobs == map[0 := WAITING_ACK, 1 := PUT_BACK]
    ensures s.db.bindings == map[KEY := Binding(1, None, 0, None, Some(0), false)]
    ensures s.db.nextJob == 2 && s.db.inbox == {1} && s.db.decisions == map[]
  {
    var s0 := FirstAccepted(p);
    var s1 := SendPrepared(p, s0, 0, 1);
    assert s1.db.jobs[0] == WAITING_ACK && s1.db.jobs[1].attempts == 1;
    var s2 := FloodLimited(p, s1, 0, 1);
    s := PutBack(p, s2, 0, 1);
    assert s.db.jobs.Keys == {0, 1} && s.db.jobs[1] == PUT_BACK;
  }

  lemma SecondAccepted(p: Sys -> bool) returns (s: Sys)
    requires LoopKeeps(p)
    ensures p(s) && Quiet(s, 0)
    ensures 2 in s.db.jobs && s.db.jobs == map[0 := WAITING_ACK, 1 := PUT_BACK, 2 := s.db.jobs[2]]
    ensures s.db.jobs[2] == Job(1, 9, EditMessageText, Some(5), Some(2), None, Direct, JobState.Ready, 0, 0, None, None,
                                None, None)
    ensures s.db.bindings == map[KEY := Binding(1, None, 0, None, Some(1), false)] && s.db.decisions == map[]
  {
    var s0 := FirstRenderPutBack(p);
    var event := Event(5, 2, 1, false);
    assert Carries(s0.db.jobs[1], KEY) && 1 in Assigned(s0.db.jobs, KEY);
    assert Assigned(s0.db.jobs, KEY) == {1};
    EventRecorded(s0.db, 0, event, 1);
    s := EventAccepted(p, s0, 0, event);
  }

  /** The second event is rendered and acknowledged meanwhile. */
  lemma SecondRenderShown(p: Sys -> bool) returns (s: Sys)
    requires LoopKeeps(p)
    ensures p(s) && Quiet(s, 0)
    ensures 2 in s.db.jobs && s.db.jobs == map[0 := WAITING_ACK, 1 := PUT_BACK, 2 := s.db.jobs[2]] && s.db.jobs[2].state.Sent?
    ensures s.db.bindings == map[KEY := Binding(1, Some(100), 2, Some(0), Some(1), false)]
  {
    var s0 := SecondAccepted(p);
    var s1 := SendPrepared(p, s0, 0, 2);
    s := Delivered(p, s1, 0, 2, 100);
  }

  /** Revision 2 is shown, and the send of revision 1 is about to go on the wire. */
  predicate StaleOnWire(s: Sys) {
    && LOOP in s.workers
    && s.workers[LOOP].phase.Wiring? && s.workers[LOOP].phase.action.Send?
    && s.workers[LOOP].claim.operation == Some(KEY.operation) && s.workers[LOOP].claim.chat == KEY.chat
    && s.workers[LOOP].claim.revision == Some(1)
    && s.workers[LOOP].claim.kind.SendMessage? && s.workers[LOOP].claim.recoveryOf.None?
    && KEY in s.db.bindings && s.db.bindings[KEY].rendered == 2 && s.db.bindings[KEY].message == Some(100)
  }

  lemma StaleSendIsKept(p: Sys -> bool) returns (s: Sys)
    requires LoopKeeps(p)
    ensures p(s) && StaleOnWire(s)
  {
    var s0 := SecondRenderShown(p);
    Goes(p, s0, Tick(60));
    var s1 := Next(s0, Tick(60));
    s := SendPrepared(p, s1, 60, 1);
  }

  lemma LoopKeepsLooped()
    ensures LoopKeeps(s => Looped(s, 0, LIMITS))
  {
    var start := Start(0, LIMITS);
    assert Runs(start, []) && After(start, []) == start && AllOneLoop([]);
    forall s, step | Looped(s, 0, LIMITS) && Enabled(s, step) && OneLoop(step)
      ensures Looped(Next(s, step), 0, LIMITS)
    {
      LoopedStep(s, 0, LIMITS, step);
    }
  }

  /** One more step of the single loop, or of anybody else, keeps a state reachable. */
  lemma LoopedStep(s: Sys, now: int, limits: Limits, step: Step)
    requires Looped(s, now, limits) && Enabled(s, step) && OneLoop(step)
    ensures Looped(Next(s, step), now, limits)
  {
    var steps :| AllOneLoop(steps) && Runs(Start(now, limits), steps) && After(Start(now, limits), steps) == s;
    RunsSnoc(Start(now, limits), steps, step);
    assert AllOneLoop(steps + [step]);
  }

  /** The single loop, with no crash and no recovery, reaches a state where a newer revision is shown and
      the send of an older one is about to go on the wire: render order holds for edits only. */
  lemma RetriedSendOvertakenByNewerRender() returns (s: Sys)
    ensures Looped(s, 0, LIMITS) && StaleOnWire(s)
  {
    LoopKeepsLooped();
    s := StaleSendIsKept(s => Looped(s, 0, LIMITS));
  }

  /** What can be known of a claim before its wire call: the kind it was claimed as, whether it is an
      operator's recovery, the kind it was enqueued as, and whether it is its job's first. */
  datatype Origin = Origin(claimedAs: JobKind, recovery: bool, enqueuedAs: JobKind, first: bool)

  /** A stale render of such a claim is about to go on the wire. */
  predicate StaleWire(s: Sys, origin: Origin) {
    && LOOP in s.workers && s.workers[LOOP].phase.Wiring?
    && var c := s.workers[LOOP].claim;
       && c.id in s.history.enqueuedAs
       && origin == Origin(c.kind, c.recoveryOf.Some?, s.history.enqueuedAs[c.id], c.attempts == 1)
       && CarriesRender(c) && TargetOf(c) in s.db.bindings && Outdated(s.db.bindings[TargetOf(c)], c.revision.value)
  }

  /** A downgraded edit that is claimed again. */
  const RETRIED_DOWNGRADE := Origin(SendMessage, false, EditMessageText, false)

  lemma LoopedIsProduced(s: Sys, now: int, limits: Limits)
    requires Looped(s, now, limits)
    ensures Produced(s, now, limits)
  {
    var steps :| AllOneLoop(steps) && Runs(Start(now, limits), steps) && After(Start(now, limits), steps) == s;
    assert AllProducers(steps);
  }

  lemma StaleIsRetriedDowngrade(s: Sys, now: int, limits: Limits, origin: Origin)
    requires Looped(s, now, limits) && limits.maxAttempts >= 1 && StaleWire(s, origin)
    ensures origin == RETRIED_DOWNGRADE
  {
    LoopedInv(s, now, limits);
    assert StillNews(s.db.bindings, s.workers[LOOP]);
    LoopedIsProduced(s, now, limits);
    SendsWithRevisionAreDowngrades(s, now, limits, LOOP);
  }

  lemma RetriedDowngradeCanBeStale() returns (s: Sys)
    ensures Looped(s, 0, LIMITS) && StaleWire(s, RETRIED_DOWNGRADE)
  {
    s := RetriedSendOvertakenByNewerRender();
    LoopedIsProduced(s, 0, LIMITS);
    SendsWithRevisionAreDowngrades(s, 0, LIMITS, LOOP);
  }

  /** Exactly which claims can put a stale render on the wire, over all runs of the single loop: downgraded
      edits that are claimed again. */
  lemma StaleOnWireExactlyForRetriedDowngrades(origin: Origin)
    ensures (exists s, now, limits: Limits ::
               limits.maxAttempts >= 1 && Looped(s, now, limits) && StaleWire(s, origin))
            <==> origin == RETRIED_DOWNGRADE
  {
    forall s, now, limits: Limits | limits.maxAttempts >= 1 && Looped(s, now, limits) && StaleWire(s, origin)
      ensures origin == RETRIED_DOWNGRADE
    {
      StaleIsRetriedDowngrade(s, now, limits, origin);
    }
    if origin == RETRIED_DOWNGRADE {
      var s := RetriedDowngradeCanBeStale();
      assert LIMITS.maxAttempts >= 1;
    }
  }
}
