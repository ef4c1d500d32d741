/** With the one sequential sender loop, renders of a bound message only move forward. */
module Renders {
  import opened Tables
  import opened OutboundQueue
  import opened ProjectionAccept
  import opened Delivery
  import opened Machine
  import opened QueueEffects
  import opened Fencing
  import opened Projection

  const LOOP: WorkerId := 0

  /** The dispatcher runs one claim-then-process loop; it may crash and restart anywhere. */
  predicate OneLoop(step: Step) {
    Producer(step) && (SenderStep(step) ==> step.w == LOOP)
  }

  /** Past the guard, and not yet answered by Telegram. */
  predicate AboutToShow(p: Phase) { p.Gated? || p.Wiring? }

  predicate CarriesRender(c: Claimed) { c.operation.Some? && c.revision.Some? }

  function TargetOf(c: Claimed): BindingKey
    requires CarriesRender(c)
  {
    BindingKey(c.operation.value, c.chat)
  }

  /** A render that the message already shows, or that a newer one has replaced. */
  predicate Outdated(b: Binding, revision: int) {
    b.rendered > revision || (b.rendered == revision && b.message.Some?)
  }

  /** What the loop is about to show: an edit job is newer than what the message shows, whether it goes out
      as an edit or downgraded to a send, and an operator's recovery is not stale. An edit goes to the message
      of its binding, and an edit job is downgraded only when its binding has none. */
  predicate StillNews(bindings: map<BindingKey, Binding>, worker: Worker) {
    var c := worker.claim;
    AboutToShow(worker.phase) ==>
      && GoesTo(bindings, c, worker.phase.action)
      && (c.kind.EditMessageText? ==>
            CarriesRender(c) && TargetOf(c) in bindings && bindings[TargetOf(c)].rendered < c.revision.value)
      && (c.recoveryOf.Some? && CarriesRender(c) && TargetOf(c) in bindings ==>
            !Outdated(bindings[TargetOf(c)], c.revision.value))
  }

  /** A send makes a new message. An edit job edits the one its binding has, and makes a new one when the
      binding has none. */
  predicate GoesTo(bindings: map<BindingKey, Binding>, c: Claimed, action: WireAction) {
    if c.kind.SendMessage? then action.Send?
    else
      && CarriesRender(c) && TargetOf(c) in bindings
      && bindings[TargetOf(c)].message == (if action.Edit? then Some(action.message) else None)
  }

  ghost predicate LoopInv(s: Sys) {
    && InProjection(s)
    && s.workers.Keys <= {LOOP}
    && forall w | w in s.workers :: StillNews(s.db.bindings, s.workers[w])
  }

  /** Everybody but the sender leaves the message and the rendered revision of every binding alone. */
  ghost predicate RendersKept(before: map<BindingKey, Binding>, after: map<BindingKey, Binding>) {
    forall key | key in before ::
      key in after && after[key].rendered == before[key].rendered && after[key].message == before[key].message
  }

  lemma AcceptKeepsRenders(s: Sys, event: Event, interval: int, t: Sys)
    requires InProjection(s) && t == AcceptStep(s, event, interval)
    ensures RendersKept(s.db.bindings, t.db.bindings)
  {
    if Accept(s.db, event, s.now, interval).1.Recorded? {
      var key := LockBinding(s.db.bindings, event.operation).value;
      AcceptRecords(s, event, interval, key, t);
    } else {
      AcceptSkips(s, event, interval, t);
    }
  }

  lemma InteractKeepsRenders(s: Sys, command: Command, t: Sys)
    requires t == InteractStep(s, command)
    ensures RendersKept(s.db.bindings, t.db.bindings)
  {
    var order := PerformQueue(s.db, command, s.now);
    if command.Capture? { var same := CaptureQueue(s.db, command.intent, command.ack, s.now); }
  }

  lemma OutsideKeepsRenders(s: Sys, step: Step)
    requires InProjection(s) && Enabled(s, step) && !SenderStep(step)
    ensures RendersKept(s.db.bindings, OutsideNext(s, step).db.bindings)
  {
    match step
    case AcceptEvent(event, interval) => AcceptKeepsRenders(s, event, interval, OutsideNext(s, step));
    case Interact(command) => InteractKeepsRenders(s, command, OutsideNext(s, step));
    case AdmitNotice(notice, candidates) =>
      NoticesHaveNoRevision(s.db.(inbox := s.db.inbox + {notice.event}), notice, candidates, s.now);
    case _ =>
  }

  /** A claimed revision was assigned, so its binding is there. */
  lemma TargetIsBound(s: Sys, worker: Worker)
    requires InProjection(s) && WorkerWf(s.db.jobs, worker) && CarriesRender(worker.claim)
    ensures TargetOf(worker.claim) in s.db.bindings
    ensures 1 <= worker.claim.revision.value <= |RendersOf(s.history, TargetOf(worker.claim))|
  {
    assert RevisionWf(s.history, s.db.jobs[worker.claim.id]);
  }

  lemma StillNewsKept(s: Sys, t: Sys, worker: Worker)
    requires InProjection(s) && WorkerWf(s.db.jobs, worker) && RendersKept(s.db.bindings, t.db.bindings)
    requires StillNews(s.db.bindings, worker)
    ensures StillNews(t.db.bindings, worker)
  {
    if CarriesRender(worker.claim) { TargetIsBound(s, worker); }
  }

  lemma LoopOutside(s: Sys, t: Sys)
    requires LoopInv(s) && InProjection(t) && RendersKept(s.db.bindings, t.db.bindings) && t.workers == s.workers
    ensures LoopInv(t)
  {
    forall w | w in t.workers ensures StillNews(t.db.bindings, t.workers[w]) {
      StillNewsKept(s, t, s.workers[w]);
    }
  }

  /** What passes the guard is news at that moment. */
  lemma GuardPassesNews(c: Claimed, bindings: map<BindingKey, Binding>, worker: Worker)
    requires worker.claim == c && (AboutToShow(worker.phase) ==> Guard(c, bindings) == Act(worker.phase.action))
    ensures StillNews(bindings, worker)
  {
  }

  /** Exactly what the guard withdraws: an operator's recovery that is outdated, and an edit job without a
      render, without a binding, or whose render is not above the rendered one. All else passes, and goes
      where it belongs. */
  lemma GuardIsExact(c: Claimed, bindings: map<BindingKey, Binding>)
    ensures Guard(c, bindings).Withdraw? <==>
      if c.kind.SendMessage? then
        c.recoveryOf.Some? && CarriesRender(c) && TargetOf(c) in bindings && Outdated(bindings[TargetOf(c)], c.revision.value)
      else
        !CarriesRender(c) || TargetOf(c) !in bindings || c.revision.value <= bindings[TargetOf(c)].rendered
    ensures Guard(c, bindings).Act? ==> GoesTo(bindings, c, Guard(c, bindings).action)
  {
  }

  lemma LoopGuard(s: Sys, t: Sys)
    requires LoopInv(s) && Enabled(s, RunGuard(LOOP)) && t == GuardStep(s, LOOP) && InProjection(t)
    ensures LoopInv(t)
  {
    GuardShape(s, LOOP);
    GuardPassesNews(s.workers[LOOP].claim, s.db.bindings, t.workers[LOOP]);
  }

  lemma LoopPrepare(s: Sys, t: Sys)
    requires LoopInv(s) && Enabled(s, Prepare(LOOP)) && t == PrepareStep(s, LOOP) && InProjection(t)
    ensures LoopInv(t)
  {
    PrepareShape(s, LOOP);
    NewsOnTheWay(s, t);
  }

  /** A worker that moves on towards its wire call while the bindings stand still. */
  lemma NewsOnTheWay(s: Sys, t: Sys)
    requires LoopInv(s) && InProjection(t) && t.db.bindings == s.db.bindings
    requires LOOP in s.workers && AboutToShow(s.workers[LOOP].phase) && t.workers.Keys <= {LOOP}
    requires LOOP in t.workers ==>
      t.workers[LOOP].claim == s.workers[LOOP].claim && AboutToShow(t.workers[LOOP].phase)
      && t.workers[LOOP].phase.action == s.workers[LOOP].phase.action
    ensures LoopInv(t)
  {
    assert StillNews(s.db.bindings, s.workers[LOOP]);
  }

  lemma PastShowing(s: Sys, step: Step, t: Sys)
    requires Enabled(s, step) && SenderStep(step) && step.w == LOOP && t == SenderNext(s, step)
    requires !step.ClaimNext? && !step.RunGuard? && !step.Prepare?
    ensures OnlyWorker(s.workers, t.workers, LOOP)
    ensures LOOP in t.workers ==> !AboutToShow(t.workers[LOOP].phase)
  {
    match step
    case Wire(_, reply, applied, draw) => WireShape(s, LOOP, reply, applied, draw);
    case Acknowledge(_, replyLost) => AckShape(s, LOOP, replyLost);
    case SettleClaim(_) => SettleShape(s, LOOP);
    case FollowThrough(_) => FollowShape(s, LOOP);
    case Defer(_, delay) => DeferShape(s, LOOP, delay);
    case AckFault(_) => AckFaultShape(s, LOOP);
    case Crash(_) => CrashShape(s, LOOP);
  }

  /** The loop's own step: the guard checks, and nothing moves the binding before the wire call. */
  lemma LoopSender(s: Sys, step: Step, t: Sys)
    requires LoopInv(s) && Enabled(s, step) && SenderStep(step) && OneLoop(step) && !step.ClaimNext?
    requires t == SenderNext(s, step) && InProjection(t)
    ensures LoopInv(t)
  {
    if step.RunGuard? {
      LoopGuard(s, t);
    } else if step.Prepare? {
      LoopPrepare(s, t);
    } else {
      PastShowing(s, step, t);
    }
  }

  lemma LoopNext(s: Sys, step: Step)
    requires LoopInv(s) && Enabled(s, step) && OneLoop(step)
    ensures LoopInv(Next(s, step))
  {
    ProjectedNext(s, step);
    if !SenderStep(step) {
      OutsideKeepsRenders(s, step);
      OutsideStep(s, step);
      LoopOutside(s, OutsideNext(s, step));
    } else if step.ClaimNext? {
      ClaimShape(s, LOOP, step.head);
    } else {
      LoopSender(s, step, SenderNext(s, step));
    }
  }

  ghost predicate AllOneLoop(steps: seq<Step>) {
    forall i | 0 <= i < |steps| :: OneLoop(steps[i])
  }

  lemma {:induction false} LoopAfter(s: Sys, steps: seq<Step>)
    requires LoopInv(s) && Runs(s, steps) && AllOneLoop(steps)
    ensures LoopInv(After(s, steps))
    decreases |steps|
  {
    if steps == [] {
    } else {
      LoopNext(s, steps[0]);
      LoopAfter(Next(s, steps[0]), steps[1..]);
    }
  }

  ghost predicate Looped(s: Sys, now: int, limits: Limits) {
    exists steps :: AllOneLoop(steps) && Runs(Start(now, limits), steps) && After(Start(now, limits), steps) == s
  }

  lemma LoopedInv(s: Sys, now: int, limits: Limits)
    requires Looped(s, now, limits)
    ensures LoopInv(s)
  {
    var steps :| AllOneLoop(steps) && Runs(Start(now, limits), steps) && After(Start(now, limits), steps) == s;
    LoopAfter(Start(now, limits), steps);
  }

  /** No step lowers a rendered revision or drops a binding. */
  lemma RenderedKept(s: Sys, step: Step, key: BindingKey)
    requires InProjection(s) && Enabled(s, step) && key in s.db.bindings
    ensures var t := Next(s, step);
      key in t.db.bindings && s.db.bindings[key].rendered <= t.db.bindings[key].rendered
  {
    if !SenderStep(step) {
      OutsideKeepsRenders(s, step);
    } else if step.ClaimNext? {
      ClaimShape(s, step.w, step.head);
    } else {
      SenderMovesBindings(s, step, SenderNext(s, step));
    }
  }

  /** Any number of workers: the stored rendered revision never decreases and is always zero or one
      that was assigned. */
  lemma RenderedNeverDecreases(s: Sys, now: int, limits: Limits, step: Step, key: BindingKey)
    requires Produced(s, now, limits) && Enabled(s, step) && Producer(step) && key in s.db.bindings
    ensures var t := Next(s, step);
      && key in t.db.bindings
      && s.db.bindings[key].rendered <= t.db.bindings[key].rendered <= |RendersOf(t.history, key)|
  {
    ProducedInv(s, now, limits);
    ProjectedNext(s, step);
    RenderedKept(s, step, key);
    assert Agrees(Next(s, step).db.bindings[key], RendersOf(Next(s, step).history, key));
  }

  /** With the single loop and crashes anywhere, every edit job put on the wire, as an edit or downgraded to
      a send, carries an assigned revision strictly above the rendered one, and an operator's recovery is
      not stale. An edit goes to the message that its binding shows at that moment, and a downgrade means that
      it shows none. */
  lemma GuardedRendersMoveForward(s: Sys, now: int, limits: Limits, step: Step)
    requires Looped(s, now, limits) && Enabled(s, step) && OneLoop(step) && step.Wire?
    ensures var c := s.workers[step.w].claim;
      && (s.workers[step.w].phase.action.Edit? ==> c.kind.EditMessageText?)
      && (c.kind.EditMessageText? ==> CarriesRender(c))
      && GoesTo(s.db.bindings, c, s.workers[step.w].phase.action)
      && (CarriesRender(c) ==> TargetOf(c) in s.db.bindings && c.revision.value <= |RendersOf(s.history, TargetOf(c))|)
      && (c.kind.EditMessageText? ==> s.db.bindings[TargetOf(c)].rendered < c.revision.value)
      && (c.recoveryOf.Some? && CarriesRender(c) ==> !Outdated(s.db.bindings[TargetOf(c)], c.revision.value))
  {
    LoopedInv(s, now, limits);
    WireIsNews(s, step);
  }

  lemma WireIsNews(s: Sys, step: Step)
    requires LoopInv(s) && Enabled(s, step) && step.Wire?
    ensures var c := s.workers[step.w].claim;
      && (s.workers[step.w].phase.action.Edit? ==> c.kind.EditMessageText?)
      && StillNews(s.db.bindings, s.workers[step.w])
      && (CarriesRender(c) ==> TargetOf(c) in s.db.bindings && c.revision.value <= |RendersOf(s.history, TargetOf(c))|)
  {
    assert WorkerWf(s.db.jobs, s.workers[step.w]);
    if CarriesRender(s.workers[step.w].claim) { TargetIsBound(s, s.workers[step.w]); }
  }

  /** An edit job of `key` goes on the wire, as an edit or as its downgrade. */
  predicate EditsKey(s: Sys, step: Step, key: BindingKey) {
    && step.Wire? && step.w in s.workers && s.workers[step.w].phase.Wiring?
    && s.workers[step.w].claim.kind.EditMessageText?
    && s.workers[step.w].claim.operation == Some(key.operation) && s.workers[step.w].claim.chat == key.chat
  }

  ghost predicate NeverEdits(s: Sys, steps: seq<Step>, key: BindingKey)
    requires Runs(s, steps)
    decreases |steps|
  {
    steps == [] || (!EditsKey(s, steps[0], key) && NeverEdits(Next(s, steps[0]), steps[1..], key))
  }

  ghost predicate TerminalShown(s: Sys, key: BindingKey) {
    && key in s.db.bindings && s.db.bindings[key].terminal
    && s.db.bindings[key].rendered == |RendersOf(s.history, key)|
  }

  lemma EditIsBelowTop(s: Sys, step: Step, key: BindingKey)
    requires LoopInv(s) && EditsKey(s, step, key) && Enabled(s, step)
    ensures key in s.db.bindings && s.db.bindings[key].rendered < |RendersOf(s.history, key)|
  {
    WireIsNews(s, step);
  }

  /** Nothing follows a terminal render, so a row that showed it keeps showing it. */
  lemma TerminalIsLast(b: Binding, before: seq<Render>, c: Binding, after: seq<Render>)
    requires Agrees(b, before) && Agrees(c, after) && (after != [] ==> Ordered(after))
    requires before <= after && b.terminal && b.rendered == |before| && b.rendered <= c.rendered
    ensures c.terminal && c.rendered == |after|
  {
    assert after[|before| - 1] == before[|before| - 1];
  }

  lemma TerminalStaysShown(s: Sys, step: Step, key: BindingKey)
    requires LoopInv(s) && TerminalShown(s, key) && Enabled(s, step) && OneLoop(step)
    ensures TerminalShown(Next(s, step), key)
  {
    ProjectedNext(s, step);
    RendersGrow(s, step, key);
    RenderedKept(s, step, key);
    var t := Next(s, step);
    TerminalIsLast(s.db.bindings[key], RendersOf(s.history, key), t.db.bindings[key], RendersOf(t.history, key));
  }

  lemma ShownStep(s: Sys, step: Step, key: BindingKey)
    requires LoopInv(s) && TerminalShown(s, key) && Enabled(s, step) && OneLoop(step)
    ensures LoopInv(Next(s, step)) && TerminalShown(Next(s, step), key) && !EditsKey(s, step, key)
  {
    if EditsKey(s, step, key) { EditIsBelowTop(s, step, key); }
    TerminalStaysShown(s, step, key);
    LoopNext(s, step);
  }

  lemma {:induction false} NoEditFrom(s: Sys, steps: seq<Step>, key: BindingKey)
    requires LoopInv(s) && TerminalShown(s, key) && Runs(s, steps) && AllOneLoop(steps)
    ensures NeverEdits(s, steps, key)
    decreases |steps|
  {
    if steps == [] {
    } else {
      ShownStep(s, steps[0], key);
      NoEditFrom(Next(s, steps[0]), steps[1..], key);
    }
  }

  /** Once the terminal render is shown, no edit job of that message reaches Telegram again, neither as an
      edit nor on the first pass of a downgrade. */
  lemma NoEditAfterTerminal(s: Sys, now: int, limits: Limits, steps: seq<Step>, key: BindingKey)
    requires Looped(s, now, limits) && TerminalShown(s, key) && Runs(s, steps) && AllOneLoop(steps)
    ensures NeverEdits(s, steps, key)
  {
    LoopedInv(s, now, limits);
    NoEditFrom(s, steps, key);
  }
}
