/** The whole service as one state machine. Every database transaction is one atomic step; between
    two transactions a sender worker holds only its claim and may stall or crash. Nothing bounds the
    number of workers. */
module Machine {
  import opened Tables
  import opened OutboundQueue
  import opened Interaction
  import opened Acknowledgements
  import opened ProjectionAccept
  import opened Notifications
  import opened CaptureProjection
  import opened Cleanup
  import opened Delivery

  type WorkerId = nat

  /** Where a worker stands. `at` is the clock reading it took before its wire call. */
  datatype Phase =
    | Guarding
    | Gated(action: WireAction)
    | Wiring(action: WireAction, at: int)
    | Acking(action: WireAction, message: int, at: int, failures: nat)
    | Settling(outcome: DeliveryOutcome, follow: Follow, at: int)
    | Following(follow: Follow, at: int)

  datatype Worker = Worker(claim: Claimed, phase: Phase)

  datatype ClaimId = ClaimId(job: JobId, attempt: nat)

  /** One recorded operation event and the edit job that renders it. */
  datatype Render = Render(event: Event, job: JobId)

  /** What an outside observer of the delivery side has seen so far. */
  datatype History = History(
    sends: multiset<JobId>,
    claims: multiset<JobId>,
    expiries: multiset<JobId>,
    settlements: multiset<ClaimId>,
    enqueuedAs: map<JobId, JobKind>,
    renders: map<BindingKey, seq<Render>>,
    judged: seq<(BindingKey, Event)>)

  datatype Release = Release(dialogue: DialogueId, update: ReleasingUpdate, action: ConfirmedAction)

  /** A preview as it was offered, and to whom. */
  datatype Offered = Offered(scope: Scope, preview: Offer, expiresAt: int)

  /** What a button that was handed out promises. */
  datatype Button =
    | ModeButton(dialogue: DialogueId, mode: Capability)
    | ConfirmButton(dialogue: DialogueId)
    | CancelButton(dialogue: DialogueId)

  /** What users were offered, which buttons they were given, and which mode they picked. */
  datatype Panel = Panel(
    offers: map<DialogueId, Offered>,
    buttons: map<TokenId, Button>,
    picks: map<DialogueId, Capability>)

  /** What an outside observer of the interaction side has seen so far. */
  datatype Trail = Trail(
    selections: multiset<DialogueId>,
    confirms: multiset<DialogueId>,
    cancels: multiset<DialogueId>,
    releases: set<Release>,
    completions: multiset<DialogueId>,
    results: map<JobId, DialogueId>,
    captured: set<BindingKey>,
    acks: multiset<BindingKey>,
    panel: Panel)

  datatype Sys = Sys(
    db: Db,
    now: int,
    workers: map<WorkerId, Worker>,
    limits: Limits,
    history: History,
    trail: Trail)

  function Start(now: int, limits: Limits): Sys {
    Sys(EMPTY, now, map[], limits,
        History(multiset{}, multiset{}, multiset{}, multiset{}, map[], map[], []),
        Trail(multiset{}, multiset{}, multiset{}, {}, multiset{}, map[], {}, multiset{},
              Panel(map[], map[], map[])))
  }

  // ---------------------------------------------------------------- interaction commands

  datatype Command =
    | ShowPreview(scope: Scope, preview: Offer, expiresAt: int)
    | Stamp(dialogue: DialogueId, bot: int, chat: int, message: int)
    | SelectMode(token: TokenId, scope: Scope, message: int)
    | Decide(token: TokenId, update: ReleasingUpdate, user: int, chat: int, message: int)
    | Complete(dialogue: DialogueId, update: ReleasingUpdate, result: Option<Uuid>, job: NewJob)
    | Move(dialogue: DialogueId, scope: Scope, expectedStep: Stage, expectedVersion: nat, nextStep: Stage)
    | OpenLink(token: TokenId, surface: Surface, scope: Scope, optMessage: Option<int>)
    | ReadLibrary(token: TokenId, scope: Scope, internalUser: Uuid)
    | IssueLink(intent: OperationIntent)
    | IssueReads(intents: seq<LibraryIntent>, job: NewJob)
    | Capture(intent: OperationIntent, ack: NewJob)
    | CleanUp(before: int, limit: nat)

  ghost function Perform(db: Db, command: Command, now: int): (Db, Answer) {
    match command
    case ShowPreview(scope, preview, expiresAt) => CreatePreview(db, scope, preview, now, expiresAt)
    case Stamp(dialogue, bot, chat, message) =>
      var (stamped, applied) := StampCallback(db, dialogue, bot, chat, message);
      (stamped, Stamped(applied))
    case SelectMode(token, scope, message) => ConsumeSelection(db, token, scope, message, now)
    case Decide(token, update, user, chat, message) =>
      ConsumeDecision(db, token, update, user, chat, message, now)
    case Complete(dialogue, update, result, job) => CompleteDialogue(db, dialogue, update, result, job, now)
    case Move(dialogue, scope, expectedStep, expectedVersion, nextStep) =>
      Transition(db, dialogue, scope, expectedStep, expectedVersion, nextStep, now)
    case OpenLink(token, surface, scope, message) =>
      ConsumeInteractionToken(db, token, surface, scope, message, now)
    case ReadLibrary(token, scope, internalUser) => ResolveLibraryRead(db, token, scope, internalUser, now)
    case IssueLink(intent) => IssueOperationIntent(db, intent, now)
    case IssueReads(intents, job) => EnqueueLibraryReads(db, intents, job, now)
    case Capture(intent, ack) => RecordCapture(db, intent, ack, now)
    case CleanUp(before, limit) => (CleanupPass(db, now, before, limit).0, Stamped(true))
  }

  // ---------------------------------------------------------------- steps

  /** A wire call's result; `Failed` carries what the client reported. */
  datatype Reply = Acknowledged(message: int) | Failed(shape: FailureShape)

  datatype Step =
    | Tick(to: int)
    | Enqueue(order: NewJob)
    | AcceptEvent(event: Event, interval: int)
    | AdmitNotice(notice: Notice, candidates: seq<Candidate>)
    | RecoverSend(id: JobId)
    | Interact(command: Command)
    | ClaimNext(w: WorkerId, head: Option<JobId>)
    | RunGuard(w: WorkerId)
    | Defer(w: WorkerId, delay: nat)
    | Prepare(w: WorkerId)
    | Wire(w: WorkerId, reply: Reply, applied: bool, draw: nat)
    | Acknowledge(w: WorkerId, replyLost: bool)
    | AckFault(w: WorkerId)
    | SettleClaim(w: WorkerId)
    | FollowThrough(w: WorkerId)
    | Crash(w: WorkerId)

  predicate At(s: Sys, w: WorkerId) { w in s.workers }

  /** Telegram applies a write when it acknowledges it, may apply it when the failure proves nothing,
      and does not apply it when its own answer is a refusal. */
  predicate Plausible(reply: Reply, applied: bool) {
    match reply
    case Acknowledged(_) => applied
    case Failed(shape) => ProvesRefusal(shape) ==> !applied
  }

  predicate Enabled(s: Sys, step: Step) {
    match step
    case Tick(to) => s.now <= to
    case Enqueue(_) => true
    case AcceptEvent(_, _) => true
    case AdmitNotice(_, _) => true
    case RecoverSend(_) => true
    case Interact(_) => true
    case ClaimNext(w, head) => !At(s, w) && IsHead(Quarantine(s.db, s.now).jobs, s.now, head)
    case RunGuard(w) => At(s, w) && s.workers[w].phase.Guarding?
    case Defer(w, _) => At(s, w) && s.workers[w].phase.Gated?
    case Prepare(w) => At(s, w) && s.workers[w].phase.Gated?
    case Wire(w, reply, applied, _) => At(s, w) && s.workers[w].phase.Wiring? && Plausible(reply, applied)
    case Acknowledge(w, _) => At(s, w) && s.workers[w].phase.Acking?
    case AckFault(w) => At(s, w) && s.workers[w].phase.Acking?
    case SettleClaim(w) => At(s, w) && s.workers[w].phase.Settling?
    case FollowThrough(w) => At(s, w) && s.workers[w].phase.Following?
    case Crash(w) => At(s, w)
  }

  function Enter(s: Sys, w: WorkerId, phase: Phase): Sys
    requires At(s, w)
  {
    s.(workers := s.workers[w := s.workers[w].(phase := phase)])
  }

  function Leave(s: Sys, w: WorkerId): Sys { s.(workers := s.workers - {w}) }

  /** The kinds under which new rows entered the queue. */
  function Remember(h: History, current: Db): History {
    h.(enqueuedAs := map id | id in h.enqueuedAs.Keys + current.jobs.Keys ::
         if id in h.enqueuedAs then h.enqueuedAs[id] else current.jobs[id].kind)
  }

  function RendersOf(h: History, key: BindingKey): seq<Render> {
    if key in h.renders then h.renders[key] else []
  }

  ghost function AcceptStep(s: Sys, event: Event, interval: int): Sys {
    var (after, outcome) := Accept(s.db, event, s.now, interval);
    var locked := LockBinding(s.db.bindings, event.operation);
    var h := Remember(s.history, after);
    if outcome.Duplicate? || outcome.Unbound? || locked.None? then s.(db := after, history := h)
    else
      var key := locked.value;
      var judged := h.(judged := h.judged + [(key, event)]);
      if outcome.Recorded? then
        s.(db := after,
           history := judged.(renders := h.renders[key := RendersOf(h, key) + [Render(event, s.db.nextJob)]]))
      else s.(db := after, history := judged)
  }

  function Observe(trail: Trail, command: Command, answer: Answer, before: Db, current: Db): Trail {
    match answer
    case Selected(id, _, _, _) => trail.(selections := trail.selections + multiset{id})
    case Confirmed(action, first) =>
      if command.Decide? then
        trail.(confirms := if first then trail.confirms + multiset{action.dialogue} else trail.confirms,
               releases := trail.releases + {Release(action.dialogue, command.update, action)})
      else trail
    case Cancelled(id) => trail.(cancels := trail.cancels + multiset{id})
    case Finished =>
      if command.Complete? then
        trail.(completions := trail.completions + multiset{command.dialogue},
               results := if current.nextJob > before.nextJob then trail.results[before.nextJob := command.dialogue]
                          else trail.results)
      else trail
    case Projected =>
      if command.Capture? then
        var key := IntentKey(command.intent);
        trail.(captured := trail.captured + {key},
               acks := if current.nextJob > before.nextJob then trail.acks + multiset{key} else trail.acks)
      else trail
    case _ => trail
  }

  function ModeButtons(buttons: map<TokenId, Button>, id: DialogueId, first: TokenId, actions: seq<Capability>)
    : map<TokenId, Button>
    decreases |actions|
  {
    if actions == [] then buttons
    else ModeButtons(buttons[first := ModeButton(id, actions[0])], id, first + 1, actions[1..])
  }

  /** The buttons of a preview stand in the order of its capabilities; a selection hands out one button to
      confirm and one to cancel. */
  function Present(panel: Panel, command: Command, answer: Answer): Panel {
    match answer
    case Created(id, first) =>
      if command.ShowPreview? then
        panel.(offers := panel.offers[id := Offered(command.scope, command.preview, command.expiresAt)],
               buttons := ModeButtons(panel.buttons, id, first, command.preview.actions))
      else panel
    case Selected(id, _, confirm, cancel) =>
      if command.SelectMode? then
        panel.(picks := if command.token in panel.buttons && panel.buttons[command.token].ModeButton?
                        then panel.picks[id := panel.buttons[command.token].mode] else panel.picks,
               buttons := panel.buttons[confirm := ConfirmButton(id)][cancel := CancelButton(id)])
      else panel
    case _ => panel
  }

  ghost function InteractStep(s: Sys, command: Command): Sys {
    var (after, answer) := Perform(s.db, command, s.now);
    s.(db := after, history := Remember(s.history, after),
       trail := Observe(s.trail, command, answer, s.db, after).(panel := Present(s.trail.panel, command, answer)))
  }

  function AdmitStep(s: Sys, notice: Notice, candidates: seq<Candidate>): Sys {
    match Admit(s.db, notice, candidates, s.now)
    case Err(_) => s
    case Ok((after, _)) => s.(db := after, history := Remember(s.history, after))
  }

  function RecoverStep(s: Sys, id: JobId): Sys {
    match Recover(s.db, id, s.now)
    case None => s
    case Some(after) => s.(db := after, history := Remember(s.history, after))
  }

  function EnqueueStep(s: Sys, order: NewJob): Sys {
    var after := InsertJob(s.db, order, s.now);
    s.(db := after, history := Remember(s.history, after))
  }

  function ClaimStep(s: Sys, w: WorkerId, head: Option<JobId>): Sys
    requires Enabled(s, ClaimNext(w, head))
  {
    var after := Claim(s.db, s.now, s.limits.leaseTtl, head);
    match head
    case None => s.(db := after)
    case Some(id) =>
      s.(db := after,
         workers := s.workers[w := Worker(SnapshotOf(id, after.jobs[id]), Guarding)],
         history := s.history.(
           claims := s.history.claims + multiset{id},
           expiries := if s.db.jobs[id].state.Sending? then s.history.expiries + multiset{id}
                       else s.history.expiries))
  }

  function GuardStep(s: Sys, w: WorkerId): Sys
    requires At(s, w)
  {
    match Guard(s.workers[w].claim, s.db.bindings)
    case Withdraw => Enter(s, w, Settling(SupersededStale, Nothing, s.now))
    case Act(action) => Enter(s, w, Gated(action))
  }

  function PrepareStep(s: Sys, w: WorkerId): Sys
    requires At(s, w) && s.workers[w].phase.Gated?
  {
    var action := s.workers[w].phase.action;
    match PrepareMethod(s.db, s.workers[w].claim, MethodOf(action))
    case Ok(after) => Enter(s.(db := after), w, Wiring(action, s.now))
    case Err(_) => Leave(s, w)
  }

  function WireStep(s: Sys, w: WorkerId, reply: Reply, applied: bool, draw: nat): Sys
    requires At(s, w) && s.workers[w].phase.Wiring?
  {
    var c := s.workers[w].claim;
    var action := s.workers[w].phase.action;
    var at := s.workers[w].phase.at;
    var called := if action.Send? && applied
                  then s.(history := s.history.(sends := s.history.sends + multiset{c.id})) else s;
    match reply
    case Acknowledged(message) => Enter(called, w, Acking(action, message, at, 0))
    case Failed(shape) =>
      var decision := Classify(shape);
      Enter(called, w, Settling(FailureOutcome(s.limits, c, action, decision, draw), FollowUp(c, decision), at))
  }

  /** A local failure after the acknowledgement: two more tries, then the claim is abandoned. */
  function AckFailed(s: Sys, w: WorkerId): Sys
    requires At(s, w) && s.workers[w].phase.Acking?
  {
    var phase := s.workers[w].phase;
    if phase.failures >= 2 then Leave(s, w) else Enter(s, w, phase.(failures := phase.failures + 1))
  }

  /** The transaction may commit and still look failed to the worker. */
  function AckStep(s: Sys, w: WorkerId, replyLost: bool): Sys
    requires At(s, w) && s.workers[w].phase.Acking?
  {
    var c := s.workers[w].claim;
    var phase := s.workers[w].phase;
    match RecordAck(s.db, c, MethodOf(phase.action), phase.message, phase.at)
    case Err(_) => AckFailed(s, w)
    case Ok(after) =>
      var committed := s.(db := after,
        history := if Owns(s.db.jobs, c.id, c.attempts)
                   then s.history.(settlements := s.history.settlements + multiset{ClaimId(c.id, c.attempts)})
                   else s.history);
      if replyLost then AckFailed(committed, w) else Leave(committed, w)
  }

  function SettleStep(s: Sys, w: WorkerId): Sys
    requires At(s, w) && s.workers[w].phase.Settling?
  {
    var c := s.workers[w].claim;
    var phase := s.workers[w].phase;
    match Settle(s.db, c.id, c.attempts, s.now, s.limits.maxAttempts, phase.outcome)
    case Err(_) => Leave(s, w)
    case Ok(after) =>
      var settled := s.(db := after,
        history := s.history.(settlements := s.history.settlements + multiset{ClaimId(c.id, c.attempts)}));
      if phase.follow.Nothing? then Leave(settled, w) else Enter(settled, w, Following(phase.follow, phase.at))
  }

  function FollowStep(s: Sys, w: WorkerId): Sys
    requires At(s, w) && s.workers[w].phase.Following?
  {
    var c := s.workers[w].claim;
    var phase := s.workers[w].phase;
    var done := Leave(s, w);
    if c.operation.None? then done
    else
      var key := BindingKey(c.operation.value, c.chat);
      match phase.follow
      case Nothing => done
      case Advance =>
        if c.revision.None? then done
        else done.(db := s.db.(bindings := AdvanceRender(s.db.bindings, key, c.revision.value, phase.at)))
      case Unbind =>
        match UnbindMessage(s.db.bindings, key)
        case Err(_) => done
        case Ok(bindings) => done.(db := s.db.(bindings := bindings))
  }

  /** The steps of sender workers; all others belong to producers, consumers, users and the clock. */
  predicate SenderStep(step: Step) {
    step.ClaimNext? || step.RunGuard? || step.Defer? || step.Prepare? || step.Wire? || step.Acknowledge?
    || step.AckFault? || step.SettleClaim? || step.FollowThrough? || step.Crash?
  }

  function SenderNext(s: Sys, step: Step): Sys
    requires Enabled(s, step) && SenderStep(step)
  {
    match step
    case ClaimNext(w, head) => ClaimStep(s, w, head)
    case RunGuard(w) => GuardStep(s, w)
    case Defer(w, delay) => Enter(s, w, Settling(RetryWithBackoff(delay), Nothing, s.now))
    case Prepare(w) => PrepareStep(s, w)
    case Wire(w, reply, applied, draw) => WireStep(s, w, reply, applied, draw)
    case Acknowledge(w, replyLost) => AckStep(s, w, replyLost)
    case AckFault(w) => AckFailed(s, w)
    case SettleClaim(w) => SettleStep(s, w)
    case FollowThrough(w) => FollowStep(s, w)
    case Crash(w) => Leave(s, w)
  }

  ghost function OutsideNext(s: Sys, step: Step): Sys
    requires Enabled(s, step) && !SenderStep(step)
  {
    match step
    case Tick(to) => s.(now := to)
    case Enqueue(order) => EnqueueStep(s, order)
    case AcceptEvent(event, interval) => AcceptStep(s, event, interval)
    case AdmitNotice(notice, candidates) => AdmitStep(s, notice, candidates)
    case RecoverSend(id) => RecoverStep(s, id)
    case Interact(command) => InteractStep(s, command)
  }

  ghost function Next(s: Sys, step: Step): Sys
    requires Enabled(s, step)
  {
    if SenderStep(step) then SenderNext(s, step) else OutsideNext(s, step)
  }

  // ---------------------------------------------------------------- runs

  ghost predicate Runs(s: Sys, steps: seq<Step>)
    decreases |steps|
  {
    steps == [] || (Enabled(s, steps[0]) && Runs(Next(s, steps[0]), steps[1..]))
  }

  ghost function After(s: Sys, steps: seq<Step>): Sys
    requires Runs(s, steps)
    decreases |steps|
  {
    if steps == [] then s else After(Next(s, steps[0]), steps[1..])
  }
}
