/** Captures: a followed operation keeps an owner, and replays add neither a second binding nor a second
    acknowledgement job. */
module Ownership {
  import opened Tables
  import opened OutboundQueue
  import opened Interaction
  import opened Acknowledgements
  import opened ProjectionAccept
  import opened Notifications
  import opened CaptureProjection
  import opened Cleanup
  import opened Delivery
  import opened Machine
  import opened QueueEffects
  import opened Fencing
  import opened Leases
  import opened Projection
  import opened Outcomes
  import opened CleanupInvisible

  // ---------------------------------------------------------------- the owner lookup

  predicate NewerLink(tokens: map<TokenId, Token>, a: TokenId, b: TokenId)
    requires a in tokens && b in tokens
  {
    tokens[a].createdAt < tokens[b].createdAt || (tokens[a].createdAt == tokens[b].createdAt && a <= b)
  }

  lemma {:induction false} NewestOf(tokens: map<TokenId, Token>, ids: set<TokenId>) returns (newest: TokenId)
    requires ids != {} && ids <= tokens.Keys
    ensures newest in ids && forall t | t in ids :: NewerLink(tokens, t, newest)
  {
    var pick :| pick in ids;
    if ids == {pick} {
      newest := pick;
    } else {
      var rest := NewestOf(tokens, ids - {pick});
      newest := if NewerLink(tokens, pick, rest) then rest else pick;
      forall t | t in ids ensures NewerLink(tokens, t, newest) {
        if t != pick { assert t in ids - {pick}; }
      }
    }
  }

  /** The lookup answers exactly when a deep link of the operation is stored, with the user of its newest. */
  lemma OwnerExactlyWithLink(tokens: map<TokenId, Token>, operation: Uuid)
    ensures FindOperationOwner(tokens, operation).Some? <==> HasLink(tokens, operation)
    ensures forall t | NewestLink(tokens, operation, t) :: FindOperationOwner(tokens, operation) == Some(tokens[t].user)
  {
    if HasLink(tokens, operation) {
      var ids := set t | t in tokens && tokens[t].authority.DeepLink? && tokens[t].authority.operation == operation;
      var t :| t in tokens && tokens[t].authority.DeepLink? && tokens[t].authority.operation == operation;
      assert t in ids;
      var newest := NewestOf(tokens, ids);
      forall o | o in tokens && tokens[o].authority.DeepLink? && tokens[o].authority.operation == operation
        ensures NewerLink(tokens, o, newest)
      {
        assert o in ids;
      }
      assert NewestLink(tokens, operation, newest);
    }
  }

  // ---------------------------------------------------------------- what steps keep

  ghost predicate TokensBelow(db: Db) {
    forall t | t in db.tokens :: t < db.nextToken
  }

  /** Links of an operation that some live binding follows stay stored. */
  ghost predicate LinksKept(before: Db, after: Db) {
    forall t | t in before.tokens ::
      before.tokens[t].authority.DeepLink? && Followed(before.bindings, before.tokens[t].authority.operation) ==>
        t in after.tokens && after.tokens[t].authority == before.tokens[t].authority
  }

  /** Every token keeps its row and what it authorises. */
  ghost predicate TokensKept(before: Db, after: Db) {
    && before.nextToken <= after.nextToken
    && (forall t | t in before.tokens :: t in after.tokens && after.tokens[t].authority == before.tokens[t].authority)
    && (TokensBelow(before) ==> TokensBelow(after))
  }

  lemma TokensKeptTransitive(a: Db, b: Db, c: Db)
    requires TokensKept(a, b) && TokensKept(b, c)
    ensures TokensKept(a, c)
  {
  }

  lemma AddTokenKeeps(db: Db, token: Token)
    requires TokensBelow(db)
    ensures TokensKept(db, AddToken(db, token))
  {
  }

  lemma {:induction false} SelectionsKeepTokens(db: Db, id: DialogueId, scope: Scope, actions: seq<Capability>,
                                                now: int, expiresAt: int)
    requires TokensBelow(db)
    ensures TokensKept(db, MintSelections(db, id, scope, actions, now, expiresAt))
    decreases |actions|
  {
    if actions == [] {
    } else {
      var first := AddToken(db, CallbackToken(Select(actions[0]), id, 0, scope, now, expiresAt));
      AddTokenKeeps(db, CallbackToken(Select(actions[0]), id, 0, scope, now, expiresAt));
      SelectionsKeepTokens(first, id, scope, actions[1..], now, expiresAt);
      TokensKeptTransitive(db, first, MintSelections(db, id, scope, actions, now, expiresAt));
    }
  }

  lemma {:induction false} ReadsKeepTokens(db: Db, intents: seq<LibraryIntent>, now: int)
    requires TokensBelow(db)
    ensures TokensKept(db, MintLibraryReads(db, intents, now))
    decreases |intents|
  {
    if intents == [] {
    } else {
      var first := AddToken(db, LibraryToken(intents[0], now));
      AddTokenKeeps(db, LibraryToken(intents[0], now));
      ReadsKeepTokens(first, intents[1..], now);
      TokensKeptTransitive(db, first, MintLibraryReads(db, intents, now));
    }
  }

  lemma PreviewKeepsTokens(db: Db, scope: Scope, preview: Offer, now: int, expiresAt: int)
    requires TokensBelow(db)
    ensures TokensKept(db, CreatePreview(db, scope, preview, now, expiresAt).0)
  {
    var id := db.nextDialogue;
    var d := Dialogue(scope.bot, scope.user, scope.chat, None, Stage.Preview, 0, Active, preview.target,
                      preview.account, None, None, id, None, expiresAt, None);
    SelectionsKeepTokens(db.(dialogues := db.dialogues[id := d], nextDialogue := id + 1), id, scope,
                         preview.actions, now, expiresAt);
  }

  lemma CaptureKeepsTokens(db: Db, intent: OperationIntent, ack: NewJob, now: int)
    requires TokensBelow(db)
    ensures TokensKept(db, RecordCapture(db, intent, ack, now).0)
  {
    AddTokenKeeps(EnsureBinding(db, IntentKey(intent), intent.scope.bot), DeepLinkToken(intent, now));
  }

  lemma ConsumeKeepsTokens(db: Db, token: TokenId, now: int, d: Dialogue, id: DialogueId)
    requires token in db.tokens
    ensures TokensKept(db, Consume(db, token, now).(dialogues := db.dialogues[id := d]))
  {
  }

  lemma SelectionKeepsTokens(db: Db, token: TokenId, scope: Scope, message: int, now: int)
    requires TokensBelow(db)
    ensures TokensKept(db, ConsumeSelection(db, token, scope, message, now).0)
  {
    var (after, answer) := ConsumeSelection(db, token, scope, message, now);
    if Refuses(db, token, scope, message, Stage.Preview, 0, now) {
      RefusedSelection(db, token, scope, message, now);
    } else {
      SelectionEffect(db, token, scope, message, now);
      var t := db.tokens[token];
      var id := t.authority.dialogue;
      if answer.Selected? {
        var e := db.dialogues[id].(mode := Some(t.authority.action.mode), step := Confirming, version := 1, message := None);
        var chosen := Consume(db, token, now).(dialogues := db.dialogues[id := e]);
        ConsumeKeepsTokens(db, token, now, e, id);
        var confirm := CallbackToken(Confirm, id, 1, scope, now, Min(t.expiresAt, db.dialogues[id].expiresAt));
        var cancel := CallbackToken(Cancel, id, 1, scope, now, Min(t.expiresAt, db.dialogues[id].expiresAt));
        AddTokenKeeps(chosen, confirm);
        AddTokenKeeps(AddToken(chosen, confirm), cancel);
        TokensKeptTransitive(db, chosen, AddToken(chosen, confirm));
        TokensKeptTransitive(db, AddToken(chosen, confirm), after);
      }
    }
  }

  lemma DecisionKeepsTokens(db: Db, token: TokenId, update: ReleasingUpdate, user: int, chat: int, message: int, now: int)
    requires TokensBelow(db)
    ensures TokensKept(db, ConsumeDecision(db, token, update, user, chat, message, now).0)
  {
  }

  lemma PerformKeepsTokens(db: Db, command: Command, now: int)
    requires TokensBelow(db) && !command.CleanUp?
    ensures TokensKept(db, Perform(db, command, now).0)
  {
    match command
    case ShowPreview(scope, preview, expiresAt) => PreviewKeepsTokens(db, scope, preview, now, expiresAt);
    case IssueReads(intents, _) => ReadsKeepTokens(db, intents, now);
    case IssueLink(intent) => AddTokenKeeps(db, DeepLinkToken(intent, now));
    case Capture(intent, ack) => CaptureKeepsTokens(db, intent, ack, now);
    case OpenLink(_, _, _, _) =>
    case ReadLibrary(_, _, _) =>
    case Stamp(id, bot, chat, message) => StampKeepsTokens(db, id, bot, chat, message);
    case SelectMode(token, scope, message) => SelectionKeepsTokens(db, token, scope, message, now);
    case Decide(token, update, user, chat, message) => DecisionKeepsTokens(db, token, update, user, chat, message, now);
    case Complete(_, _, _, _) =>
    case Move(_, _, _, _, _) =>
  }

  /** Cleanup deletes tokens, but never a link whose operation is still followed. */
  lemma CleanupKeepsLinks(db: Db, now: int, before: int, limit: nat)
    requires TokensBelow(db)
    ensures var after := CleanupPass(db, now, before, limit).0;
      LinksKept(db, after) && TokensBelow(after) && after.bindings == db.bindings
  {
    var expired := FirstRows(ExpiryQueue(db, now), limit);
    var db1 := ExpireBatch(db, expired, now);
    var removed := FirstRows(DeletionQueue(db1, now), limit);
    assert forall t | t in removed :: t in DeletionQueue(db1, now);
  }

  predicate BindingStays(b: Binding, c: Binding) {
    b.bot == c.bot && (b.terminal ==> c.terminal)
  }

  ghost predicate BindingsStay(before: map<BindingKey, Binding>, after: map<BindingKey, Binding>) {
    forall key | key in before :: key in after && BindingStays(before[key], after[key])
  }

  lemma AckedBindingsStay(bindings: map<BindingKey, Binding>, c: Claimed, wire: JobKind, message: int, at: int)
    ensures BindingsStay(bindings, AckedBindings(bindings, c, wire, message, at))
  {
  }

  /** A send row stays the send it was enqueued as. */
  ghost predicate SendRowsStay(before: map<JobId, Job>, after: map<JobId, Job>) {
    forall id | id in before && before[id].kind.SendMessage? ::
      && id in after && after[id].kind.SendMessage?
      && after[id].bot == before[id].bot && after[id].chat == before[id].chat
      && after[id].operation == before[id].operation && after[id].revision == before[id].revision
      && after[id].dialogue == before[id].dialogue
  }

  lemma SenderRowsStay(s: Sys, t: Sys, w: WorkerId)
    requires SenderRows(s, t, w)
    ensures SendRowsStay(s.db.jobs, t.db.jobs)
  {
  }

  lemma ClaimedRowsStay(before: map<JobId, Job>, after: map<JobId, Job>, now: int, ttl: nat, head: Option<JobId>)
    requires ClaimEffect(before, after, now, ttl, head)
    ensures SendRowsStay(before, after)
  {
  }

  lemma FollowBindingsStay(s: Sys, w: WorkerId)
    requires Enabled(s, FollowThrough(w))
    ensures BindingsStay(s.db.bindings, FollowStep(s, w).db.bindings)
  {
  }

  lemma AckBindingsStay(s: Sys, w: WorkerId, replyLost: bool)
    requires Enabled(s, Acknowledge(w, replyLost))
    ensures BindingsStay(s.db.bindings, AckStep(s, w, replyLost).db.bindings)
  {
    var phase := s.workers[w].phase;
    AckShape(s, w, replyLost);
    AckedBindingsStay(s.db.bindings, s.workers[w].claim, MethodOf(phase.action), phase.message, phase.at);
  }

  lemma SenderBindingsStay(s: Sys, step: Step, t: Sys)
    requires Enabled(s, step) && SenderStep(step) && t == SenderNext(s, step) && !step.ClaimNext?
    ensures BindingsStay(s.db.bindings, t.db.bindings)
  {
    if step.Acknowledge? {
      AckBindingsStay(s, step.w, step.replyLost);
    } else if step.FollowThrough? {
      FollowBindingsStay(s, step.w);
    } else {
      OthersLeaveBindings(s, step, t);
    }
  }

  lemma StampKeepsTokens(db: Db, id: DialogueId, bot: int, chat: int, message: int)
    ensures TokensKept(db, StampCallback(db, id, bot, chat, message).0)
  {
  }

  lemma AckKeepsTokens(db: Db, c: Claimed, wire: JobKind, message: int, at: int)
    ensures var r := RecordAck(db, c, wire, message, at); r.Ok? ==> TokensKept(db, r.value)
  {
    if c.dialogue.Some? { StampKeepsTokens(db, c.dialogue.value, c.bot, c.chat, message); }
  }

  lemma SenderKeepsTokens(s: Sys, step: Step, t: Sys)
    requires Enabled(s, step) && SenderStep(step) && t == SenderNext(s, step)
    ensures TokensKept(s.db, t.db)
  {
    match step
    case Acknowledge(w, replyLost) =>
      var phase := s.workers[w].phase;
      AckKeepsTokens(s.db, s.workers[w].claim, MethodOf(phase.action), phase.message, phase.at);
      AckShape(s, w, replyLost);
    case ClaimNext(w, head) => ClaimShape(s, w, head);
    case Prepare(w) => PrepareShape(s, w);
    case Wire(w, reply, applied, draw) => WireShape(s, w, reply, applied, draw);
    case SettleClaim(w) => SettleShape(s, w);
    case RunGuard(w) => GuardShape(s, w);
    case Defer(w, delay) => DeferShape(s, w, delay);
    case AckFault(w) => AckFaultShape(s, w);
    case FollowThrough(w) => FollowShape(s, w);
    case Crash(w) => CrashShape(s, w);
  }

  lemma AcceptBindingsStay(db: Db, event: Event, now: int, interval: int)
    ensures BindingsStay(db.bindings, Accept(db, event, now, interval).0.bindings)
  {
  }

  lemma OutsideBindingsStay(s: Sys, step: Step, t: Sys)
    requires Enabled(s, step) && !SenderStep(step) && !step.Interact? && t == OutsideNext(s, step)
    ensures BindingsStay(s.db.bindings, t.db.bindings)
  {
    match step
    case AdmitNotice(notice, candidates) =>
      NoticesLeaveBindings(s.db.(inbox := s.db.inbox + {notice.event}), notice, candidates, s.now);
    case AcceptEvent(event, interval) => AcceptBindingsStay(s.db, event, s.now, interval);
    case Tick(_) =>
    case Enqueue(_) =>
    case RecoverSend(_) =>
  }

  lemma {:induction false} NoticesLeaveBindings(db: Db, n: Notice, candidates: seq<Candidate>, now: int)
    ensures var r := DecideAll(db, n, candidates, now);
      r.Ok? ==> r.value.0.bindings == db.bindings
    decreases |candidates|
  {
    if candidates != [] && ReleaseTime(candidates[0], n, now).Ok? {
      NoticesLeaveBindings(DecideOne(db, n, candidates[0], ReleaseTime(candidates[0], n, now).value, now), n,
                           candidates[1..], now);
    }
  }

  // ---------------------------------------------------------------- the invariant

  predicate Owned(db: Db, key: BindingKey) {
    key in db.bindings && (!db.bindings[key].terminal ==> HasLink(db.tokens, key.operation))
  }

  /** At most one acknowledgement job was made, and once made its row stays. */
  predicate AckedOnce(db: Db, trail: Trail, key: BindingKey) {
    && trail.acks[key] <= 1
    && (trail.acks[key] == 1 ==> key in db.bindings && HasAckJob(db, key, db.bindings[key].bot))
  }

  ghost predicate CaptureInv(db: Db, trail: Trail) {
    && TokensBelow(db)
    && (forall key | key in trail.captured :: Owned(db, key))
    && (forall key :: AckedOnce(db, trail, key))
  }

  lemma OwnedStays(before: Db, after: Db, key: BindingKey)
    requires Owned(before, key) && LinksKept(before, after) && BindingsStay(before.bindings, after.bindings)
    ensures Owned(after, key)
  {
    if !after.bindings[key].terminal {
      assert Followed(before.bindings, key.operation);
      var t :| t in before.tokens && before.tokens[t].authority.DeepLink?
               && before.tokens[t].authority.operation == key.operation;
      assert t in after.tokens;
    }
  }

  lemma AckedStays(before: Db, after: Db, trail: Trail, key: BindingKey)
    requires AckedOnce(before, trail, key) && SendRowsStay(before.jobs, after.jobs)
    requires BindingsStay(before.bindings, after.bindings)
    ensures AckedOnce(after, trail, key)
  {
    if trail.acks[key] == 1 {
      var id :| id in before.jobs && IsAckJob(before.jobs[id], key, before.bindings[key].bot);
      assert IsAckJob(after.jobs[id], key, after.bindings[key].bot);
    }
  }

  lemma CaptureKept(before: Db, after: Db, trail: Trail)
    requires CaptureInv(before, trail) && TokensBelow(after) && LinksKept(before, after)
    requires SendRowsStay(before.jobs, after.jobs) && BindingsStay(before.bindings, after.bindings)
    ensures CaptureInv(after, trail)
  {
    forall key | key in trail.captured ensures Owned(after, key) { OwnedStays(before, after, key); }
    forall key ensures AckedOnce(after, trail, key) { AckedStays(before, after, trail, key); }
  }

  // ---------------------------------------------------------------- one capture

  lemma LinkIsLive(db: Db, intent: OperationIntent, now: int)
    requires HasLiveLink(db, intent, now) || intent.expiresAt > now
    ensures HasLiveLink(EnsureLink(db, intent, now), intent, now)
  {
    if !HasLiveLink(db, intent, now) {
      assert LiveLink(EnsureLink(db, intent, now).tokens[db.nextToken], intent, now);
    }
  }

  lemma AckRowExists(db: Db, order: NewJob, now: int, key: BindingKey)
    requires order.chat == key.chat && order.kind.SendMessage? && order.operation == Some(key.operation)
    requires order.revision.None?
    ensures HasAckJob(InsertJob(db, order, now), key, order.bot)
  {
    assert IsAckJob(InsertJob(db, order, now).jobs[db.nextJob], key, order.bot);
  }

  /** After every accepted capture, replayed or not: the binding is there, a live link is there, and the
      operation either already has a message or has its acknowledgement job. */
  lemma CaptureEstablishes(db: Db, intent: OperationIntent, ack: NewJob, now: int)
    ensures var (after, answer) := RecordCapture(db, intent, ack, now); var key := IntentKey(intent);
      answer.Projected? ==>
        && key in after.bindings && after.bindings[key].bot == intent.scope.bot
        && HasLiveLink(after, intent, now) && HasLink(after.tokens, intent.operation)
        && (after.bindings[key].message.Some? || HasAckJob(after, key, intent.scope.bot))
  {
    var key := IntentKey(intent);
    var (after, answer) := RecordCapture(db, intent, ack, now);
    if answer.Projected? {
      var bound := EnsureBinding(db, key, intent.scope.bot);
      LinkIsLive(bound, intent, now);
      var linked := EnsureLink(bound, intent, now);
      AckRowExists(linked, ack, now, key);
      assert after.tokens == linked.tokens;
      var t :| t in linked.tokens && LiveLink(linked.tokens[t], intent, now);
      assert t in after.tokens;
    }
  }

  /** Replaying an accepted capture at once changes nothing at all. */
  lemma ReplayIsIdempotent(db: Db, intent: OperationIntent, ack: NewJob, now: int)
    ensures var (after, answer) := RecordCapture(db, intent, ack, now);
      answer.Projected? ==> RecordCapture(after, intent, ack, now) == (after, Projected)
  {
    CaptureEstablishes(db, intent, ack, now);
  }

  lemma CaptureCounts(db: Db, intent: OperationIntent, ack: NewJob, now: int)
    ensures var (after, answer) := RecordCapture(db, intent, ack, now); var key := IntentKey(intent);
      answer.Projected? && after.nextJob > db.nextJob ==>
        && HasAckJob(after, key, intent.scope.bot)
        && (key in db.bindings ==> db.bindings[key].bot == intent.scope.bot && !HasAckJob(db, key, intent.scope.bot))
  {
    CaptureEstablishes(db, intent, ack, now);
    if RecordCapture(db, intent, ack, now).1.Projected? {
      var linked := EnsureLink(EnsureBinding(db, IntentKey(intent), intent.scope.bot), intent, now);
      AckRowExists(linked, ack, now, IntentKey(intent));
    }
  }

  lemma CaptureStep(db: Db, trail: Trail, intent: OperationIntent, ack: NewJob, now: int, after: Db, seen: Trail)
    requires CaptureInv(db, trail) && IdsBelow(db)
    requires after == RecordCapture(db, intent, ack, now).0
    requires seen == Observe(trail, Capture(intent, ack), RecordCapture(db, intent, ack, now).1, db, after)
    requires CaptureInv(after, trail)
    ensures CaptureInv(after, seen)
  {
    CaptureEstablishes(db, intent, ack, now);
    CaptureCounts(db, intent, ack, now);
    forall key ensures AckedOnce(after, seen, key) {
      assert AckedOnce(db, trail, key) && AckedOnce(after, trail, key);
    }
  }

  // ---------------------------------------------------------------- every run

  lemma OtherCommandsKeepBindings(db: Db, command: Command, now: int, after: Db)
    requires IdsBelow(db) && after == Perform(db, command, now).0
    ensures SendRowsStay(db.jobs, after.jobs) && BindingsStay(db.bindings, after.bindings)
  {
    var order := PerformQueue(db, command, now);
    if order.Some? { InsertIsOutside(db, order.value, now); }
    if command.Capture? { var same := CaptureQueue(db, command.intent, command.ack, now); }
  }

  lemma CaptureInteract(s: Sys, command: Command, t: Sys)
    requires CaptureInv(s.db, s.trail) && IdsBelow(s.db) && t == InteractStep(s, command)
    ensures CaptureInv(t.db, t.trail)
  {
    OtherCommandsKeepBindings(s.db, command, s.now, t.db);
    if command.CleanUp? {
      CleanupKeepsLinks(s.db, s.now, command.before, command.limit);
      CaptureKept(s.db, t.db, s.trail);
    } else {
      PerformKeepsTokens(s.db, command, s.now);
      CaptureKept(s.db, t.db, s.trail);
      if command.Capture? {
        CaptureStep(s.db, s.trail, command.intent, command.ack, s.now, t.db, t.trail);
      } else {
        NothingCaptured(s, command, t);
      }
    }
  }

  lemma NothingCaptured(s: Sys, command: Command, t: Sys)
    requires CaptureInv(t.db, s.trail) && t == InteractStep(s, command) && !command.Capture?
    ensures CaptureInv(t.db, t.trail)
  {
    forall key ensures AckedOnce(t.db, t.trail, key) {
      assert AckedOnce(t.db, s.trail, key);
    }
  }

  lemma OutsideRowsStay(s: Sys, t: Sys)
    requires Outside(s.db, t.db)
    ensures SendRowsStay(s.db.jobs, t.db.jobs)
  {
    forall id | id in s.db.jobs && s.db.jobs[id].kind.SendMessage?
      ensures id in t.db.jobs && OutsideRow(s.db.jobs[id], t.db.jobs[id])
    {
    }
  }

  lemma CaptureOutside(s: Sys, step: Step, t: Sys)
    requires CaptureInv(s.db, s.trail) && Base(s) && Enabled(s, step) && !SenderStep(step) && !step.Interact?
    requires t == OutsideNext(s, step)
    ensures CaptureInv(t.db, t.trail)
  {
    OutsideStep(s, step);
    OutsideRowsStay(s, t);
    OutsideBindingsStay(s, step, t);
    OutsideLeavesDialogues(s, step, t);
    CaptureKept(s.db, t.db, s.trail);
  }

  lemma CaptureSender(s: Sys, step: Step, t: Sys)
    requires CaptureInv(s.db, s.trail) && Base(s) && Enabled(s, step) && SenderStep(step) && t == SenderNext(s, step)
    ensures CaptureInv(t.db, t.trail)
  {
    SenderKeepsTokens(s, step, t);
    SenderDrifts(s, step, t);
    if step.ClaimNext? {
      ClaimShape(s, step.w, step.head);
      ClaimedRowsStay(s.db.jobs, t.db.jobs, s.now, s.limits.leaseTtl, step.head);
    } else {
      SenderStepRows(s, step, t);
      SenderRowsStay(s, t, step.w);
      SenderBindingsStay(s, step, t);
    }
    CaptureKept(s.db, t.db, s.trail);
  }

  lemma {:induction false} CaptureAfter(s: Sys, steps: seq<Step>)
    requires CaptureInv(s.db, s.trail) && Base(s) && Runs(s, steps)
    ensures CaptureInv(After(s, steps).db, After(s, steps).trail)
    decreases |steps|
  {
    if steps == [] {
    } else {
      var step := steps[0];
      BaseNext(s, step);
      if SenderStep(step) {
        CaptureSender(s, step, SenderNext(s, step));
      } else if step.Interact? {
        CaptureInteract(s, step.command, OutsideNext(s, step));
      } else {
        CaptureOutside(s, step, OutsideNext(s, step));
      }
      CaptureAfter(Next(s, step), steps[1..]);
    }
  }

  /** In every run, with deliveries, unbinds, token use, accepts and cleanup anywhere: an operation that an
      accepted capture bound, and whose binding is not terminal, has an owner; and however often the
      capture was replayed, it made at most one acknowledgement job, whose row is still there. */
  lemma FollowedOperationsKeepAnOwner(s: Sys, now: int, limits: Limits, key: BindingKey)
    requires Reachable(s, now, limits) && key in s.trail.captured
    ensures key in s.db.bindings
    ensures !s.db.bindings[key].terminal ==> FindOperationOwner(s.db.tokens, key.operation).Some?
    ensures s.trail.acks[key] <= 1
    ensures s.trail.acks[key] == 1 ==> HasAckJob(s.db, key, s.db.bindings[key].bot)
  {
    var steps :| Runs(Start(now, limits), steps) && After(Start(now, limits), steps) == s;
    CaptureAfter(Start(now, limits), steps);
    assert Owned(s.db, key) && AckedOnce(s.db, s.trail, key);
    OwnerExactlyWithLink(s.db.tokens, key.operation);
  }
}
