/** One dialogue, one outcome: at most one selection, at most one decision, one releasing update, one
    result. */
module Outcomes {
  import opened Tables
  import opened OutboundQueue
  import opened Interaction
  import opened Acknowledgements
  import opened ProjectionAccept
  import opened Cleanup
  import opened Delivery
  import opened Machine
  import opened Notifications
  import opened QueueEffects
  import opened Leases

  predicate Released(trail: Trail, id: DialogueId, d: Dialogue) {
    forall r | r in trail.releases :: r.dialogue == id ==>
      d.mode.Some? && d.releasing == Some(r.update) && ActionOf(id, d) == r.action
  }

  /** The row of a dialogue agrees with what was observed of it. */
  predicate RowTells(trail: Trail, id: DialogueId, d: Dialogue) {
    && DialogueChecks(d) && d.key == id
    && (trail.selections[id] >= 1 ==> d.version >= 1)
    && (trail.confirms[id] + trail.cancels[id] >= 1 ==> d.version >= 2)
    && (trail.cancels[id] >= 1 ==> !d.lifecycle.Active?)
    && (d.releasing.Some? <==> trail.confirms[id] == 1)
    && (d.releasing.Some? ==> d.mode.Some?)
    && (trail.completions[id] >= 1 <==> d.lifecycle.Finished?)
    && Released(trail, id, d)
  }

  predicate OneOutcome(trail: Trail, id: DialogueId) {
    && trail.selections[id] <= 1
    && trail.confirms[id] + trail.cancels[id] <= 1
    && trail.completions[id] <= trail.confirms[id]
    && (forall r | r in trail.releases :: r.dialogue == id ==> r.action.dialogue == id && trail.confirms[id] == 1)
    && (trail.confirms[id] == 1 ==> exists r :: r in trail.releases && r.dialogue == id)
    && (forall q, r | q in trail.releases && r in trail.releases ::
          q.dialogue == id && r.dialogue == id ==> q == r)
  }

  predicate Unseen(trail: Trail, id: DialogueId) {
    && trail.selections[id] == 0 && trail.confirms[id] == 0 && trail.cancels[id] == 0
    && trail.completions[id] == 0
    && (forall r | r in trail.releases :: r.dialogue != id)
  }

  ghost predicate OutcomeInv(db: Db, trail: Trail) {
    && (forall id :: OneOutcome(trail, id))
    && (forall id | id in db.dialogues :: id < db.nextDialogue && RowTells(trail, id, db.dialogues[id]))
    && (forall id: DialogueId | id >= db.nextDialogue :: Unseen(trail, id))
  }

  // ---------------------------------------------------------------- steps that observe nothing

  /** A dialogue row moved without an outcome: same facts, no smaller version. */
  predicate RowDrifts(d: Dialogue, e: Dialogue) {
    && e.key == d.key && e.mode == d.mode && e.target == d.target && e.account == d.account
    && e.releasing == d.releasing && e.version >= d.version
    && DialogueChecks(e)
    && (e.lifecycle.Active? ==> d.lifecycle.Active?)
    && (d.lifecycle.Finished? <==> e.lifecycle.Finished?)
  }

  ghost predicate Drifts(db: Db, after: Db) {
    && after.nextDialogue == db.nextDialogue
    && forall id | id in after.dialogues ::
         id in db.dialogues && (DialogueChecks(db.dialogues[id]) ==> RowDrifts(db.dialogues[id], after.dialogues[id]))
  }

  lemma DriftKeeps(db: Db, after: Db, trail: Trail)
    requires OutcomeInv(db, trail) && Drifts(db, after)
    ensures OutcomeInv(after, trail)
  {
    forall id | id in after.dialogues ensures RowTells(trail, id, after.dialogues[id]) {
      assert RowTells(trail, id, db.dialogues[id]);
    }
  }

  lemma StampDrifts(db: Db, id: DialogueId, bot: int, chat: int, message: int)
    ensures Drifts(db, StampCallback(db, id, bot, chat, message).0)
  {
  }

  lemma RefuseDrifts(db: Db, id: DialogueId, refusal: CallbackRefusal, now: int)
    requires id in db.dialogues
    ensures Drifts(db, Refuse(db, id, refusal, now).0)
  {
  }

  lemma MoveDrifts(db: Db, id: DialogueId, scope: Scope, expectedStep: Stage, expectedVersion: nat, nextStep: Stage,
                   now: int)
    ensures Drifts(db, Transition(db, id, scope, expectedStep, expectedVersion, nextStep, now).0)
  {
  }

  lemma CleanupDrifts(db: Db, now: int, before: int, limit: nat)
    ensures Drifts(db, CleanupPass(db, now, before, limit).0)
  {
    var expired := FirstRows(ExpiryQueue(db, now), limit);
    assert forall id | id in expired :: id in ExpiryQueue(db, now);
  }

  // ---------------------------------------------------------------- steps with an outcome

  /** One dialogue row and its own observations changed. */
  lemma OutcomeOne(db: Db, after: Db, trail: Trail, seen: Trail, id: DialogueId)
    requires OutcomeInv(db, trail) && after.nextDialogue == db.nextDialogue
    requires id in db.dialogues && id in after.dialogues && after.dialogues == db.dialogues[id := after.dialogues[id]]
    requires forall o | o != id ::
      seen.selections[o] == trail.selections[o] && seen.confirms[o] == trail.confirms[o]
      && seen.cancels[o] == trail.cancels[o] && seen.completions[o] == trail.completions[o]
    requires forall r | r in trail.releases + seen.releases :: r.dialogue != id ==> (r in trail.releases <==> r in seen.releases)
    requires OneOutcome(seen, id) && RowTells(seen, id, after.dialogues[id])
    ensures OutcomeInv(after, seen)
  {
    forall o ensures OneOutcome(seen, o) {
      assert OneOutcome(trail, o);
    }
    forall o | o in after.dialogues ensures o < after.nextDialogue && RowTells(seen, o, after.dialogues[o]) {
      assert RowTells(trail, o, db.dialogues[o]);
    }
    forall o: DialogueId | o >= after.nextDialogue ensures Unseen(seen, o) {
      assert Unseen(trail, o);
    }
  }

  lemma OutcomeSelect(db: Db, trail: Trail, token: TokenId, scope: Scope, message: int, now: int)
    requires OutcomeInv(db, trail)
    ensures var (after, answer) := ConsumeSelection(db, token, scope, message, now);
      OutcomeInv(after, Observe(trail, SelectMode(token, scope, message), answer, db, after))
  {
    var (after, answer) := ConsumeSelection(db, token, scope, message, now);
    if answer.Selected? {
      var id := answer.dialogue;
      assert OneOutcome(trail, id) && RowTells(trail, id, db.dialogues[id]);
      assert forall r | r in trail.releases :: r.dialogue != id;
      OutcomeOne(db, after, trail, trail.(selections := trail.selections + multiset{id}), id);
    } else {
      if IsCallbackRow(db, token) {
        var id := db.tokens[token].authority.dialogue;
        RefuseDrifts(db, id, CallbackRefusal.Expired, now);
      }
      DriftKeeps(db, after, trail);
    }
  }

  /** Only the one row, and its tokens, changed. */
  predicate Rewrote(db: Db, after: Db, id: DialogueId, d: Dialogue) {
    id in db.dialogues && after == db.(dialogues := db.dialogues[id := d], tokens := after.tokens)
  }

  lemma DecideShape(db: Db, token: TokenId, update: ReleasingUpdate, user: int, chat: int, message: int, now: int)
    ensures var (after, answer) := ConsumeDecision(db, token, update, user, chat, message, now);
      match answer
      case Cancelled(id) =>
        && id in db.dialogues && db.dialogues[id].step.Confirming? && db.dialogues[id].version == 1
        && db.dialogues[id].lifecycle.Active?
        && Rewrote(db, after, id, db.dialogues[id].(lifecycle := Lifecycle.Cancelled, version := 2, message := None,
                                                    terminalAt := Some(now)))
      case Confirmed(action, true) =>
        && action.dialogue in db.dialogues
        && var d := db.dialogues[action.dialogue];
           && d.step.Confirming? && d.version == 1 && d.lifecycle.Active? && d.mode.Some?
           && action == ActionOf(action.dialogue, d)
           && Rewrote(db, after, action.dialogue, d.(step := Submitting, version := 2, message := None,
                                                     releasing := Some(update)))
      case Confirmed(action, false) =>
        && after == db && action.dialogue in db.dialogues
        && var d := db.dialogues[action.dialogue];
           && d.releasing == Some(update) && d.mode.Some? && action == ActionOf(action.dialogue, d)
      case _ => Drifts(db, after)
  {
    if IsCallbackRow(db, token) {
      RefuseDrifts(db, db.tokens[token].authority.dialogue, CallbackRefusal.Expired, now);
    }
  }

  lemma OutcomeCancel(db: Db, after: Db, trail: Trail, id: DialogueId, d: Dialogue)
    requires OutcomeInv(db, trail) && Rewrote(db, after, id, d) && d.terminalAt.Some?
    requires db.dialogues[id].step.Confirming? && db.dialogues[id].version == 1
    requires d == db.dialogues[id].(lifecycle := Lifecycle.Cancelled, version := 2, message := None,
                                    terminalAt := d.terminalAt)
    ensures OutcomeInv(after, trail.(cancels := trail.cancels + multiset{id}))
  {
    assert OneOutcome(trail, id) && RowTells(trail, id, db.dialogues[id]);
    OutcomeOne(db, after, trail, trail.(cancels := trail.cancels + multiset{id}), id);
  }

  lemma OutcomeConfirm(db: Db, after: Db, trail: Trail, id: DialogueId, update: ReleasingUpdate, d: Dialogue)
    requires OutcomeInv(db, trail) && Rewrote(db, after, id, d)
    requires db.dialogues[id].step.Confirming? && db.dialogues[id].version == 1 && db.dialogues[id].lifecycle.Active?
    requires db.dialogues[id].mode.Some?
    requires d == db.dialogues[id].(step := Submitting, version := 2, message := None, releasing := Some(update))
    ensures OutcomeInv(after, trail.(confirms := trail.confirms + multiset{id},
      releases := trail.releases + {Release(id, update, ActionOf(id, db.dialogues[id]))}))
  {
    assert OneOutcome(trail, id) && RowTells(trail, id, db.dialogues[id]);
    var seen := trail.(confirms := trail.confirms + multiset{id},
                       releases := trail.releases + {Release(id, update, ActionOf(id, db.dialogues[id]))});
    assert forall r | r in trail.releases :: r.dialogue != id;
    OutcomeOne(db, after, trail, seen, id);
  }

  /** A recovered confirmation releases nothing that the first one did not. */
  lemma OutcomeRecover(db: Db, trail: Trail, id: DialogueId, update: ReleasingUpdate)
    requires OutcomeInv(db, trail) && id in db.dialogues
    requires db.dialogues[id].releasing == Some(update) && db.dialogues[id].mode.Some?
    ensures OutcomeInv(db, trail.(releases := trail.releases + {Release(id, update, ActionOf(id, db.dialogues[id]))}))
  {
    var d := db.dialogues[id];
    assert OneOutcome(trail, id) && RowTells(trail, id, d) && Released(trail, id, d);
    var seen := trail.(releases := trail.releases + {Release(id, update, ActionOf(id, d))});
    assert db.dialogues[id := d] == db.dialogues;
    OutcomeOne(db, db, trail, seen, id);
  }

  lemma OutcomeDecide(db: Db, trail: Trail, token: TokenId, update: ReleasingUpdate, user: int, chat: int,
                      message: int, now: int)
    requires OutcomeInv(db, trail)
    ensures var (after, answer) := ConsumeDecision(db, token, update, user, chat, message, now);
      OutcomeInv(after, Observe(trail, Decide(token, update, user, chat, message), answer, db, after))
  {
    DecideShape(db, token, update, user, chat, message, now);
    var (after, answer) := ConsumeDecision(db, token, update, user, chat, message, now);
    match answer
    case Cancelled(id) => OutcomeCancel(db, after, trail, id, after.dialogues[id]);
    case Confirmed(action, true) =>
      OutcomeConfirm(db, after, trail, action.dialogue, update, after.dialogues[action.dialogue]);
    case Confirmed(action, false) => OutcomeRecover(db, trail, action.dialogue, update);
    case _ => DriftKeeps(db, after, trail);
  }

  lemma OutcomeComplete(db: Db, trail: Trail, id: DialogueId, update: ReleasingUpdate, result: Option<Uuid>,
                        job: NewJob, now: int)
    requires OutcomeInv(db, trail)
    ensures var (after, answer) := CompleteDialogue(db, id, update, result, job, now);
      OutcomeInv(after, Observe(trail, Complete(id, update, result, job), answer, db, after))
  {
    var (after, answer) := CompleteDialogue(db, id, update, result, job, now);
    if answer.Finished? {
      assert OneOutcome(trail, id) && RowTells(trail, id, db.dialogues[id]);
      OutcomeOne(db, after, trail, Observe(trail, Complete(id, update, result, job), answer, db, after), id);
    } else {
      DriftKeeps(db, after, trail);
    }
  }

  lemma OutcomePreview(db: Db, trail: Trail, scope: Scope, preview: Offer, now: int, expiresAt: int)
    requires OutcomeInv(db, trail)
    ensures OutcomeInv(CreatePreview(db, scope, preview, now, expiresAt).0, trail)
  {
    var id := db.nextDialogue;
    var d := Dialogue(scope.bot, scope.user, scope.chat, None, Stage.Preview, 0, Active, preview.target,
                      preview.account, None, None, id, None, expiresAt, None);
    MintSelectionsLeavesQueue(db.(dialogues := db.dialogues[id := d], nextDialogue := id + 1), id, scope,
                              preview.actions, now, expiresAt);
    var after := CreatePreview(db, scope, preview, now, expiresAt).0;
    assert Unseen(trail, id);
    forall o | o in after.dialogues ensures o < after.nextDialogue && RowTells(trail, o, after.dialogues[o]) {
      if o in db.dialogues { assert RowTells(trail, o, db.dialogues[o]); }
    }
  }

  // ---------------------------------------------------------------- every command

  /** What was observed of dialogues, captures aside. */
  predicate SameOutcomes(trail: Trail, seen: Trail) {
    seen == trail.(captured := seen.captured, acks := seen.acks, panel := seen.panel)
  }

  lemma SameRowsKeep(db: Db, after: Db, trail: Trail, seen: Trail)
    requires OutcomeInv(db, trail) && SameOutcomes(trail, seen)
    requires after.dialogues == db.dialogues && after.nextDialogue == db.nextDialogue
    ensures OutcomeInv(after, seen)
  {
    forall id ensures OneOutcome(seen, id) {
      assert OneOutcome(trail, id);
    }
    forall id | id in after.dialogues ensures RowTells(seen, id, after.dialogues[id]) {
      assert RowTells(trail, id, db.dialogues[id]);
    }
    forall id: DialogueId | id >= after.nextDialogue ensures Unseen(seen, id) {
      assert Unseen(trail, id);
    }
  }

  predicate LinkCommand(command: Command) {
    command.OpenLink? || command.ReadLibrary? || command.IssueLink? || command.IssueReads? || command.Capture?
  }

  lemma LinksLeaveDialogues(db: Db, command: Command, now: int)
    requires LinkCommand(command)
    ensures var (after, answer) := Perform(db, command, now);
      && after.dialogues == db.dialogues && after.nextDialogue == db.nextDialogue
      && !answer.Selected? && !answer.Confirmed? && !answer.Cancelled? && !answer.Finished?
  {
    match command
    case IssueReads(intents, _) => MintReadsLeavesQueue(db, intents, now);
    case OpenLink(_, _, _, _) =>
    case ReadLibrary(_, _, _) =>
    case IssueLink(_) =>
    case Capture(_, _) =>
  }

  lemma OutcomeLinks(db: Db, trail: Trail, command: Command, now: int)
    requires OutcomeInv(db, trail) && LinkCommand(command)
    ensures var (after, answer) := Perform(db, command, now);
      OutcomeInv(after, Observe(trail, command, answer, db, after))
  {
    LinksLeaveDialogues(db, command, now);
    var (after, answer) := Perform(db, command, now);
    SameRowsKeep(db, after, trail, Observe(trail, command, answer, db, after));
  }

  /** The commands that move a dialogue without an outcome. */
  lemma OutcomeDrifts(db: Db, trail: Trail, command: Command, now: int)
    requires OutcomeInv(db, trail) && (command.Stamp? || command.Move? || command.CleanUp?)
    ensures var (after, answer) := Perform(db, command, now);
      OutcomeInv(after, Observe(trail, command, answer, db, after))
  {
    match command {
      case Stamp(id, bot, chat, message) => StampDrifts(db, id, bot, chat, message);
      case Move(id, scope, step, version, next) => MoveDrifts(db, id, scope, step, version, next, now);
      case CleanUp(before, limit) => CleanupDrifts(db, now, before, limit);
    }
    DriftKeeps(db, Perform(db, command, now).0, trail);
  }

  lemma OutcomePerform(db: Db, trail: Trail, command: Command, now: int)
    requires OutcomeInv(db, trail)
    ensures var (after, answer) := Perform(db, command, now);
      OutcomeInv(after, Observe(trail, command, answer, db, after))
  {
    if LinkCommand(command) {
      OutcomeLinks(db, trail, command, now);
    } else if command.Stamp? || command.Move? || command.CleanUp? {
      OutcomeDrifts(db, trail, command, now);
    } else {
      match command
      case ShowPreview(scope, preview, expiresAt) => OutcomePreview(db, trail, scope, preview, now, expiresAt);
      case SelectMode(token, scope, message) => OutcomeSelect(db, trail, token, scope, message, now);
      case Decide(token, update, user, chat, message) =>
        OutcomeDecide(db, trail, token, update, user, chat, message, now);
      case Complete(id, update, result, job) => OutcomeComplete(db, trail, id, update, result, job, now);
    }
  }

  // ---------------------------------------------------------------- every run

  lemma AckStampDrifts(db: Db, c: Claimed, wire: JobKind, message: int, at: int)
    ensures var r := RecordAck(db, c, wire, message, at); r.Ok? ==> Drifts(db, r.value)
  {
    if c.dialogue.Some? { StampDrifts(db, c.dialogue.value, c.bot, c.chat, message); }
  }

  lemma SenderDrifts(s: Sys, step: Step, t: Sys)
    requires Enabled(s, step) && SenderStep(step) && t == SenderNext(s, step)
    ensures Drifts(s.db, t.db) && t.trail == s.trail
  {
    match step
    case Acknowledge(w, replyLost) =>
      var phase := s.workers[w].phase;
      AckStampDrifts(s.db, s.workers[w].claim, MethodOf(phase.action), phase.message, phase.at);
      AckShape(s, w, replyLost);
    case ClaimNext(w, head) => ClaimShape(s, w, head);
    case Prepare(w) => PrepareShape(s, w);
    case Wire(w, reply, applied, draw) => WireShape(s, w, reply, applied, draw);
    case SettleClaim(w) => SettleShape(s, w);
    case RunGuard(w) => GuardShape(s, w);
    case Defer(w, delay) => DeferShape(s, w, delay);
    case AckFault(w) => AckFaultShape(s, w);
    case FollowThrough(w) => FollowShape(s, w);
    case Crash(w) => CrashShape(s, w);
  }

  lemma {:induction false} NoticesLeaveDialogues(db: Db, n: Notice, candidates: seq<Candidate>, now: int)
    ensures var r := DecideAll(db, n, candidates, now);
      r.Ok? ==> r.value.0.dialogues == db.dialogues && r.value.0.nextDialogue == db.nextDialogue
                && r.value.0.tokens == db.tokens && r.value.0.nextToken == db.nextToken
    decreases |candidates|
  {
    if candidates != [] && ReleaseTime(candidates[0], n, now).Ok? {
      NoticesLeaveDialogues(DecideOne(db, n, candidates[0], ReleaseTime(candidates[0], n, now).value, now), n,
                            candidates[1..], now);
    }
  }

  predicate AuthorityKept(db: Db, after: Db) {
    && after.dialogues == db.dialogues && after.nextDialogue == db.nextDialogue
    && after.tokens == db.tokens && after.nextToken == db.nextToken
  }

  lemma AcceptLeavesDialogues(db: Db, event: Event, now: int, interval: int)
    ensures AuthorityKept(db, Accept(db, event, now, interval).0)
  {
  }

  lemma OutsideLeavesDialogues(s: Sys, step: Step, t: Sys)
    requires Enabled(s, step) && !SenderStep(step) && !step.Interact? && t == OutsideNext(s, step)
    ensures AuthorityKept(s.db, t.db) && t.trail == s.trail
  {
    match step
    case AdmitNotice(notice, candidates) =>
      NoticesLeaveDialogues(s.db.(inbox := s.db.inbox + {notice.event}), notice, candidates, s.now);
    case AcceptEvent(event, interval) => AcceptLeavesDialogues(s.db, event, s.now, interval);
    case Tick(_) =>
    case Enqueue(_) =>
    case RecoverSend(_) =>
  }

  lemma OutcomeNext(s: Sys, step: Step)
    requires OutcomeInv(s.db, s.trail) && Enabled(s, step)
    ensures OutcomeInv(Next(s, step).db, Next(s, step).trail)
  {
    if SenderStep(step) {
      SenderDrifts(s, step, SenderNext(s, step));
      DriftKeeps(s.db, SenderNext(s, step).db, s.trail);
    } else if step.Interact? {
      OutcomePerform(s.db, s.trail, step.command, s.now);
      var t := OutsideNext(s, step);
      SameRowsKeep(t.db, t.db, t.trail.(panel := s.trail.panel), t.trail);
    } else {
      OutsideLeavesDialogues(s, step, OutsideNext(s, step));
      SameRowsKeep(s.db, OutsideNext(s, step).db, s.trail, s.trail);
    }
  }

  lemma {:induction false} OutcomeAfterRun(s: Sys, steps: seq<Step>)
    requires OutcomeInv(s.db, s.trail) && Runs(s, steps)
    ensures OutcomeInv(After(s, steps).db, After(s, steps).trail)
    decreases |steps|
  {
    if steps == [] {
    } else {
      OutcomeNext(s, steps[0]);
      OutcomeAfterRun(Next(s, steps[0]), steps[1..]);
    }
  }

  /** In every run, with cleanup and generic transitions anywhere: a dialogue is selected at most once
      and decided at most once; a cancelled dialogue releases nothing; whatever is released for it, first
      or recovered, is one action released to one update; and it is completed at most once, only after a
      confirmation. */
  lemma OneDialogueOneOutcome(s: Sys, now: int, limits: Limits, id: DialogueId)
    requires Reachable(s, now, limits)
    ensures s.trail.selections[id] <= 1
    ensures s.trail.confirms[id] + s.trail.cancels[id] <= 1
    ensures s.trail.cancels[id] >= 1 ==> forall r | r in s.trail.releases :: r.dialogue != id
    ensures forall q, r | q in s.trail.releases && r in s.trail.releases ::
              q.dialogue == id && r.dialogue == id ==> q == r
    ensures s.trail.completions[id] <= s.trail.confirms[id]
  {
    var steps :| Runs(Start(now, limits), steps) && After(Start(now, limits), steps) == s;
    OutcomeAfterRun(Start(now, limits), steps);
    assert OneOutcome(s.trail, id);
  }

  /** A consumed token never acts again. It answers the confirmed action exactly when it is the confirm token
      presented in its own scope, by the update that won, while the dialogue is submitting; the action is
      then the one already released. Once the dialogue is finished it reports that, under the same
      condition, and otherwise it is refused. */
  lemma RecoveryIsExact(s: Sys, now: int, limits: Limits, token: TokenId, update: ReleasingUpdate, user: int,
                        chat: int, message: int)
    requires Reachable(s, now, limits)
    requires IsCallbackRow(s.db, token) && s.db.tokens[token].consumedAt.Some?
    ensures var t := s.db.tokens[token]; var id := t.authority.dialogue; var d := s.db.dialogues[id];
      var (after, answer) := ConsumeDecision(s.db, token, update, user, chat, message, s.now);
      var rightful := t.authority.action.Confirm? && t.message == Some(message)
                      && Scope(t.bot, t.user, t.chat) == Scope(d.bot, d.user, d.chat) == Scope(update.bot, user, chat)
                      && d.releasing == Some(update);
      && after == s.db
      && (answer.Confirmed? <==> rightful && d.step.Submitting? && d.lifecycle.Active?)
      && (answer.AlreadyCompleted? <==> rightful && d.step.Completed? && d.lifecycle.Finished?)
      && (!answer.Confirmed? && !answer.AlreadyCompleted? ==> answer == CallbackRefused(CallbackRefusal.Consumed))
      && (answer.Confirmed? ==> Release(id, update, answer.action) in s.trail.releases && s.trail.cancels[id] == 0)
  {
    var steps :| Runs(Start(now, limits), steps) && After(Start(now, limits), steps) == s;
    OutcomeAfterRun(Start(now, limits), steps);
    RecoveryAnswers(s, token, update, user, chat, message);
  }

  lemma RecoveryAnswers(s: Sys, token: TokenId, update: ReleasingUpdate, user: int, chat: int, message: int)
    requires OutcomeInv(s.db, s.trail)
    requires IsCallbackRow(s.db, token) && s.db.tokens[token].consumedAt.Some?
    ensures var t := s.db.tokens[token]; var id := t.authority.dialogue; var d := s.db.dialogues[id];
      var (after, answer) := ConsumeDecision(s.db, token, update, user, chat, message, s.now);
      var rightful := t.authority.action.Confirm? && t.message == Some(message)
                      && Scope(t.bot, t.user, t.chat) == Scope(d.bot, d.user, d.chat) == Scope(update.bot, user, chat)
                      && d.releasing == Some(update);
      && after == s.db
      && (answer.Confirmed? <==> rightful && d.step.Submitting? && d.lifecycle.Active?)
      && (answer.AlreadyCompleted? <==> rightful && d.step.Completed? && d.lifecycle.Finished?)
      && (!answer.Confirmed? && !answer.AlreadyCompleted? ==> answer == CallbackRefused(CallbackRefusal.Consumed))
      && (answer.Confirmed? ==> Release(id, update, answer.action) in s.trail.releases && s.trail.cancels[id] == 0)
  {
    var id := s.db.tokens[token].authority.dialogue;
    var d := s.db.dialogues[id];
    assert RowTells(s.trail, id, d) && OneOutcome(s.trail, id) && Released(s.trail, id, d);
    if d.releasing == Some(update) {
      var r :| r in s.trail.releases && r.dialogue == id;
      assert r == Release(id, update, ActionOf(id, d));
    }
  }
}
