/** One dialogue from its preview to its result: every offered mode can be carried through, the generic step
    moves exactly what it may, and a late press ends the dialogue. */
module Dialogues {
  import opened Tables
  import opened OutboundQueue
  import opened Interaction
  import opened Delivery
  import opened Machine
  import opened Leases
  import opened Outcomes

  // ---------------------------------------------------------------- from the preview to the result

  /** The dialogue of this offer stands open at this step. */
  predicate Standing(db: Db, id: DialogueId, scope: Scope, offer: Offer, expiresAt: int, step: Stage, version: nat,
                     mode: Option<Capability>, message: Option<int>)
  {
    && id in db.dialogues
    && var d := db.dialogues[id];
       && Scope(d.bot, d.user, d.chat) == scope && d.target == offer.target && d.account == offer.account
       && d.expiresAt == expiresAt && d.step == step && d.version == version && d.mode == mode && d.message == message
       && d.lifecycle.Active? && d.releasing.None? && d.key == id
  }

  /** An unused button of the dialogue. */
  predicate Live(db: Db, token: TokenId, action: CallbackAction, id: DialogueId, version: nat, scope: Scope,
                 expiresAt: int, message: Option<int>)
  {
    && token in db.tokens
    && var t := db.tokens[token];
       && t.authority == Callback(action, id, version) && Scope(t.bot, t.user, t.chat) == scope
       && t.expiresAt == expiresAt && t.message == message && t.consumedAt.None?
  }

  lemma {:induction false} MintedButton(db: Db, id: DialogueId, scope: Scope, actions: seq<Capability>, now: int,
                                        expiresAt: int, i: nat)
    requires i < |actions|
    ensures var after := MintSelections(db, id, scope, actions, now, expiresAt);
      Live(after, db.nextToken + i, Select(actions[i]), id, 0, scope, expiresAt, None)
    decreases |actions|
  {
    var added := AddToken(db, CallbackToken(Select(actions[0]), id, 0, scope, now, expiresAt));
    if i == 0 {
      MintingLeaves(added, id, scope, actions[1..], now, expiresAt, db.nextToken);
    } else {
      MintedButton(added, id, scope, actions[1..], now, expiresAt, i - 1);
    }
  }

  lemma {:induction false} MintingLeaves(db: Db, id: DialogueId, scope: Scope, actions: seq<Capability>, now: int,
                                         expiresAt: int, t: TokenId)
    requires t < db.nextToken
    ensures var after := MintSelections(db, id, scope, actions, now, expiresAt);
      && after.dialogues == db.dialogues && after.nextToken == db.nextToken + |actions|
      && (t in db.tokens ==> t in after.tokens && after.tokens[t] == db.tokens[t])
    decreases |actions|
  {
    if actions == [] {
    } else {
      MintingLeaves(AddToken(db, CallbackToken(Select(actions[0]), id, 0, scope, now, expiresAt)), id, scope, actions[1..],
                    now, expiresAt, t);
    }
  }

  lemma PreviewStands(db: Db, scope: Scope, offer: Offer, now: int, expiresAt: int, i: nat)
    requires now < expiresAt && Unsupported !in offer.actions && i < |offer.actions|
    ensures var (after, answer) := CreatePreview(db, scope, offer, now, expiresAt);
      && answer == Created(db.nextDialogue, db.nextToken)
      && Standing(after, db.nextDialogue, scope, offer, expiresAt, Stage.Preview, 0, None, None)
      && Live(after, db.nextToken + i, Select(offer.actions[i]), db.nextDialogue, 0, scope, expiresAt, None)
  {
    var id := db.nextDialogue;
    var after := CreatePreview(db, scope, offer, now, expiresAt).0;
    var d := Dialogue(scope.bot, scope.user, scope.chat, None, Stage.Preview, 0, Active, offer.target, offer.account, None,
                      None, id, None, expiresAt, None);
    var db1 := db.(dialogues := db.dialogues[id := d], nextDialogue := id + 1);
    MintedButton(db1, id, scope, offer.actions, now, expiresAt, i);
    var next := AddToken(db1, CallbackToken(Select(offer.actions[0]), id, 0, scope, now, expiresAt));
    MintingLeaves(next, id, scope, offer.actions[1..], now, expiresAt, db.nextToken);
    assert after == MintSelections(next, id, scope, offer.actions[1..], now, expiresAt);
  }

  lemma StampedButton(db: Db, id: DialogueId, scope: Scope, offer: Offer, expiresAt: int, step: Stage, version: nat,
                      mode: Option<Capability>, token: TokenId, action: CallbackAction, message: int)
    requires Standing(db, id, scope, offer, expiresAt, step, version, mode, None)
    requires Live(db, token, action, id, version, scope, expiresAt, None) && (step.Preview? || step.Confirming?)
    ensures var (after, applied) := StampCallback(db, id, scope.bot, scope.chat, message);
      && applied && after.nextToken == db.nextToken
      && Standing(after, id, scope, offer, expiresAt, step, version, mode, Some(message))
      && Live(after, token, action, id, version, scope, expiresAt, Some(message))
  {
  }

  lemma SelectedButton(db: Db, id: DialogueId, scope: Scope, offer: Offer, expiresAt: int, token: TokenId,
                       mode: Capability, message: int, now: int)
    requires Standing(db, id, scope, offer, expiresAt, Stage.Preview, 0, None, Some(message)) && !mode.Unsupported?
    requires Live(db, token, Select(mode), id, 0, scope, expiresAt, Some(message)) && now < expiresAt
    requires token < db.nextToken
    ensures var (after, answer) := ConsumeSelection(db, token, scope, message, now);
      && answer == Selected(id, mode, db.nextToken, db.nextToken + 1)
      && Standing(after, id, scope, offer, expiresAt, Confirming, 1, Some(mode), None)
      && Live(after, db.nextToken, Confirm, id, 1, scope, expiresAt, None)
      && Live(after, db.nextToken + 1, Cancel, id, 1, scope, expiresAt, None)
      && after.tokens[token].consumedAt == Some(now)
  {
  }

  /** Confirming releases the action and leaves the dialogue to its update; cancelling ends it. */
  lemma DecidedButton(db: Db, id: DialogueId, scope: Scope, offer: Offer, expiresAt: int, token: TokenId,
                      action: CallbackAction, mode: Capability, update: ReleasingUpdate, message: int, now: int)
    requires Standing(db, id, scope, offer, expiresAt, Confirming, 1, Some(mode), Some(message)) && now < expiresAt
    requires Live(db, token, action, id, 1, scope, expiresAt, Some(message)) && !action.Select? && update.bot == scope.bot
    ensures var (after, answer) := ConsumeDecision(db, token, update, scope.user, scope.chat, message, now);
      && id in after.dialogues && token in after.tokens && after.tokens[token].consumedAt == Some(now)
      && var d := after.dialogues[id];
         && Scope(d.bot, d.user, d.chat) == scope && d.version == 2 && d.message.None?
         && if action.Confirm? then
              && answer == Confirmed(ConfirmedAction(id, mode, offer.target, if mode.Star? then offer.account else None, id), true)
              && d.lifecycle.Active? && d.step.Submitting? && d.releasing == Some(update)
            else answer == Answer.Cancelled(id) && d.lifecycle.Cancelled? && d.terminalAt == Some(now)
  {
  }

  lemma CompletedDialogue(db: Db, id: DialogueId, update: ReleasingUpdate, result: Option<Uuid>, job: NewJob, now: int)
    requires id in db.dialogues && db.dialogues[id].lifecycle.Active? && db.dialogues[id].step.Submitting?
    requires db.dialogues[id].releasing == Some(update) && job.kind.SendMessage? && job.dialogue == Some(id)
    requires job.bot == db.dialogues[id].bot && job.chat == db.dialogues[id].chat && job.operation.None? && job.revision.None?
    ensures var (after, answer) := CompleteDialogue(db, id, update, result, job, now);
      && answer.Finished? && id in after.dialogues && after.dialogues[id].lifecycle.Finished?
      && after.dialogues[id].terminalAt == Some(now) && after.dialogues[id].version == db.dialogues[id].version + 1
      && (result.Some? ==> after.dialogues[id].result == result)
      && db.nextJob in after.jobs && after.jobs[db.nextJob].chat == job.chat && after.jobs[db.nextJob].dialogue == Some(id)
  {
  }

  /** When the steps of one dialogue come. */
  datatype Times = Times(shown: int, selected: int, decided: int, completed: int)

  /** The tables after each step of a dialogue that nothing disturbs. */
  datatype Course = Course(shown: Db, stamped: Db, selected: Db, restamped: Db, decided: Db, completed: Db)

  predicate IsCourse(db: Db, scope: Scope, offer: Offer, expiresAt: int, i: nat, preview: int, confirmation: int,
                     update: ReleasingUpdate, result: Option<Uuid>, job: NewJob, at: Times, run: Course)
  {
    var id := db.nextDialogue;
    && run.shown == CreatePreview(db, scope, offer, at.shown, expiresAt).0
    && run.stamped == StampCallback(run.shown, id, scope.bot, scope.chat, preview).0
    && run.selected == ConsumeSelection(run.stamped, db.nextToken + i, scope, preview, at.selected).0
    && run.restamped == StampCallback(run.selected, id, scope.bot, scope.chat, confirmation).0
    && run.decided == ConsumeDecision(run.restamped, run.stamped.nextToken, update, scope.user, scope.chat, confirmation,
                                      at.decided).0
    && run.completed == CompleteDialogue(run.decided, id, update, result, job, at.completed).0
  }

  lemma NextTokenAfterMint(db: Db, id: DialogueId, scope: Scope, actions: seq<Capability>, now: int, expiresAt: int)
    ensures MintSelections(db, id, scope, actions, now, expiresAt).nextToken == db.nextToken + |actions|
    decreases |actions|
  {
    if actions != [] {
      NextTokenAfterMint(AddToken(db, CallbackToken(Select(actions[0]), id, 0, scope, now, expiresAt)), id, scope,
                         actions[1..], now, expiresAt);
    }
  }

  /** Every offered mode can be carried through: the owner who presses its button under the acknowledged
      preview, and then the confirm button under the acknowledged confirmation, both before expiry, releases
      exactly the offered action, with the account for a star alone, and completing it finishes the dialogue
      with its result. */
  lemma EveryModeCanBeCarriedThrough(db: Db, scope: Scope, offer: Offer, expiresAt: int, i: nat, preview: int,
                                     confirmation: int, update: ReleasingUpdate, result: Option<Uuid>, job: NewJob,
                                     at: Times, run: Course)
    requires IsCourse(db, scope, offer, expiresAt, i, preview, confirmation, update, result, job, at, run)
    requires Unsupported !in offer.actions && i < |offer.actions| && update.bot == scope.bot
    requires at.shown < expiresAt && at.selected < expiresAt && at.decided < expiresAt
    requires job.bot == scope.bot && job.chat == scope.chat && job.kind.SendMessage? && job.operation.None?
    requires job.revision.None? && job.dialogue == Some(db.nextDialogue)
    ensures var id := db.nextDialogue; var mode := offer.actions[i];
      && CreatePreview(db, scope, offer, at.shown, expiresAt).1 == Created(id, db.nextToken)
      && ConsumeSelection(run.stamped, db.nextToken + i, scope, preview, at.selected).1
         == Selected(id, mode, run.stamped.nextToken, run.stamped.nextToken + 1)
      && ConsumeDecision(run.restamped, run.stamped.nextToken, update, scope.user, scope.chat, confirmation, at.decided).1
         == Confirmed(ConfirmedAction(id, mode, offer.target, if mode.Star? then offer.account else None, id), true)
      && CompleteDialogue(run.decided, id, update, result, job, at.completed).1 == Answer.Finished
      && id in run.completed.dialogues && run.completed.dialogues[id].lifecycle.Finished?
      && (result.Some? ==> run.completed.dialogues[id].result == result)
  {
    var id := db.nextDialogue; var mode := offer.actions[i];
    CarriedToConfirmation(db, scope, offer, expiresAt, i, preview, at, run.shown, run.stamped);
    CarriedToResult(run.selected, id, scope, offer, expiresAt, run.stamped.nextToken, mode, confirmation, update, result, job,
                    at);
  }

  lemma CarriedToConfirmation(db: Db, scope: Scope, offer: Offer, expiresAt: int, i: nat, preview: int, at: Times,
                              shown: Db, stamped: Db)
    requires shown == CreatePreview(db, scope, offer, at.shown, expiresAt).0
    requires stamped == StampCallback(shown, db.nextDialogue, scope.bot, scope.chat, preview).0
    requires Unsupported !in offer.actions && i < |offer.actions| && at.shown < expiresAt && at.selected < expiresAt
    ensures var id := db.nextDialogue; var mode := offer.actions[i];
      var (selected, answer) := ConsumeSelection(stamped, db.nextToken + i, scope, preview, at.selected);
      && CreatePreview(db, scope, offer, at.shown, expiresAt).1 == Created(id, db.nextToken)
      && answer == Selected(id, mode, stamped.nextToken, stamped.nextToken + 1)
      && Standing(selected, id, scope, offer, expiresAt, Confirming, 1, Some(mode), None)
      && Live(selected, stamped.nextToken, Confirm, id, 1, scope, expiresAt, None)
  {
    var id := db.nextDialogue; var mode := offer.actions[i]; var token := db.nextToken + i;
    PreviewStands(db, scope, offer, at.shown, expiresAt, i);
    ButtonsAreBelow(db, scope, offer, at.shown, expiresAt);
    StampedButton(shown, id, scope, offer, expiresAt, Stage.Preview, 0, None, token, Select(mode), preview);
    SelectedButton(stamped, id, scope, offer, expiresAt, token, mode, preview, at.selected);
  }

  lemma CarriedToResult(db: Db, id: DialogueId, scope: Scope, offer: Offer, expiresAt: int, token: TokenId,
                        mode: Capability, confirmation: int, update: ReleasingUpdate, result: Option<Uuid>, job: NewJob,
                        at: Times)
    requires Standing(db, id, scope, offer, expiresAt, Confirming, 1, Some(mode), None)
    requires Live(db, token, Confirm, id, 1, scope, expiresAt, None) && at.decided < expiresAt && update.bot == scope.bot
    requires job.bot == scope.bot && job.chat == scope.chat && job.kind.SendMessage? && job.operation.None?
    requires job.revision.None? && job.dialogue == Some(id)
    ensures var stamped := StampCallback(db, id, scope.bot, scope.chat, confirmation).0;
      var (decided, answer) := ConsumeDecision(stamped, token, update, scope.user, scope.chat, confirmation, at.decided);
      var (completed, last) := CompleteDialogue(decided, id, update, result, job, at.completed);
      && answer == Confirmed(ConfirmedAction(id, mode, offer.target, if mode.Star? then offer.account else None, id), true)
      && last == Answer.Finished && id in completed.dialogues && completed.dialogues[id].lifecycle.Finished?
      && (result.Some? ==> completed.dialogues[id].result == result)
  {
    var stamped := StampCallback(db, id, scope.bot, scope.chat, confirmation).0;
    StampedButton(db, id, scope, offer, expiresAt, Confirming, 1, Some(mode), token, Confirm, confirmation);
    DecidedButton(stamped, id, scope, offer, expiresAt, token, Confirm, mode, update, confirmation, at.decided);
    CompletedDialogue(ConsumeDecision(stamped, token, update, scope.user, scope.chat, confirmation, at.decided).0, id,
                      update, result, job, at.completed);
  }

  lemma ButtonsAreBelow(db: Db, scope: Scope, offer: Offer, now: int, expiresAt: int)
    requires now < expiresAt && Unsupported !in offer.actions
    ensures CreatePreview(db, scope, offer, now, expiresAt).0.nextToken == db.nextToken + |offer.actions|
  {
    var id := db.nextDialogue;
    var d := Dialogue(scope.bot, scope.user, scope.chat, None, Stage.Preview, 0, Active, offer.target, offer.account, None,
                      None, id, None, expiresAt, None);
    NextTokenAfterMint(db.(dialogues := db.dialogues[id := d], nextDialogue := id + 1), id, scope, offer.actions, now,
                       expiresAt);
  }

  // ---------------------------------------------------------------- the generic step

  /** In every reachable state the generic step moves a dialogue exactly when its owner names the step and
      version it stands at, in time, and the step keeps to the same side of the confirmation: to and fro
      between preview and confirmation, or in place once it is submitting. Anything else moves nothing, except
      that a step taken too late ends an active dialogue as expired. */
  lemma TransitionIsExact(s: Sys, now: int, limits: Limits, id: DialogueId, scope: Scope, step: Stage, version: nat,
                          target: Stage)
    requires Reachable(s, now, limits)
    ensures var (after, answer) := Perform(s.db, Move(id, scope, step, version, target), s.now);
      TransitionAnswer(s.db, after, answer, id, scope, step, version, target, s.now)
  {
    var steps :| Runs(Start(now, limits), steps) && After(Start(now, limits), steps) == s;
    OutcomeAfterRun(Start(now, limits), steps);
    TransitionOf(s, id, scope, step, version, target);
  }

  predicate Steps(step: Stage, target: Stage) {
    match step
    case Submitting => target.Submitting?
    case Completed => false
    case _ => target.Preview? || target.Confirming?
  }

  predicate TransitionAnswer(before: Db, after: Db, answer: Answer, id: DialogueId, scope: Scope, step: Stage, version: nat,
                             target: Stage, now: int)
  {
    if id !in before.dialogues then after == before && answer == DialogueRefused(NotFound)
    else
      var d := before.dialogues[id];
      var owned := Scope(d.bot, d.user, d.chat) == scope;
      var late := owned && d.lifecycle.Active? && d.expiresAt <= now;
      var stands := owned && !late && d.lifecycle.Active? && d.step == step && d.version == version;
      && (answer.Transitioned? <==> stands && Steps(step, target))
      && (answer == DialogueRefused(DialogueRefusal.Expired) <==> late)
      && (answer == DialogueRefused(DialogueRefusal.ScopeMismatch) <==> !owned)
      && (answer == DialogueRefused(Terminal) <==> owned && !d.lifecycle.Active?)
      && (answer == DialogueRefused(DialogueRefusal.StaleState) <==> owned && !late && d.lifecycle.Active? && !stands)
      && id in after.dialogues && after == before.(dialogues := before.dialogues[id := after.dialogues[id]])
      && (if stands && Steps(step, target) then
            answer == Transitioned(version + 1) && after.dialogues[id] == d.(step := target, version := version + 1)
          else if late then
            after.dialogues[id] == d.(lifecycle := Lifecycle.Expired, terminalAt := Some(now), version := d.version + 1)
          else after.dialogues[id] == d)
  }

  lemma TransitionOf(s: Sys, id: DialogueId, scope: Scope, step: Stage, version: nat, target: Stage)
    requires OutcomeInv(s.db, s.trail)
    ensures var (after, answer) := Perform(s.db, Move(id, scope, step, version, target), s.now);
      TransitionAnswer(s.db, after, answer, id, scope, step, version, target, s.now)
  {
    if id in s.db.dialogues {
      assert RowTells(s.trail, id, s.db.dialogues[id]);
      assert s.db.dialogues[id := s.db.dialogues[id]] == s.db.dialogues;
    }
  }

  // ---------------------------------------------------------------- previews and completions

  /** A preview is shown exactly when it expires later and advertises only known actions; otherwise nothing is
      stored. */
  lemma PreviewIsExact(db: Db, scope: Scope, offer: Offer, now: int, expiresAt: int)
    ensures var (after, answer) := CreatePreview(db, scope, offer, now, expiresAt);
      && (answer.Created? <==> now < expiresAt && Unsupported !in offer.actions)
      && (!answer.Created? ==> after == db)
  {
  }

  /** The job that may carry the result of a dialogue: a message to its chat, of its bot, that names it. */
  predicate CarriesResult(d: Dialogue, id: DialogueId, job: NewJob) {
    && job.kind == SendMessage && job.bot == d.bot && job.chat == d.chat && job.dialogue == Some(id)
    && job.operation == None && job.revision == None
  }

  /** In every reachable state a completion finishes exactly a confirmed dialogue that was released to the
      completing update, is not finished yet and is given its own result job; asked again by that update it
      only says so; and whatever does not finish changes nothing. */
  lemma CompletionIsExact(s: Sys, now: int, limits: Limits, id: DialogueId, update: ReleasingUpdate, result: Option<Uuid>,
                          job: NewJob)
    requires Reachable(s, now, limits)
    ensures var (after, answer) := Perform(s.db, Complete(id, update, result, job), s.now);
      CompletionAnswer(s.db, after, answer, id, update, job)
  {
    var steps :| Runs(Start(now, limits), steps) && After(Start(now, limits), steps) == s;
    OutcomeAfterRun(Start(now, limits), steps);
    CompletionOf(s, id, update, result, job);
  }

  predicate CompletionAnswer(before: Db, after: Db, answer: Answer, id: DialogueId, update: ReleasingUpdate, job: NewJob) {
    var released := id in before.dialogues && before.dialogues[id].releasing == Some(update);
    && (answer.Finished? <==>
          released && before.dialogues[id].step.Submitting? && before.dialogues[id].lifecycle.Active?
          && CarriesResult(before.dialogues[id], id, job))
    && (answer.AlreadyCompleted? <==> released && before.dialogues[id].lifecycle.Finished?)
    && (!answer.Finished? ==> after == before)
  }

  lemma CompletionOf(s: Sys, id: DialogueId, update: ReleasingUpdate, result: Option<Uuid>, job: NewJob)
    requires OutcomeInv(s.db, s.trail)
    ensures var (after, answer) := Perform(s.db, Complete(id, update, result, job), s.now);
      CompletionAnswer(s.db, after, answer, id, update, job)
  {
    if id in s.db.dialogues { assert RowTells(s.trail, id, s.db.dialogues[id]); }
  }

  // ---------------------------------------------------------------- refused presses

  /** Why a press is refused, in the order in which the reasons are looked for; a press that comes after the
      dialogue's expiry also ends it, and every other refusal leaves everything as it was. */
  predicate RefusedFor(before: Db, after: Db, answer: Answer, token: TokenId, now: int) {
    if token !in before.tokens || !before.tokens[token].authority.Callback?
       || before.tokens[token].authority.dialogue !in before.dialogues
    then answer == CallbackRefused(CallbackRefusal.Invalid) && after == before
    else
      var t := before.tokens[token];
      var d := before.dialogues[t.authority.dialogue];
      if t.consumedAt.Some? then answer == CallbackRefused(CallbackRefusal.Consumed) && after == before
      else if d.expiresAt <= now then
        && answer == CallbackRefused(CallbackRefusal.Expired)
        && after == before.(dialogues := before.dialogues[t.authority.dialogue :=
             if d.lifecycle.Active?
             then d.(lifecycle := Lifecycle.Expired, terminalAt := Some(now), version := d.version + 1) else d])
      else if t.expiresAt <= now then answer == CallbackRefused(CallbackRefusal.Expired) && after == before
      else answer == CallbackRefused(CallbackRefusal.Invalid) && after == before
  }

  /** Every refused press of a selection is refused for the first reason that applies. */
  lemma SelectionRefusals(db: Db, token: TokenId, scope: Scope, message: int, now: int)
    ensures var (after, answer) := ConsumeSelection(db, token, scope, message, now);
      answer.CallbackRefused? ==> RefusedFor(db, after, answer, token, now)
  {
    SameRow(db, token);
  }

  lemma SameRow(db: Db, token: TokenId)
    ensures IsCallbackRow(db, token) ==>
      var id := db.tokens[token].authority.dialogue; db.dialogues[id := db.dialogues[id]] == db.dialogues
  {
  }

  /** And so is every refused press of a decision that was not pressed before. */
  lemma DecisionRefusals(db: Db, token: TokenId, update: ReleasingUpdate, user: int, chat: int, message: int, now: int)
    ensures var (after, answer) := ConsumeDecision(db, token, update, user, chat, message, now);
      answer.CallbackRefused? ==> RefusedFor(db, after, answer, token, now)
  {
    SameRow(db, token);
  }
}
