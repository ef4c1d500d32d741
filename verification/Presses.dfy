/** Who may press a button, when, and with what answer; and that an acknowledged message makes its buttons
    work. */
module Presses {
  import opened Tables
  import opened OutboundQueue
  import opened Interaction
  import opened Acknowledgements
  import opened Delivery
  import opened Machine
  import opened QueueEffects
  import opened Leases
  import opened Outcomes
  import opened CleanupInvisible
  import opened Choices

  // ---------------------------------------------------------------- exactly who is answered

  /** The button is stored, unused, and stamped with the message it is pressed under, as is its dialogue. */
  predicate Stamped(db: Db, token: TokenId, id: DialogueId, message: int) {
    && token in db.tokens && db.tokens[token].consumedAt.None? && db.tokens[token].message == Some(message)
    && id in db.dialogues && db.dialogues[id].message == Some(message)
  }

  /** The dialogue stands open at this step and version. */
  predicate OpenAt(db: Db, id: DialogueId, step: Stage, version: nat) {
    && id in db.dialogues && db.dialogues[id].lifecycle.Active?
    && db.dialogues[id].step == step && db.dialogues[id].version == version
  }

  /** A press of the handed-out button `token` under `message`, by the owner of the offer and in time. */
  predicate RightfulPress(s: Sys, token: TokenId, scope: Scope, message: int, now: int) {
    && token in s.trail.panel.buttons
    && var id := s.trail.panel.buttons[token].dialogue;
       && id in s.trail.panel.offers
       && s.trail.panel.offers[id].scope == scope && now < s.trail.panel.offers[id].expiresAt
       && Stamped(s.db, token, id, message)
  }

  lemma PressValidity(s: Sys, token: TokenId, scope: Scope, message: int, step: Stage, version: nat, now: int)
    requires TablesOffered(s.db, s.trail.panel)
    ensures IsCallbackRow(s.db, token) && !Refuses(s.db, token, scope, message, step, version, now) <==>
      && RightfulPress(s, token, scope, message, now)
      && OpenAt(s.db, s.trail.panel.buttons[token].dialogue, step, version)
      && AuthorityOf(s.trail.panel.buttons[token]).version == version
  {
    if token in s.db.tokens { assert TokenOffered(s.trail.panel, token, s.db.tokens[token]); }
    if IsCallbackRow(s.db, token) { PressedButton(s.db, s.trail.panel, token); }
  }

  /** Exactly which presses select, in every reachable state: a mode button of a preview that stands open and
      unmoved, pressed by the owner of the offer, in time, once, under the message that button and preview
      carry. The selection is then of that button's mode. */
  lemma SelectionIsExact(s: Sys, now: int, limits: Limits, token: TokenId, scope: Scope, message: int)
    requires Reachable(s, now, limits)
    ensures var answer := Perform(s.db, SelectMode(token, scope, message), s.now).1;
      && (answer.Selected? <==>
            && RightfulPress(s, token, scope, message, s.now)
            && s.trail.panel.buttons[token].ModeButton?
            && OpenAt(s.db, s.trail.panel.buttons[token].dialogue, Stage.Preview, 0))
      && (answer.Selected? ==>
            var button := s.trail.panel.buttons[token];
            answer == Selected(button.dialogue, button.mode, s.db.nextToken, s.db.nextToken + 1))
  {
    ReachableChoices(s, now, limits);
    SelectionAnswer(s, token, scope, message, s.now);
  }

  lemma SelectionAnswer(s: Sys, token: TokenId, scope: Scope, message: int, now: int)
    requires TablesOffered(s.db, s.trail.panel)
    ensures var answer := ConsumeSelection(s.db, token, scope, message, now).1;
      && (answer.Selected? <==>
            && RightfulPress(s, token, scope, message, now)
            && s.trail.panel.buttons[token].ModeButton?
            && OpenAt(s.db, s.trail.panel.buttons[token].dialogue, Stage.Preview, 0))
      && (answer.Selected? ==>
            var button := s.trail.panel.buttons[token];
            answer == Selected(button.dialogue, button.mode, s.db.nextToken, s.db.nextToken + 1))
  {
    PressValidity(s, token, scope, message, Stage.Preview, 0, now);
    if Refuses(s.db, token, scope, message, Stage.Preview, 0, now) {
      RefusedSelection(s.db, token, scope, message, now);
    } else {
      SelectionEffect(s.db, token, scope, message, now);
      PressedButton(s.db, s.trail.panel, token);
      assert ButtonOffered(s.trail.panel, s.db.nextToken, token);
    }
  }

  /** Exactly which presses decide first: the confirm or cancel button of a dialogue that stands at its
      confirmation, pressed by the owner, in time, once, under the stamped message. Confirm confirms, and
      cancel cancels. */
  lemma DecisionIsExact(s: Sys, now: int, limits: Limits, token: TokenId, update: ReleasingUpdate, user: int, chat: int,
                        message: int)
    requires Reachable(s, now, limits)
    ensures var answer := Perform(s.db, Decide(token, update, user, chat, message), s.now).1;
      var rightful := RightfulPress(s, token, Scope(update.bot, user, chat), message, s.now)
                      && OpenAt(s.db, s.trail.panel.buttons[token].dialogue, Confirming, 1);
      && (answer.Confirmed? && answer.first <==> rightful && s.trail.panel.buttons[token].ConfirmButton?)
      && (answer.Cancelled? <==> rightful && s.trail.panel.buttons[token].CancelButton?)
      && (answer.Confirmed? && answer.first ==> answer.action.dialogue == s.trail.panel.buttons[token].dialogue)
      && (answer.Cancelled? ==> answer == Answer.Cancelled(s.trail.panel.buttons[token].dialogue))
  {
    ReachableChoices(s, now, limits);
    DecisionAnswer(s, token, update, user, chat, message, s.now);
  }

  lemma DecisionAnswer(s: Sys, token: TokenId, update: ReleasingUpdate, user: int, chat: int, message: int, now: int)
    requires TablesOffered(s.db, s.trail.panel)
    ensures var answer := ConsumeDecision(s.db, token, update, user, chat, message, now).1;
      var rightful := RightfulPress(s, token, Scope(update.bot, user, chat), message, now)
                      && OpenAt(s.db, s.trail.panel.buttons[token].dialogue, Confirming, 1);
      && (answer.Confirmed? && answer.first <==> rightful && s.trail.panel.buttons[token].ConfirmButton?)
      && (answer.Cancelled? <==> rightful && s.trail.panel.buttons[token].CancelButton?)
      && (answer.Confirmed? && answer.first ==> answer.action.dialogue == s.trail.panel.buttons[token].dialogue)
      && (answer.Cancelled? ==> answer == Answer.Cancelled(s.trail.panel.buttons[token].dialogue))
  {
    var scope := Scope(update.bot, user, chat);
    PressValidity(s, token, scope, message, Confirming, 1, now);
    if Refuses(s.db, token, scope, message, Confirming, 1, now) {
      RefusedDecision(s.db, token, update, user, chat, message, now);
    } else {
      DecisionEffect(s.db, token, update, user, chat, message, now);
      PressedButton(s.db, s.trail.panel, token);
      assert ButtonOffered(s.trail.panel, s.db.nextToken, token);
      assert RowOffered(s.trail.panel, s.db.tokens[token].authority.dialogue,
                        s.db.dialogues[s.db.tokens[token].authority.dialogue]);
    }
  }

  // ---------------------------------------------------------------- an acknowledged message

  /** An acknowledgement stamps the dialogue that its claim names, while it waits for a choice in the same bot
      and chat, and every unused token of its current version; it stamps nothing else. */
  lemma AckStamps(db: Db, c: Claimed, wire: JobKind, message: int, at: int)
    requires Owns(db.jobs, c.id, c.attempts)
    ensures RecordAck(db, c, wire, message, at).Ok?
    ensures var after := RecordAck(db, c, wire, message, at).value;
      var waits := c.dialogue.Some? && c.dialogue.value in db.dialogues
                   && db.dialogues[c.dialogue.value].bot == c.bot && db.dialogues[c.dialogue.value].chat == c.chat
                   && db.dialogues[c.dialogue.value].lifecycle.Active?
                   && (db.dialogues[c.dialogue.value].step.Preview? || db.dialogues[c.dialogue.value].step.Confirming?);
      && after.dialogues.Keys == db.dialogues.Keys && after.tokens.Keys == db.tokens.Keys
      && (forall id | id in db.dialogues ::
            after.dialogues[id] == if waits && c.dialogue == Some(id) then db.dialogues[id].(message := Some(message))
                                   else db.dialogues[id])
      && (forall t | t in db.tokens ::
            after.tokens[t] ==
              if waits && db.tokens[t].consumedAt.None? && db.tokens[t].authority.Callback?
                 && Some(db.tokens[t].authority.dialogue) == c.dialogue
                 && db.tokens[t].authority.version == db.dialogues[c.dialogue.value].version
              then db.tokens[t].(message := Some(message)) else db.tokens[t])
  {
    if c.dialogue.Some? { StampEffect(db, c.dialogue.value, c.bot, c.chat, message); }
  }

  /** The acknowledgement of a message that carries this button of a waiting dialogue. */
  predicate AckOfButton(s: Sys, w: WorkerId, replyLost: bool, token: TokenId, step: Stage, version: nat) {
    && Enabled(s, Acknowledge(w, replyLost))
    && var c := s.workers[w].claim;
       && Owns(s.db.jobs, c.id, c.attempts)
       && token in s.trail.panel.buttons && token in s.db.tokens && s.db.tokens[token].consumedAt.None?
       && var id := s.trail.panel.buttons[token].dialogue;
          && c.dialogue == Some(id) && OpenAt(s.db, id, step, version)
          && s.db.dialogues[id].bot == c.bot && s.db.dialogues[id].chat == c.chat
  }

  /** After such an acknowledgement, the owner's press under the acknowledged message is rightful for as long
      as nothing else happens and the offer lasts. */
  lemma AckMakesPressRightful(s: Sys, w: WorkerId, replyLost: bool, token: TokenId, step: Stage, version: nat, to: int, u: Sys)
    requires TablesOffered(s.db, s.trail.panel) && AckOfButton(s, w, replyLost, token, step, version)
    requires (step.Preview? || step.Confirming?) && AuthorityOf(s.trail.panel.buttons[token]).version == version
    requires u == AckStep(s, w, replyLost).(now := to)
    ensures var id := s.trail.panel.buttons[token].dialogue;
      && id in s.trail.panel.offers && u.trail == s.trail
      && OpenAt(u.db, id, step, version)
      && (to < s.trail.panel.offers[id].expiresAt ==>
            RightfulPress(u, token, s.trail.panel.offers[id].scope, s.workers[w].phase.message, to))
  {
    var c := s.workers[w].claim;
    var phase := s.workers[w].phase;
    AckStamps(s.db, c, MethodOf(phase.action), phase.message, phase.at);
    AckShape(s, w, replyLost);
    assert u.db == RecordAck(s.db, c, MethodOf(phase.action), phase.message, phase.at).value;
    assert TokenOffered(s.trail.panel, token, s.db.tokens[token]);
  }

  lemma AfterAck(s: Sys, now: int, limits: Limits, w: WorkerId, replyLost: bool, to: int, u: Sys)
    requires Reachable(s, now, limits) && Enabled(s, Acknowledge(w, replyLost)) && s.now <= to
    requires u == Next(Next(s, Acknowledge(w, replyLost)), Tick(to))
    ensures ChoiceInv(s.db, s.trail) && ChoiceInv(u.db, u.trail)
    ensures u == AckStep(s, w, replyLost).(now := to)
  {
    ReachableChoices(s, now, limits);
    ChoiceNext(s, Acknowledge(w, replyLost));
    ChoiceNext(Next(s, Acknowledge(w, replyLost)), Tick(to));
    AckShape(s, w, replyLost);
  }

  /** In every run: once Telegram's acknowledgement of a preview is recorded, the owner's press of any of its
      mode buttons under that message, before expiry, selects that mode. */
  lemma AcknowledgedPreviewCanBePressed(s: Sys, now: int, limits: Limits, w: WorkerId, replyLost: bool, token: TokenId,
                                        to: int, u: Sys)
    requires Reachable(s, now, limits) && AckOfButton(s, w, replyLost, token, Stage.Preview, 0)
    requires s.trail.panel.buttons[token].ModeButton?
    requires s.trail.panel.buttons[token].dialogue in s.trail.panel.offers
    requires s.now <= to < s.trail.panel.offers[s.trail.panel.buttons[token].dialogue].expiresAt
    requires u == Next(Next(s, Acknowledge(w, replyLost)), Tick(to))
    ensures var button := s.trail.panel.buttons[token];
      ConsumeSelection(u.db, token, s.trail.panel.offers[button.dialogue].scope, s.workers[w].phase.message, to).1
      == Selected(button.dialogue, button.mode, u.db.nextToken, u.db.nextToken + 1)
  {
    AfterAck(s, now, limits, w, replyLost, to, u);
    AckedPreviewPress(s, w, replyLost, token, to, u);
  }

  lemma AckedPreviewPress(s: Sys, w: WorkerId, replyLost: bool, token: TokenId, to: int, u: Sys)
    requires TablesOffered(s.db, s.trail.panel) && TablesOffered(u.db, u.trail.panel)
    requires AckOfButton(s, w, replyLost, token, Stage.Preview, 0) && u == AckStep(s, w, replyLost).(now := to)
    requires s.trail.panel.buttons[token].ModeButton?
    requires s.trail.panel.buttons[token].dialogue in s.trail.panel.offers
    requires to < s.trail.panel.offers[s.trail.panel.buttons[token].dialogue].expiresAt
    ensures var button := s.trail.panel.buttons[token];
      ConsumeSelection(u.db, token, s.trail.panel.offers[button.dialogue].scope, s.workers[w].phase.message, to).1
      == Selected(button.dialogue, button.mode, u.db.nextToken, u.db.nextToken + 1)
  {
    AckMakesPressRightful(s, w, replyLost, token, Stage.Preview, 0, to, u);
    SelectionAnswer(u, token, s.trail.panel.offers[s.trail.panel.buttons[token].dialogue].scope,
                    s.workers[w].phase.message, to);
  }

  /** And once that of a confirmation is recorded, the owner's press of its confirm button confirms, and of its
      cancel button cancels. */
  lemma AcknowledgedConfirmationCanBePressed(s: Sys, now: int, limits: Limits, w: WorkerId, replyLost: bool, token: TokenId,
                                             to: int, update: ReleasingUpdate, u: Sys)
    requires Reachable(s, now, limits) && AckOfButton(s, w, replyLost, token, Confirming, 1)
    requires !s.trail.panel.buttons[token].ModeButton?
    requires s.trail.panel.buttons[token].dialogue in s.trail.panel.offers
    requires s.now <= to < s.trail.panel.offers[s.trail.panel.buttons[token].dialogue].expiresAt
    requires update.bot == s.trail.panel.offers[s.trail.panel.buttons[token].dialogue].scope.bot
    requires u == Next(Next(s, Acknowledge(w, replyLost)), Tick(to))
    ensures var button := s.trail.panel.buttons[token]; var owner := s.trail.panel.offers[button.dialogue].scope;
      var answer := ConsumeDecision(u.db, token, update, owner.user, owner.chat, s.workers[w].phase.message, to).1;
      && (button.ConfirmButton? ==> answer.Confirmed? && answer.first && answer.action.dialogue == button.dialogue)
      && (button.CancelButton? ==> answer == Answer.Cancelled(button.dialogue))
  {
    AfterAck(s, now, limits, w, replyLost, to, u);
    AckedConfirmationPress(s, w, replyLost, token, to, update, u);
  }

  lemma AckedConfirmationPress(s: Sys, w: WorkerId, replyLost: bool, token: TokenId, to: int, update: ReleasingUpdate, u: Sys)
    requires TablesOffered(s.db, s.trail.panel) && TablesOffered(u.db, u.trail.panel)
    requires AckOfButton(s, w, replyLost, token, Confirming, 1) && u == AckStep(s, w, replyLost).(now := to)
    requires !s.trail.panel.buttons[token].ModeButton?
    requires s.trail.panel.buttons[token].dialogue in s.trail.panel.offers
    requires to < s.trail.panel.offers[s.trail.panel.buttons[token].dialogue].expiresAt
    requires update.bot == s.trail.panel.offers[s.trail.panel.buttons[token].dialogue].scope.bot
    ensures var button := s.trail.panel.buttons[token]; var owner := s.trail.panel.offers[button.dialogue].scope;
      var answer := ConsumeDecision(u.db, token, update, owner.user, owner.chat, s.workers[w].phase.message, to).1;
      && (button.ConfirmButton? ==> answer.Confirmed? && answer.first && answer.action.dialogue == button.dialogue)
      && (button.CancelButton? ==> answer == Answer.Cancelled(button.dialogue))
  {
    AckMakesPressRightful(s, w, replyLost, token, Confirming, 1, to, u);
    var owner := s.trail.panel.offers[s.trail.panel.buttons[token].dialogue].scope;
    DecisionAnswer(u, token, update, owner.user, owner.chat, s.workers[w].phase.message, to);
  }
}
