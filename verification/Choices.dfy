/** What a dialogue releases is what its owner was offered and picked, and who may press its buttons. */
module Choices {
  import opened Tables
  import opened OutboundQueue
  import opened Interaction
  import opened Acknowledgements
  import opened CaptureProjection
  import opened Cleanup
  import opened Delivery
  import opened Machine
  import opened QueueEffects
  import opened Leases
  import opened Outcomes
  import opened CleanupInvisible

  // ---------------------------------------------------------------- the invariant

  /** A dialogue row holds the offer it was made for, and the mode that was picked. */
  predicate RowOffered(panel: Panel, id: DialogueId, d: Dialogue) {
    && id in panel.offers
    && Scope(d.bot, d.user, d.chat) == panel.offers[id].scope
    && d.target == panel.offers[id].preview.target && d.account == panel.offers[id].preview.account
    && d.expiresAt == panel.offers[id].expiresAt && d.key == id
    && d.mode == if id in panel.picks then Some(panel.picks[id]) else None
  }

  function AuthorityOf(button: Button): Authority {
    match button
    case ModeButton(id, mode) => Callback(Select(mode), id, 0)
    case ConfirmButton(id) => Callback(Confirm, id, 1)
    case CancelButton(id) => Callback(Cancel, id, 1)
  }

  /** The callback tokens are the buttons that were handed out, for the owner of the offer. */
  predicate TokenOffered(panel: Panel, t: TokenId, token: Token) {
    if !token.authority.Callback? then t !in panel.buttons
    else
      && t in panel.buttons && token.authority == AuthorityOf(panel.buttons[t])
      && panel.buttons[t].dialogue in panel.offers
      && Scope(token.bot, token.user, token.chat) == panel.offers[panel.buttons[t].dialogue].scope
      && token.expiresAt == panel.offers[panel.buttons[t].dialogue].expiresAt
  }

  /** Buttons to decide exist only for dialogues whose mode was picked. */
  predicate ButtonOffered(panel: Panel, nextToken: TokenId, t: TokenId)
    requires t in panel.buttons
  {
    && t < nextToken
    && (panel.buttons[t].ModeButton? ==> !panel.buttons[t].mode.Unsupported?)
    && (!panel.buttons[t].ModeButton? ==> panel.buttons[t].dialogue in panel.picks)
  }

  /** What was released is what was offered and picked. */
  predicate ReleaseOffered(panel: Panel, r: Release) {
    && r.dialogue in panel.offers && r.dialogue in panel.picks
    && r.action.dialogue == r.dialogue && r.action.key == r.dialogue
    && r.action.mode == panel.picks[r.dialogue]
    && r.action.target == panel.offers[r.dialogue].preview.target
    && r.action.account == (if r.action.mode == Star then panel.offers[r.dialogue].preview.account else None)
  }

  ghost predicate TablesOffered(db: Db, panel: Panel) {
    && (forall id | id in db.dialogues :: RowOffered(panel, id, db.dialogues[id]))
    && (forall t | t in db.tokens :: t < db.nextToken && TokenOffered(panel, t, db.tokens[t]))
    && (forall t | t in panel.buttons :: ButtonOffered(panel, db.nextToken, t))
    && (forall id | id in panel.offers :: id < db.nextDialogue)
    && (forall id | id in panel.picks :: id in panel.offers)
  }

  ghost predicate ChoiceInv(db: Db, trail: Trail) {
    && OutcomeInv(db, trail)
    && TablesOffered(db, trail.panel)
    && (forall r | r in trail.releases :: ReleaseOffered(trail.panel, r))
    && (forall id | id in trail.panel.picks :: trail.selections[id] >= 1)
  }

  // ---------------------------------------------------------------- steps that hand out nothing

  predicate SameFacts(d: Dialogue, e: Dialogue) {
    && e.bot == d.bot && e.user == d.user && e.chat == d.chat && e.target == d.target && e.account == d.account
    && e.expiresAt == d.expiresAt && e.key == d.key && e.mode == d.mode
  }

  predicate SameAuthority(t: Token, u: Token) {
    u.authority == t.authority && u.bot == t.bot && u.user == t.user && u.chat == t.chat && u.expiresAt == t.expiresAt
  }

  /** Dialogues keep their facts, callback tokens their authority, and new tokens are no callbacks. */
  ghost predicate HandsOutNothing(db: Db, after: Db) {
    && after.nextDialogue == db.nextDialogue && db.nextToken <= after.nextToken
    && (forall id | id in after.dialogues ::
          id in db.dialogues && SameFacts(db.dialogues[id], after.dialogues[id]))
    && (forall t | t in after.tokens ::
          || (t in db.tokens && SameAuthority(db.tokens[t], after.tokens[t]))
          || (db.nextToken <= t < after.nextToken && !after.tokens[t].authority.Callback?))
  }

  lemma NothingHandedOut(db: Db, after: Db, panel: Panel)
    requires TablesOffered(db, panel) && HandsOutNothing(db, after)
    ensures TablesOffered(after, panel)
  {
    forall id | id in after.dialogues ensures RowOffered(panel, id, after.dialogues[id]) {
      assert RowOffered(panel, id, db.dialogues[id]);
    }
    forall t | t in after.tokens ensures t < after.nextToken && TokenOffered(panel, t, after.tokens[t]) {
      if t in db.tokens { assert TokenOffered(panel, t, db.tokens[t]); }
      if t in panel.buttons { assert ButtonOffered(panel, db.nextToken, t); }
    }
    forall t | t in panel.buttons ensures ButtonOffered(panel, after.nextToken, t) {
      assert ButtonOffered(panel, db.nextToken, t);
    }
  }

  lemma StampHandsOutNothing(db: Db, id: DialogueId, bot: int, chat: int, message: int)
    requires forall t | t in db.tokens :: t < db.nextToken
    ensures HandsOutNothing(db, StampCallback(db, id, bot, chat, message).0)
  {
  }

  lemma MoveHandsOutNothing(db: Db, id: DialogueId, scope: Scope, step: Stage, version: nat, next: Stage, now: int)
    requires forall t | t in db.tokens :: t < db.nextToken
    ensures HandsOutNothing(db, Transition(db, id, scope, step, version, next, now).0)
  {
    if id in db.dialogues {
      var d := db.dialogues[id];
      RewriteHandsOutNothing(db, id, d.(step := next, version := d.version + 1));
      RewriteHandsOutNothing(db, id, ExpiredDialogue(d, now));
    }
    MoveRewrites(db, id, scope, step, version, next, now);
  }

  lemma RewriteHandsOutNothing(db: Db, id: DialogueId, e: Dialogue)
    requires id in db.dialogues && SameFacts(db.dialogues[id], e) && forall t | t in db.tokens :: t < db.nextToken
    ensures HandsOutNothing(db, db) && HandsOutNothing(db, db.(dialogues := db.dialogues[id := e]))
  {
  }

  lemma MoveRewrites(db: Db, id: DialogueId, scope: Scope, step: Stage, version: nat, next: Stage, now: int)
    ensures var after := Transition(db, id, scope, step, version, next, now).0;
      after == db
      || (id in db.dialogues
          && (var d := db.dialogues[id];
              || after == db.(dialogues := db.dialogues[id := d.(step := next, version := d.version + 1)])
              || after == db.(dialogues := db.dialogues[id := ExpiredDialogue(d, now)])))
  {
  }

  lemma CompleteHandsOutNothing(db: Db, id: DialogueId, update: ReleasingUpdate, result: Option<Uuid>, job: NewJob, now: int)
    requires forall t | t in db.tokens :: t < db.nextToken
    ensures HandsOutNothing(db, CompleteDialogue(db, id, update, result, job, now).0)
  {
  }

  lemma RefuseHandsOutNothing(db: Db, id: DialogueId, refusal: CallbackRefusal, now: int)
    requires id in db.dialogues && forall t | t in db.tokens :: t < db.nextToken
    ensures HandsOutNothing(db, Refuse(db, id, refusal, now).0)
  {
  }

  lemma ConsumeHandsOutNothing(db: Db, token: TokenId, now: int, id: DialogueId, e: Dialogue)
    requires token in db.tokens && id in db.dialogues && SameFacts(db.dialogues[id], e)
    requires forall t | t in db.tokens :: t < db.nextToken
    ensures HandsOutNothing(db, Consume(db, token, now))
    ensures HandsOutNothing(db, Consume(db, token, now).(dialogues := db.dialogues[id := e]))
  {
  }

  lemma DecideHandsOutNothing(db: Db, token: TokenId, update: ReleasingUpdate, user: int, chat: int, message: int, now: int)
    requires forall t | t in db.tokens :: t < db.nextToken
    ensures HandsOutNothing(db, ConsumeDecision(db, token, update, user, chat, message, now).0)
  {
    if Refuses(db, token, Scope(update.bot, user, chat), message, Confirming, 1, now) {
      RefusedDecision(db, token, update, user, chat, message, now);
      if IsCallbackRow(db, token) {
        RefuseHandsOutNothing(db, db.tokens[token].authority.dialogue, CallbackRefusal.Expired, now);
      }
    } else {
      DecisionEffect(db, token, update, user, chat, message, now);
      var id := db.tokens[token].authority.dialogue;
      var row := DecidedRow(db.dialogues[id], db.tokens[token].authority.action, update, now);
      if row.Some? { ConsumeHandsOutNothing(db, token, now, id, row.value); }
    }
  }

  lemma CleanupHandsOutNothing(db: Db, now: int, before: int, limit: nat)
    requires forall t | t in db.tokens :: t < db.nextToken
    ensures HandsOutNothing(db, CleanupPass(db, now, before, limit).0)
  {
  }

  lemma AddLinkHandsOutNothing(db: Db, token: Token)
    requires !token.authority.Callback? && forall t | t in db.tokens :: t < db.nextToken
    ensures HandsOutNothing(db, AddToken(db, token)) && forall t | t in AddToken(db, token).tokens :: t < db.nextToken + 1
  {
  }

  lemma {:induction false} ReadsHandOutNothing(db: Db, intents: seq<LibraryIntent>, now: int)
    requires forall t | t in db.tokens :: t < db.nextToken
    ensures HandsOutNothing(db, MintLibraryReads(db, intents, now))
    decreases |intents|
  {
    if intents == [] {
    } else {
      AddLinkHandsOutNothing(db, LibraryToken(intents[0], now));
      ReadsHandOutNothing(AddToken(db, LibraryToken(intents[0], now)), intents[1..], now);
    }
  }

  lemma EnsuredLink(db: Db, intent: OperationIntent, now: int)
    ensures var after := EnsureLink(db, intent, now);
      after == db || after == AddToken(db, DeepLinkToken(intent, now))
  {
  }

  lemma EnsuredAck(db: Db, intent: OperationIntent, ack: NewJob, now: int)
    requires IntentKey(intent) in db.bindings
    ensures var after := EnsureAck(db, intent, ack, now);
      after == db.(jobs := after.jobs, nextJob := after.nextJob)
  {
  }

  lemma CaptureAddsAtMostOneLink(db: Db, intent: OperationIntent, ack: NewJob, now: int)
    ensures var after := RecordCapture(db, intent, ack, now).0;
      && after.dialogues == db.dialogues && after.nextDialogue == db.nextDialogue
      && (|| (after.tokens == db.tokens && after.nextToken == db.nextToken)
          || (after.tokens == db.tokens[db.nextToken := DeepLinkToken(intent, now)]
              && after.nextToken == db.nextToken + 1))
  {
    var bound := EnsureBinding(db, IntentKey(intent), intent.scope.bot);
    EnsuredLink(bound, intent, now);
    EnsuredAck(EnsureLink(bound, intent, now), intent, ack, now);
  }

  lemma LinkTables(db: Db, after: Db, token: Token)
    requires !token.authority.Callback? && forall t | t in db.tokens :: t < db.nextToken
    requires after.dialogues == db.dialogues && after.nextDialogue == db.nextDialogue
    requires || (after.tokens == db.tokens && after.nextToken == db.nextToken)
             || (after.tokens == db.tokens[db.nextToken := token] && after.nextToken == db.nextToken + 1)
    ensures HandsOutNothing(db, after)
  {
  }

  lemma CaptureHandsOutNothing(db: Db, intent: OperationIntent, ack: NewJob, now: int)
    requires forall t | t in db.tokens :: t < db.nextToken
    ensures HandsOutNothing(db, RecordCapture(db, intent, ack, now).0)
  {
    CaptureAddsAtMostOneLink(db, intent, ack, now);
    LinkTables(db, RecordCapture(db, intent, ack, now).0, DeepLinkToken(intent, now));
  }

  lemma UseHandsOutNothing(db: Db, token: TokenId, now: int)
    requires token in db.tokens && forall t | t in db.tokens :: t < db.nextToken
    ensures HandsOutNothing(db, Consume(db, token, now))
  {
  }

  lemma LinkHandsOutNothing(db: Db, command: Command, now: int)
    requires LinkCommand(command) && forall t | t in db.tokens :: t < db.nextToken
    ensures HandsOutNothing(db, Perform(db, command, now).0)
  {
    match command
    case IssueReads(intents, _) => ReadsHandOutNothing(db, intents, now);
    case OpenLink(token, surface, scope, message) =>
      LinkEffect(db, token, surface, scope, message, now);
      if token in db.tokens { UseHandsOutNothing(db, token, now); }
    case ReadLibrary(token, scope, user) =>
      ReadEffect(db, token, scope, user, now);
      if token in db.tokens { UseHandsOutNothing(db, token, now); }
    case IssueLink(intent) => AddLinkHandsOutNothing(db, DeepLinkToken(intent, now));
    case Capture(intent, ack) => CaptureHandsOutNothing(db, intent, ack, now);
  }

  // ---------------------------------------------------------------- previews and selections

  lemma {:induction false} MintedButtons(db: Db, panel: Panel, id: DialogueId, scope: Scope, actions: seq<Capability>,
                                         now: int, expiresAt: int, first: TokenId)
    requires TablesOffered(db, panel) && db.nextToken == first && Unsupported !in actions
    requires id in panel.offers && panel.offers[id].scope == scope && panel.offers[id].expiresAt == expiresAt
    ensures TablesOffered(MintSelections(db, id, scope, actions, now, expiresAt),
                          panel.(buttons := ModeButtons(panel.buttons, id, first, actions)))
    decreases |actions|
  {
    if actions == [] {
    } else {
      var token := CallbackToken(Select(actions[0]), id, 0, scope, now, expiresAt);
      var more := panel.(buttons := panel.buttons[first := ModeButton(id, actions[0])]);
      OneMoreButton(db, panel, token, ModeButton(id, actions[0]));
      MintedButtons(AddToken(db, token), more, id, scope, actions[1..], now, expiresAt, first + 1);
    }
  }

  lemma OneMoreButton(db: Db, panel: Panel, token: Token, button: Button)
    requires TablesOffered(db, panel) && token.authority == AuthorityOf(button)
    requires button.dialogue in panel.offers
    requires Scope(token.bot, token.user, token.chat) == panel.offers[button.dialogue].scope
    requires token.expiresAt == panel.offers[button.dialogue].expiresAt
    requires if button.ModeButton? then !button.mode.Unsupported? else button.dialogue in panel.picks
    ensures TablesOffered(AddToken(db, token), panel.(buttons := panel.buttons[db.nextToken := button]))
  {
    var after := AddToken(db, token);
    var more := panel.(buttons := panel.buttons[db.nextToken := button]);
    forall id | id in after.dialogues ensures RowOffered(more, id, after.dialogues[id]) {
      assert RowOffered(panel, id, db.dialogues[id]);
    }
    forall t | t in after.tokens ensures t < after.nextToken && TokenOffered(more, t, after.tokens[t]) {
      if t != db.nextToken { assert TokenOffered(panel, t, db.tokens[t]); }
    }
    forall t | t in more.buttons ensures ButtonOffered(more, after.nextToken, t) {
      if t != db.nextToken { assert ButtonOffered(panel, db.nextToken, t); }
    }
  }

  lemma PreviewOffered(db: Db, panel: Panel, scope: Scope, preview: Offer, now: int, expiresAt: int)
    requires TablesOffered(db, panel) && expiresAt > now && Unsupported !in preview.actions
    requires db.nextDialogue !in panel.picks
    ensures var (after, answer) := CreatePreview(db, scope, preview, now, expiresAt);
      TablesOffered(after, Present(panel, ShowPreview(scope, preview, expiresAt), answer))
  {
    var id := db.nextDialogue;
    var d := Dialogue(scope.bot, scope.user, scope.chat, None, Stage.Preview, 0, Active, preview.target,
                      preview.account, None, None, id, None, expiresAt, None);
    var db1 := db.(dialogues := db.dialogues[id := d], nextDialogue := id + 1);
    var panel1 := panel.(offers := panel.offers[id := Offered(scope, preview, expiresAt)]);
    OfferAdded(db, panel, d, Offered(scope, preview, expiresAt));
    MintedButtons(db1, panel1, id, scope, preview.actions, now, expiresAt, db.nextToken);
  }

  lemma OfferAdded(db: Db, panel: Panel, d: Dialogue, offered: Offered)
    requires TablesOffered(db, panel) && db.nextDialogue !in panel.picks
    requires RowOffered(panel.(offers := panel.offers[db.nextDialogue := offered]), db.nextDialogue, d)
    ensures TablesOffered(db.(dialogues := db.dialogues[db.nextDialogue := d], nextDialogue := db.nextDialogue + 1),
                          panel.(offers := panel.offers[db.nextDialogue := offered]))
  {
    var id := db.nextDialogue;
    var after := db.(dialogues := db.dialogues[id := d], nextDialogue := id + 1);
    var more := panel.(offers := panel.offers[id := offered]);
    assert id !in panel.offers;
    forall o | o in after.dialogues ensures RowOffered(more, o, after.dialogues[o]) {
      if o != id { assert RowOffered(panel, o, db.dialogues[o]); }
    }
    forall t | t in after.tokens ensures t < after.nextToken && TokenOffered(more, t, after.tokens[t]) {
      assert TokenOffered(panel, t, db.tokens[t]);
    }
    forall t | t in more.buttons ensures ButtonOffered(more, after.nextToken, t) {
      assert ButtonOffered(panel, db.nextToken, t);
    }
  }

  /** The button that an accepted selection pressed, and the row it pressed it for. */
  lemma PressedButton(db: Db, panel: Panel, token: TokenId)
    requires TablesOffered(db, panel) && IsCallbackRow(db, token)
    ensures var id := db.tokens[token].authority.dialogue;
      && token in panel.buttons && panel.buttons[token].dialogue == id && id in panel.offers
      && db.tokens[token].authority == AuthorityOf(panel.buttons[token])
      && Scope(db.tokens[token].bot, db.tokens[token].user, db.tokens[token].chat) == panel.offers[id].scope
      && db.tokens[token].expiresAt == panel.offers[id].expiresAt == db.dialogues[id].expiresAt
  {
    assert TokenOffered(panel, token, db.tokens[token]);
    assert RowOffered(panel, db.tokens[token].authority.dialogue, db.dialogues[db.tokens[token].authority.dialogue]);
  }

  lemma DecisionButtons(db: Db, panel: Panel, id: DialogueId, confirm: Token, cancel: Token)
    requires TablesOffered(db, panel) && id in panel.offers && id in panel.picks
    requires confirm.authority == Callback(Confirm, id, 1) && cancel.authority == Callback(Cancel, id, 1)
    requires Scope(confirm.bot, confirm.user, confirm.chat) == Scope(cancel.bot, cancel.user, cancel.chat)
             == panel.offers[id].scope
    requires confirm.expiresAt == cancel.expiresAt == panel.offers[id].expiresAt
    ensures TablesOffered(AddToken(AddToken(db, confirm), cancel),
              panel.(buttons := panel.buttons[db.nextToken := ConfirmButton(id)][db.nextToken + 1 := CancelButton(id)]))
  {
    OneMoreButton(db, panel, confirm, ConfirmButton(id));
    OneMoreButton(AddToken(db, confirm), panel.(buttons := panel.buttons[db.nextToken := ConfirmButton(id)]), cancel,
                  CancelButton(id));
  }

  /** The panel once a mode was picked and the two decision buttons were handed out. */
  function Picked(panel: Panel, id: DialogueId, mode: Capability, first: TokenId): Panel {
    panel.(picks := panel.picks[id := mode],
           buttons := panel.buttons[first := ConfirmButton(id)][first + 1 := CancelButton(id)])
  }

  lemma SelectedDbOffered(db: Db, panel: Panel, token: TokenId, mode: Capability, e: Dialogue, confirm: Token, cancel: Token,
                          now: int)
    requires TablesOffered(db, panel) && IsCallbackRow(db, token)
    requires var id := db.tokens[token].authority.dialogue;
      && id !in panel.picks && id in panel.offers
      && SameFacts(db.dialogues[id], e.(mode := db.dialogues[id].mode)) && e.mode == Some(mode)
      && confirm.authority == Callback(Confirm, id, 1) && cancel.authority == Callback(Cancel, id, 1)
      && Scope(confirm.bot, confirm.user, confirm.chat) == Scope(cancel.bot, cancel.user, cancel.chat)
         == panel.offers[id].scope
      && confirm.expiresAt == cancel.expiresAt == panel.offers[id].expiresAt
    ensures TablesOffered(SelectedDb(db, token, e, confirm, cancel, now),
                          Picked(panel, db.tokens[token].authority.dialogue, mode, db.nextToken))
  {
    var id := db.tokens[token].authority.dialogue;
    PickOffered(db, panel, token, id, mode, e, now);
    DecisionButtons(Consume(db, token, now).(dialogues := db.dialogues[id := e]), panel.(picks := panel.picks[id := mode]),
                    id, confirm, cancel);
  }

  lemma PresentsPick(panel: Panel, token: TokenId, scope: Scope, message: int, id: DialogueId, mode: Capability, first: TokenId)
    requires token in panel.buttons && panel.buttons[token] == ModeButton(id, mode)
    ensures Present(panel, SelectMode(token, scope, message), Selected(id, mode, first, first + 1))
            == Picked(panel, id, mode, first)
  {
  }

  lemma AcceptedScope(db: Db, token: TokenId, scope: Scope, message: int, step: Stage, version: nat, now: int)
    requires IsCallbackRow(db, token) && !Refuses(db, token, scope, message, step, version, now)
    ensures Scope(db.tokens[token].bot, db.tokens[token].user, db.tokens[token].chat) == scope
    ensures var d := db.dialogues[db.tokens[token].authority.dialogue];
      d.version == version && d.step == step && d.lifecycle.Active?
  {
  }

  lemma SelectionOffered(db: Db, panel: Panel, token: TokenId, scope: Scope, message: int, now: int)
    requires TablesOffered(db, panel) && !Refuses(db, token, scope, message, Stage.Preview, 0, now)
    requires IsCallbackRow(db, token) && db.tokens[token].authority.dialogue !in panel.picks
    requires db.tokens[token].authority.action.Select? && !db.tokens[token].authority.action.mode.Unsupported?
    ensures var (after, answer) := ConsumeSelection(db, token, scope, message, now);
      answer.Selected? && TablesOffered(after, Present(panel, SelectMode(token, scope, message), answer))
  {
    var mode := db.tokens[token].authority.action.mode;
    var e, confirm, cancel := SelectionParts(db, panel, token, scope, message, now);
    SelectedDbOffered(db, panel, token, mode, e, confirm, cancel, now);
    PresentsPick(panel, token, scope, message, db.tokens[token].authority.dialogue, mode, db.nextToken);
  }

  /** What a selection writes, and that the pressed button promised its mode. */
  lemma SelectionParts(db: Db, panel: Panel, token: TokenId, scope: Scope, message: int, now: int)
    returns (e: Dialogue, confirm: Token, cancel: Token)
    requires TablesOffered(db, panel) && !Refuses(db, token, scope, message, Stage.Preview, 0, now)
    requires IsCallbackRow(db, token) && db.tokens[token].authority.action.Select?
    requires !db.tokens[token].authority.action.mode.Unsupported?
    ensures var id := db.tokens[token].authority.dialogue; var mode := db.tokens[token].authority.action.mode;
      && id in panel.offers && token in panel.buttons && panel.buttons[token] == ModeButton(id, mode)
      && ConsumeSelection(db, token, scope, message, now)
         == (SelectedDb(db, token, e, confirm, cancel, now), Selected(id, mode, db.nextToken, db.nextToken + 1))
      && SameFacts(db.dialogues[id], e.(mode := db.dialogues[id].mode)) && e.mode == Some(mode)
      && confirm.authority == Callback(Confirm, id, 1) && cancel.authority == Callback(Cancel, id, 1)
      && Scope(confirm.bot, confirm.user, confirm.chat) == Scope(cancel.bot, cancel.user, cancel.chat)
         == panel.offers[id].scope
      && confirm.expiresAt == cancel.expiresAt == panel.offers[id].expiresAt
  {
    SelectionEffect(db, token, scope, message, now);
    AcceptedScope(db, token, scope, message, Stage.Preview, 0, now);
    PressedButton(db, panel, token);
    var t := db.tokens[token];
    var id := t.authority.dialogue;
    var d := db.dialogues[id];
    e := d.(mode := Some(t.authority.action.mode), step := Confirming, version := 1, message := None);
    confirm := CallbackToken(Confirm, id, 1, scope, now, Min(t.expiresAt, d.expiresAt));
    cancel := CallbackToken(Cancel, id, 1, scope, now, Min(t.expiresAt, d.expiresAt));
  }

  lemma PickOffered(db: Db, panel: Panel, token: TokenId, id: DialogueId, mode: Capability, e: Dialogue, now: int)
    requires TablesOffered(db, panel) && token in db.tokens && id in db.dialogues && id !in panel.picks
    requires SameFacts(db.dialogues[id], e.(mode := db.dialogues[id].mode)) && e.mode == Some(mode)
    ensures TablesOffered(Consume(db, token, now).(dialogues := db.dialogues[id := e]),
                          panel.(picks := panel.picks[id := mode]))
  {
    var after := Consume(db, token, now).(dialogues := db.dialogues[id := e]);
    var picked := panel.(picks := panel.picks[id := mode]);
    assert RowOffered(panel, id, db.dialogues[id]);
    forall o | o in after.dialogues ensures RowOffered(picked, o, after.dialogues[o]) {
      assert RowOffered(panel, o, db.dialogues[o]);
    }
    forall t | t in after.tokens ensures t < after.nextToken && TokenOffered(picked, t, after.tokens[t]) {
      assert TokenOffered(panel, t, db.tokens[t]);
    }
    forall t | t in picked.buttons ensures ButtonOffered(picked, after.nextToken, t) {
      assert ButtonOffered(panel, db.nextToken, t);
    }
  }

  // ---------------------------------------------------------------- every command

  lemma SelectChoices(s: Sys, command: Command, t: Sys)
    requires command.SelectMode? && ChoiceInv(s.db, s.trail) && t == InteractStep(s, command) && OutcomeInv(t.db, t.trail)
    ensures ChoiceInv(t.db, t.trail)
  {
    if Refuses(s.db, command.token, command.scope, command.message, Stage.Preview, 0, s.now) {
      RefusedChoices(s, command, t);
    } else {
      SelectionEffect(s.db, command.token, command.scope, command.message, s.now);
      var token := s.db.tokens[command.token];
      if token.authority.action.Select? && !token.authority.action.mode.Unsupported? {
        PickedChoices(s, command, t);
      } else {
        QuietChoices(s, command, t);
      }
    }
  }

  lemma RefusedChoices(s: Sys, command: Command, t: Sys)
    requires command.SelectMode? && ChoiceInv(s.db, s.trail) && t == InteractStep(s, command) && OutcomeInv(t.db, t.trail)
    requires Refuses(s.db, command.token, command.scope, command.message, Stage.Preview, 0, s.now)
    ensures ChoiceInv(t.db, t.trail)
  {
    RefusedSelection(s.db, command.token, command.scope, command.message, s.now);
    if IsCallbackRow(s.db, command.token) {
      RefuseHandsOutNothing(s.db, s.db.tokens[command.token].authority.dialogue, CallbackRefusal.Expired, s.now);
    }
    NothingHandedOut(s.db, t.db, s.trail.panel);
    QuietChoices(s, command, t);
  }

  lemma PickedChoices(s: Sys, command: Command, t: Sys)
    requires command.SelectMode? && ChoiceInv(s.db, s.trail) && t == InteractStep(s, command) && OutcomeInv(t.db, t.trail)
    requires !Refuses(s.db, command.token, command.scope, command.message, Stage.Preview, 0, s.now)
    requires s.db.tokens[command.token].authority.action.Select?
    requires !s.db.tokens[command.token].authority.action.mode.Unsupported?
    ensures ChoiceInv(t.db, t.trail)
  {
    var id := s.db.tokens[command.token].authority.dialogue;
    AcceptedScope(s.db, command.token, command.scope, command.message, Stage.Preview, 0, s.now);
    FirstPick(s.db, s.trail, id);
    SelectionOffered(s.db, s.trail.panel, command.token, command.scope, command.message, s.now);
    PickedTrail(s, command, t);
    PressedButton(s.db, s.trail.panel, command.token);
    forall r | r in t.trail.releases ensures ReleaseOffered(t.trail.panel, r) {
      assert ReleaseOffered(s.trail.panel, r);
    }
  }

  lemma PickedTrail(s: Sys, command: Command, t: Sys)
    requires command.SelectMode? && t == InteractStep(s, command) && TablesOffered(s.db, s.trail.panel)
    requires !Refuses(s.db, command.token, command.scope, command.message, Stage.Preview, 0, s.now)
    requires s.db.tokens[command.token].authority.action.Select?
    requires !s.db.tokens[command.token].authority.action.mode.Unsupported?
    ensures var id := s.db.tokens[command.token].authority.dialogue;
      && t.trail.releases == s.trail.releases && t.trail.selections == s.trail.selections + multiset{id}
      && t.trail.panel.offers == s.trail.panel.offers
      && t.trail.panel.picks == s.trail.panel.picks[id := s.db.tokens[command.token].authority.action.mode]
  {
    SelectionEffect(s.db, command.token, command.scope, command.message, s.now);
    PressedButton(s.db, s.trail.panel, command.token);
  }

  /** A dialogue in its first version has no pick and no release yet. */
  lemma FirstPick(db: Db, trail: Trail, id: DialogueId)
    requires ChoiceInv(db, trail) && id in db.dialogues && db.dialogues[id].version == 0
    ensures id !in trail.panel.picks && forall r | r in trail.releases :: r.dialogue != id
  {
    assert RowOffered(trail.panel, id, db.dialogues[id]) && RowTells(trail, id, db.dialogues[id]);
    assert OneOutcome(trail, id);
  }

  lemma DecideChoices(db: Db, trail: Trail, token: TokenId, update: ReleasingUpdate, user: int, chat: int, message: int,
                      now: int)
    requires ChoiceInv(db, trail)
    ensures var (after, answer) := ConsumeDecision(db, token, update, user, chat, message, now);
      && TablesOffered(after, trail.panel)
      && (answer.Confirmed? ==> ReleaseOffered(trail.panel, Release(answer.action.dialogue, update, answer.action)))
  {
    DecideHandsOutNothing(db, token, update, user, chat, message, now);
    var (after, answer) := ConsumeDecision(db, token, update, user, chat, message, now);
    NothingHandedOut(db, after, trail.panel);
    DecideShape(db, token, update, user, chat, message, now);
    if answer.Confirmed? { ActionIsOffered(db, trail.panel, answer.action.dialogue, update); }
  }

  lemma ActionIsOffered(db: Db, panel: Panel, id: DialogueId, update: ReleasingUpdate)
    requires TablesOffered(db, panel) && id in db.dialogues && db.dialogues[id].mode.Some?
    ensures ReleaseOffered(panel, Release(id, update, ActionOf(id, db.dialogues[id])))
  {
    assert RowOffered(panel, id, db.dialogues[id]);
  }

  lemma QuietCommand(db: Db, command: Command, now: int)
    requires !command.ShowPreview? && !command.SelectMode? && forall t | t in db.tokens :: t < db.nextToken
    ensures HandsOutNothing(db, Perform(db, command, now).0)
  {
    if LinkCommand(command) {
      LinkHandsOutNothing(db, command, now);
    } else {
      match command
      case Stamp(id, bot, chat, message) => StampHandsOutNothing(db, id, bot, chat, message);
      case Decide(token, update, user, chat, message) =>
        DecideHandsOutNothing(db, token, update, user, chat, message, now);
      case Complete(id, update, result, job) => CompleteHandsOutNothing(db, id, update, result, job, now);
      case Move(id, scope, step, version, next) => MoveHandsOutNothing(db, id, scope, step, version, next, now);
      case CleanUp(before, limit) => CleanupHandsOutNothing(db, now, before, limit);
    }
  }

  /** What a command other than a preview, selection or decision shows. */
  lemma QuietAnswer(db: Db, command: Command, now: int)
    requires !command.ShowPreview? && !command.SelectMode? && !command.Decide?
    ensures var answer := Perform(db, command, now).1;
      !answer.Created? && !answer.Selected? && !answer.Confirmed?
  {
    if LinkCommand(command) { LinksLeaveDialogues(db, command, now); }
  }

  lemma ChoicePerform(s: Sys, command: Command, t: Sys)
    requires ChoiceInv(s.db, s.trail) && t == InteractStep(s, command) && OutcomeInv(t.db, t.trail)
    ensures ChoiceInv(t.db, t.trail)
  {
    if command.ShowPreview? {
      PreviewChoices(s, command, t);
    } else if command.SelectMode? {
      SelectChoices(s, command, t);
    } else if command.Decide? {
      DecidedChoices(s, command, t);
    } else {
      QuietCommand(s.db, command, s.now);
      QuietAnswer(s.db, command, s.now);
      NothingHandedOut(s.db, t.db, s.trail.panel);
      QuietChoices(s, command, t);
    }
  }

  lemma QuietChoices(s: Sys, command: Command, t: Sys)
    requires ChoiceInv(s.db, s.trail) && t == InteractStep(s, command) && OutcomeInv(t.db, t.trail)
    requires TablesOffered(t.db, s.trail.panel)
    requires var answer := Perform(s.db, command, s.now).1;
      !answer.Created? && !answer.Selected? && !answer.Confirmed?
    ensures ChoiceInv(t.db, t.trail)
  {
  }

  lemma DecidedChoices(s: Sys, command: Command, t: Sys)
    requires command.Decide? && ChoiceInv(s.db, s.trail) && t == InteractStep(s, command) && OutcomeInv(t.db, t.trail)
    ensures ChoiceInv(t.db, t.trail)
  {
    DecideChoices(s.db, s.trail, command.token, command.update, command.user, command.chat, command.message, s.now);
    var answer := ConsumeDecision(s.db, command.token, command.update, command.user, command.chat, command.message, s.now).1;
    DecisionIsNoted(s, command, t, answer);
    ReleasesStayOffered(s.trail, t.trail, command.update, answer);
  }

  lemma DecisionIsNoted(s: Sys, command: Command, t: Sys, answer: Answer)
    requires command.Decide? && t == InteractStep(s, command)
    requires answer == ConsumeDecision(s.db, command.token, command.update, command.user, command.chat, command.message, s.now).1
    ensures t.db == ConsumeDecision(s.db, command.token, command.update, command.user, command.chat, command.message, s.now).0
    ensures t.trail.panel == s.trail.panel && t.trail.selections == s.trail.selections
    ensures t.trail.releases == s.trail.releases + if answer.Confirmed?
      then {Release(answer.action.dialogue, command.update, answer.action)} else {}
  {
    DecideShape(s.db, command.token, command.update, command.user, command.chat, command.message, s.now);
    DecisionIsNoSelection(s.db, command.token, command.update, command.user, command.chat, command.message, s.now);
  }

  lemma DecisionIsNoSelection(db: Db, token: TokenId, update: ReleasingUpdate, user: int, chat: int, message: int, now: int)
    ensures var answer := ConsumeDecision(db, token, update, user, chat, message, now).1;
      !answer.Selected? && !answer.Created? && !answer.Finished? && !answer.Projected?
  {
  }

  lemma ReleasesStayOffered(before: Trail, after: Trail, update: ReleasingUpdate, answer: Answer)
    requires after.panel == before.panel
    requires forall r | r in before.releases :: ReleaseOffered(before.panel, r)
    requires answer.Confirmed? ==>
               ReleaseOffered(before.panel, Release(answer.action.dialogue, update, answer.action))
    requires after.releases == before.releases + if answer.Confirmed?
      then {Release(answer.action.dialogue, update, answer.action)} else {}
    ensures forall r | r in after.releases :: ReleaseOffered(after.panel, r)
  {
  }

  lemma PreviewChoices(s: Sys, command: Command, t: Sys)
    requires command.ShowPreview? && ChoiceInv(s.db, s.trail) && t == InteractStep(s, command) && OutcomeInv(t.db, t.trail)
    ensures ChoiceInv(t.db, t.trail)
  {
    if command.expiresAt > s.now && Unsupported !in command.preview.actions {
      assert s.db.nextDialogue !in s.trail.panel.offers;
      PreviewOffered(s.db, s.trail.panel, command.scope, command.preview, s.now, command.expiresAt);
      forall r | r in t.trail.releases ensures ReleaseOffered(t.trail.panel, r) {
        assert ReleaseOffered(s.trail.panel, r) && r.dialogue in s.trail.panel.offers;
      }
    }
  }

  // ---------------------------------------------------------------- every run

  lemma AckHandsOutNothing(db: Db, c: Claimed, wire: JobKind, message: int, at: int)
    requires forall t | t in db.tokens :: t < db.nextToken
    ensures var r := RecordAck(db, c, wire, message, at); r.Ok? ==> HandsOutNothing(db, r.value)
  {
    if c.dialogue.Some? { StampHandsOutNothing(db, c.dialogue.value, c.bot, c.chat, message); }
  }

  lemma SenderHandsOutNothing(s: Sys, step: Step, t: Sys)
    requires Enabled(s, step) && SenderStep(step) && t == SenderNext(s, step)
    requires forall k | k in s.db.tokens :: k < s.db.nextToken
    ensures HandsOutNothing(s.db, t.db)
  {
    match step
    case Acknowledge(w, replyLost) =>
      var phase := s.workers[w].phase;
      AckHandsOutNothing(s.db, s.workers[w].claim, MethodOf(phase.action), phase.message, phase.at);
      AckShape(s, w, replyLost);
    case ClaimNext(w, head) => ClaimShape(s, w, head);
    case Prepare(w) => PrepareShape(s, w);
    case Wire(w, reply, applied, draw) => WireShape(s, w, reply, applied, draw);
    case SettleClaim(w) => SettleShape(s, w);
    case RunGuard(w) => GuardShape(s, w);
    case Defer(w, delay) => DeferShape(s, w, delay);
    case AckFault(w) => AckFaultShape(s, w);
    case FollowThrough(w) => FollowShape(s, w);
    case Crash(w) => CrashShape(s, w);
  }

  lemma ChoiceNext(s: Sys, step: Step)
    requires ChoiceInv(s.db, s.trail) && Enabled(s, step)
    ensures ChoiceInv(Next(s, step).db, Next(s, step).trail)
  {
    OutcomeNext(s, step);
    if SenderStep(step) {
      SenderHandsOutNothing(s, step, SenderNext(s, step));
      SenderDrifts(s, step, SenderNext(s, step));
      NothingHandedOut(s.db, SenderNext(s, step).db, s.trail.panel);
    } else if step.Interact? {
      ChoicePerform(s, step.command, OutsideNext(s, step));
    } else {
      OutsideLeavesDialogues(s, step, OutsideNext(s, step));
      NothingHandedOut(s.db, OutsideNext(s, step).db, s.trail.panel);
    }
  }

  lemma {:induction false} ChoiceAfter(s: Sys, steps: seq<Step>)
    requires ChoiceInv(s.db, s.trail) && Runs(s, steps)
    ensures ChoiceInv(After(s, steps).db, After(s, steps).trail)
    decreases |steps|
  {
    if steps == [] {
    } else {
      ChoiceNext(s, steps[0]);
      ChoiceAfter(Next(s, steps[0]), steps[1..]);
    }
  }

  lemma ReachableChoices(s: Sys, now: int, limits: Limits)
    requires Reachable(s, now, limits)
    ensures ChoiceInv(s.db, s.trail)
  {
    var steps :| Runs(Start(now, limits), steps) && After(Start(now, limits), steps) == s;
    ChoiceAfter(Start(now, limits), steps);
  }

  /** In every run, whatever is released for a dialogue, first or recovered, is the mode of the selection
      button that was pressed on the target that was previewed, with the account of the preview if and only
      if the mode is to star, under a key that no other dialogue's releases carry. */
  lemma ReleasesCarryTheChoice(s: Sys, now: int, limits: Limits, r: Release, other: Release)
    requires Reachable(s, now, limits) && r in s.trail.releases && other in s.trail.releases
    ensures r.dialogue in s.trail.panel.offers && r.dialogue in s.trail.panel.picks
    ensures var offer := s.trail.panel.offers[r.dialogue].preview;
      && r.action.mode == s.trail.panel.picks[r.dialogue]
      && r.action.target == offer.target
      && (r.action.mode == Star ==> r.action.account == offer.account)
      && (r.action.mode != Star ==> r.action.account.None?)
    ensures r.action.key == other.action.key <==> r.dialogue == other.dialogue
  {
    ReachableChoices(s, now, limits);
    assert ReleaseOffered(s.trail.panel, r) && ReleaseOffered(s.trail.panel, other);
  }
}
