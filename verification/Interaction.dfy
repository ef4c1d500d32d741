/** Dialogues and one-time tokens: the preview, its selection, the confirm/cancel decision, the
    completion, opaque deep links and library reads (crates/persistence/src/dialogues.rs,
    dialogues/repository_decision.rs and interaction_tokens.rs). */
module Interaction {
  import opened Tables
  import opened OutboundQueue

  datatype Scope = Scope(bot: int, user: int, chat: int)

  datatype CallbackRefusal = Invalid | Expired | Consumed

  datatype TokenRefusal = Invalid | Expired | ScopeMismatch | Consumed | StaleState

  datatype DialogueRefusal = NotFound | ScopeMismatch | StaleState | Expired | Terminal

  datatype ConfirmedAction = ConfirmedAction(
    dialogue: DialogueId,
    mode: Capability,
    target: Uuid,
    account: Option<Uuid>,
    key: DialogueId)

  datatype Offer = Offer(target: Uuid, account: Option<Uuid>, actions: seq<Capability>)

  /** What one interaction transaction answers. `first` tells the winning confirmation from a
      recovered one; callers see the same `Confirmed` value. */
  datatype Answer =
    | Created(dialogue: DialogueId, firstToken: TokenId)
    | Stamped(applied: bool)
    | Selected(dialogue: DialogueId, mode: Capability, confirm: TokenId, cancel: TokenId)
    | Confirmed(action: ConfirmedAction, first: bool)
    | Cancelled(dialogue: DialogueId)
    | AlreadyCompleted
    | Finished
    | Transitioned(version: nat)
    | OperationReleased(operation: Uuid, payload: Uuid)
    | LibraryReadReleased(analysis: Uuid)
    | Issued(firstToken: TokenId)
    | Projected
    | CallbackRefused(callback: CallbackRefusal)
    | TokenRefused(token: TokenRefusal)
    | DialogueRefused(dialog: DialogueRefusal)
    | Fault(fault: Fault)

  // ---------------------------------------------------------------- minting

  function CallbackToken(action: CallbackAction, dialogue: DialogueId, version: nat, scope: Scope,
                         now: int, expiresAt: int): Token
  {
    Token(Callback(action, dialogue, version), scope.bot, scope.user, scope.chat, None, now, expiresAt, None)
  }

  function AddToken(db: Db, token: Token): Db {
    db.(tokens := db.tokens[db.nextToken := token], nextToken := db.nextToken + 1)
  }

  /** One selection token per advertised capability, in order. */
  function MintSelections(db: Db, dialogue: DialogueId, scope: Scope, actions: seq<Capability>,
                          now: int, expiresAt: int): Db
    decreases |actions|
  {
    if actions == [] then db
    else
      MintSelections(AddToken(db, CallbackToken(Select(actions[0]), dialogue, 0, scope, now, expiresAt)),
                     dialogue, scope, actions[1..], now, expiresAt)
  }

  /** The schema refuses a row that expires no later than it is created, and an action name outside
      its closed vocabulary; either refusal rolls the transaction back. */
  function CreatePreview(db: Db, scope: Scope, preview: Offer, now: int, expiresAt: int): (Db, Answer) {
    if expiresAt <= now || Unsupported in preview.actions then (db, Answer.Fault(Query))
    else
      var id := db.nextDialogue;
      var d := Dialogue(scope.bot, scope.user, scope.chat, None, Stage.Preview, 0, Active, preview.target,
                        preview.account, None, None, id, None, expiresAt, None);
      var db1 := db.(dialogues := db.dialogues[id := d], nextDialogue := id + 1);
      (MintSelections(db1, id, scope, preview.actions, now, expiresAt), Created(id, db.nextToken))
  }

  // ---------------------------------------------------------------- message stamping

  predicate Stampable(db: Db, id: DialogueId, bot: int, chat: int) {
    && id in db.dialogues
    && db.dialogues[id].bot == bot && db.dialogues[id].chat == chat
    && db.dialogues[id].lifecycle.Active?
    && (db.dialogues[id].step.Preview? || db.dialogues[id].step.Confirming?)
  }

  predicate CarriesVersion(t: Token, id: DialogueId, version: nat) {
    && t.authority.Callback? && t.authority.dialogue == id && t.authority.version == version
    && t.consumedAt.None?
  }

  /** Bind the acknowledged message to a dialogue and to its current, unconsumed tokens. */
  function StampCallback(db: Db, id: DialogueId, bot: int, chat: int, message: int): (Db, bool) {
    if !Stampable(db, id, bot, chat) then (db, false)
    else
      var version := db.dialogues[id].version;
      (db.(dialogues := db.dialogues[id := db.dialogues[id].(message := Some(message))],
           tokens := map t | t in db.tokens ::
             if CarriesVersion(db.tokens[t], id, version)
             then db.tokens[t].(message := Some(message))
             else db.tokens[t]),
       true)
  }

  // ---------------------------------------------------------------- callback validation

  /** A token joined with its dialogue, as the locking read returns it. */
  predicate IsCallbackRow(db: Db, token: TokenId) {
    && token in db.tokens
    && db.tokens[token].authority.Callback?
    && db.tokens[token].authority.dialogue in db.dialogues
  }

  predicate CallbackScopeValid(t: Token, d: Dialogue, scope: Scope, message: int) {
    && t.bot == scope.bot && t.user == scope.user && t.chat == scope.chat
    && t.message == Some(message)
    && d.bot == scope.bot && d.user == scope.user && d.chat == scope.chat
    && d.message == Some(message)
  }

  function ValidateCallback(t: Token, d: Dialogue, scope: Scope, message: int, step: Stage, version: nat,
                            now: int): Option<CallbackRefusal>
    requires t.authority.Callback?
  {
    if t.consumedAt.Some? then Some(CallbackRefusal.Consumed)
    else if t.expiresAt <= now || d.expiresAt <= now then Some(CallbackRefusal.Expired)
    else if !CallbackScopeValid(t, d, scope, message) || !d.lifecycle.Active? || d.step != step
            || d.version != version || t.authority.version != version
    then Some(CallbackRefusal.Invalid)
    else None
  }

  function ExpiredDialogue(d: Dialogue, now: int): Dialogue {
    d.(lifecycle := Lifecycle.Expired, terminalAt := Some(now), version := d.version + 1)
  }

  function ExpireCallbackDialogue(db: Db, id: DialogueId, now: int): Db
    requires id in db.dialogues
  {
    if db.dialogues[id].expiresAt > now || !db.dialogues[id].lifecycle.Active? then db
    else db.(dialogues := db.dialogues[id := ExpiredDialogue(db.dialogues[id], now)])
  }

  /** A refused callback; noticing the expiry boundary also records it on the dialogue. */
  function Refuse(db: Db, id: DialogueId, refusal: CallbackRefusal, now: int): (Db, Answer)
    requires id in db.dialogues
  {
    (if refusal.Expired? && db.dialogues[id].expiresAt <= now then ExpireCallbackDialogue(db, id, now) else db,
     CallbackRefused(refusal))
  }

  function Min(a: int, b: int): int { if a < b then a else b }

  function Consume(db: Db, token: TokenId, now: int): Db
    requires token in db.tokens
  {
    db.(tokens := db.tokens[token := db.tokens[token].(consumedAt := Some(now))])
  }

  // ---------------------------------------------------------------- selection

  function ConsumeSelection(db: Db, token: TokenId, scope: Scope, message: int, now: int): (Db, Answer) {
    if !IsCallbackRow(db, token) then (db, CallbackRefused(CallbackRefusal.Invalid))
    else
      var t := db.tokens[token];
      var id := t.authority.dialogue;
      var d := db.dialogues[id];
      var refusal := ValidateCallback(t, d, scope, message, Stage.Preview, 0, now);
      if refusal.Some? then Refuse(db, id, refusal.value, now)
      else if !t.authority.action.Select? || t.authority.action.mode.Unsupported?
      then (db, Answer.Fault(Query))
      else
        var mode := t.authority.action.mode;
        var expiresAt := Min(t.expiresAt, d.expiresAt);
        var db1 := Consume(db, token, now);
        var db2 := db1.(dialogues := db1.dialogues[id :=
          d.(mode := Some(mode), step := Confirming, version := 1, message := None)]);
        var db3 := AddToken(db2, CallbackToken(Confirm, id, 1, scope, now, expiresAt));
        var db4 := AddToken(db3, CallbackToken(Cancel, id, 1, scope, now, expiresAt));
        (db4, Selected(id, mode, db.nextToken, db.nextToken + 1))
  }

  // ---------------------------------------------------------------- decision

  function ActionOf(id: DialogueId, d: Dialogue): ConfirmedAction
    requires d.mode.Some?
  {
    ConfirmedAction(id, d.mode.value, d.target, if d.mode.value.Star? then d.account else None, d.key)
  }

  /** The recovery path compares the dialogue's owner but not its message, which the winning
      decision has already cleared. */
  predicate RecoveryScopeValid(t: Token, d: Dialogue, scope: Scope, message: int) {
    && t.bot == scope.bot && t.user == scope.user && t.chat == scope.chat
    && t.message == Some(message)
    && d.bot == scope.bot && d.user == scope.user && d.chat == scope.chat
  }

  function RecoverConfirmation(t: Token, id: DialogueId, d: Dialogue, update: ReleasingUpdate,
                               scope: Scope, message: int): Answer
    requires t.authority.Callback?
  {
    if !(t.authority.action.Confirm? && RecoveryScopeValid(t, d, scope, message)
         && d.releasing == Some(update))
    then CallbackRefused(CallbackRefusal.Consumed)
    else if d.step.Submitting? && d.lifecycle.Active? then
      if d.mode.Some? then Confirmed(ActionOf(id, d), false) else Answer.Fault(Query)
    else if d.step.Completed? && d.lifecycle.Finished? then AlreadyCompleted
    else CallbackRefused(CallbackRefusal.Consumed)
  }

  function ConsumeDecision(db: Db, token: TokenId, update: ReleasingUpdate, user: int, chat: int,
                           message: int, now: int): (Db, Answer)
  {
    if !IsCallbackRow(db, token) then (db, CallbackRefused(CallbackRefusal.Invalid))
    else
      var t := db.tokens[token];
      var id := t.authority.dialogue;
      var d := db.dialogues[id];
      var scope := Scope(update.bot, user, chat);
      if t.consumedAt.Some? then (db, RecoverConfirmation(t, id, d, update, scope, message))
      else
        var refusal := ValidateCallback(t, d, scope, message, Confirming, 1, now);
        if refusal.Some? then Refuse(db, id, refusal.value, now)
        else if t.authority.action.Cancel? then
          var db1 := Consume(db, token, now);
          (db1.(dialogues := db1.dialogues[id :=
             d.(lifecycle := Lifecycle.Cancelled, version := 2, message := None, terminalAt := Some(now))]),
           Answer.Cancelled(id))
        else if !t.authority.action.Confirm? then (db, CallbackRefused(CallbackRefusal.Invalid))
        else if d.mode.None? then (db, Answer.Fault(Query))
        else
          var db1 := Consume(db, token, now);
          (db1.(dialogues := db1.dialogues[id :=
             d.(step := Submitting, version := 2, message := None, releasing := Some(update))]),
           Confirmed(ActionOf(id, d), true))
  }

  // ---------------------------------------------------------------- completion

  predicate ResultJobFits(d: Dialogue, id: DialogueId, job: NewJob) {
    && job.bot == d.bot && job.chat == d.chat && job.kind.SendMessage?
    && job.operation.None? && job.revision.None? && job.dialogue == Some(id)
  }

  function CompleteDialogue(db: Db, id: DialogueId, update: ReleasingUpdate, result: Option<Uuid>,
                            job: NewJob, now: int): (Db, Answer)
  {
    if id !in db.dialogues || db.dialogues[id].releasing != Some(update) then (db, Answer.Fault(Query))
    else
      var d := db.dialogues[id];
      if d.step.Completed? && d.lifecycle.Finished? then (db, AlreadyCompleted)
      else if !d.step.Submitting? || !d.lifecycle.Active? || !ResultJobFits(d, id, job)
      then (db, Answer.Fault(Query))
      else
        var finished := d.(result := if result.None? then d.result else result, step := Stage.Completed,
                           lifecycle := Lifecycle.Finished, version := d.version + 1, terminalAt := Some(now));
        (InsertJob(db.(dialogues := db.dialogues[id := finished]), job, now), Answer.Finished)
  }

  // ---------------------------------------------------------------- generic transition

  predicate OwnedBy(d: Dialogue, scope: Scope) {
    d.bot == scope.bot && d.user == scope.user && d.chat == scope.chat
  }

  /** Advance one expected step and version; the schema's CHECKs refuse a step that the row's
      lifecycle and releasing update do not allow. */
  function Transition(db: Db, id: DialogueId, scope: Scope, expectedStep: Stage, expectedVersion: nat,
                      nextStep: Stage, now: int): (Db, Answer)
  {
    if id !in db.dialogues then (db, DialogueRefused(NotFound))
    else
      var d := db.dialogues[id];
      if !OwnedBy(d, scope) then (db, DialogueRefused(DialogueRefusal.ScopeMismatch))
      else if d.lifecycle.Active? && d.expiresAt <= now then
        (db.(dialogues := db.dialogues[id := ExpiredDialogue(d, now)]),
         DialogueRefused(DialogueRefusal.Expired))
      else if d.step == expectedStep && d.version == expectedVersion && d.lifecycle.Active? then
        var moved := d.(step := nextStep, version := d.version + 1);
        if DialogueChecks(moved)
        then (db.(dialogues := db.dialogues[id := moved]), Transitioned(moved.version))
        else (db, Answer.Fault(Query))
      else if !d.lifecycle.Active? then (db, DialogueRefused(DialogueRefusal.Terminal))
      else (db, DialogueRefused(DialogueRefusal.StaleState))
  }

  // ---------------------------------------------------------------- deep links and library reads

  datatype Surface = CallbackSurface | DeepLinkSurface | CommandSurface

  predicate OnSurface(a: Authority, surface: Surface) {
    match surface
    case CallbackSurface => a.Callback?
    case DeepLinkSurface => a.DeepLink?
    case CommandSurface => a.Command?
  }

  function ConsumeInteractionToken(db: Db, token: TokenId, surface: Surface, scope: Scope,
                                   message: Option<int>, now: int): (Db, Answer)
  {
    if token !in db.tokens then (db, TokenRefused(TokenRefusal.Invalid))
    else
      var t := db.tokens[token];
      if t.consumedAt.Some? then (db, TokenRefused(TokenRefusal.Consumed))
      else if t.expiresAt <= now then (db, TokenRefused(TokenRefusal.Expired))
      else if !OnSurface(t.authority, surface) || t.bot != scope.bot || t.user != scope.user
              || t.chat != scope.chat || t.message != message
      then (db, TokenRefused(TokenRefusal.ScopeMismatch))
      else if !t.authority.DeepLink? then (db, TokenRefused(TokenRefusal.StaleState))
      else (Consume(db, token, now), OperationReleased(t.authority.operation, t.authority.payload))
  }

  function ResolveLibraryRead(db: Db, token: TokenId, scope: Scope, internalUser: Uuid, now: int): (Db, Answer) {
    if token !in db.tokens then (db, TokenRefused(TokenRefusal.Invalid))
    else
      var t := db.tokens[token];
      if t.consumedAt.Some? then (db, TokenRefused(TokenRefusal.Consumed))
      else if t.expiresAt <= now then (db, TokenRefused(TokenRefusal.Expired))
      else if !t.authority.Command? || t.bot != scope.bot || t.user != scope.user
              || t.authority.internalUser != internalUser || t.chat != scope.chat
      then (db, TokenRefused(TokenRefusal.ScopeMismatch))
      else (Consume(db, token, now), LibraryReadReleased(t.authority.analysis))
  }

  datatype OperationIntent = OperationIntent(scope: Scope, message: Option<int>, operation: Uuid,
                                             payload: Uuid, expiresAt: int)

  function DeepLinkToken(intent: OperationIntent, now: int): Token {
    Token(DeepLink(intent.operation, intent.payload), intent.scope.bot, intent.scope.user,
          intent.scope.chat, None, now, intent.expiresAt, None)
  }

  function IssueOperationIntent(db: Db, intent: OperationIntent, now: int): (Db, Answer) {
    if intent.expiresAt <= now then (db, Answer.Fault(Query))
    else (AddToken(db, DeepLinkToken(intent, now)), Issued(db.nextToken))
  }

  datatype LibraryIntent = LibraryIntent(scope: Scope, internalUser: Uuid, analysis: Uuid, expiresAt: int)

  function LibraryToken(intent: LibraryIntent, now: int): Token {
    Token(Command(intent.internalUser, intent.analysis), intent.scope.bot, intent.scope.user,
          intent.scope.chat, None, now, intent.expiresAt, None)
  }

  function MintLibraryReads(db: Db, intents: seq<LibraryIntent>, now: int): Db
    decreases |intents|
  {
    if intents == [] then db
    else MintLibraryReads(AddToken(db, LibraryToken(intents[0], now)), intents[1..], now)
  }

  /** Store every prepared read authority together with the one message that shows them. */
  function EnqueueLibraryReads(db: Db, intents: seq<LibraryIntent>, job: NewJob, now: int): (Db, Answer) {
    if exists i | i in intents :: i.scope.bot != job.bot || i.scope.chat != job.chat || i.expiresAt <= now
    then (db, Answer.Fault(Query))
    else (InsertJob(MintLibraryReads(db, intents, now), job, now), Issued(db.nextToken))
  }

  /** The newest deep link of an operation, expired and consumed ones included. */
  predicate NewestLink(tokens: map<TokenId, Token>, operation: Uuid, t: TokenId) {
    && t in tokens && tokens[t].authority.DeepLink? && tokens[t].authority.operation == operation
    && forall o | o in tokens ::
         tokens[o].authority.DeepLink? && tokens[o].authority.operation == operation
         ==> tokens[o].createdAt < tokens[t].createdAt
             || (tokens[o].createdAt == tokens[t].createdAt && o <= t)
  }

  predicate HasLink(tokens: map<TokenId, Token>, operation: Uuid) {
    exists t | t in tokens :: tokens[t].authority.DeepLink? && tokens[t].authority.operation == operation
  }

  /** Whose session follows an operation; expiry and consumption do not end ownership. */
  ghost function FindOperationOwner(tokens: map<TokenId, Token>, operation: Uuid): Option<int> {
    if t :| NewestLink(tokens, operation, t) then Some(tokens[t].user) else None
  }
}
