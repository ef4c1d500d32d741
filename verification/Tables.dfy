/** The rows of the `telegram` schema as values, and the database that holds them.

    Times are whole seconds since the Unix epoch. Fields that no statement reads back for a
    decision (payload text, content hash, creation and update stamps) are not represented. */
module Tables {

  datatype Option<+T> = None | Some(value: T)

  datatype Result<+T, +E> = Ok(value: T) | Err(error: E)

  datatype Fault =
    | Query
    | UnknownOutboundJob
    | StaleOutboundClaim
    | StaleOutboundAcknowledgement
    | UnknownBinding
    | InvalidCaptureProjection
    | InvalidPreference

  type JobId = nat
  type DialogueId = nat
  type TokenId = nat
  type Uuid = nat

  // ---------------------------------------------------------------- outbound queue

  datatype JobKind = SendMessage | EditMessageText

  datatype JobState =
    | Planned
    | Ready
    | Sending
    | Sent
    | RetryWait
    | Superseded
    | FailedPermanent
    | OutcomeUnknown
    | Cancelled

  /** The schema ties `notification_id` and `notification_created_at` to the notification class. */
  datatype DeliveryClass = Direct | Projection | Notification(notification: Uuid, createdAt: int)

  datatype PermanentClass =
    | BotBlocked
    | ChatNotFound
    | MembershipLost
    | MessageNotEditable
    | EditTargetGone
    | InvalidPayload
    | ChatMigrated

  datatype ErrorClass =
    | ProcessExitUnknown
    | TransportUnknown
    | TransientExhausted
    | Rejected(reason: PermanentClass)

  /** `dialogue` is the identity behind a `telegram-dialogue:` correlation string. */
  datatype Job = Job(
    bot: int,
    chat: int,
    kind: JobKind,
    operation: Option<Uuid>,
    revision: Option<int>,
    dialogue: Option<DialogueId>,
    delivery: DeliveryClass,
    state: JobState,
    attempts: nat,
    nextAttemptAt: int,
    lease: Option<int>,
    acknowledged: Option<int>,
    lastError: Option<ErrorClass>,
    recoveryOf: Option<JobId>)

  datatype BindingKey = BindingKey(operation: Uuid, chat: int)

  datatype Binding = Binding(
    bot: int,
    message: Option<int>,
    rendered: int,
    renderedAt: Option<int>,
    lastEventAt: Option<int>,
    terminal: bool)

  datatype DecisionOutcome =
    | Suppressed
    | Deferred
    | Enqueued
    | Delivered
    | RetryWait
    | FailedPermanent
    | OutcomeUnknown

  datatype DecisionKey = DecisionKey(notification: Uuid, chat: int)

  datatype Decision = Decision(
    outcome: DecisionOutcome,
    job: Option<JobId>,
    releaseAt: Option<int>)

  // ---------------------------------------------------------------- interaction authority

  datatype Capability = Metadata | Track | Star | Unsupported

  datatype Stage = Preview | Confirming | Submitting | Completed

  datatype Lifecycle = Active | Finished | Cancelled | Expired

  /** The Telegram update that a confirmed action was released to. */
  datatype ReleasingUpdate = ReleasingUpdate(bot: int, update: int)

  datatype Dialogue = Dialogue(
    bot: int,
    user: int,
    chat: int,
    message: Option<int>,
    step: Stage,
    version: nat,
    lifecycle: Lifecycle,
    target: Uuid,
    account: Option<Uuid>,
    mode: Option<Capability>,
    result: Option<Uuid>,
    key: DialogueId,
    releasing: Option<ReleasingUpdate>,
    expiresAt: int,
    terminalAt: Option<int>)

  datatype CallbackAction = Select(mode: Capability) | Confirm | Cancel

  /** What a token authorises; one variant for each surface, as the schema's CHECK demands. */
  datatype Authority =
    | Callback(action: CallbackAction, dialogue: DialogueId, version: nat)
    | DeepLink(operation: Uuid, payload: Uuid)
    | Command(internalUser: Uuid, analysis: Uuid)

  datatype Token = Token(
    authority: Authority,
    bot: int,
    user: int,
    chat: int,
    message: Option<int>,
    createdAt: int,
    expiresAt: int,
    consumedAt: Option<int>)

  // ---------------------------------------------------------------- the database

  /** Every table, and the next identity of each kind that the service mints. */
  datatype Db = Db(
    jobs: map<JobId, Job>,
    bindings: map<BindingKey, Binding>,
    inbox: set<Uuid>,
    decisions: map<DecisionKey, Decision>,
    dialogues: map<DialogueId, Dialogue>,
    tokens: map<TokenId, Token>,
    nextJob: JobId,
    nextDialogue: DialogueId,
    nextToken: TokenId)

  const EMPTY: Db := Db(map[], map[], {}, map[], map[], map[], 0, 0, 0)

  /** The schema's CHECK constraints over one dialogue row. */
  predicate DialogueChecks(d: Dialogue) {
    && (d.lifecycle.Active? <==> d.terminalAt.None?)
    && (d.lifecycle.Finished? <==> d.step.Completed?)
    && (d.step.Submitting? || d.step.Completed? <==> d.releasing.Some?)
  }
}
