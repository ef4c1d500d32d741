/** The local projection of one Platform-accepted capture: binding, deep link and acknowledgement job
    in one idempotent transaction (crates/persistence/src/capture_projection.rs). */
module CaptureProjection {
  import opened Tables
  import opened OutboundQueue
  import opened Interaction
  import opened Acknowledgements

  predicate ConsistentProjection(intent: OperationIntent, ack: NewJob) {
    && intent.message.None?
    && ack.bot == intent.scope.bot && ack.chat == intent.scope.chat
    && ack.kind.SendMessage?
    && ack.operation == Some(intent.operation)
    && ack.revision.None?
  }

  predicate LiveLink(t: Token, intent: OperationIntent, now: int) {
    && t.authority.DeepLink? && t.authority.operation == intent.operation
    && t.bot == intent.scope.bot && t.user == intent.scope.user && t.chat == intent.scope.chat
    && t.consumedAt.None? && t.expiresAt > now
  }

  predicate HasLiveLink(db: Db, intent: OperationIntent, now: int) {
    exists t | t in db.tokens :: LiveLink(db.tokens[t], intent, now)
  }

  predicate IsAckJob(j: Job, key: BindingKey, bot: int) {
    && j.bot == bot && j.chat == key.chat && j.kind.SendMessage?
    && j.operation == Some(key.operation) && j.revision.None?
  }

  predicate HasAckJob(db: Db, key: BindingKey, bot: int) {
    exists id | id in db.jobs :: IsAckJob(db.jobs[id], key, bot)
  }

  function IntentKey(intent: OperationIntent): BindingKey { BindingKey(intent.operation, intent.scope.chat) }

  function EnsureBinding(db: Db, key: BindingKey, bot: int): Db {
    if key in db.bindings then db else db.(bindings := db.bindings[key := NewBinding(bot)])
  }

  function EnsureLink(db: Db, intent: OperationIntent, now: int): Db {
    if HasLiveLink(db, intent, now) then db else AddToken(db, DeepLinkToken(intent, now))
  }

  predicate NeedsAck(db: Db, intent: OperationIntent)
    requires IntentKey(intent) in db.bindings
  {
    db.bindings[IntentKey(intent)].message.None? && !HasAckJob(db, IntentKey(intent), intent.scope.bot)
  }

  function EnsureAck(db: Db, intent: OperationIntent, ack: NewJob, now: int): Db
    requires IntentKey(intent) in db.bindings
  {
    if NeedsAck(db, intent) then InsertJob(db, ack, now) else db
  }

  function RecordCapture(db: Db, intent: OperationIntent, ack: NewJob, now: int): (Db, Answer) {
    if !ConsistentProjection(intent, ack) then (db, Answer.Fault(InvalidCaptureProjection))
    else
      var bound := EnsureBinding(db, IntentKey(intent), intent.scope.bot);
      if bound.bindings[IntentKey(intent)].bot != intent.scope.bot then (db, Answer.Fault(InvalidCaptureProjection))
      else if !HasLiveLink(bound, intent, now) && intent.expiresAt <= now then (db, Answer.Fault(Query))
      else (EnsureAck(EnsureLink(bound, intent, now), intent, ack, now), Projected)
  }
}
