/** The method a claim is about to place on the wire, the acknowledgement of a successful write, and
    the binding updates around them (crates/persistence/src/outbound_acknowledgements.rs and
    message_bindings.rs). */
module Acknowledgements {
  import opened Tables
  import opened OutboundQueue
  import opened Interaction

  /** Persist the concrete method, so that lease recovery quarantines a downgraded edit too. */
  function PrepareMethod(db: Db, c: Claimed, wire: JobKind): Result<Db, Tables.Fault> {
    if Owns(db.jobs, c.id, c.attempts)
    then Ok(db.(jobs := db.jobs[c.id := db.jobs[c.id].(kind := wire)]))
    else Err(StaleOutboundAcknowledgement)
  }

  function NewBinding(bot: int): Binding { Binding(bot, None, 0, None, None, false) }

  /** Raise the rendered revision of a binding; an older or equal one changes nothing. */
  function AdvanceRender(bindings: map<BindingKey, Binding>, key: BindingKey, revision: int, at: int)
    : map<BindingKey, Binding>
  {
    if key in bindings && bindings[key].rendered < revision
    then bindings[key := bindings[key].(rendered := revision, renderedAt := Some(at))]
    else bindings
  }

  function UnbindMessage(bindings: map<BindingKey, Binding>, key: BindingKey)
    : Result<map<BindingKey, Binding>, Tables.Fault>
  {
    if key in bindings then Ok(bindings[key := bindings[key].(message := None)])
    else Err(UnknownBinding)
  }

  function BindMessage(bindings: map<BindingKey, Binding>, key: BindingKey, bot: int, message: int)
    : map<BindingKey, Binding>
  {
    var b := if key in bindings then bindings[key] else NewBinding(bot);
    bindings[key := b.(message := Some(message))]
  }

  function AckedBindings(bindings: map<BindingKey, Binding>, c: Claimed, wire: JobKind, message: int,
                         at: int): map<BindingKey, Binding>
  {
    if c.operation.None? then bindings
    else
      var key := BindingKey(c.operation.value, c.chat);
      var bound := if wire.SendMessage? then BindMessage(bindings, key, c.bot, message) else bindings;
      if c.revision.Some? then AdvanceRender(bound, key, c.revision.value, at) else bound
  }

  function AckedDecisions(decisions: map<DecisionKey, Decision>, id: JobId): map<DecisionKey, Decision> {
    map k | k in decisions ::
      if decisions[k].job == Some(id) then decisions[k].(outcome := DecisionOutcome.Delivered)
      else decisions[k]
  }

  /** Record every local effect of one acknowledged write. Repeating it with the same message id
      succeeds without effect; a conflicting or outdated acknowledgement is refused. */
  function RecordAck(db: Db, c: Claimed, wire: JobKind, message: int, at: int): Result<Db, Tables.Fault> {
    if c.id !in db.jobs then Err(UnknownOutboundJob)
    else if db.jobs[c.id].state.Sent? && db.jobs[c.id].acknowledged == Some(message) then Ok(db)
    else if !Owns(db.jobs, c.id, c.attempts) then Err(StaleOutboundAcknowledgement)
    else
      var stamped := if c.dialogue.Some? then StampCallback(db, c.dialogue.value, c.bot, c.chat, message).0 else db;
      var sent := db.jobs[c.id].(state := JobState.Sent, acknowledged := Some(message), lease := None, lastError := None);
      Ok(stamped.(
           jobs := db.jobs[c.id := sent],
           bindings := AckedBindings(db.bindings, c, wire, message, at),
           decisions := AckedDecisions(db.decisions, c.id)))
  }
}
