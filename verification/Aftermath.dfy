/** What a wire call leaves behind once its pass is over: in the row, in the binding of its message, and in
    the decision that names it. */
module Aftermath {
  import opened Tables
  import opened OutboundQueue
  import opened Acknowledgements
  import opened Delivery
  import opened Machine
  import opened Schedules

  // ---------------------------------------------------------------- an acknowledged call

  /** An acknowledged send is the message of its binding; an acknowledged edit leaves the message. Either
      raises the rendered revision to the one it carried, never lowers it, and notes the render's time exactly
      when it raised it. Nothing else of the binding moves, and no other binding does. */
  lemma AcknowledgedCallIsBound(db: Db, c: Claimed, wire: JobKind, message: int, at: int)
    requires Owns(db.jobs, c.id, c.attempts) && c.operation.Some?
    requires BindingKey(c.operation.value, c.chat) in db.bindings
    ensures RecordAck(db, c, wire, message, at).Ok?
    ensures var after := RecordAck(db, c, wire, message, at).value;
      var key := BindingKey(c.operation.value, c.chat);
      && after.bindings.Keys == db.bindings.Keys
      && (forall k | k in db.bindings && k != key :: after.bindings[k] == db.bindings[k])
      && var b := db.bindings[key]; var bound := after.bindings[key];
         && (wire.SendMessage? ==> bound.message == Some(message))
         && (wire.EditMessageText? ==> bound.message == b.message)
         && b.rendered <= bound.rendered && (c.revision.Some? ==> c.revision.value <= bound.rendered)
         && (bound.rendered == b.rendered || c.revision == Some(bound.rendered))
         && bound.renderedAt == (if b.rendered < bound.rendered then Some(at) else b.renderedAt)
         && bound.bot == b.bot && bound.terminal == b.terminal && bound.lastEventAt == b.lastEventAt
  {
  }

  /** An acknowledged send of an operation without a binding makes one, of the bot that sent it. */
  lemma AcknowledgedSendMakesBinding(db: Db, c: Claimed, wire: JobKind, message: int, at: int)
    requires Owns(db.jobs, c.id, c.attempts) && c.operation.Some?
    requires BindingKey(c.operation.value, c.chat) !in db.bindings
    ensures RecordAck(db, c, wire, message, at).Ok?
    ensures var after := RecordAck(db, c, wire, message, at).value;
      var key := BindingKey(c.operation.value, c.chat);
      if wire.EditMessageText? then after.bindings == db.bindings
      else
        && after.bindings.Keys == db.bindings.Keys + {key}
        && (forall k | k in db.bindings :: after.bindings[k] == db.bindings[k])
        && var bound := after.bindings[key];
           && bound.bot == c.bot && bound.message == Some(message) && !bound.terminal && bound.lastEventAt.None?
           && bound.rendered == (if c.revision.Some? && c.revision.value > 0 then c.revision.value else 0)
           && bound.renderedAt == (if bound.rendered > 0 then Some(at) else None)
  {
  }

  /** The message that Telegram acknowledged is the one that is recorded, with the method that was called and
      the time at which it was. */
  lemma AcknowledgedMessageIsRecorded(s: Sys, w: WorkerId, message: int, draw: nat, replyLost: bool)
    requires Enabled(s, Wire(w, Acknowledged(message), true, draw))
    requires Owns(s.db.jobs, s.workers[w].claim.id, s.workers[w].claim.attempts)
    ensures var wire := if s.workers[w].phase.action.Send? then SendMessage else EditMessageText;
      var recorded := RecordAck(s.db, s.workers[w].claim, wire, message, s.workers[w].phase.at);
      recorded.Ok? && AckStep(WireStep(s, w, Acknowledged(message), true, draw), w, replyLost).db == recorded.value
  {
    AcknowledgedCallIsSent(s.db, s.workers[w].claim, MethodOf(s.workers[w].phase.action), message, s.workers[w].phase.at);
  }

  /** The row of an acknowledged call is sent under the message that Telegram named and holds no lease, the
      decision of its notification reads delivered, and no other row or decision moves. */
  lemma AcknowledgedCallIsSent(db: Db, c: Claimed, wire: JobKind, message: int, at: int)
    requires Owns(db.jobs, c.id, c.attempts)
    ensures RecordAck(db, c, wire, message, at).Ok?
    ensures var after := RecordAck(db, c, wire, message, at).value;
      && after.jobs.Keys == db.jobs.Keys && after.decisions.Keys == db.decisions.Keys
      && (forall id | id in db.jobs && id != c.id :: after.jobs[id] == db.jobs[id])
      && (forall k | k in db.decisions ::
            if db.decisions[k].job == Some(c.id)
            then after.decisions[k].outcome.Delivered? && after.decisions[k].releaseAt == db.decisions[k].releaseAt
                 && after.decisions[k].job == Some(c.id)
            else after.decisions[k] == db.decisions[k])
      && var j := db.jobs[c.id]; var row := after.jobs[c.id];
         && row.state.Sent? && row.acknowledged == Some(message) && row.lease.None? && row.lastError.None?
         && row.attempts == j.attempts && row.kind == j.kind && row.chat == j.chat
         && row.operation == j.operation && row.revision == j.revision && row.delivery == j.delivery
  {
  }

  /** Recording an acknowledgement again succeeds and changes nothing, whoever does it and whenever; one that
      names another message is refused. */
  lemma AcknowledgementRepeats(db: Db, c: Claimed, wire: JobKind, message: int, at: int, again: Claimed, other: int,
                               later: int)
    requires RecordAck(db, c, wire, message, at).Ok? && again.id == c.id
    ensures var after := RecordAck(db, c, wire, message, at).value;
      RecordAck(after, again, wire, other, later)
      == if other == message then Ok(after) else Err(StaleOutboundAcknowledgement)
  {
    if Owns(db.jobs, c.id, c.attempts) { AcknowledgedCallIsSent(db, c, wire, message, at); }
  }

  /** An acknowledgement succeeds exactly as its row's latest claim in flight, or when the row was sent under
      that message before. */
  lemma AcknowledgementIsFenced(db: Db, c: Claimed, wire: JobKind, message: int, at: int)
    ensures RecordAck(db, c, wire, message, at).Ok? <==>
      && c.id in db.jobs
      && var j := db.jobs[c.id];
         || (j.state == JobState.Sending && j.attempts == c.attempts)
         || (j.state == JobState.Sent && j.acknowledged == Some(message))
    ensures RecordAck(db, c, wire, message, at).Err? ==>
      RecordAck(db, c, wire, message, at).error
      == if c.id in db.jobs then StaleOutboundAcknowledgement else UnknownOutboundJob
  {
  }

  // ---------------------------------------------------------------- a withdrawn claim

  /** What the guard withdraws ends superseded, without a wire call. */
  lemma WithdrawnRowIsSuperseded(s: Sys, w: WorkerId, to: int, t: Sys)
    requires Enabled(s, RunGuard(w)) && Guard(s.workers[w].claim, s.db.bindings).Withdraw?
    requires Owns(s.db.jobs, s.workers[w].claim.id, s.workers[w].claim.attempts)
    requires t == SettleStep(GuardStep(s, w).(now := to), w)
    ensures w !in t.workers && t.history.sends == s.history.sends && t.db.bindings == s.db.bindings
    ensures var id := s.workers[w].claim.id;
      t.db.jobs == s.db.jobs[id := s.db.jobs[id].(state := JobState.Superseded, lastError := None, lease := None)]
  {
  }

  // ---------------------------------------------------------------- a failed call

  /** Put back for the jittered pause, counted from the settlement, or dead at the attempt bound. */
  predicate PutBackFor(limits: Limits, row: Job, to: int, secs: nat) {
    if row.attempts >= limits.maxAttempts
    then row.state.FailedPermanent? && row.lastError == Some(TransientExhausted)
    else row.state.RetryWait? && row.nextAttemptAt >= to && Jittered(limits, secs, row.nextAttemptAt - to)
  }

  predicate Refused(row: Job, reason: PermanentClass) {
    row.state.FailedPermanent? && row.lastError == Some(Rejected(reason))
  }

  /** The row that a failed call ends in, by what Telegram's client reported. */
  ghost predicate EndsAs(limits: Limits, action: WireAction, shape: FailureShape, row: Job, to: int) {
    match shape
    case RateLimited(retryAfter) => PutBackFor(limits, row, to, Asked(retryAfter))
    case ChatMigrated => Refused(row, PermanentClass.ChatMigrated)
    case Api(lowered) =>
      forall i: nat | FirstPhrase(lowered, i) ::
        if i == |PHRASES| then PutBackFor(limits, row, to, Grown(limits, row.attempts))
        else if PHRASES[i].1.NotModified? then row.state.Sent? && row.lastError.None?
        else PHRASES[i].1.Permanent? && Refused(row, PHRASES[i].1.reason)
    case _ =>
      if action.Send? then row.state.OutcomeUnknown? && row.lastError == Some(TransportUnknown)
      else PutBackFor(limits, row, to, Grown(limits, row.attempts))
  }

  /** A worker whose claim still holds its row calls Telegram, fails, and settles at `to`. */
  ghost predicate FailsAndSettles(s: Sys, w: WorkerId, shape: FailureShape, applied: bool, draw: nat, to: int, t: Sys) {
    && Enabled(s, Wire(w, Failed(shape), applied, draw))
    && s.workers[w].claim.id in s.db.jobs && s.db.jobs[s.workers[w].claim.id].state.Sending?
    && s.db.jobs[s.workers[w].claim.id].attempts == s.workers[w].claim.attempts
    && t == SettleStep(WireStep(s, w, Failed(shape), applied, draw).(now := to), w)
  }

  lemma SettledOnce(s: Sys, w: WorkerId, shape: FailureShape, applied: bool, draw: nat, to: int, t: Sys)
    requires FailsAndSettles(s, w, shape, applied, draw, to, t)
    ensures var c := s.workers[w].claim; var action := s.workers[w].phase.action;
      && t.db.jobs == s.db.jobs[c.id := Settled(s.db.jobs[c.id], to, s.limits.maxAttempts,
                                                FailureOutcome(s.limits, c, action, Classify(shape), draw))]
      && t.db.bindings == s.db.bindings && t.now == to && t.limits == s.limits
      && var follow := FollowUp(c, Classify(shape));
         if follow.Nothing? then w !in t.workers
         else w in t.workers && t.workers[w] == Worker(c, Following(follow, s.workers[w].phase.at))
  {
  }

  /** A failed call ends its row as the answer demands, lets go of the lease, and moves no other row. */
  lemma FailedCallEndsAs(s: Sys, w: WorkerId, shape: FailureShape, applied: bool, draw: nat, to: int, t: Sys)
    requires FailsAndSettles(s, w, shape, applied, draw, to, t)
    ensures var id := s.workers[w].claim.id;
      && t.db.jobs.Keys == s.db.jobs.Keys
      && (forall other | other in s.db.jobs && other != id :: t.db.jobs[other] == s.db.jobs[other])
      && t.db.jobs[id].lease.None? && t.db.jobs[id].attempts == s.db.jobs[id].attempts
      && EndsAs(s.limits, s.workers[w].phase.action, shape, t.db.jobs[id], to)
  {
    SettledOnce(s, w, shape, applied, draw, to, t);
    var c := s.workers[w].claim;
    var action := s.workers[w].phase.action;
    EachFailureIsSettledAs(s.limits, c, action, shape, draw);
    SettledEndsAs(s.limits, c, action, shape, FailureOutcome(s.limits, c, action, Classify(shape), draw),
                  s.db.jobs[c.id], to);
  }

  lemma SettledEndsAs(limits: Limits, c: Claimed, action: WireAction, shape: FailureShape, outcome: DeliveryOutcome,
                      j: Job, to: int)
    requires j.attempts == c.attempts
    requires SettlesAs(limits, c, action, shape, outcome)
    ensures var row := Settled(j, to, limits.maxAttempts, outcome);
      row.lease.None? && row.attempts == j.attempts && EndsAs(limits, action, shape, row, to)
  {
  }

  /** Phrases that say the message or the chat is gone for the bot. */
  predicate SaysGone(i: nat) { 1 <= i <= 11 }

  lemma GoneMeansLost(i: nat)
    requires i < |PHRASES|
    ensures PHRASES[i].1.Permanent? && LosesMessage(PHRASES[i].1.reason) <==> SaysGone(i)
    ensures PHRASES[i].1.NotModified? <==> i == 0
  {
    assert i == 0 || i == 1 || i == 2 || i == 3 || i == 4 || i == 5 || i == 6 || i == 7 || i == 8 || i == 9 || i == 10
           || i == 11 || i == 12;
  }

  /** After the refusal of an edit job that says its message is gone, and only then, the binding has no message
      left, so that the next render is sent anew; a refusal that says nothing changed counts as shown. */
  lemma RefusalMovesBinding(s: Sys, w: WorkerId, lowered: string, i: nat, draw: nat, to: int, t: Sys)
    requires FirstPhrase(lowered, i) && FailsAndSettles(s, w, Api(lowered), false, draw, to, t)
    requires var c := s.workers[w].claim;
      && c.operation.Some? && c.revision.Some? && BindingKey(c.operation.value, c.chat) in s.db.bindings
    ensures var c := s.workers[w].claim;
      var key := BindingKey(c.operation.value, c.chat);
      var u := if w in t.workers then FollowStep(t, w) else t;
      var b := s.db.bindings[key];
      && w !in u.workers && u.db.bindings.Keys == s.db.bindings.Keys
      && u.db.bindings[key].message == (if SaysGone(i) && c.kind.EditMessageText? then None else b.message)
      && u.db.bindings[key].rendered == (if i == 0 && b.rendered < c.revision.value then c.revision.value else b.rendered)
      && u.db.bindings[key].renderedAt
         == (if u.db.bindings[key].rendered != b.rendered then Some(s.workers[w].phase.at) else b.renderedAt)
      && u.db.bindings[key].bot == b.bot
      && u.db.bindings[key].terminal == b.terminal && u.db.bindings[key].lastEventAt == b.lastEventAt
      && forall k | k in s.db.bindings && k != key :: u.db.bindings[k] == s.db.bindings[k]
  {
    SettledOnce(s, w, Api(lowered), false, draw, to, t);
    FirstPhraseDecides(lowered, i);
    FollowsRefusal(s.workers[w].claim, lowered, i);
  }

  lemma FollowsRefusal(c: Claimed, lowered: string, i: nat)
    requires c.operation.Some? && c.revision.Some? && FirstPhrase(lowered, i)
    ensures FollowUp(c, Classify(Api(lowered)))
            == if i == 0 then Advance else if SaysGone(i) && c.kind.EditMessageText? then Unbind else Nothing
  {
    FirstPhraseDecides(lowered, i);
    if i < |PHRASES| { GoneMeansLost(i); }
  }

  /** A failure without such a description ends the pass with its settlement, and moves no binding. */
  lemma OtherFailuresMoveNoBinding(s: Sys, w: WorkerId, shape: FailureShape, applied: bool, draw: nat, to: int, t: Sys)
    requires FailsAndSettles(s, w, shape, applied, draw, to, t) && !shape.Api?
    ensures w !in t.workers && t.db.bindings == s.db.bindings
  {
    SettledOnce(s, w, shape, applied, draw, to, t);
  }
}
