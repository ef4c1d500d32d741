/** When a row is attempted next: the pauses after a failure, the verdict of each failure, and the render
    interval of an accepted event. */
module Schedules {
  import opened Tables
  import opened OutboundQueue
  import opened ProjectionAccept
  import opened Delivery

  // ---------------------------------------------------------------- pauses

  /** A pause of `d` seconds is `secs` with a jitter that stays below its share in thousandths. */
  predicate Jittered(limits: Limits, secs: nat, d: nat) {
    secs <= d <= U32_MAX && (d == secs || 1000 * (d - secs) < secs * limits.jitterMilli)
  }

  lemma JitterIsBelowShare(limits: Limits, secs: nat, draw: nat)
    requires secs <= U32_MAX
    ensures Jittered(limits, secs, Saturate(secs + JitterSecs(limits, secs, draw), U32_MAX))
  {
    var share := secs * limits.jitterMilli;
    var bound := Saturate(share, U64_MAX);
    var extra := JitterSecs(limits, secs, draw);
    if bound > 0 {
      assert 0 <= draw % bound < bound <= share;
      assert 1000 * extra < share;
    }
  }

  lemma JitterReaches(limits: Limits, secs: nat, d: nat)
    requires Jittered(limits, secs, d)
    ensures Saturate(secs + JitterSecs(limits, secs, 1000 * (d - secs)), U32_MAX) == d
  {
    var share := secs * limits.jitterMilli;
    var bound := Saturate(share, U64_MAX);
    var draw := 1000 * (d - secs);
    if d > secs {
      assert draw < bound;
      ModBelow(draw, bound);
    } else if bound > 0 {
      ModBelow(0, bound);
    }
  }

  lemma ModBelow(n: nat, bound: nat)
    requires n < bound
    ensures n % bound == n
  {
  }

  /** The pauses after a transient failure are exactly the grown delay and what lies less than its jitter
      share above it. */
  lemma BackoffIsJittered(limits: Limits, attempts: nat, d: nat)
    ensures (exists draw :: TransientBackoff(limits, attempts, draw) == d)
            <==> Jittered(limits, Grown(limits, attempts), d)
  {
    var secs := Grown(limits, attempts);
    if draw :| TransientBackoff(limits, attempts, draw) == d { JitterIsBelowShare(limits, secs, draw); }
    if Jittered(limits, secs, d) {
      JitterReaches(limits, secs, d);
      assert TransientBackoff(limits, attempts, 1000 * (d - secs)) == d;
    }
  }

  /** The pause that Telegram asks for: none for a negative one, and at most what 32 bits hold. */
  function Asked(retryAfter: int): nat { if retryAfter < 0 then 0 else Saturate(retryAfter, U32_MAX) }

  /** The pauses after a flood limit are exactly the asked one and what lies less than its jitter share above
      it: Telegram is never called early. */
  lemma FloodPauseIsJittered(limits: Limits, retryAfter: int, d: nat)
    ensures (exists draw :: RateLimitDelay(limits, retryAfter, draw) == d)
            <==> Jittered(limits, Asked(retryAfter), d)
  {
    var secs := Asked(retryAfter);
    if draw :| RateLimitDelay(limits, retryAfter, draw) == d { JitterIsBelowShare(limits, secs, draw); }
    if Jittered(limits, secs, d) {
      JitterReaches(limits, secs, d);
      assert RateLimitDelay(limits, retryAfter, 1000 * (d - secs)) == d;
    }
  }

  // ---------------------------------------------------------------- verdicts

  /** The phrases of an API description in the order they are looked for, with what each one means. */
  const PHRASES: seq<(string, Classified)> := [
    ("message is not modified", Classified.NotModified),
    ("bot was blocked by the user", Permanent(BotBlocked)),
    ("chat not found", Permanent(ChatNotFound)),
    ("user is deactivated", Permanent(MembershipLost)),
    ("kicked", Permanent(MembershipLost)),
    ("bot is not a member", Permanent(MembershipLost)),
    ("not enough rights", Permanent(MembershipLost)),
    ("message can't be edited", Permanent(MessageNotEditable)),
    ("message can not be edited", Permanent(MessageNotEditable)),
    ("there is no text in the message to edit", Permanent(MessageNotEditable)),
    ("message to edit not found", Permanent(EditTargetGone)),
    ("message to forward not found", Permanent(EditTargetGone)),
    ("can't parse entities", Permanent(InvalidPayload))]

  /** Phrase `i` is the first that a description contains, or `i` is past the last when it contains none. */
  predicate FirstPhrase(lowered: string, i: nat) {
    && i <= |PHRASES|
    && (i < |PHRASES| ==> Contains(lowered, PHRASES[i].0))
    && forall k | 0 <= k < i :: !Contains(lowered, PHRASES[k].0)
  }

  /** A description means what the first phrase in it means, and is transient without any. */
  lemma FirstPhraseDecides(lowered: string, i: nat)
    requires FirstPhrase(lowered, i)
    ensures ClassifyDescription(lowered) == if i < |PHRASES| then PHRASES[i].1 else Transient
  {
    assert |PHRASES| == 13;
    assert forall k | 0 <= k < 13 :: k < i ==> !Contains(lowered, PHRASES[k].0);
    assert 0 < i ==> !Contains(lowered, PHRASES[0].0);
    assert 1 < i ==> !Contains(lowered, PHRASES[1].0);
    assert 2 < i ==> !Contains(lowered, PHRASES[2].0);
    assert 3 < i ==> !Contains(lowered, PHRASES[3].0);
    assert 4 < i ==> !Contains(lowered, PHRASES[4].0);
    assert 5 < i ==> !Contains(lowered, PHRASES[5].0);
    assert 6 < i ==> !Contains(lowered, PHRASES[6].0);
    assert 7 < i ==> !Contains(lowered, PHRASES[7].0);
    assert 8 < i ==> !Contains(lowered, PHRASES[8].0);
    assert 9 < i ==> !Contains(lowered, PHRASES[9].0);
    assert 10 < i ==> !Contains(lowered, PHRASES[10].0);
    assert 11 < i ==> !Contains(lowered, PHRASES[11].0);
    assert 12 < i ==> !Contains(lowered, PHRASES[12].0);
  }

  lemma {:induction false} PhraseFrom(lowered: string, i: nat) returns (first: nat)
    requires i <= |PHRASES| && forall k | 0 <= k < i :: !Contains(lowered, PHRASES[k].0)
    ensures FirstPhrase(lowered, first)
    decreases |PHRASES| - i
  {
    if i == |PHRASES| || Contains(lowered, PHRASES[i].0) {
      first := i;
    } else {
      first := PhraseFrom(lowered, i + 1);
    }
  }

  /** A refusal that names a permanent reason ends the row, a flood limit puts it back for at least the pause
      asked, a send without proof of refusal is quarantined, and everything else is put back for the grown
      delay. */
  ghost predicate SettlesAs(limits: Limits, c: Claimed, action: WireAction, shape: FailureShape, outcome: DeliveryOutcome) {
    match shape
    case RateLimited(retryAfter) => outcome.RetryWithBackoff? && Jittered(limits, Asked(retryAfter), outcome.delay)
    case ChatMigrated => outcome == DeliveryOutcome.FailedPermanent(PermanentClass.ChatMigrated)
    case Api(lowered) =>
      forall i: nat | FirstPhrase(lowered, i) ::
        if i == |PHRASES| then
          outcome.RetryWithBackoff? && Jittered(limits, Grown(limits, c.attempts), outcome.delay)
        else if PHRASES[i].1.NotModified? then outcome == DeliveryOutcome.NotModified
        else PHRASES[i].1.Permanent? && outcome == DeliveryOutcome.FailedPermanent(PHRASES[i].1.reason)
    case _ =>
      if action.Send? then outcome == DeliveryOutcome.OutcomeUnknown
      else outcome.RetryWithBackoff? && Jittered(limits, Grown(limits, c.attempts), outcome.delay)
  }

  /** What a failed call settles as follows from Telegram's answer alone. */
  lemma EachFailureIsSettledAs(limits: Limits, c: Claimed, action: WireAction, shape: FailureShape, draw: nat)
    ensures SettlesAs(limits, c, action, shape, FailureOutcome(limits, c, action, Classify(shape), draw))
  {
    JitterIsBelowShare(limits, Grown(limits, c.attempts), draw);
    match shape
    case RateLimited(retryAfter) => JitterIsBelowShare(limits, Asked(retryAfter), draw);
    case Api(lowered) =>
      forall i: nat | FirstPhrase(lowered, i)
        ensures ClassifyDescription(lowered) == if i < |PHRASES| then PHRASES[i].1 else Transient
        ensures i < |PHRASES| ==> PHRASES[i].1.NotModified? || PHRASES[i].1.Permanent?
      {
        FirstPhraseDecides(lowered, i);
      }
    case _ =>
  }

  // ---------------------------------------------------------------- the render interval

  /** The moment `t` is not before now, nor within the interval of the last delivered render. */
  predicate Waited(b: Binding, now: int, interval: int, t: int) {
    now <= t && SaturatingAdd(if b.renderedAt.Some? then b.renderedAt.value else 0, Max(interval, 0)) <= t
  }

  /** The row of a recorded event edits the message of the operation's lowest chat, in that binding's bot, with
      the revision just assigned. A terminal event is due at once, and any other at the first moment that is
      not within the interval of the last delivered render. Every other row keeps its time. */
  lemma RecordedEventIsScheduled(db: Db, event: Event, now: int, interval: int)
    requires Accept(db, event, now, interval).1.Recorded? && db.nextJob !in db.jobs
    ensures var (after, outcome) := Accept(db, event, now, interval);
      && db.nextJob in after.jobs
      && var row := after.jobs[db.nextJob];
         var key := BindingKey(event.operation, row.chat);
         && Locked(db.bindings, event.operation, key)
         && row.bot == db.bindings[key].bot && row.kind.EditMessageText? && row.operation == Some(event.operation)
         && row.revision == Some(outcome.revision) && row.delivery.Direct? && row.dialogue.None?
         && row.state.Ready? && row.attempts == 0
         && (event.terminal ==> row.nextAttemptAt == now)
         && (!event.terminal ==>
               && Waited(db.bindings[key], now, interval, row.nextAttemptAt)
               && forall t | Waited(db.bindings[key], now, interval, t) :: row.nextAttemptAt <= t)
    ensures forall id | id in db.jobs ::
      id in Accept(db, event, now, interval).0.jobs
      && Accept(db, event, now, interval).0.jobs[id].nextAttemptAt == db.jobs[id].nextAttemptAt
  {
  }

  /** The row carries this revision of the binding. */
  predicate AtRevision(j: Job, key: BindingKey, revision: int) {
    j.operation == Some(key.operation) && j.chat == key.chat && j.revision == Some(revision)
  }

  /** The revision just assigned is above the rendered one and above every revision that any row of the binding
      carries, withdrawn ones included, and it is the first such revision. */
  lemma RevisionIsNext(db: Db, event: Event, now: int, interval: int, key: BindingKey)
    requires Accept(db, event, now, interval).1.Recorded? && Locked(db.bindings, event.operation, key)
    ensures var revision := Accept(db, event, now, interval).1.revision; var rendered := db.bindings[key].rendered;
      && rendered < revision
      && (forall id, r | id in db.jobs && AtRevision(db.jobs[id], key, r) :: r < revision)
      && (rendered + 1 == revision || revision == 1 || exists id | id in db.jobs :: AtRevision(db.jobs[id], key, revision - 1))
  {
    LockedIsUnique(db.bindings, event.operation, key, LockBinding(db.bindings, event.operation).value);
    var revision := Accept(db, event, now, interval).1.revision;
    assert revision == NextRevision(db.jobs, key, db.bindings[key]);
    NextIsFirstAbove(db.jobs, key, db.bindings[key].rendered, revision);
  }

  lemma NextIsFirstAbove(jobs: map<JobId, Job>, key: BindingKey, rendered: int, revision: int)
    requires revision == Max(Greatest(Assigned(jobs, key)), rendered) + 1
    ensures rendered < revision
    ensures forall id, r | id in jobs && AtRevision(jobs[id], key, r) :: r < revision
    ensures rendered + 1 == revision || revision == 1 || exists id | id in jobs :: AtRevision(jobs[id], key, revision - 1)
  {
    var queued := Assigned(jobs, key);
    forall id, r | id in jobs && AtRevision(jobs[id], key, r) ensures r < revision {
      assert Carries(jobs[id], key) && jobs[id].revision.value in queued;
    }
    if queued != {} && rendered < Greatest(queued) {
      var id :| id in jobs && Carries(jobs[id], key) && jobs[id].revision.value == Greatest(queued);
      assert AtRevision(jobs[id], key, revision - 1);
    }
  }

  // ---------------------------------------------------------------- the sweep

  /** What a new revision of a binding withdraws: the waiting edits of the same operation and chat with a
      lower revision. Sends, rows in flight and finished rows stay, whatever their revision. */
  predicate Overtaken(j: Job, operation: Uuid, chat: int, revision: int) {
    && j.kind == EditMessageText && j.operation == Some(operation) && j.chat == chat
    && j.revision.Some? && j.revision.value < revision
    && (j.state == JobState.Planned || j.state == JobState.Ready || j.state == JobState.RetryWait)
  }

  /** Recording an event withdraws exactly the overtaken rows of its binding. */
  lemma RecordingWithdrawsOvertaken(db: Db, event: Event, now: int, interval: int, id: JobId)
    requires Accept(db, event, now, interval).1.Recorded? && db.nextJob !in db.jobs && id in db.jobs
    ensures var (after, outcome) := Accept(db, event, now, interval);
      && db.nextJob in after.jobs && id in after.jobs
      && after.jobs[id] == if Overtaken(db.jobs[id], event.operation, after.jobs[db.nextJob].chat, outcome.revision)
                           then db.jobs[id].(state := JobState.Superseded) else db.jobs[id]
  {
  }

  /** And so does enqueuing a row that carries a revision; without one nothing is withdrawn. */
  lemma EnqueuingWithdrawsOvertaken(db: Db, order: NewJob, now: int, id: JobId)
    requires db.nextJob !in db.jobs && id in db.jobs
    ensures var after := InsertJob(db, order, now);
      && id in after.jobs
      && after.jobs[id] ==
           if order.operation.Some? && order.revision.Some?
              && Overtaken(db.jobs[id], order.operation.value, order.chat, order.revision.value)
           then db.jobs[id].(state := JobState.Superseded) else db.jobs[id]
  {
  }

  // ---------------------------------------------------------------- fresh rows

  /** An enqueued row is what was ordered, ready and unclaimed, due at the ordered time or at once. */
  lemma EnqueuedAsOrdered(db: Db, order: NewJob, now: int)
    ensures var after := InsertJob(db, order, now);
      && db.nextJob in after.jobs && after.nextJob == db.nextJob + 1
      && var row := after.jobs[db.nextJob];
         && row.bot == order.bot && row.chat == order.chat && row.kind == order.kind
         && row.operation == order.operation && row.revision == order.revision && row.dialogue == order.dialogue
         && row.delivery.Direct? && row.state.Ready? && row.attempts == 0
         && row.lease.None? && row.acknowledged.None? && row.lastError.None? && row.recoveryOf.None?
         && (order.nextAttemptAt.Some? ==> row.nextAttemptAt == order.nextAttemptAt.value)
         && (order.nextAttemptAt.None? ==> row.nextAttemptAt == now)
  {
  }

  /** An operator's recovery sends what the quarantined row was to send, to the same chat and at once, in the
      same class and for the same binding and dialogue, and names the row it recovers, which keeps all but the
      class of a notification. */
  lemma RecoverySendsTheSame(db: Db, id: JobId, now: int)
    requires Recover(db, id, now).Some? && db.nextJob !in db.jobs
    ensures var after := Recover(db, id, now).value;
      && id in db.jobs && db.jobs[id].state.OutcomeUnknown? && db.jobs[id].kind.SendMessage?
      && db.nextJob in after.jobs
      && var source := db.jobs[id]; var row := after.jobs[db.nextJob];
         && row.bot == source.bot && row.chat == source.chat && row.kind.SendMessage?
         && row.operation == source.operation && row.revision == source.revision && row.dialogue == source.dialogue
         && row.delivery == source.delivery && row.recoveryOf == Some(id)
         && row.state.Ready? && row.attempts == 0 && row.nextAttemptAt == now && row.acknowledged.None?
         && after.jobs == db.jobs[db.nextJob := row][id := after.jobs[id]]
         && after.jobs[id] == (if source.delivery.Notification? then source.(delivery := Direct) else source)
         && (forall k | k in db.decisions ::
               k in after.decisions
               && if source.delivery.Notification? && db.decisions[k].job == Some(id)
                  then after.decisions[k].job == Some(db.nextJob) && after.decisions[k].outcome.Enqueued?
                  else after.decisions[k] == db.decisions[k])
  {
  }
}
