/** The database handle: one method for each transaction, updating the tables in place. Each method is
    proved equal to the value-level step that the state machine takes. */
module Store {
  import opened Tables
  import opened OutboundQueue
  import opened Interaction
  import opened Acknowledgements
  import opened ProjectionAccept
  import opened Notifications
  import opened CaptureProjection
  import opened Cleanup

  /** What was decided so far, before what the remaining candidates add. */
  function Continue(outcomes: seq<DecisionOutcome>, rest: Result<(Db, seq<DecisionOutcome>), Fault>)
    : Result<(Db, seq<DecisionOutcome>), Fault>
  {
    match rest
    case Err(fault) => Err(fault)
    case Ok((last, more)) => Ok((last, outcomes + more))
  }

  lemma ContinueNothing(rest: Result<(Db, seq<DecisionOutcome>), Fault>)
    ensures Continue([], rest) == rest
  {
    if rest.Ok? { assert [] + rest.value.1 == rest.value.1; }
  }

  lemma DecideAllStep(db: Db, n: Notice, candidates: seq<Candidate>, i: nat, releaseAt: Option<int>,
                      outcomes: seq<DecisionOutcome>, now: int)
    requires i < |candidates| && ReleaseTime(candidates[i], n, now) == Ok(releaseAt)
    ensures var c := candidates[i];
      var more := if DecisionKey(n.notification, c.chat) in db.decisions then outcomes
                  else outcomes + [Verdict(c, releaseAt)];
      Continue(outcomes, DecideAll(db, n, candidates[i..], now))
      == Continue(more, DecideAll(DecideOne(db, n, c, releaseAt, now), n, candidates[i + 1..], now))
  {
    var c := candidates[i];
    assert candidates[i..][0] == c && candidates[i..][1..] == candidates[i + 1..];
    var rest := DecideAll(DecideOne(db, n, c, releaseAt, now), n, candidates[i + 1..], now);
    if rest.Ok? {
      assert outcomes + ([Verdict(c, releaseAt)] + rest.value.1) == (outcomes + [Verdict(c, releaseAt)]) + rest.value.1;
    }
  }

  class Database {
    var jobs: map<JobId, Job>
    var bindings: map<BindingKey, Binding>
    var inbox: set<Uuid>
    var decisions: map<DecisionKey, Decision>
    var dialogues: map<DialogueId, Dialogue>
    var tokens: map<TokenId, Token>
    var nextJob: JobId
    var nextDialogue: DialogueId
    var nextToken: TokenId

    function View(): Db
      reads this
    {
      Db(jobs, bindings, inbox, decisions, dialogues, tokens, nextJob, nextDialogue, nextToken)
    }

    constructor ()
      ensures View() == EMPTY
    {
      jobs, bindings, inbox, decisions, dialogues, tokens := map[], map[], {}, map[], map[], map[];
      nextJob, nextDialogue, nextToken := 0, 0, 0;
    }

    // -------------------------------------------------------------- queue: enqueue

    /** The `update` statement that withdraws older waiting edits. */
    method SweepOlderEdits(operation: Uuid, chat: int, revision: int)
      modifies this`jobs
      ensures jobs == Sweep(old(jobs), operation, chat, revision)
    {
      jobs := map id | id in jobs ::
        if jobs[id].operation == Some(operation) && jobs[id].chat == chat && jobs[id].kind.EditMessageText?
           && (jobs[id].state.Planned? || jobs[id].state == JobState.Ready || jobs[id].state == JobState.RetryWait)
           && jobs[id].revision.Some? && jobs[id].revision.value < revision
        then jobs[id].(state := JobState.Superseded)
        else jobs[id];
    }

    method AddRow(job: Job) returns (id: JobId)
      modifies this`jobs, this`nextJob
      ensures View() == AddJob(old(View()), job) && id == old(nextJob)
    {
      id := nextJob;
      jobs := jobs[id := job];
      nextJob := nextJob + 1;
    }

    method InsertOutboundJob(order: NewJob, now: int) returns (id: JobId)
      modifies this`jobs, this`nextJob
      ensures View() == InsertJob(old(View()), order, now) && id == old(nextJob)
    {
      if order.operation.Some? && order.revision.Some? {
        SweepOlderEdits(order.operation.value, order.chat, order.revision.value);
      }
      var dueAt := now;
      if order.nextAttemptAt.Some? {
        dueAt := order.nextAttemptAt.value;
      }
      id := AddRow(Job(order.bot, order.chat, order.kind, order.operation, order.revision, order.dialogue, Direct,
                       JobState.Ready, 0, dueAt, None, None, None, None));
    }

    // -------------------------------------------------------------- queue: claim

    method QuarantineExpiredSends(now: int)
      modifies this`jobs, this`decisions
      ensures View() == Quarantine(old(View()), now)
    {
      var expired := set id | id in jobs && jobs[id].state.Sending? && jobs[id].kind.SendMessage?
                              && jobs[id].lease.Some? && jobs[id].lease.value <= now;
      jobs := map id | id in jobs ::
        if id in expired
        then jobs[id].(state := JobState.OutcomeUnknown, lease := None, lastError := Some(ProcessExitUnknown))
        else jobs[id];
      decisions := map k | k in decisions ::
        if decisions[k].job.Some? && decisions[k].job.value in expired
        then decisions[k].(outcome := DecisionOutcome.OutcomeUnknown)
        else decisions[k];
    }

    /** `order by rank, id limit 1` over the eligible rows. */
    method PickHead(now: int) returns (head: Option<JobId>)
      ensures IsHead(jobs, now, head)
    {
      head := None;
      var remaining := jobs.Keys;
      while remaining != {}
        invariant remaining <= jobs.Keys
        invariant head.None? ==> forall id | id in jobs.Keys - remaining :: !Eligible(jobs, now, id)
        invariant head.Some? ==>
          && Eligible(jobs, now, head.value)
          && forall id | id in jobs.Keys - remaining ::
               Eligible(jobs, now, id) ==> NotAfter(jobs, now, head.value, id)
      {
        var id :| id in remaining;
        remaining := remaining - {id};
        if Eligible(jobs, now, id) && (head.None? || NotAfter(jobs, now, id, head.value)) {
          head := Some(id);
        }
      }
      if head.Some? { HeadIsGlobalMinimum(jobs, now, head.value); }
    }

    method ClaimDueOutboundJob(now: int, ttl: nat) returns (claimed: Option<Claimed>, ghost head: Option<JobId>)
      modifies this`jobs, this`decisions
      ensures IsHead(Quarantine(old(View()), now).jobs, now, head)
      ensures View() == Claim(old(View()), now, ttl, head)
      ensures claimed == if head.None? then None else Some(SnapshotOf(head.value, jobs[head.value]))
    {
      QuarantineExpiredSends(now);
      var found := PickHead(now);
      head := found;
      if found.None? {
        return None, head;
      }
      var id := found.value;
      jobs := jobs[id := jobs[id].(state := JobState.Sending, lease := Some(now + ttl),
                                   attempts := jobs[id].attempts + 1)];
      var job := jobs[id];
      claimed := Some(Claimed(id, job.bot, job.chat, job.kind, job.operation, job.revision, job.dialogue,
                              job.recoveryOf, job.attempts));
    }

    // -------------------------------------------------------------- queue: settlement

    method SettleNotification(id: JobId)
      requires id in jobs
      modifies this`decisions
      ensures decisions == MirrorDecision(old(decisions), id, jobs[id].state)
    {
      decisions := map k | k in decisions ::
        if decisions[k].job == Some(id)
        then decisions[k].(outcome := OutcomeAfter(jobs[id].state, decisions[k].outcome))
        else decisions[k];
    }

    /** Terminal settlement of one row, fenced by its state and attempt; tells whether a row matched. */
    method SettleTerminal(id: JobId, attempt: nat, state: JobState, error: Option<ErrorClass>) returns (matched: bool)
      modifies this`jobs
      ensures matched <==> Owns(old(jobs), id, attempt)
      ensures !matched ==> jobs == old(jobs)
      ensures matched ==> jobs == old(jobs)[id := old(jobs)[id].(state := state, lastError := error, lease := None)]
    {
      matched := id in jobs && jobs[id].state.Sending? && jobs[id].attempts == attempt;
      if matched {
        jobs := jobs[id := jobs[id].(state := state, lastError := error, lease := None)];
      }
    }

    /** The retry settlement: the same fence, and the dead-letter rule at the attempt bound. */
    method SettleRetry(id: JobId, attempt: nat, now: int, maxAttempts: nat, delay: nat) returns (matched: bool)
      modifies this`jobs
      ensures matched <==> Owns(old(jobs), id, attempt)
      ensures !matched ==> jobs == old(jobs)
      ensures matched ==> jobs == old(jobs)[id := Settled(old(jobs)[id], now, maxAttempts, RetryWithBackoff(delay))]
    {
      matched := id in jobs && jobs[id].state.Sending? && jobs[id].attempts == attempt;
      if matched && jobs[id].attempts >= maxAttempts {
        jobs := jobs[id := jobs[id].(state := JobState.FailedPermanent, lastError := Some(TransientExhausted), lease := None)];
      } else if matched {
        jobs := jobs[id := jobs[id].(state := JobState.RetryWait, nextAttemptAt := now + delay, lease := None)];
      }
    }

    method SettleOutboundJob(id: JobId, attempt: nat, now: int, maxAttempts: nat, outcome: DeliveryOutcome)
      returns (r: Result<(), Fault>)
      modifies this`jobs, this`decisions
      ensures match Settle(old(View()), id, attempt, now, maxAttempts, outcome)
              case Ok(after) => View() == after && r == Ok(())
              case Err(fault) => View() == old(View()) && r == Err(fault)
    {
      var matched;
      match outcome {
        case Sent => matched := SettleTerminal(id, attempt, JobState.Sent, None);
        case NotModified => matched := SettleTerminal(id, attempt, JobState.Sent, None);
        case SupersededStale => matched := SettleTerminal(id, attempt, JobState.Superseded, None);
        case FailedPermanent(reason) =>
          matched := SettleTerminal(id, attempt, JobState.FailedPermanent, Some(Rejected(reason)));
        case OutcomeUnknown => matched := SettleTerminal(id, attempt, JobState.OutcomeUnknown, Some(TransportUnknown));
        case RetryWithBackoff(delay) => matched := SettleRetry(id, attempt, now, maxAttempts, delay);
      }
      if !matched {
        return Err(if id in jobs then StaleOutboundClaim else UnknownOutboundJob);
      }
      SettleNotification(id);
      r := Ok(());
    }

    // -------------------------------------------------------------- acknowledgements

    method PrepareOutboundMethod(c: Claimed, wire: JobKind) returns (r: Result<(), Fault>)
      modifies this`jobs
      ensures match PrepareMethod(old(View()), c, wire)
              case Ok(after) => View() == after && r == Ok(())
              case Err(fault) => View() == old(View()) && r == Err(fault)
    {
      if !Owns(jobs, c.id, c.attempts) {
        return Err(StaleOutboundAcknowledgement);
      }
      jobs := jobs[c.id := jobs[c.id].(kind := wire)];
      r := Ok(());
    }

    method AdvanceRenderedRevision(key: BindingKey, revision: int, at: int)
      modifies this`bindings
      ensures bindings == AdvanceRender(old(bindings), key, revision, at)
    {
      if key in bindings && bindings[key].rendered < revision {
        bindings := bindings[key := bindings[key].(rendered := revision, renderedAt := Some(at))];
      }
    }

    method UnbindBoundMessage(key: BindingKey) returns (r: Result<(), Fault>)
      modifies this`bindings
      ensures match UnbindMessage(old(bindings), key)
              case Ok(after) => bindings == after && r == Ok(())
              case Err(fault) => bindings == old(bindings) && r == Err(fault)
    {
      if key !in bindings {
        return Err(UnknownBinding);
      }
      bindings := bindings[key := bindings[key].(message := None)];
      r := Ok(());
    }

    method StampCallbackMessage(id: DialogueId, bot: int, chat: int, message: int) returns (applied: bool)
      modifies this`dialogues, this`tokens
      ensures (View(), applied) == StampCallback(old(View()), id, bot, chat, message)
    {
      if !Stampable(View(), id, bot, chat) {
        return false;
      }
      var version := dialogues[id].version;
      dialogues := dialogues[id := dialogues[id].(message := Some(message))];
      tokens := map t | t in tokens ::
        if CarriesVersion(tokens[t], id, version) then tokens[t].(message := Some(message)) else tokens[t];
      applied := true;
    }

    /** The effects of an acknowledgement on the render it delivered. */
    method BindAcknowledged(c: Claimed, wire: JobKind, message: int, at: int)
      modifies this`bindings
      ensures bindings == AckedBindings(old(bindings), c, wire, message, at)
    {
      if c.operation.None? {
        return;
      }
      var key := BindingKey(c.operation.value, c.chat);
      if wire.SendMessage? {
        var b := if key in bindings then bindings[key] else NewBinding(c.bot);
        bindings := bindings[key := b.(message := Some(message))];
      }
      if c.revision.Some? {
        AdvanceRenderedRevision(key, c.revision.value, at);
      }
    }

    method RecordOutboundAcknowledgement(c: Claimed, wire: JobKind, message: int, at: int)
      returns (r: Result<(), Fault>)
      modifies this
      ensures match RecordAck(old(View()), c, wire, message, at)
              case Ok(after) => View() == after && r == Ok(())
              case Err(fault) => View() == old(View()) && r == Err(fault)
    {
      if c.id !in jobs {
        return Err(UnknownOutboundJob);
      }
      if jobs[c.id].state.Sent? && jobs[c.id].acknowledged == Some(message) {
        return Ok(());
      }
      if !Owns(jobs, c.id, c.attempts) {
        return Err(StaleOutboundAcknowledgement);
      }
      jobs := jobs[c.id := jobs[c.id].(state := JobState.Sent, acknowledged := Some(message), lease := None,
                                       lastError := None)];
      BindAcknowledged(c, wire, message, at);
      if c.dialogue.Some? {
        var applied := StampCallbackMessage(c.dialogue.value, c.bot, c.chat, message);
      }
      decisions := map k | k in decisions ::
        if decisions[k].job == Some(c.id) then decisions[k].(outcome := DecisionOutcome.Delivered)
        else decisions[k];
      r := Ok(());
    }

    // -------------------------------------------------------------- operation events

    /** `order by chat limit 1`. */
    method LockLowestBinding(operation: Uuid) returns (key: Option<BindingKey>)
      ensures key == LockBinding(bindings, operation)
    {
      key := None;
      var remaining := bindings.Keys;
      while remaining != {}
        invariant remaining <= bindings.Keys
        invariant key.None? ==> forall k | k in bindings.Keys - remaining :: k.operation != operation
        invariant key.Some? ==>
          && key.value in bindings && key.value.operation == operation
          && forall k | k in bindings.Keys - remaining :: k.operation == operation ==> key.value.chat <= k.chat
      {
        var k :| k in remaining;
        remaining := remaining - {k};
        if k.operation == operation && (key.None? || k.chat < key.value.chat) {
          key := Some(k);
        }
      }
      if key.Some? && LockBinding(bindings, operation).Some? {
        LockedIsUnique(bindings, operation, key.value, LockBinding(bindings, operation).value);
      }
    }

    /** `coalesce(max(revision), 0)` over every row of the binding, then one more than both maxima. */
    method ComputeNextRevision(key: BindingKey) returns (revision: int)
      requires key in bindings
      ensures revision == NextRevision(jobs, key, bindings[key])
    {
      var greatest: Option<int> := None;
      var remaining := jobs.Keys;
      while remaining != {}
        invariant remaining <= jobs.Keys
        invariant greatest.None? ==> forall id | id in jobs.Keys - remaining :: !Carries(jobs[id], key)
        invariant greatest.Some? ==>
          && greatest.value in Assigned(jobs, key)
          && forall id | id in jobs.Keys - remaining ::
               Carries(jobs[id], key) ==> jobs[id].revision.value <= greatest.value
      {
        var id :| id in remaining;
        remaining := remaining - {id};
        if Carries(jobs[id], key) && (greatest.None? || greatest.value < jobs[id].revision.value) {
          greatest := jobs[id].revision;
        }
      }
      revision := Max(if greatest.None? then 0 else greatest.value, bindings[key].rendered) + 1;
    }

    method AcceptOperationEvent(event: Event, now: int, interval: int) returns (outcome: AcceptOutcome)
      modifies this
      ensures (View(), outcome) == Accept(old(View()), event, now, interval)
    {
      if event.id in inbox {
        return Duplicate;
      }
      var locked := LockLowestBinding(event.operation);
      if locked.None? {
        return Unbound;
      }
      inbox := inbox + {event.id};
      var key := locked.value;
      var b := bindings[key];
      if b.terminal {
        return PostTerminal;
      }
      if b.lastEventAt.Some? && event.occurredAt < b.lastEventAt.value {
        return Stale;
      }
      var revision := ComputeNextRevision(key);
      SweepOlderEdits(key.operation, key.chat, revision);
      var id := AddRow(EditJob(key, b, event, revision, now, interval));
      if event.terminal {
        bindings := bindings[key := bindings[key].(terminal := true)];
      }
      bindings := bindings[key := bindings[key].(lastEventAt := Some(event.occurredAt))];
      assert bindings == old(bindings)[key := b.(lastEventAt := Some(event.occurredAt), terminal := b.terminal || event.terminal)];
      outcome := Recorded(revision);
    }

    // -------------------------------------------------------------- notifications

    method InsertNotificationJob(n: Notice, chat: int, dueAt: int) returns (id: JobId)
      modifies this`jobs, this`nextJob
      ensures View() == AddJob(old(View()), NotificationJob(n, chat, dueAt)) && id == old(nextJob)
    {
      id := AddRow(Job(n.bot, chat, SendMessage, None, None, None, Notification(n.notification, n.occurredAt),
                       JobState.Ready, 0, dueAt, None, None, None, None));
    }

    method DecideChat(n: Notice, c: Candidate, releaseAt: Option<int>, now: int) returns (decided: Option<DecisionOutcome>)
      modifies this`jobs, this`nextJob, this`decisions
      ensures View() == DecideOne(old(View()), n, c, releaseAt, now)
      ensures decided == if DecisionKey(n.notification, c.chat) in old(decisions) then None else Some(Verdict(c, releaseAt))
    {
      var key := DecisionKey(n.notification, c.chat);
      if key in decisions {
        return None;
      }
      var verdict := Verdict(c, releaseAt);
      decisions := decisions[key := Decision(verdict, None, releaseAt)];
      if !verdict.Suppressed? {
        var dueAt := now;
        if releaseAt.Some? {
          dueAt := releaseAt.value;
        }
        var id := InsertNotificationJob(n, c.chat, dueAt);
        decisions := decisions[key := decisions[key].(job := Some(id))];
      }
      decided := Some(verdict);
    }

    method Restore(db: Db)
      modifies this
      ensures View() == db
    {
      jobs, bindings, inbox, decisions := db.jobs, db.bindings, db.inbox, db.decisions;
      dialogues, tokens := db.dialogues, db.tokens;
      nextJob, nextDialogue, nextToken := db.nextJob, db.nextDialogue, db.nextToken;
    }

    /** The loop of an admission: it stops at the first inconsistent preference. */
    method DecideCandidates(n: Notice, candidates: seq<Candidate>, now: int)
      returns (r: Result<seq<DecisionOutcome>, Fault>)
      modifies this`jobs, this`nextJob, this`decisions
      ensures match DecideAll(old(View()), n, candidates, now)
              case Ok((after, outcomes)) => View() == after && r == Ok(outcomes)
              case Err(fault) => r == Err(fault)
    {
      var outcomes: seq<DecisionOutcome> := [];
      ghost var whole := DecideAll(View(), n, candidates, now);
      assert candidates[0..] == candidates;
      ContinueNothing(whole);
      for i := 0 to |candidates|
        invariant whole == Continue(outcomes, DecideAll(View(), n, candidates[i..], now))
      {
        match ReleaseTime(candidates[i], n, now)
        case Err(fault) =>
          return Err(fault);
        case Ok(releaseAt) =>
          DecideAllStep(View(), n, candidates, i, releaseAt, outcomes, now);
          var decided := DecideChat(n, candidates[i], releaseAt, now);
          if decided.Some? {
            outcomes := outcomes + [decided.value];
          }
      }
      assert outcomes + [] == outcomes;
      r := Ok(outcomes);
    }

    /** An inconsistent preference aborts the transaction, which puts every table back. */
    method AdmitNotification(n: Notice, candidates: seq<Candidate>, now: int) returns (r: Result<AdmissionResult, Fault>)
      modifies this
      ensures match Admit(old(View()), n, candidates, now)
              case Ok((after, result)) => View() == after && r == Ok(result)
              case Err(fault) => View() == old(View()) && r == Err(fault)
    {
      var saved := View();
      if n.event in inbox {
        return Ok(DuplicateTransport);
      }
      inbox := inbox + {n.event};
      if candidates == [] {
        return Ok(NoEligibleChat);
      }
      var decided := DecideCandidates(n, candidates, now);
      if decided.Err? {
        Restore(saved);
        return Err(decided.error);
      }
      r := Ok(if decided.value == [] then DuplicateNotification else Decided(decided.value));
    }

    // -------------------------------------------------------------- captures

    method RecordAcceptedCapture(intent: OperationIntent, ack: NewJob, now: int) returns (answer: Answer)
      modifies this
      ensures (View(), answer) == RecordCapture(old(View()), intent, ack, now)
    {
      if !ConsistentProjection(intent, ack) {
        return Answer.Fault(InvalidCaptureProjection);
      }
      var key := BindingKey(intent.operation, intent.scope.chat);
      if key in bindings && bindings[key].bot != intent.scope.bot {
        return Answer.Fault(InvalidCaptureProjection);
      }
      if !HasLiveLink(View(), intent, now) && intent.expiresAt <= now {
        return Answer.Fault(Query);
      }
      if key !in bindings {
        bindings := bindings[key := NewBinding(intent.scope.bot)];
      }
      if !HasLiveLink(View(), intent, now) {
        var token := StoreToken(DeepLinkToken(intent, now));
      }
      if bindings[key].message.None? && !HasAckJob(View(), key, intent.scope.bot) {
        var id := InsertOutboundJob(ack, now);
      }
      answer := Projected;
    }

    /** The operator's recovery script. */
    method RecoverUnknownSend(id: JobId, now: int) returns (recovered: bool)
      modifies this
      ensures match Recover(old(View()), id, now)
              case Some(after) => View() == after && recovered
              case None => View() == old(View()) && !recovered
    {
      if !(id in jobs && jobs[id].state.OutcomeUnknown? && jobs[id].kind.SendMessage?) {
        return false;
      }
      var source := jobs[id];
      if source.delivery.Notification? {
        jobs := jobs[id := source.(delivery := Direct)];
      }
      var attempt := AddRow(source.(state := JobState.Ready, attempts := 0, nextAttemptAt := now, lease := None,
                                    acknowledged := None, lastError := None, recoveryOf := Some(id)));
      if source.delivery.Notification? {
        decisions := map k | k in decisions ::
          if decisions[k].job == Some(id)
          then decisions[k].(job := Some(attempt), outcome := DecisionOutcome.Enqueued)
          else decisions[k];
      }
      recovered := true;
    }

    // -------------------------------------------------------------- dialogues

    method StoreToken(token: Token) returns (id: TokenId)
      modifies this`tokens, this`nextToken
      ensures View() == AddToken(old(View()), token) && id == old(nextToken)
    {
      id := nextToken;
      tokens := tokens[id := token];
      nextToken := nextToken + 1;
    }

    method CreateRepositoryPreview(scope: Scope, preview: Offer, now: int, expiresAt: int) returns (answer: Answer)
      modifies this
      ensures (View(), answer) == CreatePreview(old(View()), scope, preview, now, expiresAt)
    {
      if expiresAt <= now || Unsupported in preview.actions {
        return Answer.Fault(Query);
      }
      var id := nextDialogue;
      nextDialogue := nextDialogue + 1;
      dialogues := dialogues[id :=
        Dialogue(scope.bot, scope.user, scope.chat, None, Stage.Preview, 0, Active, preview.target, preview.account,
                 None, None, id, None, expiresAt, None)];
      answer := Created(id, nextToken);
      ghost var minted := MintSelections(View(), id, scope, preview.actions, now, expiresAt);
      assert preview.actions[0..] == preview.actions;
      for i := 0 to |preview.actions|
        invariant MintSelections(View(), id, scope, preview.actions[i..], now, expiresAt) == minted
      {
        assert preview.actions[i..][1..] == preview.actions[i + 1..];
        var token := StoreToken(CallbackToken(Select(preview.actions[i]), id, 0, scope, now, expiresAt));
      }
    }

    method ExpireOnBoundary(id: DialogueId, now: int)
      requires id in dialogues
      modifies this`dialogues
      ensures View() == ExpireCallbackDialogue(old(View()), id, now)
    {
      if dialogues[id].expiresAt <= now && dialogues[id].lifecycle.Active? {
        dialogues := dialogues[id := dialogues[id].(lifecycle := Lifecycle.Expired, terminalAt := Some(now),
                                                    version := dialogues[id].version + 1)];
      }
    }

    method RefuseCallback(id: DialogueId, refusal: CallbackRefusal, now: int) returns (answer: Answer)
      requires id in dialogues
      modifies this`dialogues
      ensures (View(), answer) == Refuse(old(View()), id, refusal, now)
    {
      if refusal.Expired? && dialogues[id].expiresAt <= now {
        ExpireOnBoundary(id, now);
      }
      answer := CallbackRefused(refusal);
    }

    method MarkConsumed(token: TokenId, now: int)
      requires token in tokens
      modifies this`tokens
      ensures View() == Consume(old(View()), token, now)
    {
      tokens := tokens[token := tokens[token].(consumedAt := Some(now))];
    }

    method ConsumeRepositorySelection(token: TokenId, scope: Scope, message: int, now: int) returns (answer: Answer)
      modifies this
      ensures (View(), answer) == ConsumeSelection(old(View()), token, scope, message, now)
    {
      if !IsCallbackRow(View(), token) {
        return CallbackRefused(CallbackRefusal.Invalid);
      }
      var t := tokens[token];
      var id := t.authority.dialogue;
      var d := dialogues[id];
      var refusal := ValidateCallback(t, d, scope, message, Stage.Preview, 0, now);
      if refusal.Some? {
        answer := RefuseCallback(id, refusal.value, now);
        return;
      }
      if !t.authority.action.Select? || t.authority.action.mode.Unsupported? {
        return Answer.Fault(Query);
      }
      var mode := t.authority.action.mode;
      var expiresAt := Min(t.expiresAt, d.expiresAt);
      MarkConsumed(token, now);
      dialogues := dialogues[id := d.(mode := Some(mode), step := Confirming, version := 1, message := None)];
      var confirm := StoreToken(CallbackToken(Confirm, id, 1, scope, now, expiresAt));
      var cancel := StoreToken(CallbackToken(Cancel, id, 1, scope, now, expiresAt));
      answer := Selected(id, mode, confirm, cancel);
    }

    method ConsumeRepositoryDecision(token: TokenId, update: ReleasingUpdate, user: int, chat: int, message: int, now: int)
      returns (answer: Answer)
      modifies this
      ensures (View(), answer) == ConsumeDecision(old(View()), token, update, user, chat, message, now)
    {
      if !IsCallbackRow(View(), token) {
        return CallbackRefused(CallbackRefusal.Invalid);
      }
      var t := tokens[token];
      var id := t.authority.dialogue;
      var d := dialogues[id];
      var scope := Scope(update.bot, user, chat);
      if t.consumedAt.Some? {
        return RecoverConfirmation(t, id, d, update, scope, message);
      }
      var refusal := ValidateCallback(t, d, scope, message, Confirming, 1, now);
      if refusal.Some? {
        answer := RefuseCallback(id, refusal.value, now);
        return;
      }
      match t.authority.action {
        case Cancel =>
          MarkConsumed(token, now);
          dialogues := dialogues[id :=
            d.(lifecycle := Lifecycle.Cancelled, version := 2, message := None, terminalAt := Some(now))];
          answer := Answer.Cancelled(id);
        case Select(_) =>
          answer := CallbackRefused(CallbackRefusal.Invalid);
        case Confirm =>
          if d.mode.None? {
            return Answer.Fault(Query);
          }
          MarkConsumed(token, now);
          dialogues := dialogues[id := d.(step := Submitting, version := 2, message := None, releasing := Some(update))];
          answer := Confirmed(ActionOf(id, d), true);
      }
    }

    method CompleteRepositoryDialogue(id: DialogueId, update: ReleasingUpdate, result: Option<Uuid>, job: NewJob, now: int)
      returns (answer: Answer)
      modifies this
      ensures (View(), answer) == CompleteDialogue(old(View()), id, update, result, job, now)
    {
      if id !in dialogues || dialogues[id].releasing != Some(update) {
        return Answer.Fault(Query);
      }
      var d := dialogues[id];
      if d.step.Completed? && d.lifecycle.Finished? {
        return AlreadyCompleted;
      }
      if !d.step.Submitting? || !d.lifecycle.Active? || !ResultJobFits(d, id, job) {
        return Answer.Fault(Query);
      }
      dialogues := dialogues[id :=
        d.(result := if result.None? then d.result else result, step := Stage.Completed,
           lifecycle := Lifecycle.Finished, version := d.version + 1, terminalAt := Some(now))];
      var added := InsertOutboundJob(job, now);
      answer := Answer.Finished;
    }

    method TransitionDialogue(id: DialogueId, scope: Scope, expectedStep: Stage, expectedVersion: nat, nextStep: Stage,
                              now: int) returns (answer: Answer)
      modifies this`dialogues
      ensures (View(), answer) == Transition(old(View()), id, scope, expectedStep, expectedVersion, nextStep, now)
    {
      if id !in dialogues {
        return DialogueRefused(NotFound);
      }
      var d := dialogues[id];
      if !OwnedBy(d, scope) {
        return DialogueRefused(DialogueRefusal.ScopeMismatch);
      }
      if d.lifecycle.Active? && d.expiresAt <= now {
        ExpireOnBoundary(id, now);
        return DialogueRefused(DialogueRefusal.Expired);
      }
      if d.step == expectedStep && d.version == expectedVersion && d.lifecycle.Active? {
        var moved := d.(step := nextStep, version := d.version + 1);
        if !DialogueChecks(moved) {
          return Answer.Fault(Query);
        }
        dialogues := dialogues[id := moved];
        return Transitioned(moved.version);
      }
      answer := DialogueRefused(if d.lifecycle.Active? then DialogueRefusal.StaleState else DialogueRefusal.Terminal);
    }

    // -------------------------------------------------------------- deep links and library reads

    method ConsumeToken(token: TokenId, surface: Surface, scope: Scope, message: Option<int>, now: int)
      returns (answer: Answer)
      modifies this`tokens
      ensures (View(), answer) == ConsumeInteractionToken(old(View()), token, surface, scope, message, now)
    {
      if token !in tokens {
        return TokenRefused(TokenRefusal.Invalid);
      }
      var t := tokens[token];
      if t.consumedAt.Some? {
        return TokenRefused(TokenRefusal.Consumed);
      }
      if t.expiresAt <= now {
        return TokenRefused(TokenRefusal.Expired);
      }
      if !OnSurface(t.authority, surface) || Scope(t.bot, t.user, t.chat) != scope || t.message != message {
        return TokenRefused(TokenRefusal.ScopeMismatch);
      }
      if !t.authority.DeepLink? {
        return TokenRefused(TokenRefusal.StaleState);
      }
      MarkConsumed(token, now);
      answer := OperationReleased(t.authority.operation, t.authority.payload);
    }

    method ReadLibraryIntent(token: TokenId, scope: Scope, internalUser: Uuid, now: int) returns (answer: Answer)
      modifies this`tokens
      ensures (View(), answer) == ResolveLibraryRead(old(View()), token, scope, internalUser, now)
    {
      if token !in tokens {
        return TokenRefused(TokenRefusal.Invalid);
      }
      var t := tokens[token];
      if t.consumedAt.Some? {
        return TokenRefused(TokenRefusal.Consumed);
      }
      if t.expiresAt <= now {
        return TokenRefused(TokenRefusal.Expired);
      }
      if !t.authority.Command? || Scope(t.bot, t.user, t.chat) != scope || t.authority.internalUser != internalUser {
        return TokenRefused(TokenRefusal.ScopeMismatch);
      }
      MarkConsumed(token, now);
      answer := LibraryReadReleased(t.authority.analysis);
    }

    method IssueOperationLink(intent: OperationIntent, now: int) returns (answer: Answer)
      modifies this`tokens, this`nextToken
      ensures (View(), answer) == IssueOperationIntent(old(View()), intent, now)
    {
      if intent.expiresAt <= now {
        return Answer.Fault(Query);
      }
      var id := StoreToken(DeepLinkToken(intent, now));
      answer := Issued(id);
    }

    method EnqueueLibraryReadJob(intents: seq<LibraryIntent>, job: NewJob, now: int) returns (answer: Answer)
      modifies this
      ensures (View(), answer) == EnqueueLibraryReads(old(View()), intents, job, now)
    {
      if exists i | i in intents :: i.scope.bot != job.bot || i.scope.chat != job.chat || i.expiresAt <= now {
        return Answer.Fault(Query);
      }
      answer := Issued(nextToken);
      ghost var minted := MintLibraryReads(View(), intents, now);
      assert intents[0..] == intents;
      for i := 0 to |intents|
        invariant MintLibraryReads(View(), intents[i..], now) == minted
      {
        assert intents[i..][1..] == intents[i + 1..];
        var token := StoreToken(LibraryToken(intents[i], now));
      }
      var id := InsertOutboundJob(job, now);
    }

    // -------------------------------------------------------------- cleanup

    method ExpireDialogues(now: int, limit: nat) returns (count: nat)
      modifies this`dialogues
      ensures var batch := FirstRows(ExpiryQueue(old(View()), now), limit);
        View() == ExpireBatch(old(View()), batch, now) && count == |batch|
    {
      var batch := FirstRowsOf(ExpiryQueue(View(), now), limit);
      dialogues := map id | id in dialogues ::
        if id in batch
        then dialogues[id].(lifecycle := Lifecycle.Expired, terminalAt := Some(now), version := dialogues[id].version + 1)
        else dialogues[id];
      count := |batch|;
    }

    method DeleteDeadTokens(now: int, limit: nat) returns (count: nat)
      modifies this`tokens
      ensures var batch := FirstRows(DeletionQueue(old(View()), now), limit);
        View() == old(View()).(tokens := old(tokens) - batch) && count == |batch|
    {
      var batch := FirstRowsOf(DeletionQueue(View(), now), limit);
      tokens := tokens - batch;
      count := |batch|;
    }

    method DeleteRetiredDialogues(before: int, limit: nat) returns (count: nat)
      modifies this`dialogues
      ensures var batch := FirstRows(RetirementQueue(old(View()), before), limit);
        View() == old(View()).(dialogues := old(dialogues) - batch) && count == |batch|
    {
      var batch := FirstRowsOf(RetirementQueue(View(), before), limit);
      dialogues := dialogues - batch;
      count := |batch|;
    }

    method CleanUpInteractions(now: int, before: int, limit: nat) returns (counts: Counts)
      modifies this`dialogues, this`tokens
      ensures (View(), counts) == CleanupPass(old(View()), now, before, limit)
    {
      var expired := ExpireDialogues(now, limit);
      var removed := DeleteDeadTokens(now, limit);
      var retired := DeleteRetiredDialogues(before, limit);
      counts := Counts(expired, removed, retired);
    }
  }

  lemma LeastIsUnique(due: map<nat, int>, a: nat, b: nat)
    requires Least(due, a) && Least(due, b)
    ensures a == b
  {
  }

  method LeastRowOf(due: map<nat, int>) returns (least: nat)
    requires due != map[]
    ensures least == LeastRow(due)
  {
    var pick :| pick in due.Keys;
    least := pick;
    var remaining := due.Keys;
    while remaining != {}
      invariant remaining <= due.Keys && least in due
      invariant forall o | o in due.Keys - remaining :: due[least] < due[o] || (due[least] == due[o] && least <= o)
    {
      var id :| id in remaining;
      remaining := remaining - {id};
      if due[id] < due[least] || (due[id] == due[least] && id < least) {
        least := id;
      }
    }
    LeastIsUnique(due, least, LeastRow(due));
  }

  /** `order by ... limit n`: take the least remaining row until the batch is full. */
  method FirstRowsOf(due: map<nat, int>, limit: nat) returns (batch: set<nat>)
    ensures batch == FirstRows(due, limit)
  {
    batch := {};
    var rest := due;
    var room := limit;
    while room > 0 && rest != map[]
      invariant batch + FirstRows(rest, room) == FirstRows(due, limit)
      decreases room
    {
      var id := LeastRowOf(rest);
      batch := batch + {id};
      rest := rest - {id};
      room := room - 1;
    }
  }
}
