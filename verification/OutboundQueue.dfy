/** The durable outbound queue: enqueue with its supersede sweep, the per-chat claim with leases
    and quarantine, and settlement (crates/persistence/src/outbound_jobs.rs). */
module OutboundQueue {
  import opened Tables

  /** A job to enqueue; `nextAttemptAt` absent means immediately. */
  datatype NewJob = NewJob(
    bot: int,
    chat: int,
    kind: JobKind,
    operation: Option<Uuid>,
    revision: Option<int>,
    dialogue: Option<DialogueId>,
    nextAttemptAt: Option<int>)

  /** The snapshot a sender works from after its claim. */
  datatype Claimed = Claimed(
    id: JobId,
    bot: int,
    chat: int,
    kind: JobKind,
    operation: Option<Uuid>,
    revision: Option<int>,
    dialogue: Option<DialogueId>,
    recoveryOf: Option<JobId>,
    attempts: nat)

  datatype DeliveryOutcome =
    | Sent
    | SupersededStale
    | NotModified
    | RetryWithBackoff(delay: nat)
    | FailedPermanent(reason: PermanentClass)
    | OutcomeUnknown

  // ---------------------------------------------------------------- row predicates

  predicate Waiting(j: Job) {
    j.state == JobState.Ready || j.state == JobState.RetryWait
  }

  predicate Terminal(j: Job) {
    j.state.Sent? || j.state.Superseded? || j.state.FailedPermanent? || j.state.OutcomeUnknown?
    || j.state.Cancelled?
  }

  predicate Leased(j: Job, now: int) {
    j.state.Sending? && j.lease.Some? && j.lease.value > now
  }

  predicate LeaseExpired(j: Job, now: int) {
    j.state.Sending? && j.lease.Some? && j.lease.value <= now
  }

  predicate Owns(jobs: map<JobId, Job>, id: JobId, attempt: nat) {
    id in jobs && jobs[id].state.Sending? && jobs[id].attempts == attempt
  }

  // ---------------------------------------------------------------- enqueue

  predicate Swept(j: Job, operation: Uuid, chat: int, revision: int) {
    && j.operation == Some(operation) && j.chat == chat && j.kind.EditMessageText?
    && (j.state.Planned? || Waiting(j))
    && j.revision.Some? && j.revision.value < revision
  }

  /** Withdraw every older waiting edit of one binding. */
  function Sweep(jobs: map<JobId, Job>, operation: Uuid, chat: int, revision: int): map<JobId, Job> {
    map id | id in jobs ::
      if Swept(jobs[id], operation, chat, revision)
      then jobs[id].(state := JobState.Superseded)
      else jobs[id]
  }

  function FreshJob(order: NewJob, now: int): Job {
    Job(order.bot, order.chat, order.kind, order.operation, order.revision, order.dialogue, Direct,
        JobState.Ready, 0, if order.nextAttemptAt.Some? then order.nextAttemptAt.value else now,
        None, None, None, None)
  }

  function AddJob(db: Db, job: Job): Db {
    db.(jobs := db.jobs[db.nextJob := job], nextJob := db.nextJob + 1)
  }

  function InsertJob(db: Db, order: NewJob, now: int): Db {
    var jobs :=
      if order.operation.Some? && order.revision.Some?
      then Sweep(db.jobs, order.operation.value, order.chat, order.revision.value)
      else db.jobs;
    AddJob(db.(jobs := jobs), FreshJob(order, now))
  }

  // ---------------------------------------------------------------- claim

  predicate ExpiredSend(j: Job, now: int) {
    LeaseExpired(j, now) && j.kind.SendMessage?
  }

  function Quarantined(j: Job, now: int): Job {
    if ExpiredSend(j, now)
    then j.(state := JobState.OutcomeUnknown, lease := None, lastError := Some(ProcessExitUnknown))
    else j
  }

  /** A send whose lease ran out may have reached Telegram, so it is never replayed. */
  function Quarantine(db: Db, now: int): Db {
    db.(jobs := map id | id in db.jobs :: Quarantined(db.jobs[id], now),
        decisions := map k | k in db.decisions ::
          var d := db.decisions[k];
          if d.job.Some? && d.job.value in db.jobs && ExpiredSend(db.jobs[d.job.value], now)
          then d.(outcome := DecisionOutcome.OutcomeUnknown)
          else d)
  }

  predicate Busy(jobs: map<JobId, Job>, now: int, chat: int) {
    exists id | id in jobs :: jobs[id].chat == chat && Leased(jobs[id], now)
  }

  predicate Eligible(jobs: map<JobId, Job>, now: int, id: JobId) {
    && id in jobs
    && !Busy(jobs, now, jobs[id].chat)
    && ((Waiting(jobs[id]) && jobs[id].nextAttemptAt <= now) || LeaseExpired(jobs[id], now))
  }

  /** Delivery rank; a notification that waited five minutes overtakes everything else. */
  function Rank(j: Job, now: int): nat {
    match j.delivery
    case Notification(_, createdAt) => if createdAt <= now - 300 then 0 else 3
    case Direct => 1
    case Projection => 2
  }

  predicate NotAfter(jobs: map<JobId, Job>, now: int, a: JobId, b: JobId)
    requires a in jobs && b in jobs
  {
    var ra, rb := Rank(jobs[a], now), Rank(jobs[b], now);
    ra < rb || (ra == rb && a <= b)
  }

  /** First stage of the claim: the best eligible job of its own chat. */
  predicate ChatHead(jobs: map<JobId, Job>, now: int, id: JobId) {
    && Eligible(jobs, now, id)
    && forall other | other in jobs ::
         Eligible(jobs, now, other) && jobs[other].chat == jobs[id].chat
         ==> NotAfter(jobs, now, id, other)
  }

  /** Second stage: the best of the chat heads, or nothing when no job is eligible. */
  predicate IsHead(jobs: map<JobId, Job>, now: int, head: Option<JobId>) {
    match head
    case None => forall id | id in jobs :: !Eligible(jobs, now, id)
    case Some(id) =>
      && ChatHead(jobs, now, id)
      && forall other | other in jobs :: ChatHead(jobs, now, other) ==> NotAfter(jobs, now, id, other)
  }

  function ClaimedJob(j: Job, now: int, ttl: nat): Job {
    j.(state := JobState.Sending, lease := Some(now + ttl), attempts := j.attempts + 1)
  }

  function SnapshotOf(id: JobId, j: Job): Claimed {
    Claimed(id, j.bot, j.chat, j.kind, j.operation, j.revision, j.dialogue, j.recoveryOf, j.attempts)
  }

  /** One claim transaction: quarantine first, then lease the head. */
  function Claim(db: Db, now: int, ttl: nat, head: Option<JobId>): Db
    requires IsHead(Quarantine(db, now).jobs, now, head)
  {
    var clean := Quarantine(db, now);
    match head
    case None => clean
    case Some(id) => clean.(jobs := clean.jobs[id := ClaimedJob(clean.jobs[id], now, ttl)])
  }

  // ---------------------------------------------------------------- settlement

  function Settled(j: Job, now: int, maxAttempts: nat, outcome: DeliveryOutcome): Job {
    match outcome
    case Sent => j.(state := JobState.Sent, lastError := None, lease := None)
    case NotModified => j.(state := JobState.Sent, lastError := None, lease := None)
    case SupersededStale => j.(state := JobState.Superseded, lastError := None, lease := None)
    case FailedPermanent(reason) =>
      j.(state := JobState.FailedPermanent, lastError := Some(Rejected(reason)), lease := None)
    case OutcomeUnknown =>
      j.(state := JobState.OutcomeUnknown, lastError := Some(TransportUnknown), lease := None)
    case RetryWithBackoff(delay) =>
      if j.attempts >= maxAttempts
      then j.(state := JobState.FailedPermanent, lastError := Some(TransientExhausted), lease := None)
      else j.(state := JobState.RetryWait, nextAttemptAt := now + delay, lease := None)
  }

  function OutcomeAfter(state: JobState, current: DecisionOutcome): DecisionOutcome {
    match state
    case Sent => DecisionOutcome.Delivered
    case RetryWait => DecisionOutcome.RetryWait
    case FailedPermanent => DecisionOutcome.FailedPermanent
    case OutcomeUnknown => DecisionOutcome.OutcomeUnknown
    case _ => current
  }

  /** Copy the state of one job onto the decision that names it. */
  function MirrorDecision(decisions: map<DecisionKey, Decision>, id: JobId, state: JobState)
    : map<DecisionKey, Decision>
  {
    map k | k in decisions ::
      if decisions[k].job == Some(id)
      then decisions[k].(outcome := OutcomeAfter(state, decisions[k].outcome))
      else decisions[k]
  }

  /** Settle one claim; a claim that no longer owns its row changes nothing. */
  function Settle(db: Db, id: JobId, attempt: nat, now: int, maxAttempts: nat, outcome: DeliveryOutcome)
    : Result<Db, Fault>
  {
    if Owns(db.jobs, id, attempt) then
      var job := Settled(db.jobs[id], now, maxAttempts, outcome);
      Ok(db.(jobs := db.jobs[id := job], decisions := MirrorDecision(db.decisions, id, job.state)))
    else if id in db.jobs then Err(StaleOutboundClaim)
    else Err(UnknownOutboundJob)
  }

  // ---------------------------------------------------------------- operator recovery

  /** The operator's deliberate new attempt of a quarantined send
      (deploy/sql/recover-unknown-send.sql): a fresh row takes over the class and the decision. */
  function Recover(db: Db, id: JobId, now: int): Option<Db> {
    if id in db.jobs && db.jobs[id].state.OutcomeUnknown? && db.jobs[id].kind.SendMessage? then
      var source := db.jobs[id];
      var copy := source.(state := JobState.Ready, attempts := 0, nextAttemptAt := now, lease := None,
                          acknowledged := None, lastError := None, recoveryOf := Some(id));
      var detached := if source.delivery.Notification? then source.(delivery := Direct) else source;
      var decisions := map k | k in db.decisions ::
        if source.delivery.Notification? && db.decisions[k].job == Some(id)
        then db.decisions[k].(job := Some(db.nextJob), outcome := DecisionOutcome.Enqueued)
        else db.decisions[k];
      Some(AddJob(db.(jobs := db.jobs[id := detached], decisions := decisions), copy))
    else None
  }

  // ---------------------------------------------------------------- the head of the queue

  lemma LeastOf(jobs: map<JobId, Job>, now: int, ids: set<JobId>) returns (least: JobId)
    requires ids != {} && ids <= jobs.Keys
    ensures least in ids && forall id | id in ids :: NotAfter(jobs, now, least, id)
  {
    var pick :| pick in ids;
    if ids == {pick} {
      least := pick;
    } else {
      var rest := LeastOf(jobs, now, ids - {pick});
      least := if NotAfter(jobs, now, pick, rest) then pick else rest;
      forall id | id in ids ensures NotAfter(jobs, now, least, id) {
        if id != pick { assert id in ids - {pick}; }
      }
    }
  }

  lemma ChatHeadBefore(jobs: map<JobId, Job>, now: int, id: JobId) returns (head: JobId)
    requires Eligible(jobs, now, id)
    ensures head in jobs && ChatHead(jobs, now, head) && NotAfter(jobs, now, head, id)
  {
    var rivals := set x | x in jobs && Eligible(jobs, now, x) && jobs[x].chat == jobs[id].chat;
    assert id in rivals;
    head := LeastOf(jobs, now, rivals);
    forall other | other in jobs && Eligible(jobs, now, other) && jobs[other].chat == jobs[head].chat
      ensures NotAfter(jobs, now, head, other)
    {
      assert other in rivals;
    }
  }

  /** The two-stage choice of the SQL is one global minimum of (rank, id) over the eligible jobs. */
  lemma HeadIsGlobalMinimum(jobs: map<JobId, Job>, now: int, id: JobId)
    ensures IsHead(jobs, now, Some(id)) <==>
            Eligible(jobs, now, id)
            && forall other | other in jobs :: Eligible(jobs, now, other) ==> NotAfter(jobs, now, id, other)
  {
    if IsHead(jobs, now, Some(id)) {
      forall other | other in jobs && Eligible(jobs, now, other) ensures NotAfter(jobs, now, id, other) {
        var head := ChatHeadBefore(jobs, now, other);
      }
    }
  }

  /** A claim always has exactly one possible result: a head exists whenever a job is eligible,
      and two heads are the same job. */
  lemma HeadExists(jobs: map<JobId, Job>, now: int) returns (head: Option<JobId>)
    ensures IsHead(jobs, now, head) && forall other :: IsHead(jobs, now, other) ==> other == head
  {
    if id :| id in jobs && Eligible(jobs, now, id) {
      var eligible := set x | x in jobs && Eligible(jobs, now, x);
      assert id in eligible;
      var least := LeastOf(jobs, now, eligible);
      forall other | other in jobs && Eligible(jobs, now, other) ensures NotAfter(jobs, now, least, other) {
        assert other in eligible;
      }
      HeadIsGlobalMinimum(jobs, now, least);
      head := Some(least);
    } else {
      head := None;
    }
  }
}
