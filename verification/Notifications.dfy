/** Notification admission: preferences, quiet hours, one decision per chat, and its job
    (crates/persistence/src/notification_delivery.rs). */
module Notifications {
  import opened Tables
  import opened OutboundQueue

  const DAY := 86_400

  datatype QuietPolicy = Disabled | Inherit | Custom

  /** One eligible chat with the preference columns that admission reads. */
  datatype Candidate = Candidate(
    chat: int,
    enabled: bool,
    policy: QuietPolicy,
    startMinute: Option<int>,
    endMinute: Option<int>,
    bypass: bool,
    classEnabled: bool)

  datatype Window = Window(start: int, end: int)

  datatype Notice = Notice(
    bot: int,
    event: Uuid,
    notification: Uuid,
    high: bool,
    quietHint: Option<Window>,
    occurredAt: int)

  datatype AdmissionResult =
    | DuplicateTransport
    | DuplicateNotification
    | NoEligibleChat
    | Decided(outcomes: seq<DecisionOutcome>)

  predicate Deliverable(c: Candidate) { c.enabled && c.classEnabled }

  /** The quiet window in force; an inconsistent preference row is an error. */
  function QuietWindow(c: Candidate, hint: Option<Window>): Result<Option<Window>, Fault> {
    match (c.policy, c.startMinute, c.endMinute)
    case (Disabled, None, None) => Ok(None)
    case (Inherit, None, None) => Ok(hint)
    case (Custom, Some(start), Some(end)) =>
      if start < 0 || end < 0 then Err(InvalidPreference) else Ok(Some(Window(start * 60, end * 60)))
    case _ => Err(InvalidPreference)
  }

  predicate Quiet(w: Window, second: int) {
    if w.start < w.end then w.start <= second < w.end else second >= w.start || second < w.end
  }

  /** Euclidean remainder: instants before the epoch still have a second of the day. */
  function SecondOfDay(at: int): int { at % DAY }

  function ReleaseIn(w: Window, now: int): Option<int> {
    var second := SecondOfDay(now);
    if !Quiet(w, second) then None
    else Some(now + if second < w.end then w.end - second else DAY - second + w.end)
  }

  function ReleaseTime(c: Candidate, n: Notice, now: int): Result<Option<int>, Fault> {
    if !Deliverable(c) || (n.high && c.bypass) then Ok(None)
    else
      match QuietWindow(c, n.quietHint)
      case Err(e) => Err(e)
      case Ok(None) => Ok(None)
      case Ok(Some(w)) => Ok(ReleaseIn(w, now))
  }

  function Verdict(c: Candidate, releaseAt: Option<int>): DecisionOutcome {
    if !Deliverable(c) then DecisionOutcome.Suppressed
    else if releaseAt.Some? then Deferred
    else Enqueued
  }

  function NotificationJob(n: Notice, chat: int, dueAt: int): Job {
    Job(n.bot, chat, SendMessage, None, None, None, Notification(n.notification, n.occurredAt),
        JobState.Ready, 0, dueAt, None, None, None, None)
  }

  /** Decide one chat; a chat that already has a decision keeps it. */
  function DecideOne(db: Db, n: Notice, c: Candidate, releaseAt: Option<int>, now: int): Db {
    var key := DecisionKey(n.notification, c.chat);
    var verdict := Verdict(c, releaseAt);
    if key in db.decisions then db
    else if verdict.Suppressed? then
      db.(decisions := db.decisions[key := Decision(verdict, None, releaseAt)])
    else
      var dueAt := if releaseAt.Some? then releaseAt.value else now;
      AddJob(db.(decisions := db.decisions[key := Decision(verdict, Some(db.nextJob), releaseAt)]),
             NotificationJob(n, c.chat, dueAt))
  }

  /** The candidates in stable chat order; the first inconsistent preference aborts them all. */
  function DecideAll(db: Db, n: Notice, candidates: seq<Candidate>, now: int)
    : Result<(Db, seq<DecisionOutcome>), Fault>
    decreases |candidates|
  {
    if candidates == [] then Ok((db, []))
    else
      var c := candidates[0];
      match ReleaseTime(c, n, now)
      case Err(e) => Err(e)
      case Ok(releaseAt) =>
        var key := DecisionKey(n.notification, c.chat);
        match DecideAll(DecideOne(db, n, c, releaseAt, now), n, candidates[1..], now)
        case Err(e) => Err(e)
        case Ok((last, outcomes)) =>
          Ok((last, if key in db.decisions then outcomes else [Verdict(c, releaseAt)] + outcomes))
  }

  /** One admission transaction; an error rolls everything back. */
  function Admit(db: Db, n: Notice, candidates: seq<Candidate>, now: int): Result<(Db, AdmissionResult), Fault> {
    if n.event in db.inbox then Ok((db, DuplicateTransport))
    else
      var seen := db.(inbox := db.inbox + {n.event});
      if candidates == [] then Ok((seen, NoEligibleChat))
      else
        match DecideAll(seen, n, candidates, now)
        case Err(e) => Err(e)
        case Ok((last, outcomes)) =>
          Ok((last, if outcomes == [] then DuplicateNotification else Decided(outcomes)))
  }
}
