/** A deferred notification is not sent before its release time. */
module Deferral {
  import opened Tables
  import opened OutboundQueue
  import opened Interaction
  import opened Acknowledgements
  import opened ProjectionAccept
  import opened Notifications
  import opened Delivery
  import opened Machine
  import opened QueueEffects
  import opened Fencing
  import opened Leases
  import opened ClaimOrder
  import opened QuietHours

  // ---------------------------------------------------------------- at admission

  /** What an admission decides for one chat that had no decision: none of it depends on other chats. */
  predicate DecidedFor(db: Db, n: Notice, c: Candidate, releaseAt: Option<int>, now: int) {
    var key := DecisionKey(n.notification, c.chat);
    && key in db.decisions && db.decisions[key].releaseAt == releaseAt
    && if !(c.enabled && c.classEnabled) then db.decisions[key].outcome.Suppressed? && db.decisions[key].job.None?
       else
         && (db.decisions[key].outcome.Deferred? <==> releaseAt.Some?)
         && (db.decisions[key].outcome.Enqueued? <==> releaseAt.None?)
         && db.decisions[key].job.Some? && db.decisions[key].job.value in db.jobs
         && var j := db.jobs[db.decisions[key].job.value];
            && j.bot == n.bot && j.chat == c.chat && j.kind == SendMessage
            && j.delivery == Notification(n.notification, n.occurredAt)
            && j.state == JobState.Ready && j.attempts == 0
            && j.nextAttemptAt == (if releaseAt.Some? then releaseAt.value else now)
  }

  lemma DecideOneDecides(db: Db, n: Notice, c: Candidate, releaseAt: Option<int>, now: int)
    requires DecisionKey(n.notification, c.chat) !in db.decisions
    ensures DecidedFor(DecideOne(db, n, c, releaseAt, now), n, c, releaseAt, now)
  {
  }

  /** Later candidates leave an earlier decision and its job alone. */
  lemma {:induction false} DecisionStays(db: Db, n: Notice, candidates: seq<Candidate>, now: int, c: Candidate,
                                         releaseAt: Option<int>)
    requires IdsBelow(db) && DecidedFor(db, n, c, releaseAt, now)
    ensures var r := DecideAll(db, n, candidates, now); r.Ok? ==> DecidedFor(r.value.0, n, c, releaseAt, now)
    decreases |candidates|
  {
    if candidates == [] {
    } else if ReleaseTime(candidates[0], n, now).Ok? {
      var next := DecideOne(db, n, candidates[0], ReleaseTime(candidates[0], n, now).value, now);
      DecisionStays(next, n, candidates[1..], now, c, releaseAt);
    }
  }

  /** Every candidate that had no decision is decided by its own preference, whatever the others; a deferred
      job is due exactly at its release time, and any other at once. */
  lemma {:induction false} EveryCandidateIsDecided(db: Db, n: Notice, candidates: seq<Candidate>, now: int, i: nat)
    requires IdsBelow(db) && i < |candidates| && DecisionKey(n.notification, candidates[i].chat) !in db.decisions
    requires forall k | 0 <= k < i :: candidates[k].chat != candidates[i].chat
    ensures var r := DecideAll(db, n, candidates, now);
      r.Ok? ==> ReleaseTime(candidates[i], n, now).Ok?
                && DecidedFor(r.value.0, n, candidates[i], ReleaseTime(candidates[i], n, now).value, now)
    decreases i
  {
    if DecideAll(db, n, candidates, now).Ok? {
      var release := ReleaseTime(candidates[0], n, now).value;
      var next := DecideOne(db, n, candidates[0], release, now);
      if i == 0 {
        DecideOneDecides(db, n, candidates[0], release, now);
        DecisionStays(next, n, candidates[1..], now, candidates[0], release);
      } else {
        EveryCandidateIsDecided(next, n, candidates[1..], now, i - 1);
      }
    }
  }

  /** What is decided once stays, and no job is touched. */
  ghost predicate OnlyAdds(before: Db, after: Db) {
    && (forall k | k in before.decisions :: k in after.decisions && after.decisions[k] == before.decisions[k])
    && (forall id | id in before.jobs :: id in after.jobs && after.jobs[id] == before.jobs[id])
    && after.bindings == before.bindings && after.dialogues == before.dialogues && after.tokens == before.tokens
  }

  predicate AllDecided(db: Db, n: Notice, candidates: seq<Candidate>) {
    forall i | 0 <= i < |candidates| :: DecisionKey(n.notification, candidates[i].chat) in db.decisions
  }

  lemma {:induction false} DecisionsAreAdded(db: Db, n: Notice, candidates: seq<Candidate>, now: int)
    requires IdsBelow(db)
    ensures var r := DecideAll(db, n, candidates, now);
      r.Ok? ==>
        && OnlyAdds(db, r.value.0) && |r.value.0.decisions| == |db.decisions| + |r.value.1|
        && AllDecided(r.value.0, n, candidates) && (r.value.1 == [] <==> AllDecided(db, n, candidates))
    decreases |candidates|
  {
    if candidates == [] {
    } else if ReleaseTime(candidates[0], n, now).Ok? {
      var next := DecideOne(db, n, candidates[0], ReleaseTime(candidates[0], n, now).value, now);
      OneDecisionAdded(db, n, candidates[0], ReleaseTime(candidates[0], n, now).value, now);
      DecisionsAreAdded(next, n, candidates[1..], now);
      FirstOfAll(db, next, n, candidates);
      if DecideAll(db, n, candidates, now).Ok? {
        var last := DecideAll(db, n, candidates, now).value.0;
        assert AllDecided(last, n, candidates[1..]);
        FirstOfAll(last, last, n, candidates);
      }
    }
  }

  lemma OneDecisionAdded(db: Db, n: Notice, c: Candidate, releaseAt: Option<int>, now: int)
    requires IdsBelow(db)
    ensures var next := DecideOne(db, n, c, releaseAt, now); var key := DecisionKey(n.notification, c.chat);
      && IdsBelow(next) && OnlyAdds(db, next) && next.decisions.Keys == db.decisions.Keys + {key}
      && |next.decisions| == |db.decisions| + if key in db.decisions then 0 else 1
  {
    var key := DecisionKey(n.notification, c.chat);
    OneKeyAdded(db, n, c, releaseAt, now);
    OneKeyMore(db.decisions, DecideOne(db, n, c, releaseAt, now).decisions, key);
  }

  lemma OneKeyAdded(db: Db, n: Notice, c: Candidate, releaseAt: Option<int>, now: int)
    requires IdsBelow(db)
    ensures var next := DecideOne(db, n, c, releaseAt, now); var key := DecisionKey(n.notification, c.chat);
      IdsBelow(next) && OnlyAdds(db, next) && next.decisions.Keys == db.decisions.Keys + {key}
  {
  }

  lemma OneKeyMore(before: map<DecisionKey, Decision>, after: map<DecisionKey, Decision>, key: DecisionKey)
    requires after.Keys == before.Keys + {key}
    ensures |after| == |before| + if key in before then 0 else 1
  {
    assert |after| == |after.Keys| && |before| == |before.Keys|;
    if key in before { assert after.Keys == before.Keys; }
  }

  lemma FirstOfAll(db: Db, next: Db, n: Notice, candidates: seq<Candidate>)
    requires candidates != []
    requires next.decisions.Keys == db.decisions.Keys + {DecisionKey(n.notification, candidates[0].chat)}
             || (next == db && DecisionKey(n.notification, candidates[0].chat) in db.decisions)
    ensures AllDecided(db, n, candidates) <==>
            DecisionKey(n.notification, candidates[0].chat) in db.decisions && AllDecided(next, n, candidates[1..])
  {
    if AllDecided(db, n, candidates) {
      assert forall i | 0 <= i < |candidates[1..]| :: candidates[1..][i] == candidates[i + 1];
    }
    if DecisionKey(n.notification, candidates[0].chat) in db.decisions && AllDecided(next, n, candidates[1..]) {
      forall i | 0 <= i < |candidates| ensures DecisionKey(n.notification, candidates[i].chat) in db.decisions {
        if i > 0 { assert candidates[1..][i - 1] == candidates[i]; }
      }
    }
  }

  /** What an admission answers, and what it leaves alone: a redelivered event changes nothing; otherwise the
      event is remembered, every candidate has its decision, one is reported for each decision that is new,
      and what was decided or queued before stays as it was. */
  lemma AdmissionAnswers(db: Db, n: Notice, candidates: seq<Candidate>, now: int)
    requires IdsBelow(db) && Admit(db, n, candidates, now).Ok?
    ensures var (after, answer) := Admit(db, n, candidates, now).value;
      && (answer.DuplicateTransport? <==> n.event in db.inbox)
      && (answer.DuplicateTransport? ==> after == db)
      && (!answer.DuplicateTransport? ==>
            && after.inbox == db.inbox + {n.event} && OnlyAdds(db, after) && AllDecided(after, n, candidates)
            && (answer.NoEligibleChat? <==> candidates == [])
            && (answer.DuplicateNotification? <==> candidates != [] && AllDecided(db, n, candidates))
            && |after.decisions| == |db.decisions| + if answer.Decided? then |answer.outcomes| else 0)
  {
    if n.event !in db.inbox {
      var seen := db.(inbox := db.inbox + {n.event});
      DecisionsAreAdded(seen, n, candidates, now);
      InboxStays(seen, n, candidates, now);
      assert AllDecided(seen, n, candidates) <==> AllDecided(db, n, candidates);
    }
  }

  /** A preference row that contradicts itself: bounds without a custom window, or a custom window without both
      bounds or with a negative one. */
  predicate Inconsistent(c: Candidate) {
    if c.policy.Custom? then
      c.startMinute.None? || c.endMinute.None? || c.startMinute.value < 0 || c.endMinute.value < 0
    else c.startMinute.Some? || c.endMinute.Some?
  }

  /** The preference row is consulted, and contradicts itself. */
  predicate Spoils(c: Candidate, n: Notice) {
    c.enabled && c.classEnabled && !(n.high && c.bypass) && Inconsistent(c)
  }

  /** An admission fails exactly when it is new and some candidate's preference is consulted and contradicts
      itself; then nothing at all is stored. */
  lemma AdmissionFailsExactly(db: Db, n: Notice, candidates: seq<Candidate>, now: int)
    ensures Admit(db, n, candidates, now).Err? <==>
            n.event !in db.inbox && exists i | 0 <= i < |candidates| :: Spoils(candidates[i], n)
    ensures Admit(db, n, candidates, now).Err? ==> Admit(db, n, candidates, now).error == InvalidPreference
  {
    DecidingFailsExactly(db.(inbox := db.inbox + {n.event}), n, candidates, now);
  }

  lemma {:induction false} DecidingFailsExactly(db: Db, n: Notice, candidates: seq<Candidate>, now: int)
    ensures var r := DecideAll(db, n, candidates, now);
      && (r.Err? <==> exists i | 0 <= i < |candidates| :: Spoils(candidates[i], n))
      && (r.Err? ==> r.error == InvalidPreference)
    decreases |candidates|
  {
    if candidates == [] {
    } else if ReleaseTime(candidates[0], n, now).Ok? {
      var rest := candidates[1..];
      DecidingFailsExactly(DecideOne(db, n, candidates[0], ReleaseTime(candidates[0], n, now).value, now), n, rest, now);
      if exists i | 0 <= i < |candidates| :: Spoils(candidates[i], n) {
        var i :| 0 <= i < |candidates| && Spoils(candidates[i], n);
        assert rest[i - 1] == candidates[i];
      }
      if exists i | 0 <= i < |rest| :: Spoils(rest[i], n) {
        var i :| 0 <= i < |rest| && Spoils(rest[i], n);
        assert candidates[i + 1] == rest[i];
      }
    } else {
      assert Spoils(candidates[0], n);
    }
  }

  lemma {:induction false} InboxStays(db: Db, n: Notice, candidates: seq<Candidate>, now: int)
    ensures var r := DecideAll(db, n, candidates, now); r.Ok? ==> r.value.0.inbox == db.inbox
    decreases |candidates|
  {
    if candidates == [] {
    } else if ReleaseTime(candidates[0], n, now).Ok? {
      InboxStays(DecideOne(db, n, candidates[0], ReleaseTime(candidates[0], n, now).value, now), n, candidates[1..], now);
    }
  }

  // ---------------------------------------------------------------- until the release

  /** Before its release time the job of a decision is still waiting for it, untouched. */
  predicate Waits(now: int, releaseAt: int, j: Job) {
    releaseAt <= now || (j.state == JobState.Ready && j.attempts == 0 && j.kind == SendMessage && releaseAt <= j.nextAttemptAt)
  }

  predicate DecisionWaits(now: int, jobs: map<JobId, Job>, d: Decision) {
    d.job.Some? && d.releaseAt.Some? ==> d.job.value in jobs && Waits(now, d.releaseAt.value, jobs[d.job.value])
  }

  ghost predicate WaitInv(s: Sys) {
    Base(s) && forall k | k in s.db.decisions :: DecisionWaits(s.now, s.db.jobs, s.db.decisions[k])
  }

  predicate SameDecision(d: Decision, e: Decision) { e.releaseAt == d.releaseAt && e.job == d.job }

  predicate NotYetDue(j: Job, now: int) {
    j.state == JobState.Ready && j.kind == SendMessage && now < j.nextAttemptAt
  }

  /** Sends that are not yet due stay as they are, but for their class. */
  ghost predicate UndueStay(now: int, before: map<JobId, Job>, after: map<JobId, Job>) {
    forall id | id in before && NotYetDue(before[id], now) ::
      id in after && after[id] == before[id].(delivery := after[id].delivery)
  }

  /** No decision is lost or retargeted; `after` may have more. */
  ghost predicate DecisionsStay(before: map<DecisionKey, Decision>, after: map<DecisionKey, Decision>) {
    forall k | k in before :: k in after && SameDecision(before[k], after[k])
  }

  lemma WaitsOn(now: int, later: int, before: map<JobId, Job>, after: map<JobId, Job>, d: Decision, e: Decision)
    requires now <= later && DecisionWaits(now, before, d) && SameDecision(d, e) && UndueStay(now, before, after)
    requires before.Keys <= after.Keys
    ensures DecisionWaits(later, after, e)
  {
  }

  lemma WaitKept(s: Sys, t: Sys)
    requires WaitInv(s) && Base(t) && s.now <= t.now && UndueStay(s.now, s.db.jobs, t.db.jobs)
    requires s.db.jobs.Keys <= t.db.jobs.Keys && DecisionsStay(s.db.decisions, t.db.decisions)
    requires t.db.decisions.Keys <= s.db.decisions.Keys
    ensures WaitInv(t)
  {
    forall k | k in t.db.decisions ensures DecisionWaits(t.now, t.db.jobs, t.db.decisions[k]) {
      WaitsOn(s.now, t.now, s.db.jobs, t.db.jobs, s.db.decisions[k], t.db.decisions[k]);
    }
  }

  // ---------------------------------------------------------------- senders and producers

  lemma ClaimLeavesUndue(s: Sys, w: WorkerId, head: Option<JobId>, t: Sys)
    requires Enabled(s, ClaimNext(w, head)) && t == ClaimStep(s, w, head)
    ensures UndueStay(s.now, s.db.jobs, t.db.jobs) && t.db.jobs.Keys == s.db.jobs.Keys
    ensures DecisionsStay(s.db.decisions, t.db.decisions) && t.db.decisions.Keys == s.db.decisions.Keys
  {
    ClaimShape(s, w, head);
    if head.Some? {
      ClaimsGoByClass(s, w, head.value, head.value);
      assert !NotYetDue(s.db.jobs[head.value], s.now);
    }
  }

  lemma SenderLeavesUndue(s: Sys, t: Sys, w: WorkerId)
    requires SenderRows(s, t, w)
    ensures UndueStay(s.now, s.db.jobs, t.db.jobs) && t.db.jobs.Keys == s.db.jobs.Keys
  {
  }

  lemma SenderLeavesDecisions(s: Sys, step: Step, t: Sys)
    requires Enabled(s, step) && SenderStep(step) && !step.ClaimNext? && t == SenderNext(s, step)
    ensures DecisionsStay(s.db.decisions, t.db.decisions) && t.db.decisions.Keys == s.db.decisions.Keys
  {
    match step
    case Prepare(w) => PrepareShape(s, w);
    case Wire(w, reply, applied, draw) => WireShape(s, w, reply, applied, draw);
    case Acknowledge(w, replyLost) => AckShape(s, w, replyLost);
    case SettleClaim(w) => SettleShape(s, w);
    case RunGuard(w) => GuardShape(s, w);
    case Defer(w, delay) => DeferShape(s, w, delay);
    case AckFault(w) => AckFaultShape(s, w);
    case FollowThrough(w) => FollowShape(s, w);
    case Crash(w) => CrashShape(s, w);
  }

  lemma OutsideLeavesUndue(s: Sys, t: Sys)
    requires OutsideMove(s, t)
    ensures UndueStay(s.now, s.db.jobs, t.db.jobs) && s.db.jobs.Keys <= t.db.jobs.Keys
  {
    forall id | id in s.db.jobs && NotYetDue(s.db.jobs[id], s.now)
      ensures id in t.db.jobs && t.db.jobs[id] == s.db.jobs[id].(delivery := t.db.jobs[id].delivery)
    {
      assert OutsideRow(s.db.jobs[id], t.db.jobs[id]);
    }
  }

  lemma AcceptLeavesDecisions(db: Db, event: Event, now: int, interval: int)
    ensures Accept(db, event, now, interval).0.decisions == db.decisions
  {
  }

  lemma OutsideLeavesDecisions(s: Sys, step: Step, t: Sys)
    requires Enabled(s, step) && !SenderStep(step) && !step.AdmitNotice? && !step.RecoverSend? && t == OutsideNext(s, step)
    ensures t.db.decisions == s.db.decisions
  {
    match step
    case Tick(_) =>
    case Enqueue(_) =>
    case AcceptEvent(event, interval) => AcceptLeavesDecisions(s.db, event, s.now, interval);
    case Interact(command) => var order := PerformQueue(s.db, command, s.now);
  }

  // ---------------------------------------------------------------- recovery and admission

  lemma RecoverWaits(s: Sys, id: JobId, t: Sys)
    requires WaitInv(s) && t == RecoverStep(s, id) && Base(t) && OutsideMove(s, t)
    ensures WaitInv(t)
  {
    OutsideLeavesUndue(s, t);
    if Recover(s.db, id, s.now).Some? {
      forall k | k in t.db.decisions ensures DecisionWaits(t.now, t.db.jobs, t.db.decisions[k]) {
        assert DecisionWaits(s.now, s.db.jobs, s.db.decisions[k]);
        if t.db.decisions[k].job == s.db.decisions[k].job {
          WaitsOn(s.now, t.now, s.db.jobs, t.db.jobs, s.db.decisions[k], t.db.decisions[k]);
        }
      }
    }
  }

  ghost predicate AllWait(now: int, db: Db) {
    forall k | k in db.decisions :: DecisionWaits(now, db.jobs, db.decisions[k])
  }

  lemma OneMoreWaits(db: Db, n: Notice, c: Candidate, releaseAt: Option<int>, now: int)
    requires AllWait(now, db) && IdsBelow(db)
    ensures AllWait(now, DecideOne(db, n, c, releaseAt, now)) && IdsBelow(DecideOne(db, n, c, releaseAt, now))
  {
    var after := DecideOne(db, n, c, releaseAt, now);
    forall k | k in after.decisions ensures DecisionWaits(now, after.jobs, after.decisions[k]) {
      if k in db.decisions { assert DecisionWaits(now, db.jobs, db.decisions[k]); }
    }
  }

  lemma {:induction false} AllDecidedWait(db: Db, n: Notice, candidates: seq<Candidate>, now: int)
    requires AllWait(now, db) && IdsBelow(db)
    ensures var r := DecideAll(db, n, candidates, now); r.Ok? ==> AllWait(now, r.value.0)
    decreases |candidates|
  {
    if candidates == [] {
    } else if ReleaseTime(candidates[0], n, now).Ok? {
      var release := ReleaseTime(candidates[0], n, now).value;
      OneMoreWaits(db, n, candidates[0], release, now);
      AllDecidedWait(DecideOne(db, n, candidates[0], release, now), n, candidates[1..], now);
    }
  }

  lemma AdmitWaits(s: Sys, notice: Notice, candidates: seq<Candidate>, t: Sys)
    requires WaitInv(s) && t == AdmitStep(s, notice, candidates) && Base(t)
    ensures WaitInv(t)
  {
    var seen := s.db.(inbox := s.db.inbox + {notice.event});
    assert AllWait(s.now, seen);
    AllDecidedWait(seen, notice, candidates, s.now);
  }

  // ---------------------------------------------------------------- every run

  lemma WaitNext(s: Sys, step: Step)
    requires WaitInv(s) && Enabled(s, step)
    ensures WaitInv(Next(s, step))
  {
    BaseNext(s, step);
    if !SenderStep(step) {
      OutsideStep(s, step);
      WaitOutside(s, step, OutsideNext(s, step));
    } else if step.ClaimNext? {
      ClaimLeavesUndue(s, step.w, step.head, SenderNext(s, step));
      ClaimShape(s, step.w, step.head);
      WaitKept(s, SenderNext(s, step));
    } else {
      WaitSender(s, step, SenderNext(s, step));
    }
  }

  lemma WaitSender(s: Sys, step: Step, t: Sys)
    requires WaitInv(s) && Base(t) && Enabled(s, step) && SenderStep(step) && !step.ClaimNext? && t == SenderNext(s, step)
    ensures WaitInv(t)
  {
    SenderStepRows(s, step, t);
    SenderLeavesUndue(s, t, step.w);
    SenderLeavesDecisions(s, step, t);
    WaitKept(s, t);
  }

  lemma WaitOutside(s: Sys, step: Step, t: Sys)
    requires WaitInv(s) && Base(t) && Enabled(s, step) && !SenderStep(step) && t == OutsideNext(s, step) && OutsideMove(s, t)
    ensures WaitInv(t)
  {
    if step.AdmitNotice? {
      AdmitWaits(s, step.notice, step.candidates, t);
    } else if step.RecoverSend? {
      RecoverWaits(s, step.id, t);
    } else {
      OutsideLeavesUndue(s, t);
      OutsideLeavesDecisions(s, step, t);
      WaitKept(s, t);
    }
  }

  lemma {:induction false} WaitAfter(s: Sys, steps: seq<Step>)
    requires WaitInv(s) && Runs(s, steps)
    ensures WaitInv(After(s, steps))
    decreases |steps|
  {
    if steps == [] {
    } else {
      WaitNext(s, steps[0]);
      WaitAfter(Next(s, steps[0]), steps[1..]);
    }
  }

  /** In every run, no claim takes the job of a decision before that decision's release time. */
  lemma NoClaimBeforeRelease(s: Sys, now: int, limits: Limits, w: WorkerId, id: JobId, k: DecisionKey)
    requires Reachable(s, now, limits) && Enabled(s, ClaimNext(w, Some(id)))
    requires k in s.db.decisions && s.db.decisions[k].job == Some(id) && s.db.decisions[k].releaseAt.Some?
    ensures s.db.decisions[k].releaseAt.value <= s.now
  {
    ReachableWaits(s, now, limits);
    ClaimWaits(s, w, id, k);
  }

  // ---------------------------------------------------------------- from admission to claim

  /** Decisions keep their release time for good. */
  ghost predicate ReleasesStay(before: map<DecisionKey, Decision>, after: map<DecisionKey, Decision>) {
    forall k | k in before :: k in after && after[k].releaseAt == before[k].releaseAt
  }

  lemma {:induction false} AdmissionKeepsReleases(db: Db, n: Notice, candidates: seq<Candidate>, now: int)
    ensures var r := DecideAll(db, n, candidates, now); r.Ok? ==> ReleasesStay(db.decisions, r.value.0.decisions)
    decreases |candidates|
  {
    if candidates == [] {
    } else if ReleaseTime(candidates[0], n, now).Ok? {
      AdmissionKeepsReleases(DecideOne(db, n, candidates[0], ReleaseTime(candidates[0], n, now).value, now), n,
                             candidates[1..], now);
    }
  }

  lemma ReleasesStayOutside(s: Sys, step: Step, t: Sys)
    requires Enabled(s, step) && !SenderStep(step) && t == OutsideNext(s, step)
    ensures ReleasesStay(s.db.decisions, t.db.decisions)
  {
    if step.AdmitNotice? {
      AdmissionKeepsReleases(s.db.(inbox := s.db.inbox + {step.notice.event}), step.notice, step.candidates, s.now);
    } else if !step.RecoverSend? {
      OutsideLeavesDecisions(s, step, t);
    }
  }

  lemma {:induction false} ReleasesStayAfter(s: Sys, steps: seq<Step>)
    requires Runs(s, steps)
    ensures ReleasesStay(s.db.decisions, After(s, steps).db.decisions)
    decreases |steps|
  {
    if steps == [] {
    } else {
      var t := Next(s, steps[0]);
      if !SenderStep(steps[0]) {
        ReleasesStayOutside(s, steps[0], t);
      } else if steps[0].ClaimNext? {
        ClaimLeavesUndue(s, steps[0].w, steps[0].head, t);
      } else {
        SenderLeavesDecisions(s, steps[0], t);
      }
      ReleasesStayAfter(t, steps[1..]);
    }
  }

  /** What one admission step decides for one of its candidates. */
  lemma AdmissionDecides(s: Sys, notice: Notice, candidates: seq<Candidate>, i: nat, t: Sys)
    requires IdsBelow(s.db) && t == AdmitStep(s, notice, candidates) && notice.event !in s.db.inbox
    requires Admit(s.db, notice, candidates, s.now).Ok?
    requires i < |candidates| && DecisionKey(notice.notification, candidates[i].chat) !in s.db.decisions
    requires forall k | 0 <= k < i :: candidates[k].chat != candidates[i].chat
    ensures ReleaseTime(candidates[i], notice, s.now).Ok?
    ensures DecidedFor(t.db, notice, candidates[i], ReleaseTime(candidates[i], notice, s.now).value, s.now)
  {
    EveryCandidateIsDecided(s.db.(inbox := s.db.inbox + {notice.event}), notice, candidates, s.now, i);
  }

  /** From admission to the wire: a chat that is admitted inside its quiet window, distinct bounds, is not
      sent that notification before the first moment outside it, whatever happens in between. */
  lemma QuietChatsAreLeftAlone(s: Sys, now: int, limits: Limits, notice: Notice, candidates: seq<Candidate>, i: nat,
                               w: Window, steps: seq<Step>, worker: WorkerId, id: JobId)
    requires Reachable(s, now, limits) && notice.event !in s.db.inbox && Admit(s.db, notice, candidates, s.now).Ok?
    requires i < |candidates| && DecisionKey(notice.notification, candidates[i].chat) !in s.db.decisions
    requires forall k | 0 <= k < i :: candidates[k].chat != candidates[i].chat
    requires Deliverable(candidates[i]) && !(notice.high && candidates[i].bypass)
    requires QuietWindow(candidates[i], notice.quietHint) == Ok(Some(w))
    requires InDay(w) && w.start != w.end && QuietAt(w, s.now)
    requires var t := Next(s, AdmitNotice(notice, candidates));
      && Runs(t, steps) && Enabled(After(t, steps), ClaimNext(worker, Some(id)))
      && DecisionKey(notice.notification, candidates[i].chat) in After(t, steps).db.decisions
      && After(t, steps).db.decisions[DecisionKey(notice.notification, candidates[i].chat)].job == Some(id)
    ensures var u := After(Next(s, AdmitNotice(notice, candidates)), steps);
      forall at | s.now <= at :: !QuietAt(w, at) && (forall b | s.now <= b < at :: QuietAt(w, b)) ==> at <= u.now
  {
    var t := Next(s, AdmitNotice(notice, candidates));
    AdmittedRelease(s, now, limits, notice, candidates, i, t);
    ReleasesStayAfter(t, steps);
    ReleaseIsFirstMomentOutside(w, s.now);
    ContinuedWaits(s, now, limits, AdmitNotice(notice, candidates), steps);
    var u := After(t, steps);
    ClaimWaits(u, worker, id, DecisionKey(notice.notification, candidates[i].chat));
  }

  lemma AdmittedRelease(s: Sys, now: int, limits: Limits, notice: Notice, candidates: seq<Candidate>, i: nat, t: Sys)
    requires Reachable(s, now, limits) && notice.event !in s.db.inbox && Admit(s.db, notice, candidates, s.now).Ok?
    requires i < |candidates| && DecisionKey(notice.notification, candidates[i].chat) !in s.db.decisions
    requires forall k | 0 <= k < i :: candidates[k].chat != candidates[i].chat
    requires t == Next(s, AdmitNotice(notice, candidates))
    ensures ReleaseTime(candidates[i], notice, s.now).Ok?
    ensures var k := DecisionKey(notice.notification, candidates[i].chat);
      k in t.db.decisions && t.db.decisions[k].releaseAt == ReleaseTime(candidates[i], notice, s.now).value
  {
    ReachableWaits(s, now, limits);
    AdmissionDecides(s, notice, candidates, i, t);
  }

  lemma ReachableWaits(s: Sys, now: int, limits: Limits)
    requires Reachable(s, now, limits)
    ensures WaitInv(s)
  {
    var steps :| Runs(Start(now, limits), steps) && After(Start(now, limits), steps) == s;
    WaitAfter(Start(now, limits), steps);
  }

  lemma ContinuedWaits(s: Sys, now: int, limits: Limits, step: Step, steps: seq<Step>)
    requires Reachable(s, now, limits) && Enabled(s, step) && Runs(Next(s, step), steps)
    ensures WaitInv(After(Next(s, step), steps))
  {
    ReachableWaits(s, now, limits);
    WaitNext(s, step);
    WaitAfter(Next(s, step), steps);
  }

  lemma ClaimWaits(s: Sys, w: WorkerId, id: JobId, k: DecisionKey)
    requires WaitInv(s) && Enabled(s, ClaimNext(w, Some(id)))
    requires k in s.db.decisions && s.db.decisions[k].job == Some(id) && s.db.decisions[k].releaseAt.Some?
    ensures s.db.decisions[k].releaseAt.value <= s.now
  {
    ClaimsGoByClass(s, w, id, id);
    assert DecisionWaits(s.now, s.db.jobs, s.db.decisions[k]);
  }
}
