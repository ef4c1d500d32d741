/** What a claim takes, and what it leaves alone, told of the rows and their delivery classes. */
module ClaimOrder {
  import opened Tables
  import opened OutboundQueue
  import opened Machine
  import opened QueueEffects

  // ---------------------------------------------------------------- what could be claimed

  /** Some job of the chat is in flight under an unexpired lease. */
  predicate ChatInFlight(jobs: map<JobId, Job>, now: int, chat: int) {
    exists id | id in jobs ::
      jobs[id].chat == chat && jobs[id].state == JobState.Sending && jobs[id].lease.Some? && now < jobs[id].lease.value
  }

  /** A waiting job that is due, or an edit whose lease ran out, in a chat with nothing in flight. */
  predicate Claimable(jobs: map<JobId, Job>, now: int, id: JobId) {
    && id in jobs
    && !ChatInFlight(jobs, now, jobs[id].chat)
    && (|| ((jobs[id].state == JobState.Ready || jobs[id].state == JobState.RetryWait) && jobs[id].nextAttemptAt <= now)
        || (jobs[id].state == JobState.Sending && jobs[id].kind == EditMessageText
            && jobs[id].lease.Some? && jobs[id].lease.value <= now))
  }

  /** A notification that has waited five minutes. */
  predicate Starved(j: Job, now: int) { j.delivery.Notification? && j.delivery.createdAt + 300 <= now }

  predicate Young(j: Job, now: int) { j.delivery.Notification? && now < j.delivery.createdAt + 300 }

  lemma InFlightUnderQuarantine(db: Db, now: int, chat: int)
    ensures Busy(Quarantine(db, now).jobs, now, chat) <==> ChatInFlight(db.jobs, now, chat)
  {
    var clean := Quarantine(db, now).jobs;
    if ChatInFlight(db.jobs, now, chat) {
      var id :| id in db.jobs && db.jobs[id].chat == chat && db.jobs[id].state == JobState.Sending
                && db.jobs[id].lease.Some? && now < db.jobs[id].lease.value;
      assert clean[id] == db.jobs[id] && Leased(clean[id], now);
    }
    if Busy(clean, now, chat) {
      var id :| id in clean && clean[id].chat == chat && Leased(clean[id], now);
      assert clean[id] == db.jobs[id];
    }
  }

  lemma ClaimableIsEligible(db: Db, now: int, id: JobId)
    ensures Eligible(Quarantine(db, now).jobs, now, id) <==> Claimable(db.jobs, now, id)
  {
    if id in db.jobs { InFlightUnderQuarantine(db, now, db.jobs[id].chat); }
  }

  // ---------------------------------------------------------------- the order of the classes

  /** Which job a claim takes. A notification that has waited five minutes goes first; then direct messages,
      then projections, then other notifications; and within each of these the lowest id. */
  lemma ClaimsGoByClass(s: Sys, w: WorkerId, id: JobId, other: JobId)
    requires Enabled(s, ClaimNext(w, Some(id)))
    ensures Claimable(s.db.jobs, s.now, id)
    ensures Claimable(s.db.jobs, s.now, other) ==>
      var j, k := s.db.jobs[id], s.db.jobs[other];
      && (Young(j, s.now) ==> Young(k, s.now) && id <= other)
      && (j.delivery.Projection? ==> Young(k, s.now) || (k.delivery.Projection? && id <= other))
      && (j.delivery.Direct? ==> Young(k, s.now) || k.delivery.Projection? || (k.delivery.Direct? && id <= other))
      && (Starved(j, s.now) && Starved(k, s.now) ==> id <= other)
  {
    var clean := Quarantine(s.db, s.now).jobs;
    HeadIsGlobalMinimum(clean, s.now, id);
    ClaimableIsEligible(s.db, s.now, id);
    ClaimableIsEligible(s.db, s.now, other);
    if Claimable(s.db.jobs, s.now, other) { assert NotAfter(clean, s.now, id, other); }
  }

  /** A claim comes away empty exactly when nothing is claimable, and otherwise there is one to take. */
  lemma ClaimTakesSomethingIfAny(s: Sys, w: WorkerId)
    requires w !in s.workers
    ensures Enabled(s, ClaimNext(w, None)) <==> forall id :: !Claimable(s.db.jobs, s.now, id)
    ensures (exists id :: Enabled(s, ClaimNext(w, Some(id)))) <==> exists id :: Claimable(s.db.jobs, s.now, id)
  {
    var clean := Quarantine(s.db, s.now).jobs;
    forall id ensures Eligible(clean, s.now, id) <==> Claimable(s.db.jobs, s.now, id) {
      ClaimableIsEligible(s.db, s.now, id);
    }
    var head := HeadExists(clean, s.now);
    if head.Some? {
      assert Enabled(s, ClaimNext(w, Some(head.value)));
      assert Claimable(s.db.jobs, s.now, head.value);
    }
    forall id | Enabled(s, ClaimNext(w, Some(id))) ensures Claimable(s.db.jobs, s.now, id) {
      assert Eligible(clean, s.now, id);
    }
  }

  // ---------------------------------------------------------------- what a claim does to the rows

  /** A claim leases the job it takes under its next attempt, quarantines exactly the sends whose lease ran
      out, and leaves every other row alone, in flight or not. */
  lemma ClaimTouchesOnly(s: Sys, w: WorkerId, head: Option<JobId>, id: JobId)
    requires Enabled(s, ClaimNext(w, head)) && id in s.db.jobs
    ensures var t := Next(s, ClaimNext(w, head)); var j := s.db.jobs[id];
      && t.db.jobs.Keys == s.db.jobs.Keys
      && t.db.jobs[id] ==
           if head == Some(id)
           then j.(state := JobState.Sending, attempts := j.attempts + 1, lease := Some(s.now + s.limits.leaseTtl))
           else if j.state == JobState.Sending && j.kind == SendMessage && j.lease.Some? && j.lease.value <= s.now
           then j.(state := JobState.OutcomeUnknown, lease := None, lastError := Some(ProcessExitUnknown))
           else j
  {
    assert Next(s, ClaimNext(w, head)) == ClaimStep(s, w, head);
    ClaimShape(s, w, head);
  }

  /** The worker takes away what it needs of the row, under the attempt it was given. */
  lemma ClaimHandsOutTheRow(s: Sys, w: WorkerId, id: JobId)
    requires Enabled(s, ClaimNext(w, Some(id)))
    ensures var t := Next(s, ClaimNext(w, Some(id)));
      && id in s.db.jobs && w in t.workers
      && var c := t.workers[w].claim; var j := s.db.jobs[id];
         && c.id == id && c.attempts == j.attempts + 1 && c.kind == j.kind
         && c.bot == j.bot && c.chat == j.chat && c.operation == j.operation && c.revision == j.revision
         && c.dialogue == j.dialogue && c.recoveryOf == j.recoveryOf
  {
    assert Next(s, ClaimNext(w, Some(id))) == ClaimStep(s, w, Some(id));
    ClaimShape(s, w, Some(id));
  }
}
