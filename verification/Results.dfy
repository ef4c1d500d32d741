/** Every completed dialogue has exactly one result job, and nothing else makes one. */
module Results {
  import opened Tables
  import opened OutboundQueue
  import opened Interaction
  import opened Delivery
  import opened Machine
  import opened QueueEffects
  import opened Fencing
  import opened Leases
  import opened Outcomes
  import opened Ownership

  /** The jobs that completions of one dialogue enqueued. */
  function ResultsOf(trail: Trail, id: DialogueId): set<JobId> {
    set j | j in trail.results && trail.results[j] == id
  }

  predicate IsResultRow(j: Job, id: DialogueId) {
    j.kind.SendMessage? && j.dialogue == Some(id) && j.operation.None? && j.revision.None?
  }

  ghost predicate ResultInv(db: Db, trail: Trail) {
    && (forall j | j in trail.results :: j in db.jobs && IsResultRow(db.jobs[j], trail.results[j]))
    && (forall id :: |ResultsOf(trail, id)| == trail.completions[id])
  }

  lemma ResultsStay(before: Db, after: Db, trail: Trail, seen: Trail)
    requires ResultInv(before, trail) && SendRowsStay(before.jobs, after.jobs)
    requires seen.results == trail.results && seen.completions == trail.completions
    ensures ResultInv(after, seen)
  {
    forall id ensures |ResultsOf(seen, id)| == seen.completions[id] {
      assert ResultsOf(seen, id) == ResultsOf(trail, id);
    }
    forall j | j in seen.results ensures j in after.jobs && IsResultRow(after.jobs[j], seen.results[j]) {
      assert IsResultRow(before.jobs[j], trail.results[j]);
    }
  }

  /** A completion that finishes adds one row, the result it was given. */
  lemma CompletionAddsResult(db: Db, id: DialogueId, update: ReleasingUpdate, result: Option<Uuid>, job: NewJob, now: int)
    requires IdsBelow(db) && CompleteDialogue(db, id, update, result, job, now).1.Finished?
    ensures var after := CompleteDialogue(db, id, update, result, job, now).0;
      && after.nextJob == db.nextJob + 1 && db.nextJob !in db.jobs
      && after.jobs == db.jobs[db.nextJob := FreshJob(job, now)]
      && IsResultRow(after.jobs[db.nextJob], id)
  {
  }

  lemma OneResultMore(trail: Trail, seen: Trail, j: JobId, id: DialogueId, o: DialogueId)
    requires j !in trail.results && seen.results == trail.results[j := id]
    ensures |ResultsOf(seen, o)| == |ResultsOf(trail, o)| + if o == id then 1 else 0
  {
    var before, after := ResultsOf(trail, o), ResultsOf(seen, o);
    if o == id {
      assert after == before + {j};
    } else {
      assert after == before;
    }
  }

  lemma ResultCounts(trail: Trail, seen: Trail, j: JobId, id: DialogueId)
    requires j !in trail.results && seen.results == trail.results[j := id]
    requires seen.completions == trail.completions + multiset{id}
    requires forall o :: |ResultsOf(trail, o)| == trail.completions[o]
    ensures forall o :: |ResultsOf(seen, o)| == seen.completions[o]
  {
    forall o ensures |ResultsOf(seen, o)| == seen.completions[o] { OneResultMore(trail, seen, j, id, o); }
  }

  lemma ResultComplete(db: Db, trail: Trail, id: DialogueId, update: ReleasingUpdate, result: Option<Uuid>, job: NewJob,
                       now: int)
    requires ResultInv(db, trail) && IdsBelow(db)
    requires CompleteDialogue(db, id, update, result, job, now).1.Finished?
    ensures var (after, answer) := CompleteDialogue(db, id, update, result, job, now);
      ResultInv(after, Observe(trail, Complete(id, update, result, job), answer, db, after))
  {
    CompletionAddsResult(db, id, update, result, job, now);
    var (after, answer) := CompleteDialogue(db, id, update, result, job, now);
    var seen := Observe(trail, Complete(id, update, result, job), answer, db, after);
    ResultCounts(trail, seen, db.nextJob, id);
    forall j | j in seen.results ensures j in after.jobs && IsResultRow(after.jobs[j], seen.results[j]) {
      if j != db.nextJob { assert IsResultRow(db.jobs[j], trail.results[j]); }
    }
  }

  lemma ResultInteract(s: Sys, command: Command, t: Sys)
    requires ResultInv(s.db, s.trail) && IdsBelow(s.db) && t == InteractStep(s, command)
    ensures ResultInv(t.db, t.trail)
  {
    if command.Complete? && Perform(s.db, command, s.now).1.Finished? {
      ResultComplete(s.db, s.trail, command.dialogue, command.update, command.result, command.job, s.now);
    } else {
      OtherCommandsKeepBindings(s.db, command, s.now, t.db);
      OtherAnswersAddNoResult(s, command, t);
      ResultsStay(s.db, t.db, s.trail, t.trail);
    }
  }

  lemma OtherAnswersAddNoResult(s: Sys, command: Command, t: Sys)
    requires t == InteractStep(s, command) && !(command.Complete? && Perform(s.db, command, s.now).1.Finished?)
    ensures t.trail.results == s.trail.results && t.trail.completions == s.trail.completions
  {
  }

  lemma ResultSender(s: Sys, step: Step, t: Sys)
    requires ResultInv(s.db, s.trail) && Base(s) && Enabled(s, step) && SenderStep(step) && t == SenderNext(s, step)
    ensures ResultInv(t.db, t.trail)
  {
    if step.ClaimNext? {
      ClaimShape(s, step.w, step.head);
      ClaimedRowsStay(s.db.jobs, t.db.jobs, s.now, s.limits.leaseTtl, step.head);
    } else {
      SenderStepRows(s, step, t);
      SenderRowsStay(s, t, step.w);
    }
    ResultsStay(s.db, t.db, s.trail, t.trail);
  }

  lemma ResultOutside(s: Sys, step: Step, t: Sys)
    requires ResultInv(s.db, s.trail) && Base(s) && Enabled(s, step) && !SenderStep(step) && !step.Interact?
    requires t == OutsideNext(s, step)
    ensures ResultInv(t.db, t.trail)
  {
    OutsideStep(s, step);
    OutsideRowsStay(s, t);
    OutsideLeavesDialogues(s, step, t);
    ResultsStay(s.db, t.db, s.trail, t.trail);
  }

  lemma {:induction false} ResultAfter(s: Sys, steps: seq<Step>)
    requires ResultInv(s.db, s.trail) && Base(s) && Runs(s, steps)
    ensures ResultInv(After(s, steps).db, After(s, steps).trail)
    decreases |steps|
  {
    if steps == [] {
    } else {
      var step := steps[0];
      BaseNext(s, step);
      if SenderStep(step) {
        ResultSender(s, step, SenderNext(s, step));
      } else if step.Interact? {
        ResultInteract(s, step.command, OutsideNext(s, step));
      } else {
        ResultOutside(s, step, OutsideNext(s, step));
      }
      ResultAfter(Next(s, step), steps[1..]);
    }
  }

  /** In every reachable state the result jobs of a dialogue number exactly its completions: none before it
      is completed, one ever after, and one for every finished dialogue; each is still in the queue, as a send
      that names the dialogue. */
  lemma ResultsNumberCompletions(s: Sys, now: int, limits: Limits, id: DialogueId)
    requires Reachable(s, now, limits)
    ensures |ResultsOf(s.trail, id)| == s.trail.completions[id] <= s.trail.confirms[id] <= 1
    ensures id in s.db.dialogues ==> (s.db.dialogues[id].lifecycle.Finished? <==> |ResultsOf(s.trail, id)| == 1)
    ensures forall j | j in ResultsOf(s.trail, id) :: j in s.db.jobs && IsResultRow(s.db.jobs[j], id)
  {
    ReachableResults(s, now, limits);
    ResultsTold(s, id);
  }

  lemma ReachableResults(s: Sys, now: int, limits: Limits)
    requires Reachable(s, now, limits)
    ensures OutcomeInv(s.db, s.trail) && ResultInv(s.db, s.trail)
  {
    var steps :| Runs(Start(now, limits), steps) && After(Start(now, limits), steps) == s;
    OutcomeAfterRun(Start(now, limits), steps);
    ResultAfter(Start(now, limits), steps);
  }

  lemma ResultsTold(s: Sys, id: DialogueId)
    requires OutcomeInv(s.db, s.trail) && ResultInv(s.db, s.trail)
    ensures |ResultsOf(s.trail, id)| == s.trail.completions[id] <= s.trail.confirms[id] <= 1
    ensures id in s.db.dialogues ==> (s.db.dialogues[id].lifecycle.Finished? <==> |ResultsOf(s.trail, id)| == 1)
    ensures forall j | j in ResultsOf(s.trail, id) :: j in s.db.jobs && IsResultRow(s.db.jobs[j], id)
  {
    assert OneOutcome(s.trail, id);
    if id in s.db.dialogues { assert RowTells(s.trail, id, s.db.dialogues[id]); }
  }
}
