/** Without crashes no job is forgotten: a run that comes to rest has finished all its jobs. */
module Progress {
  import opened Tables
  import opened OutboundQueue
  import opened Delivery
  import opened Machine
  import opened QueueEffects
  import opened Fencing
  import opened Leases
  import opened Fairness
  import opened Sender
  import opened Renders

  /** No crash, and no acknowledgement given up: its transaction may fail, but not a third time. */
  predicate CrashFree(s: Sys, step: Step) {
    && !step.Crash?
    && (step.AckFault? && step.w in s.workers && s.workers[step.w].phase.Acking? ==>
          s.workers[step.w].phase.failures < 2)
  }

  predicate HoldsClaim(worker: Worker, id: JobId, attempts: nat) {
    worker.claim.id == id && worker.claim.attempts == attempts && !worker.phase.Following?
  }

  predicate HeldRow(workers: map<WorkerId, Worker>, id: JobId, j: Job) {
    j.state.Sending? ==> exists w :: w in workers && HoldsClaim(workers[w], id, j.attempts)
  }

  /** Every row in flight is in some worker's hands. */
  ghost predicate Held(s: Sys) {
    forall id | id in s.db.jobs :: HeldRow(s.workers, id, s.db.jobs[id])
  }

  lemma HeldOutside(s: Sys, t: Sys)
    requires Held(s) && OutsideMove(s, t)
    ensures Held(t)
  {
    forall id | id in t.db.jobs ensures HeldRow(t.workers, id, t.db.jobs[id]) {
      if id in s.db.jobs {
        assert OutsideRow(s.db.jobs[id], t.db.jobs[id]) && HeldRow(s.workers, id, s.db.jobs[id]);
      }
    }
  }

  lemma HeldClaim(s: Sys, w: WorkerId, head: Option<JobId>, t: Sys)
    requires Held(s) && Enabled(s, ClaimNext(w, head)) && t == ClaimStep(s, w, head)
    ensures Held(t)
  {
    ClaimShape(s, w, head);
    forall id | id in t.db.jobs ensures HeldRow(t.workers, id, t.db.jobs[id]) {
      assert HeldRow(s.workers, id, s.db.jobs[id]);
      if head == Some(id) {
        assert HoldsClaim(t.workers[w], id, t.db.jobs[id].attempts);
      } else if t.db.jobs[id].state.Sending? {
        var v :| v in s.workers && HoldsClaim(s.workers[v], id, s.db.jobs[id].attempts);
        assert v in t.workers && t.workers[v] == s.workers[v];
      }
    }
  }

  /** A worker that holds its row either keeps it, or settles it. */
  lemma HolderKeepsOrSettles(s: Sys, step: Step, t: Sys)
    requires Enabled(s, step) && SenderStep(step) && !step.ClaimNext? && CrashFree(s, step) && t == SenderNext(s, step)
    requires var c := s.workers[step.w].claim;
      HoldsClaim(s.workers[step.w], c.id, c.attempts) && Owns(s.db.jobs, c.id, c.attempts)
    ensures var c := s.workers[step.w].claim;
      || (c.id in t.db.jobs && !t.db.jobs[c.id].state.Sending?)
      || (step.w in t.workers && HoldsClaim(t.workers[step.w], c.id, c.attempts))
  {
    match step
    case RunGuard(w) => GuardShape(s, w);
    case Defer(w, delay) => DeferHolds(s, w, delay);
    case Prepare(w) => PrepareShape(s, w);
    case Wire(w, reply, applied, draw) => WireShape(s, w, reply, applied, draw);
    case Acknowledge(w, replyLost) => AckShape(s, w, replyLost);
    case SettleClaim(w) =>
      SettleShape(s, w);
      var c := s.workers[w].claim;
      SettledLeaves(s.db.jobs[c.id], s.now, s.limits.maxAttempts, s.workers[w].phase.outcome);
    case FollowThrough(w) =>
    case AckFault(w) => FaultHolds(s, w);
  }

  lemma FaultHolds(s: Sys, w: WorkerId)
    requires Enabled(s, AckFault(w)) && s.workers[w].phase.failures < 2
    ensures var t := AckFailed(s, w); w in t.workers && t.workers[w].claim == s.workers[w].claim
                                      && t.workers[w].phase.Acking?
  {
  }

  lemma SettledLeaves(j: Job, now: int, maxAttempts: nat, outcome: DeliveryOutcome)
    ensures !Settled(j, now, maxAttempts, outcome).state.Sending?
  {
  }

  lemma DeferHolds(s: Sys, w: WorkerId, delay: nat)
    requires Enabled(s, Defer(w, delay))
    ensures var t := Enter(s, w, Settling(RetryWithBackoff(delay), Nothing, s.now));
      w in t.workers && t.workers[w].claim == s.workers[w].claim && t.workers[w].phase.Settling?
  {
  }

  lemma HeldSender(s: Sys, step: Step, t: Sys)
    requires Base(s) && Held(s) && Enabled(s, step) && SenderStep(step) && !step.ClaimNext? && CrashFree(s, step)
    requires t == SenderNext(s, step)
    ensures Held(t)
  {
    SenderStepRows(s, step, t);
    forall id | id in t.db.jobs && t.db.jobs[id].state.Sending?
      ensures exists v :: v in t.workers && HoldsClaim(t.workers[v], id, t.db.jobs[id].attempts)
    {
      HeldRowSender(s, step, t, id);
    }
  }

  lemma HeldRowSender(s: Sys, step: Step, t: Sys, id: JobId)
    requires Held(s) && Enabled(s, step) && SenderStep(step) && !step.ClaimNext? && CrashFree(s, step)
    requires t == SenderNext(s, step) && SenderRows(s, t, step.w)
    requires id in t.db.jobs && t.db.jobs[id].state.Sending?
    ensures exists v :: v in t.workers && HoldsClaim(t.workers[v], id, t.db.jobs[id].attempts)
  {
    assert id in s.db.jobs && s.db.jobs[id].state.Sending? && s.db.jobs[id].attempts == t.db.jobs[id].attempts;
    assert HeldRow(s.workers, id, s.db.jobs[id]);
    var v :| v in s.workers && HoldsClaim(s.workers[v], id, s.db.jobs[id].attempts);
    if v == step.w {
      HolderKeepsOrSettles(s, step, t);
    } else {
      assert v in t.workers && t.workers[v] == s.workers[v];
    }
  }

  lemma HeldNext(s: Sys, step: Step)
    requires Base(s) && Held(s) && Enabled(s, step) && CrashFree(s, step)
    ensures Held(Next(s, step))
  {
    if !SenderStep(step) {
      OutsideStep(s, step);
      HeldOutside(s, OutsideNext(s, step));
    } else if step.ClaimNext? {
      HeldClaim(s, step.w, step.head, SenderNext(s, step));
    } else {
      HeldSender(s, step, SenderNext(s, step));
    }
  }

  ghost predicate RunsCrashFree(s: Sys, steps: seq<Step>)
    requires Runs(s, steps)
    decreases |steps|
  {
    steps == [] || (CrashFree(s, steps[0]) && RunsCrashFree(Next(s, steps[0]), steps[1..]))
  }

  lemma {:induction false} HeldAfter(s: Sys, steps: seq<Step>)
    requires Base(s) && Held(s) && Runs(s, steps) && RunsCrashFree(s, steps)
    ensures Base(After(s, steps)) && Held(After(s, steps))
    decreases |steps|
  {
    if steps == [] {
    } else {
      BaseNext(s, steps[0]);
      HeldNext(s, steps[0]);
      HeldAfter(Next(s, steps[0]), steps[1..]);
    }
  }

  /** A crash-free run cannot come to rest early: when all its workers are done and some job is not
      finished, letting time pass makes another claim possible. */
  lemma CrashFreeRunsFinish(now: int, limits: Limits, steps: seq<Step>, id: JobId, w: WorkerId)
    returns (to: int, head: JobId)
    requires Runs(Start(now, limits), steps) && RunsCrashFree(Start(now, limits), steps)
    requires var s := After(Start(now, limits), steps);
      s.workers == map[] && id in s.db.jobs && !Terminal(s.db.jobs[id])
    ensures var s := After(Start(now, limits), steps);
      && s.now <= to && Enabled(s, Tick(to)) && Enabled(Next(s, Tick(to)), ClaimNext(w, Some(head)))
  {
    HeldAfter(Start(now, limits), steps);
    to, head := RestIsClaimable(After(Start(now, limits), steps), id, w);
  }

  lemma RestIsClaimable(s: Sys, id: JobId, w: WorkerId) returns (to: int, head: JobId)
    requires Base(s) && Held(s) && s.workers == map[] && id in s.db.jobs && !Terminal(s.db.jobs[id])
    ensures s.now <= to && Enabled(s, Tick(to)) && Enabled(Next(s, Tick(to)), ClaimNext(w, Some(head)))
  {
    forall i | i in s.db.jobs ensures !s.db.jobs[i].state.Sending? {
      assert HeldRow(s.workers, i, s.db.jobs[i]);
    }
    to, head := WaitingIsClaimable(s, id, w);
  }

  // ---------------------------------------------------------------- how much the single loop can do

  /** A step of the one sequential loop, which may crash and restart, or of anybody else. */
  predicate LoopStep(step: Step) { SenderStep(step) ==> step.w == LOOP }

  ghost predicate AllLoop(steps: seq<Step>) {
    forall i | 0 <= i < |steps| :: LoopStep(steps[i])
  }

  /** A sender step other than a claim that finds nothing. */
  predicate Busy(step: Step) {
    SenderStep(step) && (step.ClaimNext? ==> step.head.Some?)
  }

  function BusySteps(steps: seq<Step>): nat {
    if steps == [] then 0 else (if Busy(steps[0]) then 1 else 0) + BusySteps(steps[1..])
  }

  /** Nine steps for each claim: the claim, and at most eight of its pass. */
  ghost function Credit(s: Sys): int {
    9 * |s.history.claims| - StepsLeft(s.workers, LOOP)
  }

  lemma CreditClaim(s: Sys, head: Option<JobId>, t: Sys)
    requires Enabled(s, ClaimNext(LOOP, head)) && t == ClaimStep(s, LOOP, head)
    ensures Credit(t) == Credit(s) + if head.Some? then 1 else 0
  {
    ClaimShape(s, LOOP, head);
    if head.Some? { assert |t.history.claims| == |s.history.claims| + 1; }
  }

  lemma CreditSender(s: Sys, step: Step, t: Sys)
    requires Base(s) && Enabled(s, step) && SenderStep(step) && !step.ClaimNext? && step.w == LOOP
    requires t == SenderNext(s, step)
    ensures Credit(t) >= Credit(s) + 1
  {
    SenderStepRows(s, step, t);
    OwnStepShortens(s, step);
  }

  lemma CreditNext(s: Sys, step: Step)
    requires Base(s) && Enabled(s, step) && LoopStep(step)
    ensures Credit(Next(s, step)) >= Credit(s) + if Busy(step) then 1 else 0
  {
    if !SenderStep(step) {
      OutsideStep(s, step);
    } else if step.ClaimNext? {
      CreditClaim(s, step.head, SenderNext(s, step));
    } else {
      CreditSender(s, step, SenderNext(s, step));
    }
  }

  lemma {:induction false} CreditAfter(s: Sys, steps: seq<Step>)
    requires Base(s) && Runs(s, steps) && AllLoop(steps)
    ensures Credit(After(s, steps)) >= Credit(s) + BusySteps(steps)
    decreases |steps|
  {
    if steps == [] {
    } else {
      BaseNext(s, steps[0]);
      CreditNext(s, steps[0]);
      CreditAfter(Next(s, steps[0]), steps[1..]);
    }
  }

  /** However long a run of the single loop is, with crashes and given-up acknowledgements anywhere, it takes
      at most eighteen busy steps for each attempt that each enqueued job may take, and nine for each lease
      that ran out. */
  lemma LoopStepsAreBounded(now: int, limits: Limits, steps: seq<Step>)
    requires limits.maxAttempts >= 1 && Runs(Start(now, limits), steps) && AllLoop(steps)
    ensures var s := After(Start(now, limits), steps);
      BusySteps(steps) <= 9 * (2 * limits.maxAttempts * s.db.nextJob + |s.history.expiries|)
  {
    CreditAfter(Start(now, limits), steps);
    LimitsStay(Start(now, limits), steps);
    WorkIsFinite(After(Start(now, limits), steps), now, limits);
  }

  lemma LimitsNext(s: Sys, step: Step)
    requires Base(s) && Enabled(s, step)
    ensures Next(s, step).limits == s.limits
  {
    if !SenderStep(step) {
      OutsideStep(s, step);
    } else if step.ClaimNext? {
      ClaimShape(s, step.w, step.head);
    } else {
      SenderStepRows(s, step, SenderNext(s, step));
    }
  }

  lemma {:induction false} LimitsStay(s: Sys, steps: seq<Step>)
    requires Base(s) && Runs(s, steps)
    ensures After(s, steps).limits == s.limits
    decreases |steps|
  {
    if steps == [] {
    } else {
      BaseNext(s, steps[0]);
      LimitsNext(s, steps[0]);
      LimitsStay(Next(s, steps[0]), steps[1..]);
    }
  }

  // ---------------------------------------------------------------- the single loop finishes its work

  /** A step of the one sequential loop that neither crashes nor gives up, or of anybody else. */
  predicate SteadyStep(s: Sys, step: Step) { CrashFree(s, step) && LoopStep(step) }

  ghost predicate RunsSteadily(s: Sys, steps: seq<Step>)
    requires Runs(s, steps)
    decreases |steps|
  {
    steps == [] || (SteadyStep(s, steps[0]) && RunsSteadily(Next(s, steps[0]), steps[1..]))
  }

  lemma {:induction false} SteadyIsLoop(s: Sys, steps: seq<Step>)
    requires Runs(s, steps) && RunsSteadily(s, steps)
    ensures AllLoop(steps)
    decreases |steps|
  {
    if steps == [] {
    } else {
      SteadyIsLoop(Next(s, steps[0]), steps[1..]);
    }
  }

  /** The loop never meets an expired lease, because it holds every row in flight itself. */
  ghost predicate Steady(s: Sys) {
    Base(s) && Held(s) && s.workers.Keys <= {LOOP} && s.history.expiries == multiset{}
  }

  lemma SteadyClaim(s: Sys, head: Option<JobId>, t: Sys)
    requires Steady(s) && Enabled(s, ClaimNext(LOOP, head)) && t == ClaimStep(s, LOOP, head)
    ensures t.workers.Keys <= {LOOP} && t.history.expiries == multiset{} && t.db.nextJob == s.db.nextJob
  {
    ClaimShape(s, LOOP, head);
    if head.Some? { assert HeldRow(s.workers, head.value, s.db.jobs[head.value]); }
  }

  lemma SteadySender(s: Sys, step: Step, t: Sys)
    requires Steady(s) && Enabled(s, step) && SenderStep(step) && !step.ClaimNext? && step.w == LOOP
    requires t == SenderNext(s, step)
    ensures t.workers.Keys <= {LOOP} && t.history.expiries == multiset{} && t.db.nextJob == s.db.nextJob
  {
    SenderStepRows(s, step, t);
  }

  lemma SteadyNext(s: Sys, step: Step)
    requires Steady(s) && Enabled(s, step) && SteadyStep(s, step)
    ensures Steady(Next(s, step))
    ensures SenderStep(step) || step.Tick? ==> Next(s, step).db.nextJob == s.db.nextJob
  {
    BaseNext(s, step);
    HeldNext(s, step);
    if !SenderStep(step) {
      OutsideStep(s, step);
    } else if step.ClaimNext? {
      SteadyClaim(s, step.head, SenderNext(s, step));
    } else {
      SteadySender(s, step, SenderNext(s, step));
    }
  }

  lemma {:induction false} SteadyAfter(s: Sys, steps: seq<Step>)
    requires Steady(s) && Runs(s, steps) && RunsSteadily(s, steps)
    ensures Steady(After(s, steps))
    decreases |steps|
  {
    if steps == [] {
    } else {
      SteadyNext(s, steps[0]);
      SteadyAfter(Next(s, steps[0]), steps[1..]);
    }
  }

  ghost predicate SteadyRun(now: int, limits: Limits, steps: seq<Step>) {
    limits.maxAttempts >= 1 && Runs(Start(now, limits), steps) && RunsSteadily(Start(now, limits), steps)
  }

  /** A crash-free run of the single loop meets no expired lease, so its busy steps are bounded by the jobs
      enqueued alone. */
  lemma BusyStepsAreBounded(now: int, limits: Limits, steps: seq<Step>)
    requires SteadyRun(now, limits, steps)
    ensures BusySteps(steps) <= 18 * limits.maxAttempts * After(Start(now, limits), steps).db.nextJob
  {
    SteadyIsLoop(Start(now, limits), steps);
    SteadyAfter(Start(now, limits), steps);
    LoopStepsAreBounded(now, limits, steps);
    NineTimes(limits.maxAttempts, After(Start(now, limits), steps).db.nextJob);
  }

  lemma NineTimes(a: nat, b: nat)
    ensures 9 * (2 * a * b) == 18 * a * b
  {
  }

  /** The loop is idle, and no later clock value lets it claim anything. */
  ghost predicate AtRest(s: Sys) {
    && s.workers == map[]
    && forall to, head | s.now <= to && head in s.db.jobs :: !Enabled(Next(s, Tick(to)), ClaimNext(LOOP, Some(head)))
  }

  ghost predicate AllFinished(s: Sys) {
    forall id | id in s.db.jobs :: Terminal(s.db.jobs[id])
  }

  lemma RestIsFinished(s: Sys)
    requires Base(s) && Held(s) && AtRest(s)
    ensures AllFinished(s)
  {
    forall id | id in s.db.jobs ensures Terminal(s.db.jobs[id]) {
      if !Terminal(s.db.jobs[id]) {
        var to, head := RestIsClaimable(s, id, LOOP);
        ClaimedHeadIsKnown(Next(s, Tick(to)), head);
        assert false;
      }
    }
  }

  lemma ClaimedHeadIsKnown(s: Sys, head: JobId)
    requires Enabled(s, ClaimNext(LOOP, Some(head)))
    ensures head in s.db.jobs
  {
  }

  /** A crash-free run of the single loop comes to rest only when every job it was given is terminal. */
  lemma RestMeansEveryJobIsTerminal(now: int, limits: Limits, steps: seq<Step>)
    requires SteadyRun(now, limits, steps) && AtRest(After(Start(now, limits), steps))
    ensures AllFinished(After(Start(now, limits), steps))
  {
    SteadyAfter(Start(now, limits), steps);
    RestIsFinished(After(Start(now, limits), steps));
  }

  lemma {:induction false} BusySnoc(steps: seq<Step>, step: Step)
    ensures BusySteps(steps + [step]) == BusySteps(steps) + if Busy(step) then 1 else 0
    decreases |steps|
  {
    if steps == [] {
      assert [step][1..] == [] && [] + [step] == [step];
    } else {
      BusySnoc(steps[1..], step);
      assert (steps + [step])[1..] == steps[1..] + [step];
    }
  }

  lemma {:induction false} SteadilySnoc(s: Sys, steps: seq<Step>, step: Step)
    requires Runs(s, steps) && RunsSteadily(s, steps) && Enabled(After(s, steps), step)
    requires SteadyStep(After(s, steps), step)
    ensures Runs(s, steps + [step]) && RunsSteadily(s, steps + [step])
    decreases |steps|
  {
    RunsSnoc(s, steps, step);
    if steps == [] {
      assert [step][1..] == [] && [] + [step] == [step];
    } else {
      SteadilySnoc(Next(s, steps[0]), steps[1..], step);
      assert (steps + [step])[1..] == steps[1..] + [step];
    }
  }

  /** One more step, by the loop or the clock, of a crash-free run. */
  lemma SteadySnoc(now: int, limits: Limits, steps: seq<Step>, step: Step)
    requires SteadyRun(now, limits, steps) && (SenderStep(step) || step.Tick?)
    requires Enabled(After(Start(now, limits), steps), step) && SteadyStep(After(Start(now, limits), steps), step)
    ensures SteadyRun(now, limits, steps + [step])
    ensures After(Start(now, limits), steps + [step]) == Next(After(Start(now, limits), steps), step)
    ensures After(Start(now, limits), steps + [step]).db.nextJob == After(Start(now, limits), steps).db.nextJob
    ensures BusySteps(steps + [step]) == BusySteps(steps) + if Busy(step) then 1 else 0
  {
    SteadyAfter(Start(now, limits), steps);
    SteadyNext(After(Start(now, limits), steps), step);
    RunsSnoc(Start(now, limits), steps, step);
    SteadilySnoc(Start(now, limits), steps, step);
    BusySnoc(steps, step);
  }

  /** The busy steps that a run may still take. */
  ghost function StepsToGo(now: int, limits: Limits, steps: seq<Step>): int
    requires SteadyRun(now, limits, steps)
  {
    18 * limits.maxAttempts * After(Start(now, limits), steps).db.nextJob - BusySteps(steps)
  }

  lemma OwnStepAhead(now: int, limits: Limits, steps: seq<Step>) returns (step: Step)
    requires SteadyRun(now, limits, steps) && After(Start(now, limits), steps).workers != map[]
    ensures Enabled(After(Start(now, limits), steps), step)
    ensures SteadyStep(After(Start(now, limits), steps), step) && Busy(step)
  {
    SteadyAfter(Start(now, limits), steps);
    step := LoopStepAhead(After(Start(now, limits), steps));
  }

  lemma LoopStepAhead(s: Sys) returns (step: Step)
    requires s.workers.Keys <= {LOOP} && s.workers != map[]
    ensures Enabled(s, step) && SteadyStep(s, step) && Busy(step)
  {
    var w :| w in s.workers;
    assert w in s.workers.Keys && w == LOOP;
    step := PassIsShort(s, LOOP);
  }

  lemma ClaimAhead(now: int, limits: Limits, steps: seq<Step>) returns (to: int, head: JobId)
    requires SteadyRun(now, limits, steps)
    requires After(Start(now, limits), steps).workers == map[] && !AllFinished(After(Start(now, limits), steps))
    ensures var s := After(Start(now, limits), steps);
      Enabled(s, Tick(to)) && Enabled(Next(s, Tick(to)), ClaimNext(LOOP, Some(head)))
  {
    SteadyAfter(Start(now, limits), steps);
    var s := After(Start(now, limits), steps);
    var id :| id in s.db.jobs && !Terminal(s.db.jobs[id]);
    to, head := RestIsClaimable(s, id, LOOP);
  }

  /** The next busy step of a run that has not finished, after waiting for the clock if need be. */
  lemma BusyStepAhead(now: int, limits: Limits, steps: seq<Step>) returns (more: seq<Step>)
    requires SteadyRun(now, limits, steps)
    requires After(Start(now, limits), steps).workers != map[] || !AllFinished(After(Start(now, limits), steps))
    ensures SteadyRun(now, limits, more) && steps <= more
    ensures forall i | |steps| <= i < |more| :: SenderStep(more[i]) || more[i].Tick?
    ensures StepsToGo(now, limits, more) < StepsToGo(now, limits, steps)
  {
    if After(Start(now, limits), steps).workers != map[] {
      var step := OwnStepAhead(now, limits, steps);
      SteadySnoc(now, limits, steps, step);
      more := steps + [step];
    } else {
      var to, head := ClaimAhead(now, limits, steps);
      SteadySnoc(now, limits, steps, Tick(to));
      SteadySnoc(now, limits, steps + [Tick(to)], ClaimNext(LOOP, Some(head)));
      more := steps + [Tick(to)] + [ClaimNext(LOOP, Some(head))];
    }
  }

  /** Every crash-free run of the single loop can be carried on, by the loop and the clock alone, until every
      job is terminal; `BusyStepsAreBounded` says that it cannot be kept busy forever instead. */
  lemma {:induction false} EveryRunFinishes(now: int, limits: Limits, steps: seq<Step>) returns (all: seq<Step>)
    requires SteadyRun(now, limits, steps)
    ensures SteadyRun(now, limits, all) && steps <= all
    ensures forall i | |steps| <= i < |all| :: SenderStep(all[i]) || all[i].Tick?
    ensures After(Start(now, limits), all).workers == map[] && AllFinished(After(Start(now, limits), all))
    decreases StepsToGo(now, limits, steps)
  {
    BusyStepsAreBounded(now, limits, steps);
    if After(Start(now, limits), steps).workers == map[] && AllFinished(After(Start(now, limits), steps)) {
      all := steps;
    } else {
      var more := BusyStepAhead(now, limits, steps);
      BusyStepsAreBounded(now, limits, more);
      all := EveryRunFinishes(now, limits, more);
    }
  }
}
