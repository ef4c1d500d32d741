/** The dispatcher's sender loop over the database and the limiter, proved to be a run of the machine
    (services/dispatcher/src/outbound/sender/mod.rs and sender/process.rs). */
module Sender {
  import opened Tables
  import opened OutboundQueue
  import opened ProjectionAccept
  import opened Acknowledgements
  import opened Delivery
  import opened Machine
  import opened Renders
  import opened Store
  import Limiter

  /** What becomes of one attempt to record an acknowledgement. */
  datatype AckFate = Answered | AnswerLost | NotCommitted

  /** What becomes of one local transaction: a failure may come before or after its commit. */
  datatype Fate = Works | Fails | FailsAfterCommit

  /** What the outside answers during one pass: the clock at each reading, the fate of each local
      transaction, the wire call, and the jitter draw. */
  datatype Environment = Environment(
    claimAt: int,
    gateAt: int,
    wireAt: int,
    settleAt: int,
    claimFate: Fate,
    readFate: Fate,
    prepareFate: Fate,
    settleFate: Fate,
    followFate: Fate,
    reply: Reply,
    applied: bool,
    draw: nat,
    acks: seq<AckFate>)

  predicate Sensible(env: Environment) {
    && env.claimAt <= env.gateAt <= env.wireAt <= env.settleAt
    && Plausible(env.reply, env.applied) && |env.acks| == 3
  }

  lemma {:induction false} RunsSnoc(s: Sys, steps: seq<Step>, step: Step)
    requires Runs(s, steps) && Enabled(After(s, steps), step)
    ensures Runs(s, steps + [step]) && After(s, steps + [step]) == Next(After(s, steps), step)
    decreases |steps|
  {
    if steps == [] {
      assert [step][1..] == [] && [] + [step] == [step];
    } else {
      RunsSnoc(Next(s, steps[0]), steps[1..], step);
      assert (steps + [step])[1..] == steps[1..] + [step];
    }
  }

  // ---------------------------------------------------------------- wire calls and the gate

  /** The chats of the wire calls of a run, in order. */
  ghost function WireChats(s: Sys, steps: seq<Step>): seq<int>
    requires Runs(s, steps)
    decreases |steps|
  {
    if steps == [] then []
    else
      (if steps[0].Wire? then [s.workers[steps[0].w].claim.chat] else []) + WireChats(Next(s, steps[0]), steps[1..])
  }

  lemma {:induction false} WireChatsSnoc(s: Sys, steps: seq<Step>, step: Step)
    requires Runs(s, steps) && Enabled(After(s, steps), step)
    ensures Runs(s, steps + [step])
    ensures WireChats(s, steps + [step])
            == WireChats(s, steps) + if step.Wire? then [After(s, steps).workers[step.w].claim.chat] else []
    decreases |steps|
  {
    RunsSnoc(s, steps, step);
    if steps == [] {
      assert [step][1..] == [] && [] + [step] == [step];
    } else {
      WireChatsSnoc(Next(s, steps[0]), steps[1..], step);
      assert (steps + [step])[1..] == steps[1..] + [step];
    }
  }

  /** `wires[k]` is the limiter call that let the k-th wire call through. */
  ghost predicate EachWireGated(config: Limiter.Config, calls: seq<Limiter.Call>, wires: seq<nat>, chats: seq<int>) {
    && |wires| == |chats|
    && (forall k | 0 <= k < |wires| ::
          && wires[k] < |calls| && calls[wires[k]].Ask? && calls[wires[k]].chat == chats[k]
          && Limiter.Proceeded(Limiter.Log(config, calls)[wires[k]]))
    && (forall j, k | 0 <= j < k < |wires| :: wires[j] < wires[k])
  }

  predicate AskedBy(calls: seq<Limiter.Call>, now: int) {
    forall i | 0 <= i < |calls| :: calls[i].Ask? ==> calls[i].now <= now
  }

  lemma GatedSnoc(config: Limiter.Config, calls: seq<Limiter.Call>, wires: seq<nat>, chats: seq<int>, call: Limiter.Call)
    requires EachWireGated(config, calls, wires, chats)
    ensures EachWireGated(config, calls + [call], wires, chats)
  {
    Limiter.LogSnoc(config, calls, call);
  }

  lemma GatedWire(config: Limiter.Config, calls: seq<Limiter.Call>, wires: seq<nat>, chats: seq<int>, gate: nat, chat: int)
    requires EachWireGated(config, calls, wires, chats)
    requires gate < |calls| && calls[gate].Ask? && calls[gate].chat == chat
    requires Limiter.Proceeded(Limiter.Log(config, calls)[gate]) && forall k | 0 <= k < |wires| :: wires[k] < gate
    ensures EachWireGated(config, calls, wires + [gate], chats + [chat])
  {
  }

  /** The wire calls of a drain are in different seconds, those to one chat at least the interval apart, and
      none comes before a cooldown that was set for its chat earlier. */
  ghost predicate Paced(config: Limiter.Config, calls: seq<Limiter.Call>, wires: seq<nat>, chats: seq<int>) {
    && |wires| == |chats|
    && (forall k | 0 <= k < |wires| :: wires[k] < |calls| && calls[wires[k]].Ask?)
    && (forall j, k | 0 <= j < k < |wires| ::
          && calls[wires[j]].now < calls[wires[k]].now
          && (chats[j] == chats[k] ==> 1000 * (calls[wires[k]].now - calls[wires[j]].now) >= config.intervalMs))
    && (forall i, k | 0 <= k < |wires| && 0 <= i < wires[k] ::
          calls[i].Penalty? && calls[i].chat == chats[k] ==> calls[i].until <= calls[wires[k]].now)
  }

  lemma GatedIsPaced(config: Limiter.Config, calls: seq<Limiter.Call>, wires: seq<nat>, chats: seq<int>)
    requires config.globalPerSecond > 0 && Limiter.ClockNeverGoesBack(calls)
    requires EachWireGated(config, calls, wires, chats)
    ensures Paced(config, calls, wires, chats)
  {
    Limiter.LogAnswers(config, calls);
    forall j, k | 0 <= j < k < |wires|
      ensures calls[wires[j]].now < calls[wires[k]].now
      ensures chats[j] == chats[k] ==> 1000 * (calls[wires[k]].now - calls[wires[j]].now) >= config.intervalMs
    {
      Limiter.SpacingOverHistories(config, calls, wires[j], wires[k]);
    }
    forall i, k | 0 <= k < |wires| && 0 <= i < wires[k] && calls[i].Penalty? && calls[i].chat == chats[k]
      ensures calls[i].until <= calls[wires[k]].now
    {
      Limiter.SpacingOverHistories(config, calls, i, wires[k]);
    }
  }

  /** The cooldown that a failed call leaves with the limiter: a flood limit's, counted from the call. */
  function CooldownOf(chat: int, shape: FailureShape, at: int): seq<Limiter.Call> {
    if shape.RateLimited? then [Limiter.Penalty(chat, SaturatingAdd(at, shape.retryAfter))] else []
  }

  /** What a pass that the limiter denied makes of its row: put back until the hint has passed, counted from
      the settlement, or dead-lettered at the attempt bound. */
  function PutBack(j: Job, hint: nat, settleAt: int, maxAttempts: nat): Job {
    if j.attempts >= maxAttempts
    then j.(state := JobState.FailedPermanent, lastError := Some(TransientExhausted), lease := None)
    else j.(state := JobState.RetryWait, lease := None,
            nextAttemptAt := settleAt + MinNat((hint + 999) / 1000, U32_MAX))
  }

  lemma PutBackSettles(j: Job, hint: nat, settleAt: int, maxAttempts: nat)
    ensures Settled(j, settleAt, maxAttempts, RetryWithBackoff(Limiter.DelaySecs(hint)))
            == PutBack(j, hint, settleAt, maxAttempts)
  {
  }

  /** Only Telegram's flood limit is classified as one, with the pause it names. */
  lemma FloodLimitIsNamed(shape: FailureShape)
    ensures Classify(shape).RateLimited? <==> shape.RateLimited?
    ensures shape.RateLimited? ==> Classify(shape) == Classified.RateLimited(shape.retryAfter)
  {
  }

  /** Where an acknowledgement leaves the loop and the tables. */
  lemma AckIsTaken(s: Sys, c: Claimed, action: WireAction, message: int, at: int, failures: nat, lost: bool)
    requires LOOP in s.workers && s.workers[LOOP] == Worker(c, Acking(action, message, at, failures))
    ensures var recorded := RecordAck(s.db, c, MethodOf(action), message, at);
      var t := SenderNext(s, Acknowledge(LOOP, lost));
      && t.db == (if recorded.Ok? then recorded.value else s.db) && t.limits == s.limits && t.now == s.now
      && if (recorded.Ok? && !lost) || failures >= 2 then LOOP !in t.workers
         else LOOP in t.workers && t.workers[LOOP] == Worker(c, Acking(action, message, at, failures + 1))
    ensures var recorded := RecordAck(s.db, c, MethodOf(action), message, at);
      recorded.Ok? ==>
        c.id in recorded.value.jobs && recorded.value.jobs[c.id].state.Sent?
        && recorded.value.jobs[c.id].acknowledged == Some(message)
  {
  }

  class OutboundSender {
    const database: Database
    const limiter: Limiter.DeliveryLimiter
    const limits: Limits

    /** Where this pass began, and the machine steps it has taken since. */
    ghost var start: Sys
    ghost var steps: seq<Step>

    /** The limiter calls so far, and for each wire call the one that let it through. */
    ghost var calls: seq<Limiter.Call>
    ghost var wires: seq<nat>

    ghost predicate Running()
      reads this
    {
      Runs(start, steps) && AllOneLoop(steps)
    }

    ghost function Here(): Sys
      requires Running()
      reads this
    {
      After(start, steps)
    }

    /** The chats that this drain has called so far. */
    ghost function Called(): seq<int>
      requires Running()
      reads this
    {
      WireChats(start, steps)
    }

    /** Every wire call went through the limiter, whose state is what its calls made of it. */
    ghost predicate Metered(now: int)
      requires Running()
      reads this, limiter
    {
      && limiter.View() == Limiter.StateAfter(limiter.config, calls)
      && Limiter.ClockNeverGoesBack(calls) && AskedBy(calls, now)
      && EachWireGated(limiter.config, calls, wires, Called())
    }

    /** The tables are those of the machine run. */
    ghost predicate InStep(now: int)
      reads this, database
    {
      Running() && Here().db == database.View() && Here().limits == limits && Here().now <= now
    }

    /** The loop's worker stands at `phase`. */
    ghost predicate Stands(c: Claimed, phase: Phase, now: int)
      reads this, database
    {
      InStep(now) && LOOP in Here().workers && Here().workers[LOOP] == Worker(c, phase)
    }

    /** The pass is over: the loop holds no claim. */
    ghost predicate Idle(now: int)
      reads this, database
    {
      InStep(now) && LOOP !in Here().workers
    }

    constructor (database: Database, limiter: Limiter.DeliveryLimiter, limits: Limits)
      ensures this.database == database && this.limiter == limiter && this.limits == limits
    {
      this.database := database;
      this.limiter := limiter;
      this.limits := limits;
    }

    ghost method Take(step: Step)
      requires Running() && Enabled(Here(), step) && SenderStep(step) && step.w == LOOP && !step.Wire?
      modifies this`steps
      ensures Running() && Here() == SenderNext(old(Here()), step)
      ensures Called() == old(Called())
    {
      RunsSnoc(start, steps, step);
      WireChatsSnoc(start, steps, step);
      steps := steps + [step];
    }

    ghost method TakeTick(to: int)
      requires Running() && Here().now <= to
      modifies this`steps
      ensures Running() && Here() == old(Here()).(now := to)
      ensures Called() == old(Called())
    {
      RunsSnoc(start, steps, Tick(to));
      WireChatsSnoc(start, steps, Tick(to));
      steps := steps + [Tick(to)];
    }

    /** A wire call, let through by the limiter call at `gate`. */
    ghost method TakeWire(reply: Reply, applied: bool, draw: nat, gate: nat, now: int)
      requires Running() && Metered(now) && Enabled(Here(), Wire(LOOP, reply, applied, draw))
      requires LetsThrough(gate, Here().workers[LOOP].claim.chat)
      modifies this`steps, this`wires
      ensures Running() && Here() == SenderNext(old(Here()), Wire(LOOP, reply, applied, draw))
      ensures Metered(now) && wires == old(wires) + [gate]
    {
      var step := Wire(LOOP, reply, applied, draw);
      RunsSnoc(start, steps, step);
      WireChatsSnoc(start, steps, step);
      GatedWire(limiter.config, calls, wires, Called(), gate, Here().workers[LOOP].claim.chat);
      steps := steps + [step];
      wires := wires + [gate];
    }

    /** The limiter call at `gate` let a delivery to this chat through, and no wire call has used it yet. */
    ghost predicate LetsThrough(gate: nat, chat: int)
      reads this, limiter
    {
      && gate < |calls| && calls[gate].Ask? && calls[gate].chat == chat
      && Limiter.Proceeded(Limiter.Log(limiter.config, calls)[gate])
      && forall k | 0 <= k < |wires| :: wires[k] < gate
    }

    /** Ask the limiter, and note the call. */
    method AskLimiter(chat: int, now: int) returns (decision: Limiter.RateDecision)
      requires Running() && Metered(now)
      modifies this`calls, limiter
      ensures Metered(now) && calls == old(calls) + [Limiter.Ask(chat, now)]
      ensures decision == Limiter.Acquire(limiter.config, old(limiter.View()), chat, now).1
      ensures decision.Proceed? ==> LetsThrough(|calls| - 1, chat)
    {
      GatedSnoc(limiter.config, calls, wires, Called(), Limiter.Ask(chat, now));
      Limiter.LogSnoc(limiter.config, calls, Limiter.Ask(chat, now));
      calls := calls + [Limiter.Ask(chat, now)];
      decision := limiter.TryAcquire(chat, now);
    }

    /** Tell the limiter of a cooldown, and note the call. */
    method CoolDown(chat: int, until: int, ghost now: int)
      requires Running() && Metered(now)
      modifies this`calls, limiter
      ensures Metered(now) && calls == old(calls) + [Limiter.Penalty(chat, until)]
    {
      GatedSnoc(limiter.config, calls, wires, Called(), Limiter.Penalty(chat, until));
      Limiter.LogSnoc(limiter.config, calls, Limiter.Penalty(chat, until));
      calls := calls + [Limiter.Penalty(chat, until)];
      limiter.Penalize(chat, until);
    }

    /** The claim no longer holds its row in flight. */
    predicate Released(c: Claimed)
      reads database
    {
      !Owns(database.jobs, c.id, c.attempts)
    }

    /** A local error ends the pass wherever it stands; the row stays as it is until its lease runs out. */
    ghost method GiveUp(now: int)
      requires InStep(now)
      modifies this`steps
      ensures Idle(now) && Called() == old(Called())
    {
      if LOOP in Here().workers { Take(Crash(LOOP)); }
    }

    /** Settle the claim; a refused or failed settlement ends the pass. */
    method SettleClaim(c: Claimed, outcome: DeliveryOutcome, env: Environment, ghost follow: Follow, ghost at: int)
      returns (r: Result<(), Fault>)
      requires Stands(c, Settling(outcome, follow, at), env.settleAt)
      modifies this`steps, database
      ensures r.Ok? ==> Owns(old(database.jobs), c.id, c.attempts)
      ensures r.Ok? ==> database.jobs == old(database.jobs)[c.id :=
                          Settled(old(database.jobs)[c.id], env.settleAt, limits.maxAttempts, outcome)]
      ensures r.Ok? && !follow.Nothing? ==> Stands(c, Following(follow, at), env.settleAt)
      ensures r.Err? || follow.Nothing? ==> Idle(env.settleAt)
      ensures start == old(start) && Running() && Called() == old(Called()) && (r.Ok? ==> Released(c))
    {
      TakeTick(env.settleAt);
      if env.settleFate.Fails? {
        GiveUp(env.settleAt);
        return Err(Query);
      }
      Take(Step.SettleClaim(LOOP));
      r := database.SettleOutboundJob(c.id, c.attempts, env.settleAt, limits.maxAttempts, outcome);
      if r.Ok? && env.settleFate.FailsAfterCommit? {
        r := Err(Query);
      }
      if r.Err? {
        GiveUp(env.settleAt);
      }
    }

    method ApplyFailure(c: Claimed, action: WireAction, shape: FailureShape, at: int, env: Environment)
      returns (r: Result<(), Fault>)
      requires Stands(c, Settling(FailureOutcome(limits, c, action, Classify(shape), env.draw),
                                  FollowUp(c, Classify(shape)), at), env.settleAt)
      requires Metered(env.settleAt)
      modifies this`steps, this`calls, database, limiter
      ensures Idle(env.settleAt) && Metered(env.settleAt) && start == old(start) && (r.Ok? ==> Released(c))
      ensures calls == old(calls) + CooldownOf(c.chat, shape, at)
    {
      FloodLimitIsNamed(shape);
      var decision := Classify(shape);
      if decision.RateLimited? {
        r := HoldBack(c, action, decision, at, env);
      } else {
        r := SettleFailure(c, action, decision, at, env);
      }
    }

    /** Leave the flood limit with the limiter, and put the row back for as long. */
    method HoldBack(c: Claimed, ghost action: WireAction, decision: Classified, at: int, env: Environment)
      returns (r: Result<(), Fault>)
      requires Stands(c, Settling(FailureOutcome(limits, c, action, decision, env.draw), FollowUp(c, decision), at),
                      env.settleAt)
      requires decision.RateLimited? && Metered(env.settleAt)
      modifies this`steps, this`calls, database, limiter
      ensures Idle(env.settleAt) && Metered(env.settleAt) && start == old(start) && (r.Ok? ==> Released(c))
      ensures calls == old(calls) + [Limiter.Penalty(c.chat, SaturatingAdd(at, decision.retryAfter))]
    {
      CoolDown(c.chat, SaturatingAdd(at, decision.retryAfter), env.settleAt);
      var delay := RateLimitDelay(limits, decision.retryAfter, env.draw);
      r := SettleClaim(c, RetryWithBackoff(delay), env, Nothing, at);
    }

    method SettleFailure(c: Claimed, action: WireAction, decision: Classified, at: int, env: Environment)
      returns (r: Result<(), Fault>)
      requires Stands(c, Settling(FailureOutcome(limits, c, action, decision, env.draw), FollowUp(c, decision), at),
                      env.settleAt)
      requires !decision.RateLimited?
      modifies this`steps, database
      ensures Idle(env.settleAt) && start == old(start) && Called() == old(Called()) && (r.Ok? ==> Released(c))
    {
      ghost var follow := FollowUp(c, decision);
      match decision {
        case NotModified =>
          r := SettleClaim(c, DeliveryOutcome.NotModified, env, follow, at);
          if r.Ok? && c.operation.Some? && c.revision.Some? {
            r := Follow(c, Advance, at, env);
          }
        case Permanent(reason) =>
          r := SettleClaim(c, DeliveryOutcome.FailedPermanent(reason), env, follow, at);
          if r.Ok? && c.kind.EditMessageText? && c.operation.Some? && LosesMessage(reason) {
            r := Follow(c, Unbind, at, env);
          }
        case OutcomeUnknown =>
          if action.Send? {
            r := SettleClaim(c, DeliveryOutcome.OutcomeUnknown, env, follow, at);
          } else {
            r := Retry(c, at, env);
          }
        case Transient => r := Retry(c, at, env);
        case Sent => r := Retry(c, at, env);
      }
    }

    method Retry(c: Claimed, ghost at: int, env: Environment) returns (r: Result<(), Fault>)
      requires Stands(c, Settling(RetryWithBackoff(TransientBackoff(limits, c.attempts, env.draw)), Nothing, at), env.settleAt)
      modifies this`steps, database
      ensures Idle(env.settleAt) && start == old(start) && Called() == old(Called()) && (r.Ok? ==> Released(c))
    {
      r := SettleClaim(c, RetryWithBackoff(TransientBackoff(limits, c.attempts, env.draw)), env, Nothing, at);
    }

    /** The second transaction of a settlement: advance the render, or clear the lost message. */
    method Follow(c: Claimed, follow: Delivery.Follow, at: int, env: Environment) returns (r: Result<(), Fault>)
      requires c.operation.Some? && !follow.Nothing? && (follow.Advance? ==> c.revision.Some?)
      requires Stands(c, Following(follow, at), env.settleAt) && Released(c)
      modifies this`steps, database
      ensures Idle(env.settleAt) && start == old(start) && Called() == old(Called()) && Released(c)
    {
      if env.followFate.Fails? {
        GiveUp(env.settleAt);
        return Err(Query);
      }
      Take(FollowThrough(LOOP));
      r := Ok(());
      var key := BindingKey(c.operation.value, c.chat);
      if follow.Advance? {
        database.AdvanceRenderedRevision(key, c.revision.value, at);
      } else {
        r := database.UnbindBoundMessage(key);
      }
      if r.Ok? && env.followFate.FailsAfterCommit? {
        r := Err(Query);
      }
    }

    /** One attempt at the local transaction; the answer may be lost after it committed. */
    method TryRecord(c: Claimed, action: WireAction, message: int, at: int, fate: AckFate, ghost failures: nat, ghost now: int)
      returns (r: Result<(), Fault>)
      requires failures < 3 && Stands(c, Acking(action, message, at, failures), now)
      modifies this`steps, database
      ensures start == old(start) && Running() && Called() == old(Called())
      ensures r.Ok? || failures == 2 ==> Idle(now)
      ensures r.Err? && failures < 2 ==> Stands(c, Acking(action, message, at, failures + 1), now)
      ensures r.Ok? ==>
        c.id in database.jobs && database.jobs[c.id].state.Sent? && database.jobs[c.id].acknowledged == Some(message)
    {
      if fate.NotCommitted? {
        Take(AckFault(LOOP));
        return Err(Query);
      }
      AckIsTaken(Here(), c, action, message, at, failures, fate.AnswerLost?);
      Take(Acknowledge(LOOP, fate.AnswerLost?));
      r := database.RecordOutboundAcknowledgement(c, MethodOf(action), message, at);
      if r.Ok? && fate.AnswerLost? {
        r := Err(Query);
      }
    }

    /** Retain a known acknowledgement and retry only its idempotent local transaction, three times. */
    method RecordKnownAck(c: Claimed, action: WireAction, message: int, at: int, fates: seq<AckFate>, ghost now: int)
      returns (r: Result<(), Fault>)
      requires |fates| == 3 && Stands(c, Acking(action, message, at, 0), now)
      modifies this`steps, database
      ensures Idle(now) && start == old(start) && Called() == old(Called()) && (r.Ok? ==> Released(c))
      ensures r.Ok? ==>
        c.id in database.jobs && database.jobs[c.id].state.Sent? && database.jobs[c.id].acknowledged == Some(message)
    {
      r := Err(Query);
      for attempt := 0 to 3
        invariant start == old(start) && r.Err? && Running() && Called() == old(Called())
        invariant attempt < 3 ==> Stands(c, Acking(action, message, at, attempt), now)
        invariant attempt == 3 ==> Idle(now)
      {
        r := TryRecord(c, action, message, at, fates[attempt], attempt, now);
        if r.Ok? {
          return;
        }
      }
    }

    /** Gate, deliver, classify, settle: one pass over one resolved job. A pass that the limiter denies makes no
        wire call and puts the row back. One that it lets through makes its one wire call, unless the
        preparation is refused or fails; and a flood limit that Telegram names is left with the limiter. */
    method DeliverAndSettle(c: Claimed, action: WireAction, env: Environment) returns (r: Result<(), Fault>)
      requires Sensible(env) && Stands(c, Phase.Gated(action), env.gateAt) && Metered(env.gateAt)
      modifies this`steps, this`calls, this`wires, database, limiter
      ensures Idle(env.settleAt) && Metered(env.settleAt) && start == old(start) && (r.Ok? ==> Released(c))
      ensures old(calls) <= calls
      ensures var decision := Limiter.Acquire(limiter.config, old(limiter.View()), c.chat, env.gateAt).1;
        if !decision.Proceed? then
          && wires == old(wires)
          && (r.Ok? ==> c.id in old(database.jobs)
                        && database.jobs == old(database.jobs)[c.id :=
                             PutBack(old(database.jobs)[c.id], decision.afterMs, env.settleAt, limits.maxAttempts)])
        else if env.prepareFate.Works? && Owns(old(database.jobs), c.id, c.attempts) then
          && wires == old(wires) + [|old(calls)|]
          && calls == old(calls) + [Limiter.Ask(c.chat, env.gateAt)]
             + if env.reply.Failed? then CooldownOf(c.chat, env.reply.shape, env.wireAt) else []
        else wires == old(wires)
    {
      TakeTick(env.gateAt);
      var decision := AskLimiter(c.chat, env.gateAt);
      if decision.Proceed? {
        r := PrepareAndCall(c, action, env, |calls| - 1);
      } else {
        r := WaitOut(c, action, decision.afterMs, env);
      }
    }

    /** Put a denied job back until the hint has passed. */
    method WaitOut(c: Claimed, action: WireAction, hint: nat, env: Environment) returns (r: Result<(), Fault>)
      requires Sensible(env) && Stands(c, Phase.Gated(action), env.gateAt)
      modifies this`steps, database
      ensures Idle(env.settleAt) && start == old(start) && Called() == old(Called()) && (r.Ok? ==> Released(c))
      ensures r.Ok? ==> c.id in old(database.jobs)
      ensures r.Ok? ==> database.jobs == old(database.jobs)[c.id :=
                          PutBack(old(database.jobs)[c.id], hint, env.settleAt, limits.maxAttempts)]
    {
      var delay := Limiter.DelaySecs(hint);
      ghost var at := Here().now;
      Take(Defer(LOOP, delay));
      ghost var before := database.jobs;
      r := SettleClaim(c, RetryWithBackoff(delay), env, Nothing, at);
      if c.id in before { PutBackSettles(before[c.id], hint, env.settleAt, limits.maxAttempts); }
    }

    /** Store the concrete method, and only then call Telegram. */
    method PrepareAndCall(c: Claimed, action: WireAction, env: Environment, ghost gate: nat) returns (r: Result<(), Fault>)
      requires Sensible(env) && Stands(c, Phase.Gated(action), env.gateAt) && Metered(env.gateAt)
      requires LetsThrough(gate, c.chat)
      modifies this`steps, this`calls, this`wires, database, limiter
      ensures Idle(env.settleAt) && Metered(env.settleAt) && start == old(start) && (r.Ok? ==> Released(c))
      ensures if env.prepareFate.Works? && Owns(old(database.jobs), c.id, c.attempts) then
                && wires == old(wires) + [gate]
                && calls == old(calls) + if env.reply.Failed? then CooldownOf(c.chat, env.reply.shape, env.wireAt) else []
              else wires == old(wires) && calls == old(calls)
    {
      TakeTick(env.wireAt);
      if env.prepareFate.Fails? {
        GiveUp(env.settleAt);
        return Err(Query);
      }
      Take(Prepare(LOOP));
      r := database.PrepareOutboundMethod(c, MethodOf(action));
      if r.Ok? && env.prepareFate.FailsAfterCommit? {
        r := Err(Query);
      }
      if r.Err? {
        GiveUp(env.settleAt);
        return;
      }
      r := CallTelegram(c, action, env, gate);
    }

    method CallTelegram(c: Claimed, action: WireAction, env: Environment, ghost gate: nat) returns (r: Result<(), Fault>)
      requires Sensible(env) && Stands(c, Wiring(action, env.wireAt), env.settleAt) && Metered(env.settleAt)
      requires LetsThrough(gate, c.chat)
      modifies this`steps, this`calls, this`wires, database, limiter
      ensures Idle(env.settleAt) && Metered(env.settleAt) && start == old(start) && (r.Ok? ==> Released(c))
      ensures wires == old(wires) + [gate]
      ensures calls == old(calls) + if env.reply.Failed? then CooldownOf(c.chat, env.reply.shape, env.wireAt) else []
    {
      TakeWire(env.reply, env.applied, env.draw, gate, env.settleAt);
      match env.reply
      case Acknowledged(message) =>
        r := RecordKnownAck(c, action, message, env.wireAt, env.acks, env.settleAt);
      case Failed(shape) =>
        r := ApplyFailure(c, action, shape, env.wireAt, env);
    }

    /** The supersede guards, as the guard step of the machine takes them. */
    method Process(c: Claimed, env: Environment) returns (r: Result<(), Fault>)
      requires Sensible(env) && Stands(c, Guarding, env.claimAt) && Metered(env.claimAt)
      modifies this`steps, this`calls, this`wires, database, limiter
      ensures old(calls) <= calls
      ensures Idle(env.settleAt) && Metered(env.settleAt) && start == old(start) && (r.Ok? ==> Released(c))
    {
      if !env.readFate.Works? {
        GiveUp(env.settleAt);
        return Err(Query);
      }
      var guarded := if c.kind.SendMessage? then GuardSend(c, database.bindings) else GuardEdit(c, database.bindings);
      ghost var at := Here().now;
      Take(RunGuard(LOOP));
      match guarded
      case Withdraw =>
        r := SettleClaim(c, SupersededStale, env, Nothing, at);
      case Act(action) =>
        r := DeliverAndSettle(c, action, env);
    }

    /** Claim and fully process one due job; `was` bounds the clock before. A pass that reports work has let
        go of the row it claimed, and one that found no work leaves nothing eligible. */
    method RunOnce(env: Environment, ghost was: int) returns (worked: Result<bool, Fault>, ghost claim: Option<Claimed>)
      requires Sensible(env) && Idle(was) && Metered(was) && was <= env.claimAt
      modifies this`steps, this`calls, this`wires, database, limiter
      ensures old(calls) <= calls
      ensures Idle(env.settleAt) && Metered(env.settleAt) && start == old(start)
      ensures worked == Ok(true) ==> claim.Some? && Released(claim.value)
      ensures worked == Ok(false) ==> forall id | id in database.jobs :: !Eligible(database.jobs, env.claimAt, id)
    {
      claim := None;
      TakeTick(env.claimAt);
      if env.claimFate.Fails? {
        return Err(Query), None;
      }
      var claimed, head := database.ClaimDueOutboundJob(env.claimAt, limits.leaseTtl);
      claim := claimed;
      Take(ClaimNext(LOOP, head));
      if env.claimFate.FailsAfterCommit? {
        GiveUp(env.settleAt);
        return Err(Query), claim;
      }
      if claimed.None? {
        return Ok(false), claim;
      }
      var r := Process(claimed.value, env);
      worked := if r.Ok? then Ok(true) else Err(r.error);
    }

    /** Claim and process until shutdown, which comes after the given passes; an idle or failed pass only
        waits. Whatever the outside answers, every pass is part of one run of the machine's single loop, so
        the tables end in a state of such a run, and what holds in every such run holds of them. And the wire
        calls of the drain are paced: in different seconds, the interval apart within a chat, and never before
        a cooldown that was set for the chat earlier, be it in this drain or in the limiter's past. */
    method RunUntilShutdown(passes: seq<Environment>, ghost s: Sys, ghost past: seq<Limiter.Call>)
      requires s.db == database.View() && s.limits == limits && LOOP !in s.workers
      requires limiter.View() == Limiter.StateAfter(limiter.config, past)
      requires Limiter.ClockNeverGoesBack(past) && AskedBy(past, s.now) && limiter.config.globalPerSecond > 0
      requires forall i | 0 <= i < |passes| :: Sensible(passes[i]) && s.now <= passes[i].claimAt
      requires forall i, j | 0 <= i < j < |passes| :: passes[i].settleAt <= passes[j].claimAt
      modifies this`start, this`steps, this`calls, this`wires, database, limiter
      ensures start == s && Running() && Here().db == database.View() && LOOP !in Here().workers
      ensures past <= calls && limiter.View() == Limiter.StateAfter(limiter.config, calls)
      ensures Paced(limiter.config, calls, wires, WireChats(start, steps))
    {
      start, steps, calls, wires := s, [], past, [];
      ghost var was := s.now;
      for i := 0 to |passes|
        invariant start == s && Idle(was) && Metered(was) && past <= calls
        invariant forall k | i <= k < |passes| :: was <= passes[k].claimAt
      {
        var worked, claim := RunOnce(passes[i], was);
        was := passes[i].settleAt;
      }
      GatedIsPaced(limiter.config, calls, wires, WireChats(start, steps));
    }
  }
}
