/** Bounded overtaking of an aged notification, and a bound on all the work a queue can cause. */
module Fairness {
  import opened Tables
  import opened OutboundQueue
  import opened Delivery
  import opened Machine
  import opened QueueEffects
  import opened Fencing
  import opened Leases
  import opened Mirror

  // ---------------------------------------------------------------- sums over the queue

  function Sum(f: nat -> nat, n: nat): nat {
    if n == 0 then 0 else Sum(f, n - 1) + f(n - 1)
  }

  lemma SumLe(f: nat -> nat, g: nat -> nat, n: nat)
    requires forall i: nat | i < n :: f(i) <= g(i)
    ensures Sum(f, n) <= Sum(g, n)
  {
  }

  /** One term smaller by `d`, the others no larger. */
  lemma {:induction false} SumDrops(f: nat -> nat, g: nat -> nat, n: nat, k: nat, d: nat)
    requires k < n && f(k) + d <= g(k)
    requires forall i: nat | i < n :: f(i) <= g(i)
    ensures Sum(f, n) + d <= Sum(g, n)
  {
    if k == n - 1 { SumLe(f, g, n - 1); } else { SumDrops(f, g, n - 1, k, d); }
  }

  lemma SumExtends(f: nat -> nat, m: nat, n: nat, c: nat)
    requires m <= n && forall i: nat | m <= i < n :: f(i) <= c
    ensures Sum(f, n) <= Sum(f, m) + c * (n - m)
    decreases n
  {
    if m < n {
      SumExtends(f, m, n - 1, c);
      assert c * (n - m) == c * (n - 1 - m) + c;
    }
  }

  // ---------------------------------------------------------------- bounded overtaking

  function Spare(j: Job, maxAttempts: nat): nat {
    if j.attempts < maxAttempts then maxAttempts - j.attempts else 0
  }

  predicate LiveNotice(j: Job) {
    j.delivery.Notification? && !Terminal(j)
  }

  function Share(jobs: map<JobId, Job>, maxAttempts: nat, id: JobId): nat {
    if id in jobs && LiveNotice(jobs[id]) then Spare(jobs[id], maxAttempts) else 0
  }

  /** How many more claims each live notification can still win. */
  function NoticeClaimsLeft(jobs: map<JobId, Job>, maxAttempts: nat): nat -> nat {
    (id: nat) => Share(jobs, maxAttempts, id)
  }

  function LiveNotices(jobs: map<JobId, Job>): nat -> nat {
    (id: nat) => if id in jobs && LiveNotice(jobs[id]) then 1 else 0
  }

  /** The claims that live notifications with smaller ids can still win. */
  function Ahead(s: Sys, n: JobId): nat {
    Sum(NoticeClaimsLeft(s.db.jobs, s.limits.maxAttempts), n)
  }

  /** Due, in a chat with no job in flight, and at least five minutes old. */
  predicate Starving(s: Sys, n: JobId) {
    var clean := Quarantine(s.db, s.now).jobs;
    Eligible(clean, s.now, n) && Rank(clean[n], s.now) == 0
  }

  /** While a notification starves, no claim passes to a younger notification or to anything else. */
  lemma StarvingComesFirst(s: Sys, n: JobId, head: Option<JobId>)
    requires Starving(s, n) && IsHead(Quarantine(s.db, s.now).jobs, s.now, head)
    ensures head.Some? && head.value <= n && head.value in s.db.jobs && s.db.jobs[head.value].delivery.Notification?
  {
    var clean := Quarantine(s.db, s.now).jobs;
    if head.Some? {
      HeadIsGlobalMinimum(clean, s.now, head.value);
      assert NotAfter(clean, s.now, head.value, n);
    }
  }

  ghost predicate SharesFall(before: map<JobId, Job>, after: map<JobId, Job>, maxAttempts: nat, n: JobId) {
    forall id: nat | id < n :: Share(after, maxAttempts, id) <= Share(before, maxAttempts, id)
  }

  lemma NoticesNeverGain(s: Sys, t: Sys, n: JobId)
    requires t.limits == s.limits && SharesFall(s.db.jobs, t.db.jobs, s.limits.maxAttempts, n)
    ensures Ahead(t, n) <= Ahead(s, n)
  {
    SumLe(NoticeClaimsLeft(t.db.jobs, t.limits.maxAttempts), NoticeClaimsLeft(s.db.jobs, s.limits.maxAttempts), n);
  }

  lemma SharesOutside(before: Db, after: Db, maxAttempts: nat, n: JobId)
    requires n <= before.nextJob && Outside(before, after)
    ensures SharesFall(before.jobs, after.jobs, maxAttempts, n)
  {
    forall id: nat | id < n ensures Share(after.jobs, maxAttempts, id) <= Share(before.jobs, maxAttempts, id) {
      if id in before.jobs { assert OutsideRow(before.jobs[id], after.jobs[id]); }
    }
  }

  lemma SharesSender(s: Sys, t: Sys, w: WorkerId, maxAttempts: nat, n: JobId)
    requires SenderRows(s, t, w)
    ensures SharesFall(s.db.jobs, t.db.jobs, maxAttempts, n)
  {
    forall id: nat | id < n ensures Share(t.db.jobs, maxAttempts, id) <= Share(s.db.jobs, maxAttempts, id) {
    }
  }

  /** A claim of a smaller notification uses up one of the claims it had left. */
  lemma SharesClaim(before: map<JobId, Job>, after: map<JobId, Job>, now: int, ttl: nat, head: Option<JobId>,
                    maxAttempts: nat, n: JobId)
    requires ClaimEffect(before, after, now, ttl, head)
    ensures SharesFall(before, after, maxAttempts, n)
    ensures head.Some? && LiveNotice(before[head.value]) && before[head.value].attempts < maxAttempts ==>
      Share(after, maxAttempts, head.value) + 1 <= Share(before, maxAttempts, head.value)
  {
    forall id: nat | id < n ensures Share(after, maxAttempts, id) <= Share(before, maxAttempts, id) {
    }
  }

  /** A claimed notification was waiting, so it had attempts to spare. */
  lemma ClaimedNoticeHadSpare(s: Sys, head: JobId)
    requires Ledger(s) && Mirrored(s.db) && head in s.db.jobs && s.db.jobs[head].delivery.Notification?
    requires !ExpiredSend(s.db.jobs[head], s.now)
    requires Waiting(s.db.jobs[head]) || LeaseExpired(s.db.jobs[head], s.now)
    ensures LiveNotice(s.db.jobs[head]) && s.db.jobs[head].attempts < s.limits.maxAttempts
  {
    assert DecidedJob(s.db.decisions, head, s.db.jobs[head]);
    assert RowWf(s.db.jobs[head]);
    assert BoundedJob(s.db.jobs[head], s.history.expiries[head], BornSend(s.history, head), s.limits.maxAttempts);
  }

  lemma AheadClaim(s: Sys, t: Sys, n: JobId, head: Option<JobId>)
    requires Ledger(s) && Mirrored(s.db) && t.limits == s.limits
    requires ClaimEffect(s.db.jobs, t.db.jobs, s.now, s.limits.leaseTtl, head)
    ensures Ahead(t, n) <= Ahead(s, n)
    ensures head.Some? && head.value < n && s.db.jobs[head.value].delivery.Notification? ==> Ahead(t, n) + 1 <= Ahead(s, n)
  {
    var max := s.limits.maxAttempts;
    SharesClaim(s.db.jobs, t.db.jobs, s.now, s.limits.leaseTtl, head, max, n);
    NoticesNeverGain(s, t, n);
    if head.Some? && head.value < n && s.db.jobs[head.value].delivery.Notification? {
      ClaimedNoticeHadSpare(s, head.value);
      SumDrops(NoticeClaimsLeft(t.db.jobs, max), NoticeClaimsLeft(s.db.jobs, max), n, head.value, 1);
    }
  }

  ghost predicate StarvesThroughout(s: Sys, steps: seq<Step>, n: JobId)
    requires Runs(s, steps)
    decreases |steps|
  {
    steps == []
    || ((steps[0].ClaimNext? ==> Starving(s, n)) && StarvesThroughout(Next(s, steps[0]), steps[1..], n))
  }

  /** The claims of a run that took something else. */
  function Overtakings(steps: seq<Step>, n: JobId): nat {
    if steps == [] then 0
    else (if steps[0].ClaimNext? && steps[0].head != Some(n) then 1 else 0) + Overtakings(steps[1..], n)
  }

  lemma AheadOutside(s: Sys, t: Sys, n: JobId)
    requires n < s.db.nextJob && OutsideMove(s, t)
    ensures n < t.db.nextJob && Ahead(t, n) <= Ahead(s, n)
  {
    SharesOutside(s.db, t.db, s.limits.maxAttempts, n);
    NoticesNeverGain(s, t, n);
  }

  lemma AheadStarvingClaim(s: Sys, w: WorkerId, head: Option<JobId>, t: Sys, n: JobId)
    requires Ledger(s) && Mirrored(s.db) && n < s.db.nextJob && Starving(s, n)
    requires Enabled(s, ClaimNext(w, head)) && t == ClaimStep(s, w, head)
    ensures n < t.db.nextJob && Ahead(t, n) + (if head != Some(n) then 1 else 0) <= Ahead(s, n)
  {
    ClaimShape(s, w, head);
    StarvingComesFirst(s, n, head);
    AheadClaim(s, t, n, head);
  }

  lemma AheadSender(s: Sys, step: Step, t: Sys, n: JobId)
    requires Base(s) && n < s.db.nextJob && Enabled(s, step) && SenderStep(step) && !step.ClaimNext?
    requires t == SenderNext(s, step)
    ensures n < t.db.nextJob && Ahead(t, n) <= Ahead(s, n)
  {
    SenderStepRows(s, step, t);
    SharesSender(s, t, step.w, s.limits.maxAttempts, n);
    NoticesNeverGain(s, t, n);
  }

  lemma OvertakingStep(s: Sys, step: Step, n: JobId)
    requires Ledger(s) && MirrorInv(s) && n < s.db.nextJob && Enabled(s, step)
    requires step.ClaimNext? ==> Starving(s, n)
    ensures n < Next(s, step).db.nextJob
    ensures Ahead(Next(s, step), n) + (if step.ClaimNext? && step.head != Some(n) then 1 else 0) <= Ahead(s, n)
  {
    if !SenderStep(step) {
      OutsideStep(s, step);
      AheadOutside(s, OutsideNext(s, step), n);
    } else if step.ClaimNext? {
      AheadStarvingClaim(s, step.w, step.head, SenderNext(s, step), n);
    } else {
      AheadSender(s, step, SenderNext(s, step), n);
    }
  }

  lemma {:induction false} OvertakingsUseUpClaims(s: Sys, steps: seq<Step>, n: JobId)
    requires Ledger(s) && MirrorInv(s) && n < s.db.nextJob
    requires Runs(s, steps) && StarvesThroughout(s, steps, n)
    ensures Overtakings(steps, n) <= Ahead(s, n)
    decreases |steps|
  {
    if steps == [] {
    } else {
      LedgerNext(s, steps[0]);
      MirrorNext(s, steps[0]);
      OvertakingStep(s, steps[0], n);
      OvertakingsUseUpClaims(Next(s, steps[0]), steps[1..], n);
    }
  }

  lemma Distributes(m: nat, a: nat, b: nat)
    ensures m * (a + b) == m * a + m * b
  {
  }

  lemma ShareBound(jobs: map<JobId, Job>, maxAttempts: nat, id: JobId)
    ensures NoticeClaimsLeft(jobs, maxAttempts)(id) <= maxAttempts * LiveNotices(jobs)(id)
  {
  }

  lemma {:induction false} AheadBound(jobs: map<JobId, Job>, maxAttempts: nat, n: JobId)
    ensures Sum(NoticeClaimsLeft(jobs, maxAttempts), n) <= maxAttempts * Sum(LiveNotices(jobs), n)
  {
    if n > 0 {
      AheadBound(jobs, maxAttempts, n - 1);
      ShareBound(jobs, maxAttempts, n - 1);
      Distributes(maxAttempts, Sum(LiveNotices(jobs), n - 1), LiveNotices(jobs)(n - 1));
    }
  }

  /** Bounded overtaking: through any stretch of any run in which a five-minute-old notification stays
      eligible whenever a claim is made, the claims that pass it over number at most `max_attempts`
      times the live notifications with smaller ids. */
  lemma OvertakingIsBounded(s: Sys, now: int, limits: Limits, steps: seq<Step>, n: JobId)
    requires Reachable(s, now, limits) && limits.maxAttempts >= 1 && n in s.db.jobs
    requires Runs(s, steps) && StarvesThroughout(s, steps, n)
    ensures Overtakings(steps, n) <= s.limits.maxAttempts * Sum(LiveNotices(s.db.jobs), n)
  {
    ReachableLedger(s, now, limits);
    var past :| Runs(Start(now, limits), past) && After(Start(now, limits), past) == s;
    MirrorAfter(Start(now, limits), past);
    OvertakingsUseUpClaims(s, steps, n);
    AheadBound(s.db.jobs, s.limits.maxAttempts, n);
  }

  // ---------------------------------------------------------------- all the work there is

  /** The claims and settlements that a job can still cause without another lease expiry. */
  function Work(jobs: map<JobId, Job>, maxAttempts: nat, id: JobId): nat {
    if id !in jobs || Terminal(jobs[id]) then 0
    else 2 * Spare(jobs[id], maxAttempts) + if jobs[id].state.Sending? then 1 else 0
  }

  function JobWork(jobs: map<JobId, Job>, maxAttempts: nat): nat -> nat {
    (id: nat) => Work(jobs, maxAttempts, id)
  }

  function WorkLeft(s: Sys): nat {
    Sum(JobWork(s.db.jobs, s.limits.maxAttempts), s.db.nextJob)
  }

  /** Claims and settlements so far and still to come, against what was enqueued and what expired. */
  predicate WorkPaidFor(s: Sys) {
    |s.history.claims| + |s.history.settlements| + WorkLeft(s)
    <= 2 * s.limits.maxAttempts * s.db.nextJob + |s.history.expiries|
  }

  ghost predicate WorkFalls(before: map<JobId, Job>, after: map<JobId, Job>, maxAttempts: nat, n: nat) {
    forall id: nat | id < n :: Work(after, maxAttempts, id) <= Work(before, maxAttempts, id)
  }

  lemma WorkOutsideRows(before: Db, after: Db, max: nat)
    requires IdsBelow(before) && Outside(before, after)
    ensures WorkFalls(before.jobs, after.jobs, max, before.nextJob)
    ensures forall id: nat | before.nextJob <= id < after.nextJob :: Work(after.jobs, max, id) <= 2 * max
  {
    forall id: nat | id < before.nextJob ensures Work(after.jobs, max, id) <= Work(before.jobs, max, id) {
      if id in before.jobs { assert OutsideRow(before.jobs[id], after.jobs[id]); }
    }
  }

  lemma WorkOutside(s: Sys, t: Sys)
    requires IdsBelow(s.db) && Outside(s.db, t.db) && t.limits == s.limits
    ensures WorkLeft(t) <= WorkLeft(s) + 2 * s.limits.maxAttempts * (t.db.nextJob - s.db.nextJob)
  {
    var max := s.limits.maxAttempts;
    WorkOutsideRows(s.db, t.db, max);
    SumLe(JobWork(t.db.jobs, max), JobWork(s.db.jobs, max), s.db.nextJob);
    SumExtends(JobWork(t.db.jobs, max), s.db.nextJob, t.db.nextJob, 2 * max);
  }

  lemma WorkSenderRows(s: Sys, t: Sys, w: WorkerId, max: nat, n: nat)
    requires SenderRows(s, t, w) && SenderLog(s, t, w)
    ensures WorkFalls(s.db.jobs, t.db.jobs, max, n)
    ensures t.history.settlements != s.history.settlements ==>
      var id := s.workers[w].claim.id;
      id in s.db.jobs && Work(t.db.jobs, max, id) + 1 <= Work(s.db.jobs, max, id)
      && |t.history.settlements| == |s.history.settlements| + 1
  {
    forall id: nat | id < n ensures Work(t.db.jobs, max, id) <= Work(s.db.jobs, max, id) {
    }
  }

  lemma WorkSender(s: Sys, t: Sys, w: WorkerId)
    requires IdsBelow(s.db) && SenderRows(s, t, w) && SenderLog(s, t, w)
    ensures WorkLeft(t) + |t.history.settlements| <= WorkLeft(s) + |s.history.settlements|
  {
    var max := s.limits.maxAttempts;
    WorkSenderRows(s, t, w, max, s.db.nextJob);
    SumLe(JobWork(t.db.jobs, max), JobWork(s.db.jobs, max), s.db.nextJob);
    if t.history.settlements != s.history.settlements {
      SumDrops(JobWork(t.db.jobs, max), JobWork(s.db.jobs, max), s.db.nextJob, s.workers[w].claim.id, 1);
    }
  }

  lemma WorkClaimRows(before: map<JobId, Job>, after: map<JobId, Job>, now: int, ttl: nat, head: Option<JobId>,
                      max: nat, n: nat)
    requires ClaimEffect(before, after, now, ttl, head)
    requires head.Some? && !before[head.value].state.Sending? ==> before[head.value].attempts < max
    ensures WorkFalls(before, after, max, n)
    ensures head.Some? && !before[head.value].state.Sending? ==>
      Work(after, max, head.value) + 1 <= Work(before, max, head.value)
  {
    forall id: nat | id < n ensures Work(after, max, id) <= Work(before, max, id) {
    }
  }

  lemma WorkClaim(s: Sys, t: Sys, head: Option<JobId>)
    requires Ledger(s) && t.db.nextJob == s.db.nextJob && t.limits == s.limits
    requires ClaimEffect(s.db.jobs, t.db.jobs, s.now, s.limits.leaseTtl, head)
    ensures WorkLeft(t) <= WorkLeft(s)
    ensures head.Some? && !s.db.jobs[head.value].state.Sending? ==> WorkLeft(t) + 1 <= WorkLeft(s)
  {
    var max := s.limits.maxAttempts;
    if head.Some? {
      assert RowWf(s.db.jobs[head.value]);
      assert BoundedJob(s.db.jobs[head.value], s.history.expiries[head.value], BornSend(s.history, head.value), max);
    }
    WorkClaimRows(s.db.jobs, t.db.jobs, s.now, s.limits.leaseTtl, head, max, s.db.nextJob);
    SumLe(JobWork(t.db.jobs, max), JobWork(s.db.jobs, max), s.db.nextJob);
    if head.Some? && !s.db.jobs[head.value].state.Sending? {
      SumDrops(JobWork(t.db.jobs, max), JobWork(s.db.jobs, max), s.db.nextJob, head.value, 1);
    }
  }

  lemma WorkPaidClaim(s: Sys, t: Sys, w: WorkerId, head: Option<JobId>)
    requires Ledger(s) && WorkPaidFor(s) && Enabled(s, ClaimNext(w, head)) && t == ClaimStep(s, w, head)
    ensures WorkPaidFor(t)
  {
    ClaimShape(s, w, head);
    WorkClaim(s, t, head);
  }

  lemma WorkPaidOutside(s: Sys, t: Sys)
    requires IdsBelow(s.db) && WorkPaidFor(s) && Outside(s.db, t.db) && t.limits == s.limits
    requires t.history.claims == s.history.claims && t.history.expiries == s.history.expiries
    requires t.history.settlements == s.history.settlements
    ensures WorkPaidFor(t)
  {
    WorkOutside(s, t);
    assert 2 * s.limits.maxAttempts * t.db.nextJob
           == 2 * s.limits.maxAttempts * s.db.nextJob + 2 * s.limits.maxAttempts * (t.db.nextJob - s.db.nextJob);
  }

  lemma WorkNext(s: Sys, step: Step)
    requires Ledger(s) && WorkPaidFor(s) && Enabled(s, step)
    ensures WorkPaidFor(Next(s, step))
  {
    if !SenderStep(step) {
      OutsideStep(s, step);
      WorkPaidOutside(s, OutsideNext(s, step));
    } else if step.ClaimNext? {
      WorkPaidClaim(s, ClaimStep(s, step.w, step.head), step.w, step.head);
    } else {
      SenderStepRows(s, step, SenderNext(s, step));
      WorkSender(s, SenderNext(s, step), step.w);
    }
  }

  lemma {:induction false} WorkAfter(s: Sys, steps: seq<Step>)
    requires Ledger(s) && WorkPaidFor(s) && Runs(s, steps)
    ensures WorkPaidFor(After(s, steps))
    decreases |steps|
  {
    if steps == [] {
    } else {
      LedgerNext(s, steps[0]);
      WorkNext(s, steps[0]);
      WorkAfter(Next(s, steps[0]), steps[1..]);
    }
  }

  /** Over any run, claims and settlements together are bounded by twice the attempts of every job ever
      enqueued plus the leases that ran out: no job circulates forever. */
  lemma WorkIsFinite(s: Sys, now: int, limits: Limits)
    requires Reachable(s, now, limits) && limits.maxAttempts >= 1
    ensures |s.history.claims| + |s.history.settlements| <= 2 * s.limits.maxAttempts * s.db.nextJob + |s.history.expiries|
  {
    var steps :| Runs(Start(now, limits), steps) && After(Start(now, limits), steps) == s;
    assert WorkPaidFor(Start(now, limits));
    WorkAfter(Start(now, limits), steps);
  }

  /** The other half of progress: when no job is in flight and some job is not finished, letting time
      pass makes a claim of a waiting job possible. */
  lemma UnfinishedWorkIsClaimable(s: Sys, now: int, limits: Limits, id: JobId, w: WorkerId)
    returns (to: int, head: JobId)
    requires Reachable(s, now, limits) && limits.maxAttempts >= 1 && w !in s.workers
    requires id in s.db.jobs && !Terminal(s.db.jobs[id])
    requires forall i | i in s.db.jobs :: !s.db.jobs[i].state.Sending?
    ensures Enabled(s, Tick(to)) && Enabled(Next(s, Tick(to)), ClaimNext(w, Some(head)))
    ensures Waiting(s.db.jobs[head])
  {
    ReachableLedger(s, now, limits);
    to, head := WaitingIsClaimable(s, id, w);
  }

  lemma WaitingIsClaimable(s: Sys, id: JobId, w: WorkerId) returns (to: int, head: JobId)
    requires Base(s) && w !in s.workers && id in s.db.jobs && !Terminal(s.db.jobs[id])
    requires forall i | i in s.db.jobs :: !s.db.jobs[i].state.Sending?
    ensures Enabled(s, Tick(to)) && Enabled(Next(s, Tick(to)), ClaimNext(w, Some(head)))
    ensures Waiting(s.db.jobs[head])
  {
    assert RowWf(s.db.jobs[id]);
    to := if s.now < s.db.jobs[id].nextAttemptAt then s.db.jobs[id].nextAttemptAt else s.now;
    var t := Next(s, Tick(to));
    var clean := Quarantine(t.db, to).jobs;
    assert forall i | i in clean :: clean[i] == s.db.jobs[i];
    assert Eligible(clean, to, id);
    var first := HeadExists(clean, to);
    head := first.value;
  }

  /** How many own steps a worker has left in its pass. */
  function StepsLeft(workers: map<WorkerId, Worker>, w: WorkerId): nat {
    if w !in workers then 0
    else
      match workers[w].phase
      case Guarding => 8
      case Gated(_) => 7
      case Wiring(_, _) => 6
      case Acking(_, _, _, failures) => if failures < 2 then 5 - failures else 3
      case Settling(_, _, _) => 2
      case Following(_, _) => 1
  }

  /** A claimed job is let go within eight steps of its worker, whatever the wire and the database answer;
      and short of crashing the worker always has a step to take. */
  lemma PassIsShort(s: Sys, w: WorkerId) returns (step: Step)
    requires w in s.workers
    ensures Enabled(s, step) && SenderStep(step) && step.w == w && !step.Crash? && !step.AckFault? && !step.ClaimNext?
    ensures forall own: Step | SenderStep(own) && own.w == w && Enabled(s, own) ::
              StepsLeft(SenderNext(s, own).workers, w) < StepsLeft(s.workers, w) <= 8
  {
    match s.workers[w].phase {
      case Guarding => step := RunGuard(w);
      case Gated(_) => step := Prepare(w);
      case Wiring(_, _) => step := Wire(w, Acknowledged(0), true, 0);
      case Acking(_, _, _, _) => step := Acknowledge(w, false);
      case Settling(_, _, _) => step := SettleClaim(w);
      case Following(_, _) => step := FollowThrough(w);
    }
    forall own: Step | SenderStep(own) && own.w == w && Enabled(s, own)
      ensures StepsLeft(SenderNext(s, own).workers, w) < StepsLeft(s.workers, w)
    {
      OwnStepShortens(s, own);
    }
  }

  lemma OwnStepShortens(s: Sys, step: Step)
    requires Enabled(s, step) && SenderStep(step) && step.w in s.workers
    ensures StepsLeft(SenderNext(s, step).workers, step.w) < StepsLeft(s.workers, step.w)
  {
    match step
    case RunGuard(w) => GuardShape(s, w);
    case Defer(w, delay) => DeferShape(s, w, delay);
    case Prepare(w) => PrepareShape(s, w);
    case Wire(w, reply, applied, draw) => WireShape(s, w, reply, applied, draw);
    case Acknowledge(w, replyLost) =>
    case AckFault(w) =>
    case SettleClaim(w) => SettleShape(s, w);
    case FollowThrough(w) => FollowShape(s, w);
    case Crash(w) => CrashShape(s, w);
  }
}
