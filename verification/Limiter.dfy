/** The outbound rate gate: a one-token bucket, a spacing per chat and Telegram's own cooldowns
    (services/dispatcher/src/outbound/limiter.rs). */
module Limiter {
  import opened Tables
  import opened ProjectionAccept
  import opened Delivery

  type U64 = n: int | 0 <= n <= U64_MAX

  const ONE_TOKEN: nat := 1000

  datatype RateDecision = Proceed | GlobalWait(afterMs: nat) | ChatWait(afterMs: nat)

  datatype State = State(
    tokensMilli: nat,
    lastRefill: Option<int>,
    lastProceed: map<int, int>,
    penaltyUntil: map<int, int>)

  datatype Config = Config(globalPerSecond: nat, intervalMs: U64)

  const FULL: State := State(ONE_TOKEN, None, map[], map[])

  // ---------------------------------------------------------------- one call

  /** Seconds as milliseconds; negative ones count as none, and the product saturates. */
  function Millis(seconds: int): U64 {
    if seconds < 0 then 0 else MinNat(seconds * 1000, U64_MAX)
  }

  function Refilled(c: Config, st: State, now: int): State {
    match st.lastRefill
    case None => st.(lastRefill := Some(now))
    case Some(last) =>
      if SaturatingAdd(now, -last) == 0 then st
      else st.(tokensMilli := if c.globalPerSecond > 0 then ONE_TOKEN else st.tokensMilli, lastRefill := Some(now))
  }

  function PenaltyDenial(st: State, chat: int, now: int): Option<RateDecision> {
    if chat !in st.penaltyUntil || now >= st.penaltyUntil[chat] then None
    else Some(ChatWait(Millis(st.penaltyUntil[chat] - now)))
  }

  function ChatDenial(c: Config, st: State, chat: int, now: int): Option<RateDecision> {
    if c.intervalMs == 0 || chat !in st.lastProceed then None
    else
      var elapsed := Millis(SaturatingAdd(now, -st.lastProceed[chat]));
      if elapsed < c.intervalMs then Some(ChatWait(c.intervalMs - elapsed)) else None
  }

  function MillisForOneToken(globalPerSecond: nat): nat {
    var rate := if globalPerSecond == 0 then 1 else globalPerSecond;
    (1000 + rate - 1) / rate
  }

  function Acquire(c: Config, st: State, chat: int, now: int): (State, RateDecision) {
    var filled := Refilled(c, st, now);
    if PenaltyDenial(filled, chat, now).Some? then (filled, PenaltyDenial(filled, chat, now).value)
    else if ChatDenial(c, filled, chat, now).Some? then (filled, ChatDenial(c, filled, chat, now).value)
    else if filled.tokensMilli < ONE_TOKEN then (filled, GlobalWait(MillisForOneToken(c.globalPerSecond)))
    else
      (filled.(tokensMilli := filled.tokensMilli - ONE_TOKEN, lastProceed := filled.lastProceed[chat := now]), Proceed)
  }

  function Penalized(st: State, chat: int, until: int): State {
    var deadline := if chat in st.penaltyUntil then Max(st.penaltyUntil[chat], until) else until;
    st.(penaltyUntil := st.penaltyUntil[chat := deadline])
  }

  /** The mutex-guarded limiter that every sender task shares. */
  class DeliveryLimiter {
    const config: Config
    var tokensMilli: nat
    var lastRefill: Option<int>
    var lastProceed: map<int, int>
    var penaltyUntil: map<int, int>

    function View(): State
      reads this
    {
      State(tokensMilli, lastRefill, lastProceed, penaltyUntil)
    }

    constructor (config: Config)
      ensures this.config == config && View() == FULL
    {
      this.config := config;
      tokensMilli, lastRefill, lastProceed, penaltyUntil := ONE_TOKEN, None, map[], map[];
    }

    method Refill(now: int)
      modifies this
      ensures View() == Refilled(config, old(View()), now)
    {
      if lastRefill.None? {
        lastRefill := Some(now);
        return;
      }
      var elapsed := SaturatingAdd(now, -lastRefill.value);
      if elapsed == 0 {
        return;
      }
      if config.globalPerSecond > 0 {
        tokensMilli := ONE_TOKEN;
      }
      lastRefill := Some(now);
    }

    method TryAcquire(chat: int, now: int) returns (decision: RateDecision)
      modifies this
      ensures (View(), decision) == Acquire(config, old(View()), chat, now)
    {
      Refill(now);
      var denial := PenaltyDenial(View(), chat, now);
      if denial.Some? {
        return denial.value;
      }
      denial := ChatDenial(config, View(), chat, now);
      if denial.Some? {
        return denial.value;
      }
      if tokensMilli < ONE_TOKEN {
        return GlobalWait(MillisForOneToken(config.globalPerSecond));
      }
      tokensMilli := tokensMilli - ONE_TOKEN;
      lastProceed := lastProceed[chat := now];
      decision := Proceed;
    }

    method Penalize(chat: int, until: int)
      modifies this
      ensures View() == Penalized(old(View()), chat, until)
    {
      if chat in penaltyUntil {
        penaltyUntil := penaltyUntil[chat := Max(penaltyUntil[chat], until)];
      } else {
        penaltyUntil := penaltyUntil[chat := until];
      }
    }
  }

  // ---------------------------------------------------------------- whole call histories

  datatype Call = Ask(chat: int, now: int) | Penalty(chat: int, until: int)

  datatype Entry = Asked(chat: int, now: int, proceeded: bool) | Cooled(chat: int, until: int)

  function OneCall(c: Config, st: State, call: Call): State {
    match call
    case Ask(chat, now) => Acquire(c, st, chat, now).0
    case Penalty(chat, until) => Penalized(st, chat, until)
  }

  function StateAfter(c: Config, calls: seq<Call>): State {
    if calls == [] then FULL else OneCall(c, StateAfter(c, calls[..|calls| - 1]), calls[|calls| - 1])
  }

  function EntryOf(c: Config, st: State, call: Call): Entry {
    match call
    case Ask(chat, now) => Asked(chat, now, Acquire(c, st, chat, now).1.Proceed?)
    case Penalty(chat, until) => Cooled(chat, until)
  }

  /** The calls with what they were answered. */
  function Log(c: Config, calls: seq<Call>): (log: seq<Entry>)
    ensures |log| == |calls|
  {
    if calls == [] then []
    else
      var before := calls[..|calls| - 1];
      Log(c, before) + [EntryOf(c, StateAfter(c, before), calls[|calls| - 1])]
  }

  predicate ClockNeverGoesBack(calls: seq<Call>) {
    forall i, j | 0 <= i < j < |calls| :: calls[i].Ask? && calls[j].Ask? ==> calls[i].now <= calls[j].now
  }

  predicate Proceeded(e: Entry) { e.Asked? && e.proceeded }

  predicate ProceededTo(e: Entry, chat: int) { Proceeded(e) && e.chat == chat }

  predicate CooledFor(e: Entry, chat: int) { e.Cooled? && e.chat == chat }

  ghost predicate UsedSecond(log: seq<Entry>, now: int) {
    exists e :: e in log && Proceeded(e) && e.now == now
  }

  /** The bucket is empty exactly when the second of the last ask was used. */
  ghost predicate RemembersBucket(st: State, log: seq<Entry>) {
    && (st.tokensMilli == 0 || st.tokensMilli == ONE_TOKEN)
    && match st.lastRefill
       case None => st.tokensMilli == ONE_TOKEN && forall e | e in log :: !e.Asked?
       case Some(last) =>
         && AskedBy(log, last) && (exists e :: e in log && e.Asked? && e.now == last)
         && (st.tokensMilli == 0 <==> UsedSecond(log, last))
  }

  /** The last proceed of each chat. */
  ghost predicate RemembersChats(st: State, log: seq<Entry>) {
    && (forall chat | chat in st.lastProceed ::
          && (exists e :: e in log && ProceededTo(e, chat) && e.now == st.lastProceed[chat])
          && (forall e | e in log :: ProceededTo(e, chat) ==> e.now <= st.lastProceed[chat]))
    && (forall e | e in log :: Proceeded(e) ==> e.chat in st.lastProceed)
  }

  /** The greatest deadline of each chat. */
  ghost predicate RemembersPenalties(st: State, log: seq<Entry>) {
    && (forall chat | chat in st.penaltyUntil ::
          && (exists e :: e in log && CooledFor(e, chat) && e.until == st.penaltyUntil[chat])
          && (forall e | e in log :: CooledFor(e, chat) ==> e.until <= st.penaltyUntil[chat]))
    && (forall e | e in log :: e.Cooled? ==> e.chat in st.penaltyUntil)
  }

  ghost predicate Remembers(st: State, log: seq<Entry>) {
    RemembersBucket(st, log) && RemembersChats(st, log) && RemembersPenalties(st, log)
  }

  ghost predicate AskedBy(log: seq<Entry>, now: int) {
    forall e | e in log :: e.Asked? ==> e.now <= now
  }

  /** What the history alone says about a delivery now. */
  ghost predicate Allowed(c: Config, log: seq<Entry>, chat: int, now: int) {
    && (forall e | e in log :: Proceeded(e) ==> e.now < now)
    && (forall e | e in log :: ProceededTo(e, chat) ==> 1000 * (now - e.now) >= c.intervalMs)
    && (forall e | e in log :: CooledFor(e, chat) ==> e.until <= now)
  }

  lemma GapIsExact(c: Config, last: int, now: int)
    requires last <= now
    ensures Millis(SaturatingAdd(now, -last)) < c.intervalMs <==> 1000 * (now - last) < c.intervalMs
  {
  }

  lemma NotUsedYet(log: seq<Entry>, last: int, now: int)
    requires AskedBy(log, last) && last < now
    ensures !UsedSecond(log, now)
  {
  }

  lemma RefillRemembers(c: Config, st: State, log: seq<Entry>, now: int)
    requires RemembersBucket(st, log) && c.globalPerSecond > 0 && AskedBy(log, now)
    ensures var filled := Refilled(c, st, now);
      && filled == st.(tokensMilli := filled.tokensMilli, lastRefill := Some(now))
      && (filled.tokensMilli == 0 || filled.tokensMilli == ONE_TOKEN)
      && (filled.tokensMilli == 0 <==> UsedSecond(log, now))
  {
    if st.lastRefill.Some? {
      assert SaturatingAdd(now, -st.lastRefill.value) == 0 <==> now == st.lastRefill.value;
      if st.lastRefill.value < now { NotUsedYet(log, st.lastRefill.value, now); }
    } else {
      assert !UsedSecond(log, now);
    }
  }

  /** The gates decide exactly what the history demands. */
  lemma GatesDecide(c: Config, st: State, log: seq<Entry>, chat: int, now: int)
    requires Remembers(st, log) && c.globalPerSecond > 0 && AskedBy(log, now)
    ensures Acquire(c, st, chat, now).1.Proceed? <==> Allowed(c, log, chat, now)
  {
    RefillRemembers(c, st, log, now);
    var filled := Refilled(c, st, now);
    if chat in st.lastProceed {
      GapIsExact(c, st.lastProceed[chat], now);
      assert ChatDenial(c, filled, chat, now).None? <==> 1000 * (now - st.lastProceed[chat]) >= c.intervalMs;
      var e :| e in log && ProceededTo(e, chat) && e.now == st.lastProceed[chat];
    }
    if chat in st.penaltyUntil {
      var e :| e in log && CooledFor(e, chat) && e.until == st.penaltyUntil[chat];
    }
    assert PenaltyDenial(filled, chat, now).None? <==> forall e | e in log :: CooledFor(e, chat) ==> e.until <= now;
    assert ChatDenial(c, filled, chat, now).None? <==>
           forall e | e in log :: ProceededTo(e, chat) ==> 1000 * (now - e.now) >= c.intervalMs;
  }

  lemma Members(log: seq<Entry>, last: Entry)
    ensures forall e :: e in log + [last] <==> e in log || e == last
  {
  }

  lemma AskedBucket(filled: State, log: seq<Entry>, chat: int, now: int, proceeded: bool, st: State)
    requires filled.tokensMilli == 0 || filled.tokensMilli == ONE_TOKEN
    requires filled.tokensMilli == 0 <==> UsedSecond(log, now)
    requires AskedBy(log, now) && filled.lastRefill == Some(now)
    requires proceeded ==> filled.tokensMilli == ONE_TOKEN
    requires st.lastRefill == filled.lastRefill
    requires st.tokensMilli == if proceeded then 0 else filled.tokensMilli
    ensures RemembersBucket(st, log + [Asked(chat, now, proceeded)])
  {
    var last := Asked(chat, now, proceeded);
    Members(log, last);
    assert last in log + [last];
    if UsedSecond(log, now) {
      var e :| e in log && Proceeded(e) && e.now == now;
      assert e in log + [last];
    }
    assert UsedSecond(log + [last], now) <==> UsedSecond(log, now) || proceeded;
  }

  lemma AskedChats(before: State, log: seq<Entry>, chat: int, now: int, proceeded: bool, st: State)
    requires RemembersChats(before, log) && AskedBy(log, now)
    requires st.lastProceed == if proceeded then before.lastProceed[chat := now] else before.lastProceed
    ensures RemembersChats(st, log + [Asked(chat, now, proceeded)])
  {
    var last := Asked(chat, now, proceeded);
    var more := log + [last];
    Members(log, last);
    forall k | k in st.lastProceed
      ensures exists e :: e in more && ProceededTo(e, k) && e.now == st.lastProceed[k]
    {
      if proceeded && k == chat {
        assert last in more && ProceededTo(last, k);
      } else {
        var e :| e in log && ProceededTo(e, k) && e.now == before.lastProceed[k];
        assert e in more;
      }
    }
  }

  lemma AskedPenalties(before: State, log: seq<Entry>, last: Entry, st: State)
    requires RemembersPenalties(before, log) && st.penaltyUntil == before.penaltyUntil && last.Asked?
    ensures RemembersPenalties(st, log + [last])
  {
    var more := log + [last];
    Members(log, last);
    forall k | k in st.penaltyUntil
      ensures exists e :: e in more && CooledFor(e, k) && e.until == st.penaltyUntil[k]
    {
      var e :| e in log && CooledFor(e, k) && e.until == before.penaltyUntil[k];
      assert e in more;
    }
  }

  lemma AskRemembers(c: Config, st: State, log: seq<Entry>, chat: int, now: int)
    requires Remembers(st, log) && c.globalPerSecond > 0 && AskedBy(log, now)
    ensures Remembers(Acquire(c, st, chat, now).0, log + [Asked(chat, now, Acquire(c, st, chat, now).1.Proceed?)])
  {
    RefillRemembers(c, st, log, now);
    var (after, decision) := Acquire(c, st, chat, now);
    AskedBucket(Refilled(c, st, now), log, chat, now, decision.Proceed?, after);
    AskedChats(st, log, chat, now, decision.Proceed?, after);
    AskedPenalties(st, log, Asked(chat, now, decision.Proceed?), after);
  }

  lemma PenaltyUsesNoSecond(st: State, log: seq<Entry>, last: Entry)
    requires RemembersBucket(st, log) && last.Cooled?
    ensures RemembersBucket(st, log + [last])
  {
    Members(log, last);
    if st.lastRefill.Some? {
      var e :| e in log && e.Asked? && e.now == st.lastRefill.value;
      assert e in log + [last];
      assert UsedSecond(log + [last], st.lastRefill.value) <==> UsedSecond(log, st.lastRefill.value);
    }
  }

  lemma PenaltyRemembers(st: State, log: seq<Entry>, chat: int, until: int)
    requires Remembers(st, log)
    ensures Remembers(Penalized(st, chat, until), log + [Cooled(chat, until)])
  {
    var last := Cooled(chat, until);
    var after, more := Penalized(st, chat, until), log + [last];
    Members(log, last);
    assert last in more;
    PenaltyUsesNoSecond(st, log, last);
    forall k | k in after.penaltyUntil
      ensures exists e :: e in more && CooledFor(e, k) && e.until == after.penaltyUntil[k]
    {
      if k in st.penaltyUntil && after.penaltyUntil[k] == st.penaltyUntil[k] {
        var e :| e in log && CooledFor(e, k) && e.until == st.penaltyUntil[k];
        assert e in more;
      } else {
        assert CooledFor(last, k);
      }
    }
    forall k | k in after.lastProceed
      ensures exists e :: e in more && ProceededTo(e, k) && e.now == after.lastProceed[k]
    {
      var e :| e in log && ProceededTo(e, k) && e.now == st.lastProceed[k];
      assert e in more;
    }
  }

  lemma LogIsAskedBy(log: seq<Entry>, calls: seq<Call>, now: int)
    requires |log| == |calls| && AnswersTo(log, calls)
    requires forall i | 0 <= i < |calls| :: calls[i].Ask? ==> calls[i].now <= now
    ensures AskedBy(log, now)
  {
    forall e | e in log && e.Asked? ensures e.now <= now {
      var i :| 0 <= i < |log| && log[i] == e;
      assert calls[i].Ask?;
    }
  }

  /** Each entry repeats its call. */
  predicate AnswersTo(log: seq<Entry>, calls: seq<Call>)
    requires |log| == |calls|
  {
    forall i | 0 <= i < |calls| ::
      && log[i].chat == calls[i].chat && log[i].Asked? == calls[i].Ask?
      && (calls[i].Ask? ==> log[i].now == calls[i].now)
      && (calls[i].Penalty? ==> log[i].until == calls[i].until)
  }

  lemma {:induction false} LogAnswers(c: Config, calls: seq<Call>)
    ensures AnswersTo(Log(c, calls), calls)
  {
    if calls == [] {
    } else {
      LogAnswers(c, calls[..|calls| - 1]);
    }
  }

  lemma {:induction false} LogRemembers(c: Config, calls: seq<Call>)
    requires c.globalPerSecond > 0 && ClockNeverGoesBack(calls)
    ensures Remembers(StateAfter(c, calls), Log(c, calls))
  {
    if calls == [] {
    } else {
      var before, last := calls[..|calls| - 1], calls[|calls| - 1];
      LogRemembers(c, before);
      LogAnswers(c, before);
      var st, log := StateAfter(c, before), Log(c, before);
      match last
      case Ask(chat, now) =>
        LogIsAskedBy(log, before, now);
        AskRemembers(c, st, log, chat, now);
      case Penalty(chat, until) => PenaltyRemembers(st, log, chat, until);
    }
  }

  lemma {:induction false} LogPrefix(c: Config, calls: seq<Call>, n: nat)
    requires n <= |calls|
    ensures Log(c, calls[..n]) == Log(c, calls)[..n]
    decreases |calls|
  {
    if n < |calls| {
      var before := calls[..|calls| - 1];
      LogPrefix(c, before, n);
      assert before[..n] == calls[..n];
    } else {
      assert calls[..n] == calls;
    }
  }

  /** Over whole call histories with a clock that does not go back and a budget of at least one: a
      delivery proceeds exactly when nothing else proceeded in the same clock second, the last one to
      its chat is at least the interval away, and every cooldown ever set for its chat has ended. A
      budget above one per second admits no more than a budget of one. */
  lemma ProceedsExactlyWhenAllowed(c: Config, calls: seq<Call>, i: nat)
    requires c.globalPerSecond > 0 && ClockNeverGoesBack(calls) && i < |calls| && calls[i].Ask?
    ensures Proceeded(Log(c, calls)[i]) <==> Allowed(c, Log(c, calls)[..i], calls[i].chat, calls[i].now)
  {
    var before := calls[..i];
    LogPrefix(c, calls, i);
    LogPrefix(c, calls, i + 1);
    assert calls[..i + 1][..i] == before;
    LogRemembers(c, before);
    var log := Log(c, before);
    LogAnswers(c, before);
    LogIsAskedBy(log, before, calls[i].now);
    GatesDecide(c, StateAfter(c, before), log, calls[i].chat, calls[i].now);
    assert Log(c, calls)[..i + 1][i] == Log(c, calls)[i];
  }

  /** The three guarantees read off pairs of calls. */
  lemma SpacingOverHistories(c: Config, calls: seq<Call>, i: nat, j: nat)
    requires c.globalPerSecond > 0 && ClockNeverGoesBack(calls) && i < j < |calls|
    requires Proceeded(Log(c, calls)[j])
    ensures var log := Log(c, calls);
      && (Proceeded(log[i]) ==> log[i].now < log[j].now)
      && (Proceeded(log[i]) && log[i].chat == log[j].chat ==> 1000 * (log[j].now - log[i].now) >= c.intervalMs)
      && (log[i].Cooled? && log[i].chat == log[j].chat ==> log[i].until <= log[j].now)
  {
    LogAnswers(c, calls);
    ProceedsExactlyWhenAllowed(c, calls, j);
    assert Log(c, calls)[..j][i] in Log(c, calls)[..j];
  }

  /** One more call adds one entry. */
  lemma LogSnoc(c: Config, calls: seq<Call>, call: Call)
    ensures Log(c, calls + [call]) == Log(c, calls) + [EntryOf(c, StateAfter(c, calls), call)]
    ensures StateAfter(c, calls + [call]) == OneCall(c, StateAfter(c, calls), call)
  {
    assert (calls + [call])[..|calls|] == calls;
  }

  // ---------------------------------------------------------------- the wait hint

  /** The sender rounds a hint up to whole seconds of a 32-bit delay. */
  function DelaySecs(afterMs: nat): nat { Saturate((afterMs + 999) / 1000, U32_MAX) }

  /** Waiting the rounded-up hint of a denial, with nothing sent meanwhile, opens the gate that denied:
      the chat's and the global gate always, a cooldown exactly when it ends within 32 bits of seconds. */
  lemma HintOpensTheGate(c: Config, st: State, chat: int, now: int)
    requires c.globalPerSecond > 0
    requires chat in st.lastProceed ==> st.lastProceed[chat] <= now <= I64_MAX - DelaySecs(c.intervalMs) + st.lastProceed[chat]
    ensures PenaltyDenial(st, chat, now).Some? ==>
      var wait := DelaySecs(PenaltyDenial(st, chat, now).value.afterMs);
      PenaltyDenial(st, chat, now + wait).None? <==> st.penaltyUntil[chat] - now <= U32_MAX
    ensures ChatDenial(c, st, chat, now).Some? && c.intervalMs <= 1000 * U32_MAX ==>
      var wait := DelaySecs(ChatDenial(c, st, chat, now).value.afterMs);
      ChatDenial(c, st, chat, now + wait).None?
    ensures st.lastRefill == Some(now) && now < I64_MAX ==>
      Refilled(c, st, now + DelaySecs(MillisForOneToken(c.globalPerSecond))).tokensMilli == ONE_TOKEN
  {
    OneTokenRounds(c.globalPerSecond);
  }

  /** And no shorter wait does: until the hint has passed, the gate that denied stays closed. */
  lemma HintIsShortest(c: Config, st: State, chat: int, now: int, earlier: nat)
    requires chat in st.lastProceed ==> st.lastProceed[chat] <= now <= I64_MAX - DelaySecs(c.intervalMs) + st.lastProceed[chat]
    ensures PenaltyDenial(st, chat, now).Some? && earlier < DelaySecs(PenaltyDenial(st, chat, now).value.afterMs) ==>
      PenaltyDenial(st, chat, now + earlier).Some?
    ensures ChatDenial(c, st, chat, now).Some? && earlier < DelaySecs(ChatDenial(c, st, chat, now).value.afterMs) ==>
      ChatDenial(c, st, chat, now + earlier).Some?
  {
  }

  lemma OneTokenRounds(rate: nat)
    requires rate > 0
    ensures DelaySecs(MillisForOneToken(rate)) == 1
  {
    var n := 1000 + rate - 1;
    var q := n / rate;
    assert rate * q <= n < rate * q + rate;
    if q > 1000 { Scaled(rate, 1001, q); }
  }
}