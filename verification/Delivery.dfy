/** What a sender decides between its claim and its settlement: the supersede guard, the failure
    classification, and the settlement of each class
    (services/dispatcher/src/outbound/sender/process.rs and outbound/classify.rs). */
module Delivery {
  import opened Tables
  import opened OutboundQueue

  // ---------------------------------------------------------------- classification

  /** A Bot API failure; an `Api` description is held in lower case. */
  datatype FailureShape =
    | Network
    | Io
    | RateLimited(retryAfter: int)
    | Api(lowered: string)
    | ChatMigrated
    | Json
    | Unknown

  datatype Classified =
    | Sent
    | NotModified
    | RateLimited(retryAfter: int)
    | Transient
    | OutcomeUnknown
    | Permanent(reason: PermanentClass)

  predicate MatchesAt(text: string, needle: string, at: nat) {
    at + |needle| <= |text| && text[at..at + |needle|] == needle
  }

  predicate Contains(text: string, needle: string) {
    exists at | 0 <= at <= |text| :: MatchesAt(text, needle, at)
  }

  function ClassifyDescription(lowered: string): Classified {
    if Contains(lowered, "message is not modified") then Classified.NotModified
    else if Contains(lowered, "bot was blocked by the user") then Permanent(BotBlocked)
    else if Contains(lowered, "chat not found") then Permanent(ChatNotFound)
    else if Contains(lowered, "user is deactivated") || Contains(lowered, "kicked")
            || Contains(lowered, "bot is not a member") || Contains(lowered, "not enough rights")
    then Permanent(MembershipLost)
    else if Contains(lowered, "message can't be edited") || Contains(lowered, "message can not be edited")
            || Contains(lowered, "there is no text in the message to edit")
    then Permanent(MessageNotEditable)
    else if Contains(lowered, "message to edit not found") || Contains(lowered, "message to forward not found")
    then Permanent(EditTargetGone)
    else if Contains(lowered, "can't parse entities") then Permanent(InvalidPayload)
    else Transient
  }

  function Classify(shape: FailureShape): Classified {
    match shape
    case Network => Classified.OutcomeUnknown
    case Io => Classified.OutcomeUnknown
    case Unknown => Classified.OutcomeUnknown
    case Json => Classified.OutcomeUnknown
    case RateLimited(retryAfter) => Classified.RateLimited(retryAfter)
    case ChatMigrated => Permanent(PermanentClass.ChatMigrated)
    case Api(lowered) => ClassifyDescription(lowered)
  }

  /** Telegram's own verdict reached the sender, and it is a refusal. */
  predicate ProvesRefusal(shape: FailureShape) {
    shape.RateLimited? || shape.Api? || shape.ChatMigrated?
  }

  /** A failure is quarantined exactly when it carries no proof that the write was refused, and no
      failure is ever mistaken for a delivery. */
  lemma UnknownExactlyWithoutProof(shape: FailureShape)
    ensures Classify(shape).OutcomeUnknown? <==> !ProvesRefusal(shape)
    ensures !Classify(shape).Sent?
  {
  }

  // ---------------------------------------------------------------- the guards

  datatype WireAction = Send | Edit(message: int)

  function MethodOf(action: WireAction): JobKind {
    if action.Send? then SendMessage else EditMessageText
  }

  datatype Guarded = Withdraw | Act(action: WireAction)

  function GuardSend(c: Claimed, bindings: map<BindingKey, Binding>): Guarded {
    if c.recoveryOf.Some? && c.operation.Some? && c.revision.Some?
       && BindingKey(c.operation.value, c.chat) in bindings
       && (var b := bindings[BindingKey(c.operation.value, c.chat)];
           b.rendered > c.revision.value || (b.rendered == c.revision.value && b.message.Some?))
    then Withdraw
    else Act(Send)
  }

  function GuardEdit(c: Claimed, bindings: map<BindingKey, Binding>): Guarded {
    if c.operation.None? || c.revision.None? then Withdraw
    else
      var key := BindingKey(c.operation.value, c.chat);
      if key !in bindings || bindings[key].rendered >= c.revision.value then Withdraw
      else if bindings[key].message.Some? then Act(Edit(bindings[key].message.value))
      else Act(Send)
  }

  function Guard(c: Claimed, bindings: map<BindingKey, Binding>): Guarded {
    if c.kind.SendMessage? then GuardSend(c, bindings) else GuardEdit(c, bindings)
  }

  // ---------------------------------------------------------------- settlement of a failure

  datatype Limits = Limits(
    maxAttempts: nat,
    backoffBase: nat,
    backoffCap: nat,
    jitterMilli: nat,
    leaseTtl: nat)

  const U32_MAX: nat := 0xFFFF_FFFF
  const U64_MAX: nat := 0xFFFF_FFFF_FFFF_FFFF

  function MinNat(a: nat, b: nat): nat { if a < b then a else b }

  function Saturate(n: nat, max: nat): nat { MinNat(n, max) }

  function Pow2(n: nat): nat { if n == 0 then 1 else 2 * Pow2(n - 1) }

  /** The clock draws `draw` milliseconds below the bound it is asked for. */
  function JitterSecs(limits: Limits, secs: nat, draw: nat): nat {
    var bound := Saturate(secs * limits.jitterMilli, U64_MAX);
    var millis := if bound == 0 then 0 else draw % bound;
    if millis / 1000 > U32_MAX then 0 else millis / 1000
  }

  function Grown(limits: Limits, attempts: nat): nat {
    var exponent := MinNat(if attempts == 0 then 0 else attempts - 1, 30);
    MinNat(Saturate(limits.backoffBase * Saturate(Pow2(exponent), U32_MAX), U32_MAX), limits.backoffCap)
  }

  function TransientBackoff(limits: Limits, attempts: nat, draw: nat): nat {
    var grown := Grown(limits, attempts);
    Saturate(grown + JitterSecs(limits, grown, draw), U32_MAX)
  }

  function RateLimitDelay(limits: Limits, retryAfter: int, draw: nat): nat {
    var pause := if retryAfter < 0 then 0 else Saturate(retryAfter, U32_MAX);
    Saturate(pause + JitterSecs(limits, pause, draw), U32_MAX)
  }

  /** What runs in a second transaction after the settlement. */
  datatype Follow = Nothing | Advance | Unbind

  function FailureOutcome(limits: Limits, c: Claimed, action: WireAction, decision: Classified, draw: nat)
    : DeliveryOutcome
  {
    match decision
    case NotModified => DeliveryOutcome.NotModified
    case RateLimited(retryAfter) => RetryWithBackoff(RateLimitDelay(limits, retryAfter, draw))
    case OutcomeUnknown =>
      if action.Send? then DeliveryOutcome.OutcomeUnknown
      else RetryWithBackoff(TransientBackoff(limits, c.attempts, draw))
    case Transient => RetryWithBackoff(TransientBackoff(limits, c.attempts, draw))
    case Sent => RetryWithBackoff(TransientBackoff(limits, c.attempts, draw))
    case Permanent(reason) => DeliveryOutcome.FailedPermanent(reason)
  }

  predicate LosesMessage(reason: PermanentClass) {
    reason.BotBlocked? || reason.ChatNotFound? || reason.MembershipLost? || reason.MessageNotEditable?
    || reason.EditTargetGone?
  }

  function FollowUp(c: Claimed, decision: Classified): Follow {
    match decision
    case NotModified => if c.operation.Some? && c.revision.Some? then Advance else Nothing
    case Permanent(reason) =>
      if c.kind.EditMessageText? && c.operation.Some? && LosesMessage(reason) then Unbind else Nothing
    case _ => Nothing
  }

  // ---------------------------------------------------------------- laws of the pure parts

  lemma Pow2Grows(m: nat, n: nat)
    requires m <= n
    ensures 1 <= Pow2(m) <= Pow2(n)
    decreases n
  {
    if m < n { Pow2Grows(m, n - 1); }
  }

  lemma Pow2Product(m: nat, n: nat)
    ensures Pow2(m + n) == Pow2(m) * Pow2(n)
    decreases n
  {
    if n > 0 {
      Pow2Product(m, n - 1);
      assert Pow2(m + n) == 2 * Pow2(m + (n - 1));
    }
  }

  /** The saturating arithmetic hides nothing: for a validated configuration the delay is the capped
      exponential of the attempt number, up to the thirty-first attempt always, and beyond it exactly
      when the cap is within reach of thirty doublings. */
  lemma {:induction false} BackoffIsCappedExponential(limits: Limits, attempts: nat)
    requires 0 < limits.backoffBase <= limits.backoffCap <= U32_MAX && attempts > 0
    ensures limits.backoffBase <= Grown(limits, attempts) <= limits.backoffCap
    ensures Grown(limits, attempts) == MinNat(limits.backoffBase * Pow2(attempts - 1), limits.backoffCap)
            <==> attempts <= 31 || limits.backoffCap <= limits.backoffBase * Pow2(30)
  {
    var e := attempts - 1;
    Pow2Of30();
    Pow2Grows(MinNat(e, 30), 30);
    Pow2Grows(0, MinNat(e, 30));
    Scaled(limits.backoffBase, 1, Pow2(MinNat(e, 30)));
    if e > 30 {
      Pow2Grows(31, e);
      Scaled(limits.backoffBase, Pow2(31), Pow2(e));
      assert Pow2(31) == 2 * Pow2(30);
    }
  }

  lemma Scaled(factor: nat, a: nat, b: nat)
    requires a <= b
    ensures factor * a <= factor * b
  {
  }

  lemma Pow2Of30()
    ensures Pow2(30) == 0x4000_0000
  {
    assert Pow2(5) == 32;
    Pow2Product(5, 5);
    Pow2Product(10, 10);
    Pow2Product(20, 10);
  }
}
