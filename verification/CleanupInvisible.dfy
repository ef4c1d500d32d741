/** Cleanup is invisible: with a clock that never goes back, inserting cleanup passes anywhere into a
    run releases exactly what the run without them releases. */
module CleanupInvisible {
  import opened Tables
  import opened OutboundQueue
  import opened Interaction
  import opened CaptureProjection
  import opened Cleanup
  import opened Machine

  /** What happens to the interaction tables: a command, or the delivery side moving the bindings. */
  datatype Stimulus = Ask(command: Command) | Delivery(bindings: map<BindingKey, Binding>)

  datatype Moment = Moment(at: int, what: Stimulus)

  ghost function Play(db: Db, m: Moment): (Db, Answer) {
    match m.what
    case Ask(command) => Perform(db, command, m.at)
    case Delivery(bindings) => (db.(bindings := bindings), Projected)
  }

  predicate Unexpired(db: Db, id: DialogueId, now: int) {
    id in db.dialogues && db.dialogues[id].expiresAt > now
  }

  /** What the outside world gets to act on. Left out are the kinds of refusal, a repeated release of an
      action already confirmed, and what happens to a dialogue after its own expiry. */
  predicate Visible(db: Db, m: Moment, answer: Answer) {
    match answer
    case Created(_, _) => true
    case Selected(_, _, _, _) => true
    case Confirmed(_, first) => first
    case Cancelled(_) => true
    case Transitioned(_) => true
    case OperationReleased(_, _) => true
    case LibraryReadReleased(_) => true
    case Issued(_) => true
    case Projected => true
    case Finished => m.what.Ask? && m.what.command.Complete? && Unexpired(db, m.what.command.dialogue, m.at)
    case Stamped(applied) =>
      applied && m.what.Ask? && m.what.command.Stamp? && Unexpired(db, m.what.command.dialogue, m.at)
    case _ => false
  }

  ghost function Observed(db: Db, moments: seq<Moment>): seq<Answer>
    decreases |moments|
  {
    if moments == [] then []
    else
      var (after, answer) := Play(db, moments[0]);
      (if Visible(db, moments[0], answer) then [answer] else []) + Observed(after, moments[1..])
  }

  predicate IsCleanup(m: Moment) { m.what.Ask? && m.what.command.CleanUp? }

  function WithoutCleanup(moments: seq<Moment>): seq<Moment> {
    if moments == [] then []
    else (if IsCleanup(moments[0]) then [] else [moments[0]]) + WithoutCleanup(moments[1..])
  }

  predicate InOrder(moments: seq<Moment>) {
    forall i, j | 0 <= i < j < |moments| :: moments[i].at <= moments[j].at
  }

  // ---------------------------------------------------------------- the simulation

  /** No callback can act on this dialogue any more. */
  predicate Spent(d: Dialogue, now: int) {
    !d.lifecycle.Active? || d.expiresAt <= now
  }

  predicate OfSpent(b: Db, t: Token, now: int) {
    t.authority.Callback? && t.authority.dialogue in b.dialogues && Spent(b.dialogues[t.authority.dialogue], now)
  }

  /** No first use of this token can succeed any more. */
  predicate Hopeless(b: Db, t: Token, now: int) {
    || t.consumedAt.Some?
    || t.expiresAt <= now
    || OfSpent(b, t, now)
    || (t.authority.Callback? && t.authority.dialogue in b.dialogues
        && b.dialogues[t.authority.dialogue].version > t.authority.version)
  }

  /** A callback token never runs ahead of its dialogue. */
  predicate TokenWf(b: Db, t: Token) {
    t.authority.Callback? ==>
      t.authority.dialogue in b.dialogues && t.authority.version <= b.dialogues[t.authority.dialogue].version
  }

  ghost predicate Sound(b: Db) {
    && (forall id | id in b.dialogues :: id < b.nextDialogue)
    && (forall t | t in b.tokens :: t < b.nextToken && TokenWf(b, b.tokens[t]))
  }

  /** `d` is the cleaned row, absent when retired. */
  predicate RowAgrees(a: Db, b: Db, id: DialogueId, now: int)
    requires id in b.dialogues
  {
    if id in a.dialogues
    then a.dialogues[id] == b.dialogues[id] || (Spent(a.dialogues[id], now) && Spent(b.dialogues[id], now))
    else Spent(b.dialogues[id], now)
  }

  predicate TokenAgrees(a: Db, b: Db, t: TokenId, now: int)
    requires t in b.tokens
  {
    if t in a.tokens
    then a.tokens[t].(message := None) == b.tokens[t].(message := None)
         && (a.tokens[t] == b.tokens[t] || OfSpent(b, b.tokens[t], now))
    else Hopeless(b, b.tokens[t], now)
  }

  /** `a` has been cleaned now and then, `b` never. */
  ghost predicate Sim(a: Db, b: Db, now: int) {
    && Sound(b)
    && a.nextToken == b.nextToken && a.nextDialogue == b.nextDialogue && a.bindings == b.bindings
    && a.dialogues.Keys <= b.dialogues.Keys && a.tokens.Keys <= b.tokens.Keys
    && (forall id | id in b.dialogues :: RowAgrees(a, b, id, now))
    && (forall t | t in b.tokens :: TokenAgrees(a, b, t, now))
  }

  lemma SimLater(a: Db, b: Db, now: int, later: int)
    requires Sim(a, b, now) && now <= later
    ensures Sim(a, b, later)
  {
    forall t | t in b.tokens ensures TokenAgrees(a, b, t, later) {
      assert TokenAgrees(a, b, t, now);
    }
    forall id | id in b.dialogues ensures RowAgrees(a, b, id, later) {
      assert RowAgrees(a, b, id, now);
    }
  }

  // ---------------------------------------------------------------- a cleanup pass

  lemma ExpiryKeepsSim(a: Db, b: Db, now: int, batch: set<DialogueId>)
    requires Sim(a, b, now) && batch <= ExpiryQueue(a, now).Keys
    ensures Sim(ExpireBatch(a, batch, now), b, now)
  {
    var c := ExpireBatch(a, batch, now);
    forall id | id in b.dialogues ensures RowAgrees(c, b, id, now) {
      assert RowAgrees(a, b, id, now);
    }
    forall t | t in b.tokens ensures TokenAgrees(c, b, t, now) {
      assert TokenAgrees(a, b, t, now);
    }
  }

  lemma DeletableIsHopeless(a: Db, b: Db, now: int, t: TokenId)
    requires Sim(a, b, now) && t in a.tokens && Deletable(a, a.tokens[t], now)
    ensures Hopeless(b, b.tokens[t], now)
  {
    assert TokenAgrees(a, b, t, now) && TokenWf(b, b.tokens[t]);
    if b.tokens[t].authority.Callback? { assert RowAgrees(a, b, b.tokens[t].authority.dialogue, now); }
  }

  lemma DeletionKeepsSim(a: Db, b: Db, now: int, batch: set<TokenId>)
    requires Sim(a, b, now) && batch <= DeletionQueue(a, now).Keys
    ensures Sim(a.(tokens := a.tokens - batch), b, now)
  {
    var c := a.(tokens := a.tokens - batch);
    forall id | id in b.dialogues ensures RowAgrees(c, b, id, now) {
      assert RowAgrees(a, b, id, now);
    }
    forall t | t in b.tokens ensures TokenAgrees(c, b, t, now) {
      assert TokenAgrees(a, b, t, now);
      if t in batch { DeletableIsHopeless(a, b, now, t); }
    }
  }

  lemma RetirementKeepsSim(a: Db, b: Db, now: int, before: int, batch: set<DialogueId>)
    requires Sim(a, b, now) && batch <= RetirementQueue(a, before).Keys
    ensures Sim(a.(dialogues := a.dialogues - batch), b, now)
  {
    var c := a.(dialogues := a.dialogues - batch);
    forall id | id in b.dialogues ensures RowAgrees(c, b, id, now) {
      assert RowAgrees(a, b, id, now);
    }
    forall t | t in b.tokens ensures TokenAgrees(c, b, t, now) {
      assert TokenAgrees(a, b, t, now);
    }
  }

  lemma CleanupKeepsSim(a: Db, b: Db, now: int, before: int, limit: nat)
    requires Sim(a, b, now)
    ensures Sim(CleanupPass(a, now, before, limit).0, b, now)
  {
    var expired := FirstRows(ExpiryQueue(a, now), limit);
    ExpiryKeepsSim(a, b, now, expired);
    var a1 := ExpireBatch(a, expired, now);
    var removed := FirstRows(DeletionQueue(a1, now), limit);
    DeletionKeepsSim(a1, b, now, removed);
    var a2 := a1.(tokens := a1.tokens - removed);
    RetirementKeepsSim(a2, b, now, before, FirstRows(RetirementQueue(a2, before), limit));
  }

  // ---------------------------------------------------------------- elementary changes on both sides

  /** A dialogue row only ages: once spent it stays spent, and its version never falls. */
  predicate Ages(d: Dialogue, e: Dialogue, now: int) {
    (Spent(d, now) ==> Spent(e, now)) && d.version <= e.version
  }

  predicate OnlyRow(a: Db, c: Db, id: DialogueId) {
    && c == a.(dialogues := c.dialogues) && c.dialogues.Keys == a.dialogues.Keys
    && forall o | o in a.dialogues :: o != id ==> c.dialogues[o] == a.dialogues[o]
  }

  lemma RowKeepsSim(a: Db, b: Db, a2: Db, b2: Db, id: DialogueId, now: int)
    requires Sim(a, b, now) && id in b.dialogues && OnlyRow(a, a2, id) && OnlyRow(b, b2, id)
    requires Ages(b.dialogues[id], b2.dialogues[id], now) && RowAgrees(a2, b2, id, now)
    ensures Sim(a2, b2, now)
  {
    forall o | o in b2.dialogues ensures RowAgrees(a2, b2, o, now) {
      assert RowAgrees(a, b, o, now);
    }
    forall t | t in b2.tokens ensures TokenAgrees(a2, b2, t, now) && TokenWf(b2, b2.tokens[t]) {
      assert TokenAgrees(a, b, t, now) && TokenWf(b, b.tokens[t]);
    }
  }

  lemma ConsumeKeepsSim(a: Db, b: Db, token: TokenId, now: int)
    requires Sim(a, b, now) && token in a.tokens
    ensures Sim(Consume(a, token, now), Consume(b, token, now), now)
  {
    var a2, b2 := Consume(a, token, now), Consume(b, token, now);
    forall o | o in b2.dialogues ensures RowAgrees(a2, b2, o, now) {
      assert RowAgrees(a, b, o, now);
    }
    forall t | t in b2.tokens ensures TokenAgrees(a2, b2, t, now) && TokenWf(b2, b2.tokens[t]) {
      assert TokenAgrees(a, b, t, now) && TokenWf(b, b.tokens[t]);
    }
  }

  lemma TokenKeepsSim(a: Db, b: Db, token: Token, now: int)
    requires Sim(a, b, now) && TokenWf(b, token)
    ensures Sim(AddToken(a, token), AddToken(b, token), now)
  {
    var a2, b2 := AddToken(a, token), AddToken(b, token);
    forall o | o in b2.dialogues ensures RowAgrees(a2, b2, o, now) {
      assert RowAgrees(a, b, o, now);
    }
    forall t | t in b2.tokens ensures TokenAgrees(a2, b2, t, now) && TokenWf(b2, b2.tokens[t]) {
      if t != b.nextToken { assert TokenAgrees(a, b, t, now) && TokenWf(b, b.tokens[t]); }
    }
  }

  lemma {:induction false} SelectionsKeepSim(a: Db, b: Db, id: DialogueId, scope: Scope, actions: seq<Capability>,
                                             now: int, expiresAt: int)
    requires Sim(a, b, now) && id in b.dialogues
    ensures Sim(MintSelections(a, id, scope, actions, now, expiresAt),
                MintSelections(b, id, scope, actions, now, expiresAt), now)
    decreases |actions|
  {
    if actions == [] {
    } else {
      var token := CallbackToken(Select(actions[0]), id, 0, scope, now, expiresAt);
      TokenKeepsSim(a, b, token, now);
      SelectionsKeepSim(AddToken(a, token), AddToken(b, token), id, scope, actions[1..], now, expiresAt);
    }
  }

  lemma {:induction false} ReadsKeepSim(a: Db, b: Db, intents: seq<LibraryIntent>, now: int)
    requires Sim(a, b, now)
    ensures Sim(MintLibraryReads(a, intents, now), MintLibraryReads(b, intents, now), now)
    decreases |intents|
  {
    if intents == [] {
    } else {
      var token := LibraryToken(intents[0], now);
      TokenKeepsSim(a, b, token, now);
      ReadsKeepSim(AddToken(a, token), AddToken(b, token), intents[1..], now);
    }
  }

  /** Only the interaction tables matter; queue rows may differ freely. */
  predicate SameAuthority(a: Db, c: Db) {
    c == a.(jobs := c.jobs, nextJob := c.nextJob)
  }

  lemma QueueKeepsSim(a: Db, b: Db, a2: Db, b2: Db, now: int)
    requires Sim(a, b, now) && SameAuthority(a, a2) && SameAuthority(b, b2)
    ensures Sim(a2, b2, now)
  {
    forall o | o in b2.dialogues ensures RowAgrees(a2, b2, o, now) {
      assert RowAgrees(a, b, o, now);
    }
    forall t | t in b2.tokens ensures TokenAgrees(a2, b2, t, now) && TokenWf(b2, b2.tokens[t]) {
      assert TokenAgrees(a, b, t, now) && TokenWf(b, b.tokens[t]);
    }
  }

  lemma BindingsKeepSim(a: Db, b: Db, bindings: map<BindingKey, Binding>, now: int)
    requires Sim(a, b, now)
    ensures Sim(a.(bindings := bindings), b.(bindings := bindings), now)
  {
    var a2, b2 := a.(bindings := bindings), b.(bindings := bindings);
    forall o | o in b2.dialogues ensures RowAgrees(a2, b2, o, now) {
      assert RowAgrees(a, b, o, now);
    }
    forall t | t in b2.tokens ensures TokenAgrees(a2, b2, t, now) && TokenWf(b2, b2.tokens[t]) {
      assert TokenAgrees(a, b, t, now) && TokenWf(b, b.tokens[t]);
    }
  }

  // ---------------------------------------------------------------- previews, links, captures

  /** The two runs answer alike, as far as the outside can see, and stay related. */
  ghost predicate Alike(a: Db, b: Db, a2: Db, b2: Db, m: Moment, x: Answer, y: Answer) {
    && Sim(a2, b2, m.at)
    && (Visible(a, m, x) <==> Visible(b, m, y))
    && (Visible(a, m, x) ==> x == y)
  }

  ghost predicate PlaysAlike(a: Db, b: Db, m: Moment) {
    Alike(a, b, Play(a, m).0, Play(b, m).0, m, Play(a, m).1, Play(b, m).1)
  }

  /** Answers that nobody acts on. */
  predicate Silent(x: Answer) {
    x.CallbackRefused? || x.TokenRefused? || x.DialogueRefused? || x.Fault? || x.AlreadyCompleted?
    || (x.Confirmed? && !x.first)
  }

  predicate Matches(x: Answer, y: Answer) {
    (Silent(x) && Silent(y)) || (x == y && !x.Finished? && !x.Stamped?)
  }

  lemma MatchIsAlike(a: Db, b: Db, m: Moment, a2: Db, b2: Db, x: Answer, y: Answer)
    requires Play(a, m) == (a2, x) && Play(b, m) == (b2, y) && Sim(a2, b2, m.at) && Matches(x, y)
    ensures PlaysAlike(a, b, m)
  {
  }

  lemma PreviewAlike(a: Db, b: Db, m: Moment, scope: Scope, preview: Offer, expiresAt: int)
    requires Sim(a, b, m.at) && m.what == Ask(ShowPreview(scope, preview, expiresAt))
    ensures PlaysAlike(a, b, m)
  {
    var id := a.nextDialogue;
    var d := Dialogue(scope.bot, scope.user, scope.chat, None, Stage.Preview, 0, Active, preview.target,
                      preview.account, None, None, id, None, expiresAt, None);
    var a1 := a.(dialogues := a.dialogues[id := d], nextDialogue := id + 1);
    var b1 := b.(dialogues := b.dialogues[id := d], nextDialogue := id + 1);
    forall o | o in b1.dialogues ensures RowAgrees(a1, b1, o, m.at) {
      if o != id { assert RowAgrees(a, b, o, m.at); }
    }
    forall t | t in b1.tokens ensures TokenAgrees(a1, b1, t, m.at) && TokenWf(b1, b1.tokens[t]) {
      assert TokenAgrees(a, b, t, m.at) && TokenWf(b, b.tokens[t]);
    }
    SelectionsKeepSim(a1, b1, id, scope, preview.actions, m.at, expiresAt);
  }

  /** What a stored token answers to an opened link. */
  function LinkAnswer(t: Token, surface: Surface, scope: Scope, message: Option<int>, now: int): Answer {
    if t.consumedAt.Some? then TokenRefused(TokenRefusal.Consumed)
    else if t.expiresAt <= now then TokenRefused(TokenRefusal.Expired)
    else if !OnSurface(t.authority, surface) || Scope(t.bot, t.user, t.chat) != scope || t.message != message
    then TokenRefused(TokenRefusal.ScopeMismatch)
    else if !t.authority.DeepLink? then TokenRefused(TokenRefusal.StaleState)
    else OperationReleased(t.authority.operation, t.authority.payload)
  }

  lemma LinkEffect(a: Db, token: TokenId, surface: Surface, scope: Scope, message: Option<int>, now: int)
    ensures ConsumeInteractionToken(a, token, surface, scope, message, now) ==
      if token !in a.tokens then (a, TokenRefused(TokenRefusal.Invalid))
      else
        var answer := LinkAnswer(a.tokens[token], surface, scope, message, now);
        (if answer.OperationReleased? then Consume(a, token, now) else a, answer)
  {
  }

  lemma OpenLinkAlike(a: Db, b: Db, m: Moment, token: TokenId, surface: Surface, scope: Scope, message: Option<int>)
    requires Sim(a, b, m.at) && m.what == Ask(OpenLink(token, surface, scope, message))
    ensures PlaysAlike(a, b, m)
  {
    var (a2, x) := ConsumeInteractionToken(a, token, surface, scope, message, m.at);
    var (b2, y) := ConsumeInteractionToken(b, token, surface, scope, message, m.at);
    LinkKeepsSim(a, b, token, surface, scope, message, m.at);
    MatchIsAlike(a, b, m, a2, b2, x, y);
  }

  lemma LinkKeepsSim(a: Db, b: Db, token: TokenId, surface: Surface, scope: Scope, message: Option<int>, now: int)
    requires Sim(a, b, now)
    ensures var (a2, x) := ConsumeInteractionToken(a, token, surface, scope, message, now);
      var (b2, y) := ConsumeInteractionToken(b, token, surface, scope, message, now);
      Sim(a2, b2, now) && Matches(x, y)
  {
    LinkEffect(a, token, surface, scope, message, now);
    LinkEffect(b, token, surface, scope, message, now);
    if token in b.tokens { assert TokenAgrees(a, b, token, now); }
    if token in a.tokens { ConsumeKeepsSim(a, b, token, now); }
  }

  /** What a stored token answers to a library read. */
  function ReadAnswer(t: Token, scope: Scope, internalUser: Uuid, now: int): Answer {
    if t.consumedAt.Some? then TokenRefused(TokenRefusal.Consumed)
    else if t.expiresAt <= now then TokenRefused(TokenRefusal.Expired)
    else if !t.authority.Command? || Scope(t.bot, t.user, t.chat) != scope || t.authority.internalUser != internalUser
    then TokenRefused(TokenRefusal.ScopeMismatch)
    else LibraryReadReleased(t.authority.analysis)
  }

  lemma ReadEffect(a: Db, token: TokenId, scope: Scope, internalUser: Uuid, now: int)
    ensures ResolveLibraryRead(a, token, scope, internalUser, now) ==
      if token !in a.tokens then (a, TokenRefused(TokenRefusal.Invalid))
      else
        var answer := ReadAnswer(a.tokens[token], scope, internalUser, now);
        (if answer.LibraryReadReleased? then Consume(a, token, now) else a, answer)
  {
  }

  lemma ReadLibraryAlike(a: Db, b: Db, m: Moment, token: TokenId, scope: Scope, internalUser: Uuid)
    requires Sim(a, b, m.at) && m.what == Ask(ReadLibrary(token, scope, internalUser))
    ensures PlaysAlike(a, b, m)
  {
    ReadEffect(a, token, scope, internalUser, m.at);
    ReadEffect(b, token, scope, internalUser, m.at);
    if token in b.tokens { assert TokenAgrees(a, b, token, m.at); }
    if token in a.tokens { ConsumeKeepsSim(a, b, token, m.at); }
  }

  lemma IssueLinkAlike(a: Db, b: Db, m: Moment, intent: OperationIntent)
    requires Sim(a, b, m.at) && m.what == Ask(IssueLink(intent))
    ensures PlaysAlike(a, b, m)
  {
    TokenKeepsSim(a, b, DeepLinkToken(intent, m.at), m.at);
  }

  lemma IssueReadsAlike(a: Db, b: Db, m: Moment, intents: seq<LibraryIntent>, job: NewJob)
    requires Sim(a, b, m.at) && m.what == Ask(IssueReads(intents, job))
    ensures PlaysAlike(a, b, m)
  {
    ReadsKeepSim(a, b, intents, m.at);
    var a1, b1 := MintLibraryReads(a, intents, m.at), MintLibraryReads(b, intents, m.at);
    QueueKeepsSim(a1, b1, InsertJob(a1, job, m.at), InsertJob(b1, job, m.at), m.at);
  }

  lemma LiveLinkAlike(a: Db, b: Db, intent: OperationIntent, now: int)
    requires Sim(a, b, now)
    ensures HasLiveLink(a, intent, now) <==> HasLiveLink(b, intent, now)
  {
    forall t | t in b.tokens
      ensures LiveLink(b.tokens[t], intent, now) <==> t in a.tokens && LiveLink(a.tokens[t], intent, now)
    {
      assert TokenAgrees(a, b, t, now);
    }
  }

  lemma LinkedKeepsSim(a: Db, b: Db, intent: OperationIntent, now: int)
    requires Sim(a, b, now)
    ensures Sim(EnsureLink(a, intent, now), EnsureLink(b, intent, now), now)
  {
    LiveLinkAlike(a, b, intent, now);
    TokenKeepsSim(a, b, DeepLinkToken(intent, now), now);
  }

  lemma BoundKeepsSim(a: Db, b: Db, key: BindingKey, bot: int, now: int)
    requires Sim(a, b, now)
    ensures Sim(EnsureBinding(a, key, bot), EnsureBinding(b, key, bot), now)
  {
    BindingsKeepSim(a, b, EnsureBinding(a, key, bot).bindings, now);
  }

  lemma CapturedKeepsSim(a: Db, b: Db, intent: OperationIntent, ack: NewJob, now: int)
    requires Sim(a, b, now)
    ensures Sim(RecordCapture(a, intent, ack, now).0, RecordCapture(b, intent, ack, now).0, now)
    ensures RecordCapture(a, intent, ack, now).1 == RecordCapture(b, intent, ack, now).1
  {
    var a1, b1 := EnsureBinding(a, IntentKey(intent), intent.scope.bot), EnsureBinding(b, IntentKey(intent), intent.scope.bot);
    BoundKeepsSim(a, b, IntentKey(intent), intent.scope.bot, now);
    LiveLinkAlike(a1, b1, intent, now);
    LinkedKeepsSim(a1, b1, intent, now);
    var a2, b2 := EnsureLink(a1, intent, now), EnsureLink(b1, intent, now);
    QueueKeepsSim(a2, b2, EnsureAck(a2, intent, ack, now), EnsureAck(b2, intent, ack, now), now);
  }

  lemma CaptureAlike(a: Db, b: Db, m: Moment, intent: OperationIntent, ack: NewJob)
    requires Sim(a, b, m.at) && m.what == Ask(Capture(intent, ack))
    ensures PlaysAlike(a, b, m)
  {
    CapturedKeepsSim(a, b, intent, ack, m.at);
  }

  // ---------------------------------------------------------------- callbacks

  /** A hopeless token is refused whatever it is presented for. */
  lemma HopelessIsRefused(b: Db, token: TokenId, scope: Scope, message: int, step: Stage, version: nat, now: int)
    requires IsCallbackRow(b, token) && Hopeless(b, b.tokens[token], now)
    ensures ValidateCallback(b.tokens[token], b.dialogues[b.tokens[token].authority.dialogue], scope, message, step,
                             version, now).Some?
  {
  }

  predicate Refuses(b: Db, token: TokenId, scope: Scope, message: int, step: Stage, version: nat, now: int) {
    IsCallbackRow(b, token) ==>
      ValidateCallback(b.tokens[token], b.dialogues[b.tokens[token].authority.dialogue], scope, message, step,
                       version, now).Some?
  }

  /** Either both runs refuse a callback, or both see the very same token and dialogue. */
  lemma CallbackAlike(a: Db, b: Db, token: TokenId, scope: Scope, message: int, step: Stage, version: nat, now: int)
    requires Sim(a, b, now)
    ensures Refuses(a, token, scope, message, step, version, now)
            <==> Refuses(b, token, scope, message, step, version, now)
    ensures !Refuses(a, token, scope, message, step, version, now) ==>
      && a.tokens[token] == b.tokens[token]
      && a.dialogues[a.tokens[token].authority.dialogue] == b.dialogues[a.tokens[token].authority.dialogue]
  {
    if IsCallbackRow(b, token) {
      var id := b.tokens[token].authority.dialogue;
      assert TokenAgrees(a, b, token, now) && RowAgrees(a, b, id, now);
      if Hopeless(b, b.tokens[token], now) { HopelessIsRefused(b, token, scope, message, step, version, now); }
      if IsCallbackRow(a, token) && Hopeless(a, a.tokens[token], now) {
        HopelessIsRefused(a, token, scope, message, step, version, now);
      }
    }
  }

  lemma LeftRefusal(a: Db, b: Db, id: DialogueId, refusal: CallbackRefusal, now: int)
    requires Sim(a, b, now) && id in a.dialogues
    ensures Sim(Refuse(a, id, refusal, now).0, b, now)
  {
    assert RowAgrees(a, b, id, now);
    RowKeepsSim(a, b, Refuse(a, id, refusal, now).0, b, id, now);
  }

  lemma RightRefusal(a: Db, b: Db, id: DialogueId, refusal: CallbackRefusal, now: int)
    requires Sim(a, b, now) && id in b.dialogues
    ensures Sim(a, Refuse(b, id, refusal, now).0, now)
  {
    assert RowAgrees(a, b, id, now);
    RowKeepsSim(a, b, a, Refuse(b, id, refusal, now).0, id, now);
  }

  /** The database after a refused callback. */
  function AfterRefusal(a: Db, token: TokenId, scope: Scope, message: int, step: Stage, version: nat, now: int): Db
    requires Refuses(a, token, scope, message, step, version, now)
  {
    if !IsCallbackRow(a, token) then a
    else
      var id := a.tokens[token].authority.dialogue;
      var refusal := ValidateCallback(a.tokens[token], a.dialogues[id], scope, message, step, version, now);
      Refuse(a, id, refusal.value, now).0
  }

  lemma RefusalsKeepSim(a: Db, b: Db, token: TokenId, scope: Scope, message: int, step: Stage, version: nat, now: int)
    requires Sim(a, b, now)
    requires Refuses(a, token, scope, message, step, version, now)
    requires Refuses(b, token, scope, message, step, version, now)
    ensures Sim(AfterRefusal(a, token, scope, message, step, version, now),
                AfterRefusal(b, token, scope, message, step, version, now), now)
  {
    if IsCallbackRow(a, token) {
      var id := a.tokens[token].authority.dialogue;
      var refusal := ValidateCallback(a.tokens[token], a.dialogues[id], scope, message, step, version, now);
      LeftRefusal(a, b, id, refusal.value, now);
    }
    if IsCallbackRow(b, token) {
      var id := b.tokens[token].authority.dialogue;
      var refusal := ValidateCallback(b.tokens[token], b.dialogues[id], scope, message, step, version, now);
      RightRefusal(AfterRefusal(a, token, scope, message, step, version, now), b, id, refusal.value, now);
    }
  }

  /** The three writes of an unrefused selection. */
  function SelectedDb(a: Db, token: TokenId, e: Dialogue, confirm: Token, cancel: Token, now: int): Db
    requires IsCallbackRow(a, token)
  {
    var chosen := Consume(a, token, now).(dialogues := a.dialogues[a.tokens[token].authority.dialogue := e]);
    AddToken(AddToken(chosen, confirm), cancel)
  }

  lemma SelectionEffect(a: Db, token: TokenId, scope: Scope, message: int, now: int)
    requires !Refuses(a, token, scope, message, Stage.Preview, 0, now)
    ensures var t := a.tokens[token]; var id := t.authority.dialogue; var d := a.dialogues[id];
      ConsumeSelection(a, token, scope, message, now) ==
        if !t.authority.action.Select? || t.authority.action.mode.Unsupported? then (a, Answer.Fault(Query))
        else
          var expiresAt := Min(t.expiresAt, d.expiresAt);
          (SelectedDb(a, token, d.(mode := Some(t.authority.action.mode), step := Confirming, version := 1, message := None),
                      CallbackToken(Confirm, id, 1, scope, now, expiresAt),
                      CallbackToken(Cancel, id, 1, scope, now, expiresAt), now),
           Selected(id, t.authority.action.mode, a.nextToken, a.nextToken + 1))
  {
  }

  lemma SelectedKeepsSim(a: Db, b: Db, token: TokenId, e: Dialogue, confirm: Token, cancel: Token, now: int)
    requires Sim(a, b, now) && IsCallbackRow(a, token) && a.tokens[token] == b.tokens[token]
    requires var id := a.tokens[token].authority.dialogue;
      && id in b.dialogues && a.dialogues[id] == b.dialogues[id] && Ages(a.dialogues[id], e, now)
      && confirm.authority.Callback? && confirm.authority.dialogue == id && confirm.authority.version == e.version
      && cancel.authority.Callback? && cancel.authority.dialogue == id && cancel.authority.version == e.version
    ensures Sim(SelectedDb(a, token, e, confirm, cancel, now), SelectedDb(b, token, e, confirm, cancel, now), now)
  {
    var id := a.tokens[token].authority.dialogue;
    ConsumeKeepsSim(a, b, token, now);
    var a1, b1 := Consume(a, token, now), Consume(b, token, now);
    var a2, b2 := a1.(dialogues := a.dialogues[id := e]), b1.(dialogues := b.dialogues[id := e]);
    RowKeepsSim(a1, b1, a2, b2, id, now);
    TokenKeepsSim(a2, b2, confirm, now);
    TokenKeepsSim(AddToken(a2, confirm), AddToken(b2, confirm), cancel, now);
  }

  lemma SelectionAlike(a: Db, b: Db, token: TokenId, scope: Scope, message: int, now: int)
    requires Sim(a, b, now) && !Refuses(a, token, scope, message, Stage.Preview, 0, now)
    requires !Refuses(b, token, scope, message, Stage.Preview, 0, now) && a.tokens[token] == b.tokens[token]
    requires a.dialogues[a.tokens[token].authority.dialogue] == b.dialogues[a.tokens[token].authority.dialogue]
    ensures Sim(ConsumeSelection(a, token, scope, message, now).0, ConsumeSelection(b, token, scope, message, now).0, now)
    ensures ConsumeSelection(a, token, scope, message, now).1 == ConsumeSelection(b, token, scope, message, now).1
  {
    SelectionEffect(a, token, scope, message, now);
    SelectionEffect(b, token, scope, message, now);
    var t := a.tokens[token];
    var id := t.authority.dialogue;
    var d := a.dialogues[id];
    if t.authority.action.Select? && !t.authority.action.mode.Unsupported? {
      var expiresAt := Min(t.expiresAt, d.expiresAt);
      SelectedKeepsSim(a, b, token,
                       d.(mode := Some(t.authority.action.mode), step := Confirming, version := 1, message := None),
                       CallbackToken(Confirm, id, 1, scope, now, expiresAt),
                       CallbackToken(Cancel, id, 1, scope, now, expiresAt), now);
    }
  }

  lemma RefusedSelection(a: Db, token: TokenId, scope: Scope, message: int, now: int)
    requires Refuses(a, token, scope, message, Stage.Preview, 0, now)
    ensures ConsumeSelection(a, token, scope, message, now).0 == AfterRefusal(a, token, scope, message, Stage.Preview, 0, now)
    ensures ConsumeSelection(a, token, scope, message, now).1.CallbackRefused?
  {
  }

  lemma SelectKeepsSim(a: Db, b: Db, token: TokenId, scope: Scope, message: int, now: int)
    requires Sim(a, b, now)
    ensures Sim(ConsumeSelection(a, token, scope, message, now).0, ConsumeSelection(b, token, scope, message, now).0, now)
    ensures Matches(ConsumeSelection(a, token, scope, message, now).1, ConsumeSelection(b, token, scope, message, now).1)
  {
    CallbackAlike(a, b, token, scope, message, Stage.Preview, 0, now);
    if Refuses(a, token, scope, message, Stage.Preview, 0, now) {
      RefusalsKeepSim(a, b, token, scope, message, Stage.Preview, 0, now);
      RefusedSelection(a, token, scope, message, now);
      RefusedSelection(b, token, scope, message, now);
    } else {
      SelectionEffect(a, token, scope, message, now);
      SelectionAlike(a, b, token, scope, message, now);
    }
  }

  lemma SelectAlike(a: Db, b: Db, m: Moment, token: TokenId, scope: Scope, message: int)
    requires Sim(a, b, m.at) && m.what == Ask(SelectMode(token, scope, message))
    ensures PlaysAlike(a, b, m)
  {
    var (a2, x) := ConsumeSelection(a, token, scope, message, m.at);
    var (b2, y) := ConsumeSelection(b, token, scope, message, m.at);
    SelectKeepsSim(a, b, token, scope, message, m.at);
    MatchIsAlike(a, b, m, a2, b2, x, y);
  }

  /** The row that an unrefused decision leaves behind, if the action fits. */
  function DecidedRow(d: Dialogue, action: CallbackAction, update: ReleasingUpdate, now: int): Option<Dialogue> {
    match action
    case Cancel =>
      Some(d.(lifecycle := Lifecycle.Cancelled, version := 2, message := None, terminalAt := Some(now)))
    case Confirm =>
      if d.mode.None? then None
      else Some(d.(step := Submitting, version := 2, message := None, releasing := Some(update)))
    case Select(_) => None
  }

  lemma DecisionEffect(a: Db, token: TokenId, update: ReleasingUpdate, user: int, chat: int, message: int, now: int)
    requires !Refuses(a, token, Scope(update.bot, user, chat), message, Confirming, 1, now)
    ensures var id := a.tokens[token].authority.dialogue;
      var row := DecidedRow(a.dialogues[id], a.tokens[token].authority.action, update, now);
      ConsumeDecision(a, token, update, user, chat, message, now).0 ==
        if row.None? then a
        else Consume(a, token, now).(dialogues := a.dialogues[id := row.value])
    ensures ConsumeDecision(a, token, update, user, chat, message, now).1 ==
      var id := a.tokens[token].authority.dialogue;
      match a.tokens[token].authority.action
      case Cancel => Answer.Cancelled(id)
      case Confirm =>
        if a.dialogues[id].mode.None? then Answer.Fault(Query) else Confirmed(ActionOf(id, a.dialogues[id]), true)
      case Select(_) => CallbackRefused(CallbackRefusal.Invalid)
  {
  }

  lemma DecidedKeepsSim(a: Db, b: Db, token: TokenId, update: ReleasingUpdate, now: int)
    requires Sim(a, b, now) && IsCallbackRow(a, token) && a.tokens[token] == b.tokens[token]
    requires var id := a.tokens[token].authority.dialogue;
      && id in b.dialogues && a.dialogues[id] == b.dialogues[id]
      && !Spent(a.dialogues[id], now) && a.dialogues[id].version == 1
    ensures var id := a.tokens[token].authority.dialogue;
      var row := DecidedRow(a.dialogues[id], a.tokens[token].authority.action, update, now);
      row.Some? ==>
        Sim(Consume(a, token, now).(dialogues := a.dialogues[id := row.value]),
            Consume(b, token, now).(dialogues := b.dialogues[id := row.value]), now)
  {
    var id := a.tokens[token].authority.dialogue;
    var row := DecidedRow(a.dialogues[id], a.tokens[token].authority.action, update, now);
    if row.Some? {
      ConsumeKeepsSim(a, b, token, now);
      var a1, b1 := Consume(a, token, now), Consume(b, token, now);
      RowKeepsSim(a1, b1, a1.(dialogues := a.dialogues[id := row.value]),
                  b1.(dialogues := b.dialogues[id := row.value]), id, now);
    }
  }

  /** A refused decision, and a repeated one, leave at most the expiry mark. */
  lemma RefusedDecision(a: Db, token: TokenId, update: ReleasingUpdate, user: int, chat: int, message: int, now: int)
    requires Refuses(a, token, Scope(update.bot, user, chat), message, Confirming, 1, now)
    ensures var (after, answer) := ConsumeDecision(a, token, update, user, chat, message, now);
      && after == AfterRefusal(a, token, Scope(update.bot, user, chat), message, Confirming, 1, now)
      && (answer.CallbackRefused? || answer.Fault? || answer.AlreadyCompleted?
          || (answer.Confirmed? && !answer.first))
  {
  }

  lemma AcceptedAlike(a: Db, b: Db, token: TokenId, update: ReleasingUpdate, user: int, chat: int, message: int, now: int)
    requires Sim(a, b, now)
    requires !Refuses(a, token, Scope(update.bot, user, chat), message, Confirming, 1, now)
    requires !Refuses(b, token, Scope(update.bot, user, chat), message, Confirming, 1, now)
    requires a.tokens[token] == b.tokens[token]
    requires a.dialogues[a.tokens[token].authority.dialogue] == b.dialogues[a.tokens[token].authority.dialogue]
    ensures var (a2, x) := ConsumeDecision(a, token, update, user, chat, message, now);
      var (b2, y) := ConsumeDecision(b, token, update, user, chat, message, now);
      Sim(a2, b2, now) && Matches(x, y)
  {
    DecisionEffect(a, token, update, user, chat, message, now);
    DecisionEffect(b, token, update, user, chat, message, now);
    DecidedKeepsSim(a, b, token, update, now);
  }

  lemma DecideKeepsSim(a: Db, b: Db, token: TokenId, update: ReleasingUpdate, user: int, chat: int, message: int, now: int)
    requires Sim(a, b, now)
    ensures var (a2, x) := ConsumeDecision(a, token, update, user, chat, message, now);
      var (b2, y) := ConsumeDecision(b, token, update, user, chat, message, now);
      Sim(a2, b2, now) && Matches(x, y)
  {
    var scope := Scope(update.bot, user, chat);
    CallbackAlike(a, b, token, scope, message, Confirming, 1, now);
    if Refuses(a, token, scope, message, Confirming, 1, now) {
      RefusalsKeepSim(a, b, token, scope, message, Confirming, 1, now);
      RefusedDecision(a, token, update, user, chat, message, now);
      RefusedDecision(b, token, update, user, chat, message, now);
    } else {
      AcceptedAlike(a, b, token, update, user, chat, message, now);
    }
  }

  lemma DecideAlike(a: Db, b: Db, m: Moment, token: TokenId, update: ReleasingUpdate, user: int, chat: int, message: int)
    requires Sim(a, b, m.at) && m.what == Ask(Decide(token, update, user, chat, message))
    ensures PlaysAlike(a, b, m)
  {
    var (a2, x) := ConsumeDecision(a, token, update, user, chat, message, m.at);
    var (b2, y) := ConsumeDecision(b, token, update, user, chat, message, m.at);
    DecideKeepsSim(a, b, token, update, user, chat, message, m.at);
    MatchIsAlike(a, b, m, a2, b2, x, y);
  }

  // ---------------------------------------------------------------- stamps, transitions, completions

  /** One stamp, told row by row. */
  ghost predicate Stamps(a: Db, c: Db, id: DialogueId, message: int, applied: bool) {
    && OnlyRow(a.(tokens := c.tokens), c, id)
    && c.tokens.Keys == a.tokens.Keys
    && (applied ==> id in a.dialogues && a.dialogues[id].lifecycle.Active?
                    && c.dialogues[id] == a.dialogues[id].(message := Some(message)))
    && (!applied ==> c == a)
    && (forall t | t in a.tokens ::
          c.tokens[t] == if applied && CarriesVersion(a.tokens[t], id, a.dialogues[id].version)
                         then a.tokens[t].(message := Some(message)) else a.tokens[t])
  }

  lemma StampEffect(a: Db, id: DialogueId, bot: int, chat: int, message: int)
    ensures var (c, applied) := StampCallback(a, id, bot, chat, message);
      && Stamps(a, c, id, message, applied)
      && (applied <==> Stampable(a, id, bot, chat))
  {
  }

  lemma StampedRow(a: Db, b: Db, a2: Db, b2: Db, id: DialogueId, message: int, x: bool, y: bool, now: int, o: DialogueId)
    requires Sim(a, b, now) && Stamps(a, a2, id, message, x) && Stamps(b, b2, id, message, y) && o in b.dialogues
    requires Unexpired(b, id, now) && b.dialogues[id].lifecycle.Active? ==> x == y
    ensures RowAgrees(a2, b2, o, now) && Ages(b.dialogues[o], b2.dialogues[o], now)
  {
    assert RowAgrees(a, b, o, now);
  }

  lemma StampedToken(a: Db, b: Db, a2: Db, b2: Db, id: DialogueId, message: int, x: bool, y: bool, now: int, t: TokenId)
    requires Sim(a, b, now) && Stamps(a, a2, id, message, x) && Stamps(b, b2, id, message, y) && t in b.tokens
    requires Unexpired(b, id, now) && b.dialogues[id].lifecycle.Active? ==> x == y
    requires forall o | o in b.dialogues :: Ages(b.dialogues[o], b2.dialogues[o], now)
    ensures TokenAgrees(a2, b2, t, now) && TokenWf(b2, b2.tokens[t])
  {
    assert TokenAgrees(a, b, t, now) && TokenWf(b, b.tokens[t]);
    if id in b.dialogues { assert RowAgrees(a, b, id, now); }
  }

  lemma StampsKeepSim(a: Db, b: Db, a2: Db, b2: Db, id: DialogueId, message: int, x: bool, y: bool, now: int)
    requires Sim(a, b, now) && Stamps(a, a2, id, message, x) && Stamps(b, b2, id, message, y)
    requires Unexpired(b, id, now) && b.dialogues[id].lifecycle.Active? ==> x == y
    ensures Sim(a2, b2, now)
  {
    forall o | o in b.dialogues ensures RowAgrees(a2, b2, o, now) && Ages(b.dialogues[o], b2.dialogues[o], now) {
      StampedRow(a, b, a2, b2, id, message, x, y, now, o);
    }
    forall t | t in b.tokens ensures TokenAgrees(a2, b2, t, now) && TokenWf(b2, b2.tokens[t]) {
      StampedToken(a, b, a2, b2, id, message, x, y, now, t);
    }
  }

  lemma StampAlike(a: Db, b: Db, m: Moment, id: DialogueId, bot: int, chat: int, message: int)
    requires Sim(a, b, m.at) && m.what == Ask(Stamp(id, bot, chat, message))
    ensures PlaysAlike(a, b, m)
  {
    StampEffect(a, id, bot, chat, message);
    StampEffect(b, id, bot, chat, message);
    if id in b.dialogues { assert RowAgrees(a, b, id, m.at); }
    var (a2, x) := StampCallback(a, id, bot, chat, message);
    var (b2, y) := StampCallback(b, id, bot, chat, message);
    StampsKeepSim(a, b, a2, b2, id, message, x, y, m.at);
  }

  /** A transition and a completion, told of the one row they touch. */
  function MovedRow(d: Dialogue, scope: Scope, step: Stage, version: nat, next: Stage, now: int): (Dialogue, Answer) {
    if !OwnedBy(d, scope) then (d, DialogueRefused(DialogueRefusal.ScopeMismatch))
    else if d.lifecycle.Active? && d.expiresAt <= now
    then (ExpiredDialogue(d, now), DialogueRefused(DialogueRefusal.Expired))
    else if !d.lifecycle.Active? then (d, DialogueRefused(Terminal))
    else if d.step != step || d.version != version then (d, DialogueRefused(DialogueRefusal.StaleState))
    else
      var moved := d.(step := next, version := d.version + 1);
      if DialogueChecks(moved) then (moved, Transitioned(moved.version)) else (d, Answer.Fault(Query))
  }

  lemma MoveEffect(a: Db, id: DialogueId, scope: Scope, step: Stage, version: nat, next: Stage, now: int)
    ensures var (c, answer) := Transition(a, id, scope, step, version, next, now);
      && OnlyRow(a, c, id)
      && (id in a.dialogues ==> (c.dialogues[id], answer) == MovedRow(a.dialogues[id], scope, step, version, next, now))
      && (id !in a.dialogues ==> answer.DialogueRefused?)
  {
  }

  lemma MovedRowAges(d: Dialogue, scope: Scope, step: Stage, version: nat, next: Stage, now: int)
    ensures var (e, answer) := MovedRow(d, scope, step, version, next, now);
      && Ages(d, e, now)
      && (answer.Transitioned? ==> !Spent(d, now))
      && (answer.Transitioned? || answer.DialogueRefused? || answer.Fault?)
  {
  }

  lemma MoveKeepsSim(a: Db, b: Db, id: DialogueId, scope: Scope, step: Stage, version: nat, next: Stage, now: int)
    requires Sim(a, b, now)
    ensures var (a2, x) := Transition(a, id, scope, step, version, next, now);
      var (b2, y) := Transition(b, id, scope, step, version, next, now);
      Sim(a2, b2, now) && Matches(x, y)
  {
    MoveEffect(a, id, scope, step, version, next, now);
    MoveEffect(b, id, scope, step, version, next, now);
    if id in b.dialogues {
      assert RowAgrees(a, b, id, now);
      MovedRowAges(b.dialogues[id], scope, step, version, next, now);
      if id in a.dialogues { MovedRowAges(a.dialogues[id], scope, step, version, next, now); }
      RowKeepsSim(a, b, Transition(a, id, scope, step, version, next, now).0,
                  Transition(b, id, scope, step, version, next, now).0, id, now);
    }
  }

  lemma MoveAlike(a: Db, b: Db, m: Moment, id: DialogueId, scope: Scope, step: Stage, version: nat, next: Stage)
    requires Sim(a, b, m.at) && m.what == Ask(Move(id, scope, step, version, next))
    ensures PlaysAlike(a, b, m)
  {
    var (a2, x) := Transition(a, id, scope, step, version, next, m.at);
    var (b2, y) := Transition(b, id, scope, step, version, next, m.at);
    MoveKeepsSim(a, b, id, scope, step, version, next, m.at);
    MatchIsAlike(a, b, m, a2, b2, x, y);
  }

  function CompletedRow(d: Dialogue, id: DialogueId, update: ReleasingUpdate, result: Option<Uuid>, job: NewJob, now: int)
    : (Dialogue, Answer)
  {
    if d.releasing != Some(update) then (d, Answer.Fault(Query))
    else if d.step.Completed? && d.lifecycle.Finished? then (d, AlreadyCompleted)
    else if !d.step.Submitting? || !d.lifecycle.Active? || !ResultJobFits(d, id, job) then (d, Answer.Fault(Query))
    else
      (d.(result := if result.None? then d.result else result, step := Stage.Completed, lifecycle := Lifecycle.Finished,
          version := d.version + 1, terminalAt := Some(now)), Answer.Finished)
  }

  lemma CompleteEffect(a: Db, id: DialogueId, update: ReleasingUpdate, result: Option<Uuid>, job: NewJob, now: int)
    ensures var (c, answer) := CompleteDialogue(a, id, update, result, job, now);
      && OnlyRow(a.(jobs := c.jobs, nextJob := c.nextJob), c, id)
      && (id in a.dialogues ==> (c.dialogues[id], answer) == CompletedRow(a.dialogues[id], id, update, result, job, now))
      && (id !in a.dialogues ==> answer.Fault?)
  {
  }

  lemma CompletedRowAges(d: Dialogue, id: DialogueId, update: ReleasingUpdate, result: Option<Uuid>, job: NewJob, now: int)
    ensures var (e, answer) := CompletedRow(d, id, update, result, job, now);
      && Ages(d, e, now)
      && (answer.Finished? ==> d.lifecycle.Active?)
      && (answer.Finished? || answer.AlreadyCompleted? || answer.Fault?)
  {
  }

  lemma CompleteKeepsSim(a: Db, b: Db, a2: Db, b2: Db, id: DialogueId, now: int)
    requires Sim(a, b, now)
    requires OnlyRow(a.(jobs := a2.jobs, nextJob := a2.nextJob), a2, id)
    requires OnlyRow(b.(jobs := b2.jobs, nextJob := b2.nextJob), b2, id)
    requires id in b.dialogues && Ages(b.dialogues[id], b2.dialogues[id], now) && RowAgrees(a2, b2, id, now)
    ensures Sim(a2, b2, now)
  {
    var a1 := a.(jobs := a2.jobs, nextJob := a2.nextJob);
    var b1 := b.(jobs := b2.jobs, nextJob := b2.nextJob);
    QueueKeepsSim(a, b, a1, b1, now);
    RowKeepsSim(a1, b1, a2, b2, id, now);
  }

  lemma CompleteAlike(a: Db, b: Db, m: Moment, id: DialogueId, update: ReleasingUpdate, result: Option<Uuid>, job: NewJob)
    requires Sim(a, b, m.at) && m.what == Ask(Complete(id, update, result, job))
    ensures PlaysAlike(a, b, m)
  {
    CompleteEffect(a, id, update, result, job, m.at);
    CompleteEffect(b, id, update, result, job, m.at);
    if id in b.dialogues {
      assert RowAgrees(a, b, id, m.at);
      CompletedRowAges(b.dialogues[id], id, update, result, job, m.at);
      if id in a.dialogues { CompletedRowAges(a.dialogues[id], id, update, result, job, m.at); }
      CompleteKeepsSim(a, b, Play(a, m).0, Play(b, m).0, id, m.at);
    }
  }

  // ---------------------------------------------------------------- whole runs

  lemma MomentAlike(a: Db, b: Db, m: Moment)
    requires Sim(a, b, m.at) && !IsCleanup(m)
    ensures PlaysAlike(a, b, m)
  {
    match m.what
    case Delivery(bindings) => BindingsKeepSim(a, b, bindings, m.at);
    case Ask(command) =>
      match command
      case ShowPreview(scope, preview, expiresAt) => PreviewAlike(a, b, m, scope, preview, expiresAt);
      case Stamp(id, bot, chat, message) => StampAlike(a, b, m, id, bot, chat, message);
      case SelectMode(token, scope, message) => SelectAlike(a, b, m, token, scope, message);
      case Decide(token, update, user, chat, message) => DecideAlike(a, b, m, token, update, user, chat, message);
      case Complete(id, update, result, job) => CompleteAlike(a, b, m, id, update, result, job);
      case Move(id, scope, step, version, next) => MoveAlike(a, b, m, id, scope, step, version, next);
      case OpenLink(token, surface, scope, message) => OpenLinkAlike(a, b, m, token, surface, scope, message);
      case ReadLibrary(token, scope, user) => ReadLibraryAlike(a, b, m, token, scope, user);
      case IssueLink(intent) => IssueLinkAlike(a, b, m, intent);
      case IssueReads(intents, job) => IssueReadsAlike(a, b, m, intents, job);
      case Capture(intent, ack) => CaptureAlike(a, b, m, intent, ack);
  }

  lemma {:induction false} SimObserves(a: Db, b: Db, now: int, moments: seq<Moment>)
    requires Sim(a, b, now) && InOrder(moments) && (moments != [] ==> now <= moments[0].at)
    ensures Observed(a, moments) == Observed(b, WithoutCleanup(moments))
    decreases |moments|
  {
    if moments == [] {
    } else {
      var m := moments[0];
      SimLater(a, b, now, m.at);
      if IsCleanup(m) {
        CleanupKeepsSim(a, b, m.at, m.what.command.before, m.what.command.limit);
        SimObserves(Play(a, m).0, b, m.at, moments[1..]);
        assert !Visible(a, m, Play(a, m).1);
        assert [] + Observed(Play(a, m).0, moments[1..]) == Observed(Play(a, m).0, moments[1..]);
        assert [] + WithoutCleanup(moments[1..]) == WithoutCleanup(moments[1..]);
      } else {
        MomentAlike(a, b, m);
        SimObserves(Play(a, m).0, Play(b, m).0, m.at, moments[1..]);
        assert WithoutCleanup(moments) == [m] + WithoutCleanup(moments[1..]);
      }
    }
  }

  lemma SoundIsSimilar(db: Db, now: int)
    requires Sound(db)
    ensures Sim(db, db, now)
  {
  }

  /** Cleanup is invisible. From any well-formed database, with a clock that never goes back, a run with
      cleanup passes anywhere answers exactly like the run without them: the same previews, selections,
      first confirmations, cancellations, transitions, links, captures and reads, in the same order and
      with the same identities, and the same stamps and completions of dialogues not yet expired. */
  lemma CleanupIsInvisible(db: Db, moments: seq<Moment>)
    requires Sound(db) && InOrder(moments)
    ensures Observed(db, moments) == Observed(db, WithoutCleanup(moments))
  {
    if moments != [] {
      SoundIsSimilar(db, moments[0].at);
      SimObserves(db, db, moments[0].at, moments);
    }
  }
}
