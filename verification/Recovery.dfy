/** What a cleanup pass does to the recovery of a confirmation: exactly when it survives, and a run in
    which it does not. */
module Recovery {
  import opened Tables
  import opened Interaction
  import opened Cleanup
  import opened Delivery
  import opened Machine
  import opened Leases
  import opened Sender

  // ---------------------------------------------------------------- who is in a batch

  /** The candidates that come before `id`. */
  function Ahead(due: map<nat, int>, id: nat): set<nat>
    requires id in due
  {
    set o | o in due && SortsBefore(due, o, id)
  }

  lemma SubsetSize(a: set<nat>, b: set<nat>)
    requires a <= b
    ensures |a| <= |b| && (|a| == |b| ==> a == b)
  {
    assert b == a + (b - a);
  }

  /** A batch takes a candidate exactly when fewer than `limit` others come before it. */
  lemma TakenExactlyWhenFewAhead(due: map<nat, int>, limit: nat, id: nat)
    requires id in due
    ensures id in FirstRows(due, limit) <==> |Ahead(due, id)| < limit
  {
    FirstRowsIsBatch(due, limit);
    var batch, ahead := FirstRows(due, limit), Ahead(due, id);
    if id in batch {
      forall o | o in ahead ensures o in batch {
        assert o in batch || SortsBefore(due, id, o);
      }
      SubsetSize(ahead + {id}, batch);
    } else {
      SubsetSize(batch, ahead);
    }
  }

  // ---------------------------------------------------------------- the pass and one confirmation

  predicate Taken(due: map<nat, int>, limit: nat, id: nat) {
    id in due && |Ahead(due, id)| < limit
  }

  /** The database between the first two phases. */
  ghost function AfterExpiry(db: Db, now: int, limit: nat): Db {
    ExpireBatch(db, FirstRows(ExpiryQueue(db, now), limit), now)
  }

  /** A consumed token is always a candidate for deletion. */
  lemma ConsumedIsDue(db: Db, now: int, token: TokenId)
    requires token in db.tokens && db.tokens[token].authority.Callback? && db.tokens[token].consumedAt.Some?
    ensures token in DeletionQueue(db, now)
  {
  }

  lemma StillReferenced(db: Db, token: TokenId)
    requires token in db.tokens && db.tokens[token].authority.Callback?
    ensures Referenced(db, db.tokens[token].authority.dialogue)
  {
  }

  /** What the pass leaves of a consumed token and of its active dialogue. */
  lemma PassOnConfirmation(db: Db, now: int, before: int, limit: nat, token: TokenId)
    requires IsCallbackRow(db, token) && db.tokens[token].consumedAt.Some?
    requires db.dialogues[db.tokens[token].authority.dialogue].lifecycle.Active?
    ensures var after := CleanupPass(db, now, before, limit).0;
      var id := db.tokens[token].authority.dialogue; var d := db.dialogues[id];
      && token in DeletionQueue(AfterExpiry(db, now, limit), now)
      && (token in after.tokens <==> !Taken(DeletionQueue(AfterExpiry(db, now, limit), now), limit, token))
      && (token in after.tokens ==>
            && after.tokens[token] == db.tokens[token] && id in after.dialogues
            && after.dialogues[id] == if Taken(ExpiryQueue(db, now), limit, id) then ExpiredDialogue(d, now) else d)
  {
    var id := db.tokens[token].authority.dialogue;
    var db1 := AfterExpiry(db, now, limit);
    if id in ExpiryQueue(db, now) { TakenExactlyWhenFewAhead(ExpiryQueue(db, now), limit, id); }
    ConsumedIsDue(db1, now, token);
    TakenExactlyWhenFewAhead(DeletionQueue(db1, now), limit, token);
    var removed := FirstRows(DeletionQueue(db1, now), limit);
    var db2 := db1.(tokens := db1.tokens - removed);
    if token !in removed { StillReferenced(db2, token); }
  }

  /** Recovery across a cleanup pass, exactly. Where the releasing update would have recovered its action,
      after the pass it is told that the token is invalid if fewer than `limit` dead tokens come before its
      own; else that the token is consumed if the dialogue's time was up and fewer than `limit` such dialogues
      come before it; and else it still recovers the same action. */
  lemma CleanupEndsRecovery(db: Db, now: int, before: int, limit: nat, token: TokenId, update: ReleasingUpdate,
                            user: int, chat: int, message: int)
    requires IsCallbackRow(db, token) && db.tokens[token].consumedAt.Some?
    requires ConsumeDecision(db, token, update, user, chat, message, now).1.Confirmed?
    ensures var after := CleanupPass(db, now, before, limit).0;
      var id := db.tokens[token].authority.dialogue;
      ConsumeDecision(after, token, update, user, chat, message, now).1 ==
        if Taken(DeletionQueue(AfterExpiry(db, now, limit), now), limit, token)
        then CallbackRefused(CallbackRefusal.Invalid)
        else if Taken(ExpiryQueue(db, now), limit, id) then CallbackRefused(CallbackRefusal.Consumed)
        else ConsumeDecision(db, token, update, user, chat, message, now).1
  {
    PassOnConfirmation(db, now, before, limit, token);
  }

  /** For a dialogue whose time is not up, the deletion of its token is the only way to lose it. */
  lemma UnexpiredRecoveryIsKeptExactly(db: Db, now: int, before: int, limit: nat, token: TokenId,
                                       update: ReleasingUpdate, user: int, chat: int, message: int)
    requires IsCallbackRow(db, token) && db.tokens[token].consumedAt.Some?
    requires ConsumeDecision(db, token, update, user, chat, message, now).1.Confirmed?
    requires db.dialogues[db.tokens[token].authority.dialogue].expiresAt > now
    ensures token in DeletionQueue(AfterExpiry(db, now, limit), now)
    ensures ConsumeDecision(CleanupPass(db, now, before, limit).0, token, update, user, chat, message, now).1
            == ConsumeDecision(db, token, update, user, chat, message, now).1
            <==> |Ahead(DeletionQueue(AfterExpiry(db, now, limit), now), token)| >= limit
  {
    PassOnConfirmation(db, now, before, limit, token);
    CleanupEndsRecovery(db, now, before, limit, token, update, user, chat, message);
  }

  // ---------------------------------------------------------------- a run that loses it

  const LIMITS := Limits(3, 1, 60, 0, 300)
  const OWNER := Scope(1, 7, 9)
  const CLICK := ReleasingUpdate(1, 5)

  /** A property of states that no step of a run from the start leaves. */
  ghost predicate RunsKeep(p: Sys -> bool) {
    && p(Start(0, LIMITS))
    && forall s, step | p(s) && Enabled(s, step) :: p(Next(s, step))
  }

  predicate At0(s: Sys, db: Db) { s.now == 0 && s.db == db }

  lemma Performs(p: Sys -> bool, s: Sys, command: Command) returns (t: Sys)
    requires RunsKeep(p) && p(s) && s.now == 0
    ensures p(t) && At0(t, Perform(s.db, command, 0).0) && t == Next(s, Interact(command))
  {
    var step := Interact(command);
    assert Enabled(s, step);
    t := Next(s, step);
    assert t == InteractStep(s, command);
  }

  const SHOWN := Dialogue(1, 7, 9, None, Stage.Preview, 0, Active, 3, None, None, None, 0, None, 1000, None)
  const PICKED := SHOWN.(mode := Some(Metadata), step := Confirming, version := 1)
  const WON := PICKED.(step := Submitting, version := 2, releasing := Some(CLICK))
  const PICK := CallbackToken(Select(Metadata), 0, 0, OWNER, 0, 1000)
  const YES := CallbackToken(Confirm, 0, 1, OWNER, 0, 1000)
  const NO := CallbackToken(Cancel, 0, 1, OWNER, 0, 1000)

  function With(dialogue: Dialogue, tokens: map<TokenId, Token>, nextToken: TokenId): Db {
    EMPTY.(dialogues := map[0 := dialogue], tokens := tokens, nextDialogue := 1, nextToken := nextToken)
  }

  lemma PreviewShown()
    ensures CreatePreview(EMPTY, OWNER, Offer(3, None, [Metadata]), 0, 1000).0 == With(SHOWN, map[0 := PICK], 1)
  {
    assert MintSelections(With(SHOWN, map[], 0), 0, OWNER, [Metadata], 0, 1000)
           == MintSelections(With(SHOWN, map[0 := PICK], 1), 0, OWNER, [Metadata][1..], 0, 1000);
  }

  lemma PreviewStamped()
    ensures StampCallback(With(SHOWN, map[0 := PICK], 1), 0, 1, 9, 50).0
            == With(SHOWN.(message := Some(50)), map[0 := PICK.(message := Some(50))], 1)
  {
  }

  function PickedTokens(message: Option<int>): map<TokenId, Token> {
    map[0 := PICK.(message := Some(50), consumedAt := Some(0)), 1 := YES.(message := message), 2 := NO.(message := message)]
  }

  lemma ModePicked()
    ensures ConsumeSelection(With(SHOWN.(message := Some(50)), map[0 := PICK.(message := Some(50))], 1), 0, OWNER, 50, 0).0
            == With(PICKED, PickedTokens(None), 3)
  {
  }

  lemma ConfirmStamped()
    ensures StampCallback(With(PICKED, PickedTokens(None), 3), 0, 1, 9, 51).0
            == With(PICKED.(message := Some(51)), PickedTokens(Some(51)), 3)
  {
  }

  function WonTokens(): map<TokenId, Token> {
    PickedTokens(Some(51))[1 := YES.(message := Some(51), consumedAt := Some(0))]
  }

  lemma Won()
    ensures ConsumeDecision(With(PICKED.(message := Some(51)), PickedTokens(Some(51)), 3), 1, CLICK, 7, 9, 51, 0).0
            == With(WON, WonTokens(), 3)
  {
  }

  /** A confirmation can be recovered, its dialogue is not expired, and a pass of ten rows ends that. */
  ghost predicate LosesRecovery(db: Db, now: int) {
    && ConsumeDecision(db, 1, CLICK, 7, 9, 51, now).1.Confirmed?
    && 0 in db.dialogues && db.dialogues[0].expiresAt > now
    && ConsumeDecision(CleanupPass(db, now, 0, 10).0, 1, CLICK, 7, 9, 51, now).1
       == CallbackRefused(CallbackRefusal.Invalid)
  }

  lemma ConfirmationWon(p: Sys -> bool) returns (s: Sys)
    requires RunsKeep(p)
    ensures p(s) && At0(s, With(WON, WonTokens(), 3))
  {
    PreviewShown();
    var s1 := Performs(p, Start(0, LIMITS), ShowPreview(OWNER, Offer(3, None, [Metadata]), 1000));
    PreviewStamped();
    var s2 := Performs(p, s1, Stamp(0, 1, 9, 50));
    ModePicked();
    var s3 := Performs(p, s2, SelectMode(0, OWNER, 50));
    ConfirmStamped();
    var s4 := Performs(p, s3, Stamp(0, 1, 9, 51));
    Won();
    s := Performs(p, s4, Decide(1, CLICK, 7, 9, 51));
  }

  /** A small table has room for every dead token. */
  lemma SmallTableTaken(db: Db, token: TokenId)
    requires token in db.tokens && db.tokens.Keys <= {0, 1, 2}
    requires db.tokens[token].authority.Callback? && db.tokens[token].consumedAt.Some?
    ensures Taken(DeletionQueue(db, 0), 10, token)
  {
    ConsumedIsDue(db, 0, token);
    SubsetSize(Ahead(DeletionQueue(db, 0), token), {0, 1, 2});
  }

  lemma WonIsRecovered()
    ensures ConsumeDecision(With(WON, WonTokens(), 3), 1, CLICK, 7, 9, 51, 0).1 == Confirmed(ActionOf(0, WON), false)
  {
  }

  lemma PassTakesIt(db: Db)
    requires IsCallbackRow(db, 1) && db.tokens.Keys <= {0, 1, 2} && db.tokens[1].consumedAt.Some?
    requires ConsumeDecision(db, 1, CLICK, 7, 9, 51, 0).1.Confirmed?
    ensures ConsumeDecision(CleanupPass(db, 0, 0, 10).0, 1, CLICK, 7, 9, 51, 0).1 == CallbackRefused(CallbackRefusal.Invalid)
  {
    SmallTableTaken(AfterExpiry(db, 0, 10), 1);
    CleanupEndsRecovery(db, 0, 0, 10, 1, CLICK, 7, 9, 51);
  }

  lemma WonLoses()
    ensures LosesRecovery(With(WON, WonTokens(), 3), 0)
  {
    WonIsRecovered();
    PassTakesIt(With(WON, WonTokens(), 3));
  }

  lemma RecoveryLost(p: Sys -> bool) returns (s: Sys)
    requires RunsKeep(p)
    ensures p(s) && LosesRecovery(s.db, s.now)
  {
    s := ConfirmationWon(p);
    WonLoses();
  }

  lemma RunsKeepReachable()
    ensures RunsKeep(s => Reachable(s, 0, LIMITS))
  {
    var start := Start(0, LIMITS);
    assert Runs(start, []) && After(start, []) == start;
    forall s, step | Reachable(s, 0, LIMITS) && Enabled(s, step) ensures Reachable(Next(s, step), 0, LIMITS) {
      var steps :| Runs(start, steps) && After(start, steps) == s;
      RunsSnoc(start, steps, step);
    }
  }

  /** In a run of five commands a confirmation is won and can be recovered, and after one cleanup pass its
      update is told that the token is invalid, long before the dialogue expires. */
  lemma RecoveryLostInARun() returns (s: Sys)
    ensures Reachable(s, 0, LIMITS) && LosesRecovery(s.db, s.now)
  {
    RunsKeepReachable();
    s := RecoveryLost(s => Reachable(s, 0, LIMITS));
  }
}
