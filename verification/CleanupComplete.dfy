/** What a cleanup pass that has room for everything leaves behind. */
module CleanupComplete {
  import opened Tables
  import opened Interaction
  import opened Cleanup
  import opened Recovery

  /** A batch with room takes every candidate. */
  lemma RoomTakesAll(due: map<nat, int>, limit: nat)
    requires |due.Keys| <= limit
    ensures FirstRows(due, limit) == due.Keys
  {
    FirstRowsIsBatch(due, limit);
    SubsetSize(FirstRows(due, limit), due.Keys);
  }

  /** The dialogue can still be answered. */
  predicate Open(db: Db, id: DialogueId, now: int) {
    id in db.dialogues && db.dialogues[id].lifecycle.Active? && now < db.dialogues[id].expiresAt
  }

  /** A token that may still be used: never used, in time, and for a callback in the current version of a
      dialogue that can still be answered. */
  predicate Usable(db: Db, t: Token, now: int) {
    && t.consumedAt.None? && now < t.expiresAt
    && (t.authority.Callback? ==>
          Open(db, t.authority.dialogue, now) && db.dialogues[t.authority.dialogue].version == t.authority.version)
  }

  /** A link by which a followed operation finds its owner. */
  predicate FollowedLink(db: Db, t: Token) {
    t.authority.DeepLink? && exists k | k in db.bindings :: k.operation == t.authority.operation && !db.bindings[k].terminal
  }

  ghost function Kept(db: Db, now: int, before: int, limit: nat): Db { CleanupPass(db, now, before, limit).0 }

  lemma ExpiryPhase(db: Db, now: int, limit: nat)
    requires |db.dialogues| <= limit
    ensures FirstRows(ExpiryQueue(db, now), limit) == ExpiryQueue(db, now).Keys
  {
    assert ExpiryQueue(db, now).Keys <= db.dialogues.Keys;
    SubsetSize(ExpiryQueue(db, now).Keys, db.dialogues.Keys);
    assert |db.dialogues.Keys| == |db.dialogues|;
    RoomTakesAll(ExpiryQueue(db, now), limit);
  }

  lemma DeletionPhase(db: Db, now: int, limit: nat)
    requires |db.tokens| <= limit
    ensures FirstRows(DeletionQueue(db, now), limit) == DeletionQueue(db, now).Keys
  {
    assert DeletionQueue(db, now).Keys <= db.tokens.Keys;
    SubsetSize(DeletionQueue(db, now).Keys, db.tokens.Keys);
    assert |db.tokens.Keys| == |db.tokens|;
    RoomTakesAll(DeletionQueue(db, now), limit);
  }

  lemma RetirementPhase(db: Db, before: int, limit: nat)
    requires |db.dialogues| <= limit
    ensures FirstRows(RetirementQueue(db, before), limit) == RetirementQueue(db, before).Keys
  {
    assert RetirementQueue(db, before).Keys <= db.dialogues.Keys;
    SubsetSize(RetirementQueue(db, before).Keys, db.dialogues.Keys);
    assert |db.dialogues.Keys| == |db.dialogues|;
    RoomTakesAll(RetirementQueue(db, before), limit);
  }

  lemma DeadExactlyWhenUnusable(db: Db, now: int, limit: nat, t: Token)
    requires |db.dialogues| <= limit
    ensures Deletable(AfterExpiry(db, now, limit), t, now) <==> !Usable(db, t, now) && !FollowedLink(db, t)
  {
    ExpiryPhase(db, now, limit);
  }

  /** After a pass with room, exactly the usable tokens and the links of followed operations are left, as they
      were. */
  lemma FullPassKeepsUsableTokens(db: Db, now: int, before: int, limit: nat, t: TokenId)
    requires |db.dialogues| <= limit && |db.tokens| <= limit
    ensures t in Kept(db, now, before, limit).tokens <==>
            t in db.tokens && (Usable(db, db.tokens[t], now) || FollowedLink(db, db.tokens[t]))
    ensures t in Kept(db, now, before, limit).tokens ==> Kept(db, now, before, limit).tokens[t] == db.tokens[t]
  {
    DeletionPhase(AfterExpiry(db, now, limit), now, limit);
    if t in db.tokens { DeadExactlyWhenUnusable(db, now, limit, db.tokens[t]); }
  }

  /** A dialogue that was over long enough ago: finished, cancelled or expired before `before`. */
  predicate LongOver(d: Dialogue, now: int, before: int) {
    if d.lifecycle.Active? then d.expiresAt <= now && now < before
    else d.terminalAt.Some? && d.terminalAt.value < before
  }

  /** After a pass with room, exactly the dialogues are left that are not long over, or that a kept button still
      names; the ones whose time is up are marked as expired now, and nothing else about them changed. */
  lemma FullPassKeepsLivingDialogues(db: Db, now: int, before: int, limit: nat, id: DialogueId)
    requires |db.dialogues| <= limit && |db.tokens| <= limit
    ensures id in Kept(db, now, before, limit).dialogues <==>
            && id in db.dialogues
            && (|| !LongOver(db.dialogues[id], now, before)
                || exists t | t in Kept(db, now, before, limit).tokens ::
                     db.tokens[t].authority.Callback? && db.tokens[t].authority.dialogue == id)
    ensures id in Kept(db, now, before, limit).dialogues ==>
      Kept(db, now, before, limit).dialogues[id] ==
        var d := db.dialogues[id];
        if d.lifecycle.Active? && d.expiresAt <= now
        then d.(lifecycle := Lifecycle.Expired, terminalAt := Some(now), version := d.version + 1) else d
  {
    ExpiryPhase(db, now, limit);
    var db1 := AfterExpiry(db, now, limit);
    DeletionPhase(db1, now, limit);
    var db2 := db1.(tokens := db1.tokens - FirstRows(DeletionQueue(db1, now), limit));
    assert |db1.dialogues.Keys| == |db.dialogues.Keys| by { assert db1.dialogues.Keys == db.dialogues.Keys; }
    assert |db1.dialogues| == |db1.dialogues.Keys| && |db.dialogues| == |db.dialogues.Keys|;
    RetirementPhase(db2, before, limit);
    assert Kept(db, now, before, limit).tokens == db2.tokens;
    forall t | t in db2.tokens ensures t in db.tokens && db2.tokens[t] == db.tokens[t] {}
    if id in db.dialogues { RetiredExactly(db, db2, now, before, limit, id); }
  }

  lemma RetiredExactly(db: Db, db2: Db, now: int, before: int, limit: nat, id: DialogueId)
    requires id in db.dialogues && |db.dialogues| <= limit
    requires db2 == AfterExpiry(db, now, limit).(tokens := db2.tokens) && id in db2.dialogues
    requires forall t | t in db2.tokens :: t in db.tokens && db2.tokens[t] == db.tokens[t]
    ensures Retired(db2, id, before) <==>
            && LongOver(db.dialogues[id], now, before)
            && !exists t | t in db2.tokens ::
                  db.tokens[t].authority.Callback? && db.tokens[t].authority.dialogue == id
  {
    ExpiryPhase(db, now, limit);
  }
}
