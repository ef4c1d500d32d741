/** Bounded cleanup of interaction authority: expire dialogues, delete dead tokens, delete retired
    dialogues (crates/persistence/src/interaction_cleanup.rs). */
module Cleanup {
  import opened Tables
  import opened Interaction

  // ---------------------------------------------------------------- ordered batches

  /** `due` maps each candidate to its sort key; ties go to the lower identity. */
  predicate Least(due: map<nat, int>, id: nat) {
    id in due && forall o | o in due :: due[id] < due[o] || (due[id] == due[o] && id <= o)
  }

  predicate LeastOfSet(due: map<nat, int>, ids: set<nat>, id: nat)
    requires ids <= due.Keys
  {
    id in ids && forall o | o in ids :: due[id] < due[o] || (due[id] == due[o] && id <= o)
  }

  lemma LeastExists(due: map<nat, int>, ids: set<nat>) returns (least: nat)
    requires ids != {} && ids <= due.Keys
    ensures LeastOfSet(due, ids, least)
  {
    var pick :| pick in ids;
    if ids == {pick} {
      least := pick;
    } else {
      var rest := LeastExists(due, ids - {pick});
      least := if due[pick] < due[rest] || (due[pick] == due[rest] && pick <= rest) then pick else rest;
      forall o | o in ids ensures due[least] < due[o] || (due[least] == due[o] && least <= o) {
        if o != pick { assert o in ids - {pick}; }
      }
    }
  }

  lemma LeastRowExists(due: map<nat, int>)
    requires due != map[]
    ensures exists id :: Least(due, id)
  {
    assert due.Keys != {};
    var id := LeastExists(due, due.Keys);
    assert Least(due, id);
  }

  ghost function LeastRow(due: map<nat, int>): (id: nat)
    requires due != map[]
    ensures Least(due, id)
  {
    LeastRowExists(due);
    var id :| Least(due, id);
    id
  }

  /** The first `limit` candidates in `order by due, id`. */
  ghost function FirstRows(due: map<nat, int>, limit: nat): (batch: set<nat>)
    ensures batch <= due.Keys
    decreases limit
  {
    if limit == 0 || due == map[] then {}
    else
      var id := LeastRow(due);
      {id} + FirstRows(due - {id}, limit - 1)
  }

  // ---------------------------------------------------------------- the three phases

  predicate DueToExpire(d: Dialogue, now: int) {
    d.lifecycle.Active? && d.expiresAt <= now
  }

  function ExpiryQueue(db: Db, now: int): map<nat, int> {
    map id | id in db.dialogues && DueToExpire(db.dialogues[id], now) :: db.dialogues[id].expiresAt
  }

  function ExpireBatch(db: Db, batch: set<nat>, now: int): Db {
    db.(dialogues := map id | id in db.dialogues ::
          if id in batch then ExpiredDialogue(db.dialogues[id], now) else db.dialogues[id])
  }

  /** A callback token whose dialogue can no longer honour it. */
  predicate Orphaned(db: Db, t: Token) {
    && t.authority.Callback?
    && (t.authority.dialogue !in db.dialogues
        || !db.dialogues[t.authority.dialogue].lifecycle.Active?
        || db.dialogues[t.authority.dialogue].version != t.authority.version)
  }

  predicate Followed(bindings: map<BindingKey, Binding>, operation: Uuid) {
    exists k | k in bindings :: k.operation == operation && !bindings[k].terminal
  }

  predicate Deletable(db: Db, t: Token, now: int) {
    && (t.consumedAt.Some? || t.expiresAt <= now || Orphaned(db, t))
    && !(t.authority.DeepLink? && Followed(db.bindings, t.authority.operation))
  }

  function DeletionQueue(db: Db, now: int): map<nat, int> {
    map t | t in db.tokens && Deletable(db, db.tokens[t], now) :: db.tokens[t].expiresAt
  }

  predicate Referenced(db: Db, id: DialogueId) {
    exists t | t in db.tokens ::
      db.tokens[t].authority.Callback? && db.tokens[t].authority.dialogue == id
  }

  predicate Retired(db: Db, id: DialogueId, before: int)
    requires id in db.dialogues
  {
    var d := db.dialogues[id];
    !d.lifecycle.Active? && d.terminalAt.Some? && d.terminalAt.value < before && !Referenced(db, id)
  }

  function RetirementQueue(db: Db, before: int): map<nat, int> {
    map id | id in db.dialogues && Retired(db, id, before) :: db.dialogues[id].terminalAt.value
  }

  datatype Counts = Counts(expired: nat, tokens: nat, dialogues: nat)

  ghost function CleanupPass(db: Db, now: int, before: int, limit: nat): (Db, Counts) {
    var expired := FirstRows(ExpiryQueue(db, now), limit);
    var db1 := ExpireBatch(db, expired, now);
    var removed := FirstRows(DeletionQueue(db1, now), limit);
    var db2 := db1.(tokens := db1.tokens - removed);
    var retired := FirstRows(RetirementQueue(db2, before), limit);
    (db2.(dialogues := db2.dialogues - retired), Counts(|expired|, |removed|, |retired|))
  }

  // ---------------------------------------------------------------- what a batch is

  predicate SortsBefore(due: map<nat, int>, a: nat, b: nat)
    requires a in due && b in due
  {
    due[a] < due[b] || (due[a] == due[b] && a < b)
  }

  /** The `limit` least candidates: everything left behind sorts after everything taken, and
      something is left behind only when the batch is full. */
  predicate IsBatch(due: map<nat, int>, limit: nat, batch: set<nat>) {
    && batch <= due.Keys
    && |batch| <= limit
    && (batch != due.Keys ==> |batch| == limit)
    && forall a, b | a in batch && b in due && b !in batch :: SortsBefore(due, a, b)
  }

  lemma ExtendBatch(due: map<nat, int>, limit: nat, id: nat, tail: set<nat>)
    requires limit > 0 && Least(due, id) && IsBatch(due - {id}, limit - 1, tail)
    ensures IsBatch(due, limit, {id} + tail)
  {
    var rest := due - {id};
    var batch := {id} + tail;
    assert id !in tail && |batch| == 1 + |tail|;
    if tail == rest.Keys { assert batch == due.Keys; }
    forall a, b | a in batch && b in due && b !in batch ensures SortsBefore(due, a, b) {
      if a != id { assert SortsBefore(rest, a, b); }
    }
  }

  /** `order by ... limit n`: the recursive choice is the batch the SQL names. */
  lemma {:induction false} FirstRowsIsBatch(due: map<nat, int>, limit: nat)
    ensures IsBatch(due, limit, FirstRows(due, limit))
    decreases limit
  {
    if limit == 0 || due == map[] {
      assert due == map[] ==> due.Keys == {};
    } else {
      var id := LeastRow(due);
      FirstRowsIsBatch(due - {id}, limit - 1);
      ExtendBatch(due, limit, id, FirstRows(due - {id}, limit - 1));
    }
  }
}
