/** The accept step of one operation event: deduplicate, find the binding, guard, assign a revision,
    sweep, enqueue, and move the watermark (crates/persistence/src/projection_accept.rs). */
module ProjectionAccept {
  import opened Tables
  import opened OutboundQueue

  datatype Event = Event(operation: Uuid, id: Uuid, occurredAt: int, terminal: bool)

  datatype AcceptOutcome = Recorded(revision: int) | Duplicate | PostTerminal | Stale | Unbound

  const I64_MAX := 0x7FFF_FFFF_FFFF_FFFF
  const I64_MIN := -0x8000_0000_0000_0000

  function SaturatingAdd(a: int, b: int): int {
    if a + b > I64_MAX then I64_MAX else if a + b < I64_MIN then I64_MIN else a + b
  }

  function Max(a: int, b: int): int { if a < b then b else a }

  /** The binding an operation's events go to: the one with the lowest chat. */
  predicate Locked(bindings: map<BindingKey, Binding>, operation: Uuid, key: BindingKey) {
    && key in bindings && key.operation == operation
    && forall k | k in bindings :: k.operation == operation ==> key.chat <= k.chat
  }

  ghost function LockBinding(bindings: map<BindingKey, Binding>, operation: Uuid): (key: Option<BindingKey>)
    ensures key.Some? ==> Locked(bindings, operation, key.value)
    ensures key.None? ==> forall k | k in bindings :: k.operation != operation
  {
    if k :| k in bindings && k.operation == operation then
      var keys := set x | x in bindings && x.operation == operation;
      assert k in keys;
      LeastChat(bindings, operation, keys);
      var least :| Locked(bindings, operation, least);
      Some(least)
    else None
  }

  lemma LeastChat(bindings: map<BindingKey, Binding>, operation: Uuid, keys: set<BindingKey>)
    requires keys != {}
    ensures exists k :: k in keys && forall x | x in keys :: k.chat <= x.chat
    ensures keys == (set x | x in bindings && x.operation == operation) ==> exists k :: Locked(bindings, operation, k)
  {
    var pick :| pick in keys;
    var least := pick;
    if keys != {pick} {
      LeastChat(bindings, operation, keys - {pick});
      var rest :| rest in keys - {pick} && forall x | x in keys - {pick} :: rest.chat <= x.chat;
      least := if pick.chat <= rest.chat then pick else rest;
    }
    assert forall x | x in keys :: x == pick || x in keys - {pick};
    assert least in keys && forall x | x in keys :: least.chat <= x.chat;
    if keys == (set x | x in bindings && x.operation == operation) {
      assert forall k | k in bindings :: k.operation == operation ==> k in keys;
      assert Locked(bindings, operation, least);
    }
  }

  lemma LockedIsUnique(bindings: map<BindingKey, Binding>, operation: Uuid, a: BindingKey, b: BindingKey)
    requires Locked(bindings, operation, a) && Locked(bindings, operation, b)
    ensures a == b
  {
  }

  // ---------------------------------------------------------------- revision assignment

  predicate Carries(j: Job, key: BindingKey) {
    j.operation == Some(key.operation) && j.chat == key.chat && j.revision.Some?
  }

  /** Every revision ever enqueued for a binding, superseded rows included. */
  function Assigned(jobs: map<JobId, Job>, key: BindingKey): set<int> {
    set id | id in jobs && Carries(jobs[id], key) :: jobs[id].revision.value
  }

  ghost function Greatest(s: set<int>): (m: int)
    ensures s == {} ==> m == 0
    ensures s != {} ==> m in s && forall x | x in s :: x <= m
  {
    if pick :| pick in s then
      var rest := s - {pick};
      assert forall x | x in s :: x == pick || x in rest;
      if rest == {} then pick else Max(pick, Greatest(rest))
    else 0
  }

  ghost function NextRevision(jobs: map<JobId, Job>, key: BindingKey, b: Binding): int {
    Max(Greatest(Assigned(jobs, key)), b.rendered) + 1
  }

  // ---------------------------------------------------------------- the transaction

  /** Terminals skip the render interval; everything else waits it out from the last delivered render. */
  function FirstAttemptAt(b: Binding, event: Event, now: int, interval: int): int {
    if event.terminal then now
    else Max(now, SaturatingAdd(if b.renderedAt.Some? then b.renderedAt.value else 0, Max(interval, 0)))
  }

  function EditJob(key: BindingKey, b: Binding, event: Event, revision: int, now: int, interval: int): Job {
    Job(b.bot, key.chat, EditMessageText, Some(event.operation), Some(revision), None, Direct,
        JobState.Ready, 0, FirstAttemptAt(b, event, now, interval), None, None, None, None)
  }

  function Record(db: Db, key: BindingKey, event: Event, revision: int, now: int, interval: int): Db
    requires key in db.bindings
  {
    var b := db.bindings[key];
    var swept := db.(jobs := Sweep(db.jobs, key.operation, key.chat, revision));
    var added := AddJob(swept, EditJob(key, b, event, revision, now, interval));
    added.(bindings := db.bindings[key :=
      b.(lastEventAt := Some(event.occurredAt), terminal := b.terminal || event.terminal)])
  }

  ghost function Accept(db: Db, event: Event, now: int, interval: int): (Db, AcceptOutcome) {
    if event.id in db.inbox then (db, Duplicate)
    else
      var locked := LockBinding(db.bindings, event.operation);
      if locked.None? then (db, Unbound)
      else
        var key := locked.value;
        var b := db.bindings[key];
        var seen := db.(inbox := db.inbox + {event.id});
        if b.terminal then (seen, PostTerminal)
        else if b.lastEventAt.Some? && event.occurredAt < b.lastEventAt.value then (seen, Stale)
        else
          var revision := NextRevision(db.jobs, key, b);
          (Record(seen, key, event, revision, now, interval), Recorded(revision))
  }
}
