/** Operation events become revisions: exact numbering, one last terminal render, a simple fold behind
    at-least-once delivery, and renders that only move forward. */
module Projection {
  import opened Tables
  import opened OutboundQueue
  import opened Acknowledgements
  import opened ProjectionAccept
  import opened Notifications
  import opened Delivery
  import opened Machine
  import opened QueueEffects
  import opened Fencing
  import opened Leases

  /** Producers outside the projection enqueue without a revision, as every caller in the services does. */
  predicate Producer(step: Step) {
    match step
    case Enqueue(order) => order.revision.None?
    case Interact(command) => command.IssueReads? ==> command.job.revision.None?
    case _ => true
  }

  // ---------------------------------------------------------------- the reference fold

  /** An event is kept unless a kept one is terminal or newer. */
  predicate Keeps(kept: seq<Event>, e: Event) {
    forall k | k in kept :: !k.terminal && k.occurredAt <= e.occurredAt
  }

  function Fold(events: seq<Event>): seq<Event> {
    if events == [] then []
    else
      var kept := Fold(events[..|events| - 1]);
      var e := events[|events| - 1];
      if Keeps(kept, e) then kept + [e] else kept
  }

  function ArrivalsOf(judged: seq<(BindingKey, Event)>, key: BindingKey): seq<Event> {
    if judged == [] then []
    else
      var before := ArrivalsOf(judged[..|judged| - 1], key);
      var last := judged[|judged| - 1];
      if last.0 == key then before + [last.1] else before
  }

  function EventsOf(renders: seq<Render>): seq<Event> {
    seq(|renders|, i requires 0 <= i < |renders| => renders[i].event)
  }

  lemma FoldSnoc(events: seq<Event>, e: Event)
    ensures Fold(events + [e]) == if Keeps(Fold(events), e) then Fold(events) + [e] else Fold(events)
  {
    assert (events + [e])[..|events|] == events;
  }

  lemma ArrivalsSnoc(judged: seq<(BindingKey, Event)>, last: (BindingKey, Event), key: BindingKey)
    ensures ArrivalsOf(judged + [last], key) == ArrivalsOf(judged, key) + if last.0 == key then [last.1] else []
  {
    assert (judged + [last])[..|judged|] == judged;
  }

  lemma EventsSnoc(renders: seq<Render>, r: Render)
    ensures EventsOf(renders + [r]) == EventsOf(renders) + [r.event]
  {
  }

  // ---------------------------------------------------------------- the invariant

  /** Only the last render may be terminal, and the renders are in order of occurrence. */
  predicate Ordered(renders: seq<Render>) {
    && (forall i | 0 <= i < |renders| - 1 :: !renders[i].event.terminal)
    && (forall i, j | 0 <= i < j < |renders| :: renders[i].event.occurredAt <= renders[j].event.occurredAt)
  }

  /** The binding row agrees with the renders recorded for it. */
  predicate Agrees(b: Binding, renders: seq<Render>) {
    && 0 <= b.rendered <= |renders|
    && (b.terminal <==> renders != [] && renders[|renders| - 1].event.terminal)
    && b.lastEventAt == if renders == [] then None else Some(renders[|renders| - 1].event.occurredAt)
  }

  predicate KeyedBy(j: Job, key: BindingKey) {
    j.operation == Some(key.operation) && j.chat == key.chat
  }

  /** Revisions in the queue are exactly the assigned ones, and an untouched edit carries the highest. */
  predicate RevisionWf(h: History, j: Job) {
    j.revision.Some? ==>
      && j.operation.Some?
      && var top := |RendersOf(h, BindingKey(j.operation.value, j.chat))|;
         && 1 <= j.revision.value <= top
         && (j.state == JobState.Ready && j.kind.EditMessageText? ==> j.revision.value == top)
  }

  predicate Numbered(jobs: map<JobId, Job>, key: BindingKey, renders: seq<Render>) {
    forall i | 0 <= i < |renders| ::
      renders[i].job in jobs && KeyedBy(jobs[renders[i].job], key) && jobs[renders[i].job].revision == Some(i + 1)
  }

  ghost predicate ProjInv(s: Sys) {
    && (forall id | id in s.db.jobs :: RevisionWf(s.history, s.db.jobs[id]))
    && (forall key | key in s.history.renders ::
          key in s.db.bindings && Ordered(s.history.renders[key])
          && Numbered(s.db.jobs, key, s.history.renders[key]))
    && (forall key | key in s.db.bindings :: Agrees(s.db.bindings[key], RendersOf(s.history, key)))
  }

  /** Which arrivals were judged, and that the recorded renders are their fold. */
  ghost predicate FoldInv(s: Sys) {
    && (forall i | 0 <= i < |s.history.judged| :: s.history.judged[i].1.id in s.db.inbox)
    && (forall i, j | 0 <= i < j < |s.history.judged| :: s.history.judged[i].1.id != s.history.judged[j].1.id)
    && (forall key :: EventsOf(RendersOf(s.history, key)) == Fold(ArrivalsOf(s.history.judged, key)))
  }

  // ---------------------------------------------------------------- rows that keep their revision

  /** Queue rows keep their revisions, new rows are plain sends or recovery sends, and no row becomes
      an untouched edit. */
  ghost predicate RevisionsKept(before: Db, after: Db) {
    && (forall id | id in before.jobs ::
          && id in after.jobs
          && after.jobs[id].operation == before.jobs[id].operation
          && after.jobs[id].chat == before.jobs[id].chat
          && after.jobs[id].revision == before.jobs[id].revision
          && (after.jobs[id].state == JobState.Ready && after.jobs[id].kind.EditMessageText? ==>
                before.jobs[id].state == JobState.Ready && before.jobs[id].kind.EditMessageText?))
    && (forall id | id in after.jobs && id !in before.jobs ::
          || after.jobs[id].revision.None?
          || (after.jobs[id].kind.SendMessage?
              && exists source :: source in before.jobs && SameRevision(before.jobs[source], after.jobs[id])))
  }

  predicate SameRevision(j: Job, k: Job) {
    j.operation == k.operation && j.chat == k.chat && j.revision == k.revision
  }

  /** Bindings move only as the renders allow. */
  ghost predicate BindingsKept(s: Sys, t: Sys) {
    && (forall key | key in s.db.bindings ::
          && key in t.db.bindings
          && t.db.bindings[key].terminal == s.db.bindings[key].terminal
          && t.db.bindings[key].lastEventAt == s.db.bindings[key].lastEventAt
          && s.db.bindings[key].rendered <= t.db.bindings[key].rendered
          && (t.db.bindings[key].rendered == s.db.bindings[key].rendered
              || 0 <= t.db.bindings[key].rendered <= |RendersOf(s.history, key)|))
    && (forall key | key in t.db.bindings && key !in s.db.bindings ::
          t.db.bindings[key].rendered == 0 && t.db.bindings[key].lastEventAt.None? && !t.db.bindings[key].terminal)
  }

  lemma RevisionKept(s: Sys, t: Sys, id: JobId)
    requires ProjInv(s) && RevisionsKept(s.db, t.db) && t.history.renders == s.history.renders && id in t.db.jobs
    ensures RevisionWf(t.history, t.db.jobs[id])
  {
    if id in s.db.jobs {
      assert RevisionWf(s.history, s.db.jobs[id]);
    } else if t.db.jobs[id].revision.Some? {
      var source :| source in s.db.jobs && SameRevision(s.db.jobs[source], t.db.jobs[id]);
      assert RevisionWf(s.history, s.db.jobs[source]);
    }
  }

  lemma NumbersKept(before: map<JobId, Job>, after: map<JobId, Job>, key: BindingKey, renders: seq<Render>)
    requires Numbered(before, key, renders)
    requires forall id | id in before :: id in after && SameRevision(before[id], after[id])
    ensures Numbered(after, key, renders)
  {
  }

  lemma ProjKept(s: Sys, t: Sys)
    requires ProjInv(s) && RevisionsKept(s.db, t.db) && BindingsKept(s, t)
    requires t.history.renders == s.history.renders
    ensures ProjInv(t)
  {
    forall id | id in t.db.jobs ensures RevisionWf(t.history, t.db.jobs[id]) {
      RevisionKept(s, t, id);
    }
    forall key | key in t.history.renders
      ensures key in t.db.bindings && Numbered(t.db.jobs, key, t.history.renders[key])
    {
      NumbersKept(s.db.jobs, t.db.jobs, key, s.history.renders[key]);
    }
    forall key | key in t.db.bindings ensures Agrees(t.db.bindings[key], RendersOf(t.history, key)) {
      AgreementKept(s, t, key);
    }
  }

  lemma AgreementKept(s: Sys, t: Sys, key: BindingKey)
    requires ProjInv(s) && BindingsKept(s, t) && t.history.renders == s.history.renders && key in t.db.bindings
    ensures Agrees(t.db.bindings[key], RendersOf(t.history, key))
  {
    if key in s.db.bindings { assert Agrees(s.db.bindings[key], RendersOf(s.history, key)); }
  }

  // ---------------------------------------------------------------- the accept step

  /** The next revision is one more than the number of renders so far. */
  lemma NextRevisionCounts(s: Sys, key: BindingKey)
    requires ProjInv(s) && key in s.db.bindings
    ensures NextRevision(s.db.jobs, key, s.db.bindings[key]) == |RendersOf(s.history, key)| + 1
  {
    var renders := RendersOf(s.history, key);
    var given := Assigned(s.db.jobs, key);
    assert Agrees(s.db.bindings[key], renders);
    forall r | r in given ensures 1 <= r <= |renders| {
      var id :| id in s.db.jobs && Carries(s.db.jobs[id], key) && s.db.jobs[id].revision.value == r;
      assert RevisionWf(s.history, s.db.jobs[id]);
    }
    if renders != [] {
      assert Numbered(s.db.jobs, key, renders);
      var last := renders[|renders| - 1].job;
      assert Carries(s.db.jobs[last], key) && s.db.jobs[last].revision.value == |renders|;
      assert |renders| in given;
    }
  }

  /** The newest kept event is the last one, so the watermark and the terminal flag decide as the fold does. */
  lemma GuardsDecideLikeFold(b: Binding, renders: seq<Render>, e: Event)
    requires Agrees(b, renders) && Ordered(renders)
    ensures Keeps(EventsOf(renders), e) <==>
            !b.terminal && !(b.lastEventAt.Some? && e.occurredAt < b.lastEventAt.value)
  {
    var events := EventsOf(renders);
    if renders != [] {
      var last := events[|events| - 1];
      assert last in events;
      if !b.terminal && last.occurredAt <= e.occurredAt {
        forall k | k in events ensures !k.terminal && k.occurredAt <= e.occurredAt {
          var i :| 0 <= i < |events| && events[i] == k;
          assert renders[i].event == k;
        }
      }
    }
  }

  lemma RecordRows(db: Db, key: BindingKey, event: Event, revision: int, now: int, interval: int)
    requires IdsBelow(db) && key in db.bindings
    ensures var after := Record(db, key, event, revision, now, interval);
      && after.nextJob == db.nextJob + 1 && after.inbox == db.inbox
      && after.jobs.Keys == db.jobs.Keys + {db.nextJob}
      && after.jobs[db.nextJob] == EditJob(key, db.bindings[key], event, revision, now, interval)
      && after.bindings == db.bindings[key := after.bindings[key]]
      && after.bindings[key] == db.bindings[key].(lastEventAt := Some(event.occurredAt),
                                                  terminal := db.bindings[key].terminal || event.terminal)
      && (forall id | id in db.jobs ::
            after.jobs[id] == if Swept(db.jobs[id], key.operation, key.chat, revision)
                              then db.jobs[id].(state := JobState.Superseded) else db.jobs[id])
  {
  }

  lemma OrderedSnoc(renders: seq<Render>, r: Render)
    requires Ordered(renders)
    requires renders != [] ==> !renders[|renders| - 1].event.terminal
                               && renders[|renders| - 1].event.occurredAt <= r.event.occurredAt
    ensures Ordered(renders + [r])
  {
  }

  /** What recording one more render of `key` does to the queue and the log. */
  ghost predicate RecordsOne(s: Sys, t: Sys, key: BindingKey, r: Render) {
    var top := |RendersOf(s.history, key)| + 1;
    && r.job !in s.db.jobs
    && t.db.jobs.Keys == s.db.jobs.Keys + {r.job}
    && KeyedBy(t.db.jobs[r.job], key) && t.db.jobs[r.job].revision == Some(top)
    && (forall id | id in s.db.jobs ::
          t.db.jobs[id] == if Swept(s.db.jobs[id], key.operation, key.chat, top)
                           then s.db.jobs[id].(state := JobState.Superseded) else s.db.jobs[id])
    && t.history.renders == s.history.renders[key := RendersOf(s.history, key) + [r]]
  }

  lemma RecordedRevisions(s: Sys, t: Sys, key: BindingKey, r: Render, id: JobId)
    requires RecordsOne(s, t, key, r) && id in t.db.jobs
    requires id in s.db.jobs ==> RevisionWf(s.history, s.db.jobs[id])
    ensures RevisionWf(t.history, t.db.jobs[id])
  {
    assert RendersOf(t.history, key) == RendersOf(s.history, key) + [r];
  }

  lemma RecordedNumbers(s: Sys, t: Sys, key: BindingKey, r: Render, k: BindingKey)
    requires RecordsOne(s, t, key, r) && k in t.history.renders
    requires k in s.history.renders ==> Numbered(s.db.jobs, k, s.history.renders[k])
    ensures Numbered(t.db.jobs, k, t.history.renders[k])
  {
    var before := RendersOf(s.history, k);
    assert Numbered(s.db.jobs, k, before);
    forall i | 0 <= i < |t.history.renders[k]|
      ensures t.history.renders[k][i].job in t.db.jobs && KeyedBy(t.db.jobs[t.history.renders[k][i].job], k)
              && t.db.jobs[t.history.renders[k][i].job].revision == Some(i + 1)
    {
      if i < |before| { assert t.history.renders[k][i] == before[i] && before[i].job in s.db.jobs; }
    }
  }

  lemma ProjRecord(s: Sys, t: Sys, key: BindingKey, r: Render)
    requires ProjInv(s) && key in s.db.bindings && RecordsOne(s, t, key, r)
    requires !s.db.bindings[key].terminal
    requires s.db.bindings[key].lastEventAt.Some? ==> s.db.bindings[key].lastEventAt.value <= r.event.occurredAt
    requires t.db.bindings == s.db.bindings[key :=
      s.db.bindings[key].(lastEventAt := Some(r.event.occurredAt), terminal := r.event.terminal)]
    ensures ProjInv(t)
  {
    var before := RendersOf(s.history, key);
    assert Agrees(s.db.bindings[key], before);
    assert key in s.history.renders ==> Ordered(before);
    OrderedSnoc(before, r);
    forall id | id in t.db.jobs ensures RevisionWf(t.history, t.db.jobs[id]) {
      RecordedRevisions(s, t, key, r, id);
    }
    forall k | k in t.history.renders
      ensures k in t.db.bindings && Ordered(t.history.renders[k]) && Numbered(t.db.jobs, k, t.history.renders[k])
    {
      RecordedNumbers(s, t, key, r, k);
    }
    forall k | k in t.db.bindings ensures Agrees(t.db.bindings[k], RendersOf(t.history, k)) {
      if k != key { assert Agrees(s.db.bindings[k], RendersOf(s.history, k)); }
    }
  }

  lemma AcceptRecords(s: Sys, event: Event, interval: int, key: BindingKey, t: Sys)
    requires ProjInv(s) && IdsBelow(s.db) && t == AcceptStep(s, event, interval)
    requires LockBinding(s.db.bindings, event.operation) == Some(key)
    requires Accept(s.db, event, s.now, interval).1.Recorded?
    ensures RecordsOne(s, t, key, Render(event, s.db.nextJob))
    ensures t.db.bindings == s.db.bindings[key :=
      s.db.bindings[key].(lastEventAt := Some(event.occurredAt), terminal := event.terminal)]
    ensures Accept(s.db, event, s.now, interval).1.revision == |RendersOf(s.history, key)| + 1
  {
    NextRevisionCounts(s, key);
    RecordRows(s.db.(inbox := s.db.inbox + {event.id}), key, event, |RendersOf(s.history, key)| + 1, s.now, interval);
  }

  lemma AcceptSkips(s: Sys, event: Event, interval: int, t: Sys)
    requires t == AcceptStep(s, event, interval) && !Accept(s.db, event, s.now, interval).1.Recorded?
    ensures t.db == s.db.(inbox := t.db.inbox) && t.history.renders == s.history.renders
    ensures s.db.inbox <= t.db.inbox
  {
  }

  /** An accept either records one render, or leaves queue and bindings alone. */
  lemma ProjAccept(s: Sys, event: Event, interval: int, t: Sys)
    requires ProjInv(s) && IdsBelow(s.db) && t == AcceptStep(s, event, interval)
    ensures ProjInv(t)
  {
    if Accept(s.db, event, s.now, interval).1.Recorded? {
      var key := LockBinding(s.db.bindings, event.operation).value;
      AcceptRecords(s, event, interval, key, t);
      ProjRecord(s, t, key, Render(event, s.db.nextJob));
    } else {
      AcceptSkips(s, event, interval, t);
      ProjKept(s, t);
    }
  }

  // ---------------------------------------------------------------- the other steps

  lemma InsertKeepsRevisions(db: Db, order: NewJob, now: int)
    requires IdsBelow(db) && order.revision.None?
    ensures RevisionsKept(db, InsertJob(db, order, now))
  {
  }

  lemma {:induction false} NoticesHaveNoRevision(db: Db, n: Notice, candidates: seq<Candidate>, now: int)
    requires IdsBelow(db)
    ensures var r := DecideAll(db, n, candidates, now);
      r.Ok? ==> Adds(db, r.value.0) && r.value.0.bindings == db.bindings
                && forall id | id in r.value.0.jobs && id !in db.jobs :: r.value.0.jobs[id].revision.None?
    decreases |candidates|
  {
    if candidates != [] && ReleaseTime(candidates[0], n, now).Ok? {
      var first := DecideOne(db, n, candidates[0], ReleaseTime(candidates[0], n, now).value, now);
      NoticesHaveNoRevision(first, n, candidates[1..], now);
      DecideAllAdds(db, n, candidates, now);
    }
  }

  lemma InteractKeepsRevisions(s: Sys, command: Command, t: Sys)
    requires IdsBelow(s.db) && t == InteractStep(s, command) && Producer(Interact(command))
    ensures RevisionsKept(s.db, t.db)
  {
    var order := PerformQueue(s.db, command, s.now);
    if order.Some? { InsertKeepsRevisions(s.db, order.value, s.now); }
  }

  lemma InteractKeepsBindings(s: Sys, command: Command, t: Sys)
    requires t == InteractStep(s, command)
    ensures BindingsKept(s, t) && t.history.renders == s.history.renders
  {
    var order := PerformQueue(s.db, command, s.now);
    if command.Capture? { var same := CaptureQueue(s.db, command.intent, command.ack, s.now); }
  }

  lemma ProjInteract(s: Sys, command: Command, t: Sys)
    requires ProjInv(s) && IdsBelow(s.db) && t == InteractStep(s, command) && Producer(Interact(command))
    ensures ProjInv(t)
  {
    InteractKeepsRevisions(s, command, t);
    InteractKeepsBindings(s, command, t);
    ProjKept(s, t);
  }

  lemma ProjOutside(s: Sys, step: Step, t: Sys)
    requires ProjInv(s) && IdsBelow(s.db) && Enabled(s, step) && !SenderStep(step) && Producer(step)
    requires t == OutsideNext(s, step)
    ensures ProjInv(t)
  {
    match step
    case Tick(_) => ProjKept(s, t);
    case Enqueue(order) => InsertKeepsRevisions(s.db, order, s.now); ProjKept(s, t);
    case AcceptEvent(event, interval) => ProjAccept(s, event, interval, t);
    case AdmitNotice(notice, candidates) =>
      NoticesHaveNoRevision(s.db.(inbox := s.db.inbox + {notice.event}), notice, candidates, s.now);
      ProjKept(s, t);
    case RecoverSend(id) => ProjRecover(s, id, t);
    case Interact(command) => ProjInteract(s, command, t);
  }

  lemma ProjRecover(s: Sys, id: JobId, t: Sys)
    requires ProjInv(s) && IdsBelow(s.db) && t == RecoverStep(s, id)
    ensures ProjInv(t)
  {
    if Recover(s.db, id, s.now).Some? {
      assert SameRevision(s.db.jobs[id], t.db.jobs[s.db.nextJob]);
    }
    ProjKept(s, t);
  }

  /** Bindings change only in message, or in the rendered revision of the claim's own key. */
  ghost predicate MovedBy(before: map<BindingKey, Binding>, after: map<BindingKey, Binding>, c: Claimed) {
    && (forall key | key in before ::
          && key in after
          && after[key].terminal == before[key].terminal && after[key].lastEventAt == before[key].lastEventAt
          && before[key].rendered <= after[key].rendered
          && (after[key].rendered == before[key].rendered
              || (c.operation == Some(key.operation) && c.chat == key.chat && c.revision == Some(after[key].rendered))))
    && (forall key | key in after && key !in before ::
          && c.operation == Some(key.operation) && c.chat == key.chat
          && after[key].lastEventAt.None? && !after[key].terminal
          && (after[key].rendered == 0 || c.revision.Some?))
  }

  lemma AckMoves(bindings: map<BindingKey, Binding>, c: Claimed, wire: JobKind, message: int, at: int)
    ensures MovedBy(bindings, AckedBindings(bindings, c, wire, message, at), c)
  {
  }

  lemma AdvanceMoves(bindings: map<BindingKey, Binding>, c: Claimed, at: int)
    requires c.operation.Some? && c.revision.Some?
    ensures MovedBy(bindings, AdvanceRender(bindings, BindingKey(c.operation.value, c.chat), c.revision.value, at), c)
  {
  }

  lemma UnbindMoves(bindings: map<BindingKey, Binding>, key: BindingKey, c: Claimed)
    ensures UnbindMessage(bindings, key).Ok? ==> MovedBy(bindings, UnbindMessage(bindings, key).value, c)
  {
  }

  lemma FollowMoves(s: Sys, w: WorkerId)
    requires Enabled(s, FollowThrough(w))
    ensures MovedBy(s.db.bindings, FollowStep(s, w).db.bindings, s.workers[w].claim)
  {
    var c := s.workers[w].claim;
    assert MovedBy(s.db.bindings, s.db.bindings, c);
    if c.operation.Some? {
      UnbindMoves(s.db.bindings, BindingKey(c.operation.value, c.chat), c);
      if c.revision.Some? { AdvanceMoves(s.db.bindings, c, s.workers[w].phase.at); }
    }
  }

  lemma MovedBindingsKept(s: Sys, t: Sys, c: Claimed)
    requires ProjInv(s) && MovedBy(s.db.bindings, t.db.bindings, c)
    requires c.id in s.db.jobs && SameJob(c, s.db.jobs[c.id])
    ensures BindingsKept(s, t)
  {
    assert RevisionWf(s.history, s.db.jobs[c.id]);
    if c.operation.Some? {
      var key := BindingKey(c.operation.value, c.chat);
      assert c.revision.Some? ==> key in s.history.renders;
    }
  }

  lemma AckMovesBinding(s: Sys, w: WorkerId, replyLost: bool, t: Sys)
    requires Base(s) && ProjInv(s) && Enabled(s, Acknowledge(w, replyLost)) && t == AckStep(s, w, replyLost)
    ensures BindingsKept(s, t) && t.history.renders == s.history.renders
  {
    var c := s.workers[w].claim;
    var phase := s.workers[w].phase;
    assert WorkerWf(s.db.jobs, s.workers[w]);
    AckShape(s, w, replyLost);
    AckMoves(s.db.bindings, c, MethodOf(phase.action), phase.message, phase.at);
    MovedBindingsKept(s, t, c);
  }

  lemma FollowMovesBinding(s: Sys, w: WorkerId, t: Sys)
    requires Base(s) && ProjInv(s) && Enabled(s, FollowThrough(w)) && t == FollowStep(s, w)
    ensures BindingsKept(s, t) && t.history.renders == s.history.renders
  {
    assert WorkerWf(s.db.jobs, s.workers[w]);
    FollowShape(s, w);
    FollowMoves(s, w);
    MovedBindingsKept(s, t, s.workers[w].claim);
  }

  lemma OthersLeaveBindings(s: Sys, step: Step, t: Sys)
    requires Enabled(s, step) && SenderStep(step) && t == SenderNext(s, step)
    requires !step.ClaimNext? && !step.Acknowledge? && !step.FollowThrough?
    ensures t.db.bindings == s.db.bindings && t.history.renders == s.history.renders
  {
    match step
    case Prepare(w) => PrepareShape(s, w);
    case Wire(w, reply, applied, draw) => WireShape(s, w, reply, applied, draw);
    case SettleClaim(w) => SettleShape(s, w);
    case RunGuard(w) => GuardShape(s, w);
    case Defer(w, delay) => DeferShape(s, w, delay);
    case AckFault(w) => AckFaultShape(s, w);
    case Crash(w) => CrashShape(s, w);
  }

  /** A sender moves a binding only to the revision of the job it claimed. */
  lemma SenderMovesBindings(s: Sys, step: Step, t: Sys)
    requires Base(s) && ProjInv(s) && Enabled(s, step) && SenderStep(step) && !step.ClaimNext?
    requires t == SenderNext(s, step)
    ensures BindingsKept(s, t) && t.history.renders == s.history.renders
  {
    if step.Acknowledge? {
      AckMovesBinding(s, step.w, step.replyLost, t);
    } else if step.FollowThrough? {
      FollowMovesBinding(s, step.w, t);
    } else {
      OthersLeaveBindings(s, step, t);
    }
  }

  lemma SenderKeepsRevisions(s: Sys, t: Sys, w: WorkerId)
    requires SenderRows(s, t, w)
    ensures RevisionsKept(s.db, t.db)
  {
  }

  lemma ClaimKeepsRevisions(before: Db, after: Db, now: int, ttl: nat, head: Option<JobId>)
    requires ClaimEffect(before.jobs, after.jobs, now, ttl, head)
    ensures RevisionsKept(before, after)
  {
  }

  lemma ProjSender(s: Sys, step: Step, t: Sys)
    requires Base(s) && ProjInv(s) && Enabled(s, step) && SenderStep(step) && t == SenderNext(s, step)
    ensures ProjInv(t)
  {
    if step.ClaimNext? {
      ClaimShape(s, step.w, step.head);
      ClaimKeepsRevisions(s.db, t.db, s.now, s.limits.leaseTtl, step.head);
    } else {
      SenderStepRows(s, step, t);
      SenderKeepsRevisions(s, t, step.w);
      SenderMovesBindings(s, step, t);
    }
    ProjKept(s, t);
  }

  // ---------------------------------------------------------------- the fold

  lemma FoldKept(s: Sys, t: Sys)
    requires FoldInv(s) && s.db.inbox <= t.db.inbox
    requires t.history.renders == s.history.renders && t.history.judged == s.history.judged
    ensures FoldInv(t)
  {
  }

  /** An event that has a binding is recorded exactly when neither guard stops it. */
  lemma AcceptJudges(db: Db, event: Event, now: int, interval: int, key: BindingKey)
    requires event.id !in db.inbox && LockBinding(db.bindings, event.operation) == Some(key)
    ensures var (after, outcome) := Accept(db, event, now, interval); var b := db.bindings[key];
      && after.inbox == db.inbox + {event.id} && !outcome.Duplicate? && !outcome.Unbound?
      && (outcome.Recorded? <==> !b.terminal && !(b.lastEventAt.Some? && event.occurredAt < b.lastEventAt.value))
  {
  }

  /** What judging a first arrival adds to the log. */
  lemma JudgedArrival(s: Sys, event: Event, interval: int, t: Sys, key: BindingKey)
    requires ProjInv(s) && t == AcceptStep(s, event, interval)
    requires event.id !in s.db.inbox && LockBinding(s.db.bindings, event.operation) == Some(key)
    ensures t.history.judged == s.history.judged + [(key, event)]
    ensures t.db.inbox == s.db.inbox + {event.id}
    ensures t.history.renders == if Keeps(EventsOf(RendersOf(s.history, key)), event)
      then s.history.renders[key := RendersOf(s.history, key) + [Render(event, s.db.nextJob)]]
      else s.history.renders
  {
    AcceptJudges(s.db, event, s.now, interval, key);
    assert Agrees(s.db.bindings[key], RendersOf(s.history, key));
    assert key in s.history.renders ==> Ordered(RendersOf(s.history, key));
    GuardsDecideLikeFold(s.db.bindings[key], RendersOf(s.history, key), event);
  }

  lemma NotJudged(s: Sys, event: Event, interval: int, t: Sys)
    requires t == AcceptStep(s, event, interval)
    requires event.id in s.db.inbox || LockBinding(s.db.bindings, event.operation).None?
    ensures t.db == s.db && t.history.renders == s.history.renders && t.history.judged == s.history.judged
  {
  }

  lemma FoldJudged(s: Sys, t: Sys, key: BindingKey, event: Event)
    requires FoldInv(s) && event.id !in s.db.inbox
    requires t.history.judged == s.history.judged + [(key, event)] && t.db.inbox == s.db.inbox + {event.id}
    requires t.history.renders == if Keeps(EventsOf(RendersOf(s.history, key)), event)
      then s.history.renders[key := RendersOf(s.history, key) + [Render(event, s.db.nextJob)]]
      else s.history.renders
    ensures FoldInv(t)
  {
    forall k ensures EventsOf(RendersOf(t.history, k)) == Fold(ArrivalsOf(t.history.judged, k)) {
      assert RendersOf(s.history, k) + [] == RendersOf(s.history, k);
      FoldOneArrival(s, t, key, event, k);
    }
  }

  /** A first arrival is judged exactly as the fold judges it. */
  lemma FoldAccept(s: Sys, event: Event, interval: int, t: Sys)
    requires ProjInv(s) && FoldInv(s) && t == AcceptStep(s, event, interval)
    ensures FoldInv(t)
  {
    var locked := LockBinding(s.db.bindings, event.operation);
    if event.id in s.db.inbox || locked.None? {
      NotJudged(s, event, interval, t);
      FoldKept(s, t);
    } else {
      JudgedArrival(s, event, interval, t, locked.value);
      FoldJudged(s, t, locked.value, event);
    }
  }

  lemma FoldOneArrival(s: Sys, t: Sys, key: BindingKey, event: Event, k: BindingKey)
    requires FoldInv(s) && t.history.judged == s.history.judged + [(key, event)]
    requires RendersOf(t.history, k) == RendersOf(s.history, k)
             + if k == key && Keeps(EventsOf(RendersOf(s.history, key)), event)
               then [Render(event, s.db.nextJob)] else []
    ensures EventsOf(RendersOf(t.history, k)) == Fold(ArrivalsOf(t.history.judged, k))
  {
    ArrivalsSnoc(s.history.judged, (key, event), k);
    FoldSnoc(ArrivalsOf(s.history.judged, k), event);
    EventsSnoc(RendersOf(s.history, k), Render(event, s.db.nextJob));
    assert EventsOf(RendersOf(s.history, k)) == Fold(ArrivalsOf(s.history.judged, k));
    assert RendersOf(s.history, k) + [] == RendersOf(s.history, k);
    assert ArrivalsOf(s.history.judged, k) + [] == ArrivalsOf(s.history.judged, k);
  }

  lemma InboxOnlyGrows(s: Sys, step: Step)
    requires Enabled(s, step) && !SenderStep(step) && !step.AcceptEvent?
    ensures var t := OutsideNext(s, step);
      && s.db.inbox <= t.db.inbox
      && t.history.renders == s.history.renders && t.history.judged == s.history.judged
  {
    match step
    case AdmitNotice(notice, candidates) =>
      NoticesLeaveInbox(s.db.(inbox := s.db.inbox + {notice.event}), notice, candidates, s.now);
    case Interact(command) => var order := PerformQueue(s.db, command, s.now);
    case _ =>
  }

  lemma {:induction false} NoticesLeaveInbox(db: Db, n: Notice, candidates: seq<Candidate>, now: int)
    ensures var r := DecideAll(db, n, candidates, now); r.Ok? ==> r.value.0.inbox == db.inbox
    decreases |candidates|
  {
    if candidates != [] && ReleaseTime(candidates[0], n, now).Ok? {
      NoticesLeaveInbox(DecideOne(db, n, candidates[0], ReleaseTime(candidates[0], n, now).value, now), n,
                        candidates[1..], now);
    }
  }

  lemma FoldSender(s: Sys, step: Step, t: Sys)
    requires FoldInv(s) && Base(s) && Enabled(s, step) && SenderStep(step) && t == SenderNext(s, step)
    ensures FoldInv(t)
  {
    if step.ClaimNext? {
      ClaimShape(s, step.w, step.head);
    } else {
      SenderStepRows(s, step, t);
    }
    FoldKept(s, t);
  }

  // ---------------------------------------------------------------- every run

  ghost predicate InProjection(s: Sys) {
    Base(s) && ProjInv(s) && FoldInv(s)
  }

  lemma ProjectedNext(s: Sys, step: Step)
    requires InProjection(s) && Enabled(s, step) && Producer(step)
    ensures InProjection(Next(s, step))
  {
    BaseNext(s, step);
    if SenderStep(step) {
      ProjSender(s, step, SenderNext(s, step));
      FoldSender(s, step, SenderNext(s, step));
    } else {
      ProjOutside(s, step, OutsideNext(s, step));
      if step.AcceptEvent? {
        FoldAccept(s, step.event, step.interval, OutsideNext(s, step));
      } else {
        InboxOnlyGrows(s, step);
        FoldKept(s, OutsideNext(s, step));
      }
    }
  }

  ghost predicate AllProducers(steps: seq<Step>) {
    forall i | 0 <= i < |steps| :: Producer(steps[i])
  }

  lemma SenderKeepsLog(s: Sys, step: Step, t: Sys)
    requires Base(s) && Enabled(s, step) && SenderStep(step) && t == SenderNext(s, step)
    ensures t.history.renders == s.history.renders
  {
    if step.ClaimNext? { ClaimShape(s, step.w, step.head); } else { SenderStepRows(s, step, t); }
  }

  lemma AcceptGrows(s: Sys, event: Event, interval: int, t: Sys, key: BindingKey)
    requires ProjInv(s) && t == AcceptStep(s, event, interval)
    ensures RendersOf(s.history, key) <= RendersOf(t.history, key)
  {
    var locked := LockBinding(s.db.bindings, event.operation);
    if event.id !in s.db.inbox && locked.Some? {
      JudgedArrival(s, event, interval, t, locked.value);
    } else {
      NotJudged(s, event, interval, t);
    }
  }

  lemma RendersGrow(s: Sys, step: Step, key: BindingKey)
    requires InProjection(s) && Enabled(s, step)
    ensures RendersOf(s.history, key) <= RendersOf(Next(s, step).history, key)
  {
    if SenderStep(step) {
      SenderKeepsLog(s, step, SenderNext(s, step));
    } else if step.AcceptEvent? {
      AcceptGrows(s, step.event, step.interval, OutsideNext(s, step), key);
    } else {
      InboxOnlyGrows(s, step);
    }
  }

  lemma {:induction false} ProjectedAfter(s: Sys, steps: seq<Step>)
    requires InProjection(s) && Runs(s, steps) && AllProducers(steps)
    ensures InProjection(After(s, steps))
    decreases |steps|
  {
    if steps == [] {
    } else {
      ProjectedNext(s, steps[0]);
      ProjectedAfter(Next(s, steps[0]), steps[1..]);
    }
  }

  lemma {:induction false} RendersGrowAfter(s: Sys, steps: seq<Step>, key: BindingKey)
    requires InProjection(s) && Runs(s, steps) && AllProducers(steps)
    ensures RendersOf(s.history, key) <= RendersOf(After(s, steps).history, key)
    decreases |steps|
  {
    if steps == [] {
    } else {
      ProjectedNext(s, steps[0]);
      RendersGrow(s, steps[0], key);
      RendersGrowAfter(Next(s, steps[0]), steps[1..], key);
    }
  }

  ghost predicate Produced(s: Sys, now: int, limits: Limits) {
    exists steps :: AllProducers(steps) && Runs(Start(now, limits), steps) && After(Start(now, limits), steps) == s
  }

  lemma ProducedInv(s: Sys, now: int, limits: Limits)
    requires Produced(s, now, limits)
    ensures InProjection(s)
  {
    var steps :| AllProducers(steps) && Runs(Start(now, limits), steps) && After(Start(now, limits), steps) == s;
    ProjectedAfter(Start(now, limits), steps);
  }

  /** Under any interleaving with delivery, acknowledgements and sweeps, an accepted event gets the
      revision that counts it, the k-th render of a binding is enqueued on a job of that binding with
      revision k, every queued revision is one of those, and an edit that no sender has touched carries the
      binding's highest. */
  lemma RevisionsCountEvents(s: Sys, now: int, limits: Limits, event: Event, interval: int, id: JobId,
                             key: BindingKey, k: nat)
    requires Produced(s, now, limits)
    ensures var outcome := Accept(s.db, event, s.now, interval).1;
      outcome.Recorded? ==>
        LockBinding(s.db.bindings, event.operation).Some?
        && outcome.revision == |RendersOf(s.history, LockBinding(s.db.bindings, event.operation).value)| + 1
    ensures id in s.db.jobs && s.db.jobs[id].revision.Some? ==>
      && s.db.jobs[id].operation.Some?
      && var top := |RendersOf(s.history, BindingKey(s.db.jobs[id].operation.value, s.db.jobs[id].chat))|;
         && 1 <= s.db.jobs[id].revision.value <= top
         && (s.db.jobs[id].state == JobState.Ready && s.db.jobs[id].kind.EditMessageText? ==>
               s.db.jobs[id].revision.value == top)
    ensures k < |RendersOf(s.history, key)| ==>
      var job := RendersOf(s.history, key)[k].job;
      job in s.db.jobs && KeyedBy(s.db.jobs[job], key) && s.db.jobs[job].revision == Some(k + 1)
  {
    ProducedInv(s, now, limits);
    if Accept(s.db, event, s.now, interval).1.Recorded? { RecordedCounts(s, event, interval); }
    if id in s.db.jobs { assert RevisionWf(s.history, s.db.jobs[id]); }
    if key in s.history.renders { assert Numbered(s.db.jobs, key, s.history.renders[key]); }
  }

  lemma RecordedCounts(s: Sys, event: Event, interval: int)
    requires ProjInv(s) && Accept(s.db, event, s.now, interval).1.Recorded?
    ensures var locked := LockBinding(s.db.bindings, event.operation);
      locked.Some? && Accept(s.db, event, s.now, interval).1.revision == |RendersOf(s.history, locked.value)| + 1
  {
    NextRevisionCounts(s, LockBinding(s.db.bindings, event.operation).value);
  }

  /** A terminal event is recorded last and at most once: from then on no run adds a render. */
  lemma TerminalIsForever(s: Sys, now: int, limits: Limits, key: BindingKey, steps: seq<Step>)
    requires Produced(s, now, limits) && Runs(s, steps) && AllProducers(steps)
    requires key in s.db.bindings && s.db.bindings[key].terminal
    ensures RendersOf(After(s, steps).history, key) == RendersOf(s.history, key) != []
  {
    ProducedInv(s, now, limits);
    assert Agrees(s.db.bindings[key], RendersOf(s.history, key));
    ProjectedAfter(s, steps);
    RendersGrowAfter(s, steps, key);
    var before, after := RendersOf(s.history, key), RendersOf(After(s, steps).history, key);
    assert Ordered(after) && after[|before| - 1] == before[|before| - 1];
  }

  /** The last render speaks for all: it is the newest, and the only one that may be terminal. */
  lemma NewestRender(b: Binding, renders: seq<Render>)
    requires Agrees(b, renders) && (renders != [] ==> Ordered(renders))
    ensures b.terminal <==> exists e :: e in EventsOf(renders) && e.terminal
    ensures b.lastEventAt.None? <==> EventsOf(renders) == []
    ensures b.lastEventAt.Some? ==>
      && (exists e :: e in EventsOf(renders) && e.occurredAt == b.lastEventAt.value)
      && (forall e | e in EventsOf(renders) :: e.occurredAt <= b.lastEventAt.value)
  {
    var kept := EventsOf(renders);
    if renders != [] {
      assert kept[|kept| - 1] in kept;
      forall e | e in kept
        ensures e.occurredAt <= renders[|renders| - 1].event.occurredAt
        ensures e.terminal ==> renders[|renders| - 1].event.terminal
      {
        var i :| 0 <= i < |kept| && kept[i] == e;
        assert renders[i].event == e;
      }
    }
  }

  /** At-least-once delivery has exactly-once effect: whatever is redelivered and in whatever order the
      other steps run, each event id is judged once, the renders of a binding are the fold of its first
      judged arrivals, and watermark and terminal flag are those of the fold. */
  lemma AcceptRefinesFold(s: Sys, now: int, limits: Limits, key: BindingKey)
    requires Produced(s, now, limits)
    ensures EventsOf(RendersOf(s.history, key)) == Fold(ArrivalsOf(s.history.judged, key))
    ensures forall i, j | 0 <= i < j < |s.history.judged| :: s.history.judged[i].1.id != s.history.judged[j].1.id
    ensures key in s.db.bindings ==>
      var kept := Fold(ArrivalsOf(s.history.judged, key)); var b := s.db.bindings[key];
      && (b.terminal <==> exists e :: e in kept && e.terminal)
      && (b.lastEventAt.None? <==> kept == [])
      && (b.lastEventAt.Some? ==>
            && (exists e :: e in kept && e.occurredAt == b.lastEventAt.value)
            && (forall e | e in kept :: e.occurredAt <= b.lastEventAt.value))
  {
    ProducedInv(s, now, limits);
    if key in s.db.bindings { NewestRender(s.db.bindings[key], RendersOf(s.history, key)); }
  }

  // ---------------------------------------------------------------- redelivery over whole runs

  /** No step forgets an event id or a judged arrival. */
  ghost predicate Remembers(s: Sys, t: Sys) {
    s.db.inbox <= t.db.inbox && s.history.judged <= t.history.judged
  }

  lemma AcceptRemembers(s: Sys, event: Event, interval: int, t: Sys)
    requires ProjInv(s) && t == AcceptStep(s, event, interval)
    ensures Remembers(s, t)
  {
    var locked := LockBinding(s.db.bindings, event.operation);
    if event.id in s.db.inbox || locked.None? {
      NotJudged(s, event, interval, t);
    } else {
      JudgedArrival(s, event, interval, t, locked.value);
    }
  }

  lemma SenderRemembers(s: Sys, step: Step, t: Sys)
    requires Base(s) && Enabled(s, step) && SenderStep(step) && t == SenderNext(s, step)
    ensures Remembers(s, t)
  {
    if step.ClaimNext? { ClaimShape(s, step.w, step.head); } else { SenderStepRows(s, step, t); }
  }

  lemma StepRemembers(s: Sys, step: Step)
    requires InProjection(s) && Enabled(s, step)
    ensures Remembers(s, Next(s, step))
  {
    if SenderStep(step) {
      SenderRemembers(s, step, SenderNext(s, step));
    } else if step.AcceptEvent? {
      AcceptRemembers(s, step.event, step.interval, OutsideNext(s, step));
    } else {
      InboxOnlyGrows(s, step);
    }
  }

  lemma {:induction false} RunRemembers(s: Sys, steps: seq<Step>)
    requires InProjection(s) && Ledger(s) && Runs(s, steps) && AllProducers(steps)
    ensures InProjection(After(s, steps)) && Ledger(After(s, steps)) && Remembers(s, After(s, steps))
    decreases |steps|
  {
    if steps == [] {
    } else {
      ProjectedNext(s, steps[0]);
      LedgerNext(s, steps[0]);
      StepRemembers(s, steps[0]);
      RunRemembers(Next(s, steps[0]), steps[1..]);
    }
  }

  lemma ProducedLedger(s: Sys, now: int, limits: Limits)
    requires Produced(s, now, limits) && limits.maxAttempts >= 1
    ensures InProjection(s) && Ledger(s)
  {
    ProducedInv(s, now, limits);
    assert Reachable(s, now, limits);
    ReachableLedger(s, now, limits);
  }

  /** A step that touches no table leaves the whole state, its log included, as it was. */
  lemma NothingRemembered(s: Sys, event: Event, interval: int)
    requires Ledger(s) && (event.id in s.db.inbox || LockBinding(s.db.bindings, event.operation).None?)
    ensures AcceptStep(s, event, interval) == s
  {
    assert Remember(s.history, s.db).enqueuedAs == s.history.enqueuedAs;
  }

  /** Once an event id is in the inbox, every redelivery in every later state changes nothing at all. */
  lemma RedeliveryIsIgnoredForever(s: Sys, now: int, limits: Limits, event: Event, interval: int, steps: seq<Step>)
    requires Produced(s, now, limits) && limits.maxAttempts >= 1
    requires Runs(s, steps) && AllProducers(steps) && event.id in s.db.inbox
    ensures Next(After(s, steps), AcceptEvent(event, interval)) == After(s, steps)
  {
    ProducedLedger(s, now, limits);
    RunRemembers(s, steps);
    NothingRemembered(After(s, steps), event, interval);
  }

  /** An event that finds no binding is as if it had not been delivered, so that any run goes on as it
      would have without it, and its redelivery is a first arrival. */
  lemma UnboundLeavesNoTrace(s: Sys, now: int, limits: Limits, event: Event, interval: int)
    requires Produced(s, now, limits) && limits.maxAttempts >= 1
    requires forall k | k in s.db.bindings :: k.operation != event.operation
    ensures Next(s, AcceptEvent(event, interval)) == s
  {
    ProducedLedger(s, now, limits);
    NothingRemembered(s, event, interval);
  }

  /** The first arrival that finds its binding is judged, and however often the event is redelivered
      afterwards, in every continuation it has been judged exactly once, for that binding. */
  lemma FirstArrivalIsJudgedOnce(s: Sys, now: int, limits: Limits, event: Event, interval: int, steps: seq<Step>)
    requires Produced(s, now, limits) && limits.maxAttempts >= 1 && event.id !in s.db.inbox
    requires exists k :: k in s.db.bindings && k.operation == event.operation
    requires Runs(Next(s, AcceptEvent(event, interval)), steps) && AllProducers(steps)
    ensures var t := After(Next(s, AcceptEvent(event, interval)), steps); var at := |s.history.judged|;
      && LockBinding(s.db.bindings, event.operation).Some?
      && at < |t.history.judged|
      && t.history.judged[at] == (LockBinding(s.db.bindings, event.operation).value, event)
      && (forall i | 0 <= i < |t.history.judged| :: t.history.judged[i].1.id == event.id ==> i == at)
  {
    ProducedLedger(s, now, limits);
    var u := Next(s, AcceptEvent(event, interval));
    assert u == AcceptStep(s, event, interval);
    ProjectedNext(s, AcceptEvent(event, interval));
    LedgerNext(s, AcceptEvent(event, interval));
    JudgedArrival(s, event, interval, u, LockBinding(s.db.bindings, event.operation).value);
    RunRemembers(u, steps);
    JudgedStays(u, After(u, steps), |s.history.judged|);
  }

  lemma JudgedStays(u: Sys, t: Sys, at: nat)
    requires FoldInv(t) && Remembers(u, t) && at < |u.history.judged|
    ensures at < |t.history.judged| && t.history.judged[at] == u.history.judged[at]
    ensures forall i | 0 <= i < |t.history.judged| ::
              t.history.judged[i].1.id == t.history.judged[at].1.id ==> i == at
  {
    forall i | 0 <= i < |t.history.judged| && t.history.judged[i].1.id == t.history.judged[at].1.id ensures i == at {
      assert !(i < at) && !(at < i);
    }
  }
}
