/** What is issued opens: the deep links of operations and captures, and the read tokens of a library page. */
module Links {
  import opened Tables
  import opened OutboundQueue
  import opened Interaction
  import opened Acknowledgements
  import opened CaptureProjection

  // ---------------------------------------------------------------- deep links

  /** An unused deep link of this owner, under no message, that releases this payload until it expires. */
  predicate Opens(t: Token, scope: Scope, operation: Uuid, payload: Uuid, expiresAt: int) {
    && t.authority == DeepLink(operation, payload) && t.bot == scope.bot && t.user == scope.user
    && t.chat == scope.chat && t.message.None? && t.expiresAt == expiresAt && t.consumedAt.None?
  }

  /** Whoever opens this link, whenever and wherever, finds it consumed, and nothing changes. */
  ghost predicate LinkSpent(db: Db, token: TokenId) {
    forall surface, opener, message, now ::
      ConsumeInteractionToken(db, token, surface, opener, message, now) == (db, TokenRefused(TokenRefusal.Consumed))
  }

  /** Opening such a link releases its payload exactly to its owner, on the deep-link surface, under no message
      and before it expires; and every later opening of it, by anyone, finds it consumed. */
  lemma LinkOpensOnce(db: Db, token: TokenId, scope: Scope, operation: Uuid, payload: Uuid, expiresAt: int,
                      surface: Surface, opener: Scope, message: Option<int>, now: int)
    requires token in db.tokens && Opens(db.tokens[token], scope, operation, payload, expiresAt)
    ensures var (after, answer) := ConsumeInteractionToken(db, token, surface, opener, message, now);
      && (answer.OperationReleased? <==>
            now < expiresAt && opener == scope && surface.DeepLinkSurface? && message.None?)
      && (answer.OperationReleased? ==>
            && answer == OperationReleased(operation, payload)
            && LinkSpent(after, token))
      && (!answer.OperationReleased? ==>
            after == db
            && answer == TokenRefused(if now >= expiresAt then TokenRefusal.Expired else TokenRefusal.ScopeMismatch))
  {
  }

  /** A link is issued exactly when it expires later; otherwise nothing is stored. */
  lemma IssueIsExact(db: Db, intent: OperationIntent, now: int)
    ensures var (after, answer) := IssueOperationIntent(db, intent, now);
      && (answer.Issued? <==> now < intent.expiresAt)
      && (!answer.Issued? ==> after == db)
  {
  }

  /** An issued link releases the operation and the payload that it was issued for, until it expires. */
  lemma IssuedLinkOpens(db: Db, intent: OperationIntent, now: int, to: int)
    requires intent.expiresAt > now
    ensures var (after, answer) := IssueOperationIntent(db, intent, now);
      && answer == Issued(db.nextToken)
      && ConsumeInteractionToken(after, db.nextToken, DeepLinkSurface, intent.scope, None, to).1
         == (if to < intent.expiresAt then OperationReleased(intent.operation, intent.payload)
             else TokenRefused(TokenRefusal.Expired))
      && forall t | t in db.tokens && t != db.nextToken :: t in after.tokens && after.tokens[t] == db.tokens[t]
  {
    LinkOpensOnce(IssueOperationIntent(db, intent, now).0, db.nextToken, intent.scope, intent.operation, intent.payload,
                  intent.expiresAt, DeepLinkSurface, intent.scope, None, to);
  }

  /** After an accepted capture its owner holds a link to the operation that is live now: the one that was
      there, or a new one that releases the capture's own payload until the capture's expiry. */
  lemma CapturedLinkOpens(db: Db, intent: OperationIntent, ack: NewJob, now: int, to: int)
    requires db.nextToken !in db.tokens && RecordCapture(db, intent, ack, now).1.Projected?
    ensures var after := RecordCapture(db, intent, ack, now).0;
      if HasLiveLink(db, intent, now) then after.tokens == db.tokens
      else
        && now < intent.expiresAt
        && ConsumeInteractionToken(after, db.nextToken, DeepLinkSurface, intent.scope, None, to).1
           == (if to < intent.expiresAt then OperationReleased(intent.operation, intent.payload)
               else TokenRefused(TokenRefusal.Expired))
  {
    var after := RecordCapture(db, intent, ack, now).0;
    if !HasLiveLink(db, intent, now) {
      CaptureMintsLink(db, intent, ack, now);
      LinkOpensOnce(after, db.nextToken, intent.scope, intent.operation, intent.payload, intent.expiresAt, DeepLinkSurface,
                    intent.scope, None, to);
    }
  }

  /** And one way or the other, the link that is stored then is live: of the captured operation, its owner's,
      unused and in time. */
  lemma CapturedOwnerHoldsLink(db: Db, intent: OperationIntent, ack: NewJob, now: int) returns (t: TokenId)
    requires db.nextToken !in db.tokens && RecordCapture(db, intent, ack, now).1.Projected?
    ensures var after := RecordCapture(db, intent, ack, now).0;
      && t in after.tokens && after.tokens[t].authority.DeepLink? && after.tokens[t].authority.operation == intent.operation
      && Scope(after.tokens[t].bot, after.tokens[t].user, after.tokens[t].chat) == intent.scope
      && after.tokens[t].consumedAt.None? && now < after.tokens[t].expiresAt
  {
    if HasLiveLink(db, intent, now) {
      CapturedLinkOpens(db, intent, ack, now, now);
      t :| t in db.tokens && LiveLink(db.tokens[t], intent, now);
    } else {
      CaptureMintsLink(db, intent, ack, now);
      t := db.nextToken;
    }
  }

  /** A capture is accepted exactly when its acknowledgement job is its own message to its own chat, the
      operation is not bound to another bot, and its owner holds a live link or is given one that expires
      later; otherwise nothing changes. */
  lemma CaptureIsExact(db: Db, intent: OperationIntent, ack: NewJob, now: int)
    ensures var (after, answer) := RecordCapture(db, intent, ack, now);
      var key := BindingKey(intent.operation, intent.scope.chat);
      && (answer.Projected? <==>
            && intent.message == None && ack.bot == intent.scope.bot && ack.chat == intent.scope.chat
            && ack.kind == SendMessage && ack.operation == Some(intent.operation) && ack.revision == None
            && (key in db.bindings ==> db.bindings[key].bot == intent.scope.bot)
            && (now < intent.expiresAt || HasLiveLink(db, intent, now)))
      && (!answer.Projected? ==> after == db)
  {
    SameLinks(EnsureBinding(db, IntentKey(intent), intent.scope.bot), db, intent, now);
  }

  /** With a clock that does not go back, whoever is issued a link becomes the operation's owner. */
  lemma IssuedLinkDecidesOwner(db: Db, intent: OperationIntent, now: int)
    requires now < intent.expiresAt
    requires forall t | t in db.tokens :: t < db.nextToken && db.tokens[t].createdAt <= now
    ensures FindOperationOwner(IssueOperationIntent(db, intent, now).0.tokens, intent.operation) == Some(intent.scope.user)
  {
    var tokens := IssueOperationIntent(db, intent, now).0.tokens;
    assert NewestLink(tokens, intent.operation, db.nextToken);
    forall t | NewestLink(tokens, intent.operation, t) ensures t == db.nextToken {
    }
  }

  /** A plain message of the operation: what a capture acknowledges with. */
  predicate Acknowledges(j: Job, intent: OperationIntent) {
    && j.kind == SendMessage && j.bot == intent.scope.bot && j.chat == intent.scope.chat
    && j.operation == Some(intent.operation) && j.revision == None
  }

  /** An accepted capture enqueues its acknowledgement, as ordered, exactly when the operation has no message and
      no row ever acknowledged it; either way it has one or the other afterwards. */
  lemma CaptureIsAcknowledgedOnce(db: Db, intent: OperationIntent, ack: NewJob, now: int)
    requires db.nextJob !in db.jobs && RecordCapture(db, intent, ack, now).1.Projected?
    ensures var after := RecordCapture(db, intent, ack, now).0; var key := IntentKey(intent);
      var shown := key in db.bindings && db.bindings[key].message.Some?;
      var acknowledged := exists id | id in db.jobs :: Acknowledges(db.jobs[id], intent);
      && after.jobs == (if shown || acknowledged then db.jobs else db.jobs[db.nextJob := FreshJob(ack, now)])
      && (if key in db.bindings then after.bindings == db.bindings
          else key in after.bindings && after.bindings[key].message.None? && after.bindings[key].bot == intent.scope.bot)
  {
    var linked := BoundAndLinked(db, intent, ack, now);
    AckRowsAcknowledge(linked, intent);
    AckIsEnqueued(linked, intent, ack, now);
  }

  /** Before its acknowledgement, an accepted capture touches no job. */
  lemma BoundAndLinked(db: Db, intent: OperationIntent, ack: NewJob, now: int) returns (linked: Db)
    requires RecordCapture(db, intent, ack, now).1.Projected?
    ensures var key := IntentKey(intent);
      && linked.jobs == db.jobs && linked.nextJob == db.nextJob && key in linked.bindings
      && linked.bindings == (if key in db.bindings then db.bindings else db.bindings[key := NewBinding(intent.scope.bot)])
      && ConsistentProjection(intent, ack)
      && RecordCapture(db, intent, ack, now).0 == EnsureAck(linked, intent, ack, now)
  {
    linked := EnsureLink(EnsureBinding(db, IntentKey(intent), intent.scope.bot), intent, now);
  }

  lemma AckIsEnqueued(db: Db, intent: OperationIntent, ack: NewJob, now: int)
    requires IntentKey(intent) in db.bindings && ConsistentProjection(intent, ack)
    ensures var after := EnsureAck(db, intent, ack, now);
      && after.bindings == db.bindings
      && after.jobs == if NeedsAck(db, intent) then db.jobs[db.nextJob := FreshJob(ack, now)] else db.jobs
  {
  }

  lemma AckRowsAcknowledge(db: Db, intent: OperationIntent)
    ensures HasAckJob(db, IntentKey(intent), intent.scope.bot)
            <==> exists id | id in db.jobs :: Acknowledges(db.jobs[id], intent)
  {
    var key := IntentKey(intent);
    if HasAckJob(db, key, intent.scope.bot) {
      var id :| id in db.jobs && IsAckJob(db.jobs[id], key, intent.scope.bot);
      assert Acknowledges(db.jobs[id], intent);
    }
    if exists id | id in db.jobs :: Acknowledges(db.jobs[id], intent) {
      var id :| id in db.jobs && Acknowledges(db.jobs[id], intent);
      assert IsAckJob(db.jobs[id], key, intent.scope.bot);
    }
  }

  lemma CaptureMintsLink(db: Db, intent: OperationIntent, ack: NewJob, now: int)
    requires RecordCapture(db, intent, ack, now).1.Projected? && !HasLiveLink(db, intent, now)
    ensures var after := RecordCapture(db, intent, ack, now).0;
      && now < intent.expiresAt && db.nextToken in after.tokens
      && Opens(after.tokens[db.nextToken], intent.scope, intent.operation, intent.payload, intent.expiresAt)
  {
    var bound := EnsureBinding(db, IntentKey(intent), intent.scope.bot);
    assert bound.tokens == db.tokens && bound.nextToken == db.nextToken;
    SameLinks(bound, db, intent, now);
    var linked := EnsureLink(bound, intent, now);
    AckKeepsTokens(linked, intent, ack, now);
  }

  lemma SameLinks(a: Db, b: Db, intent: OperationIntent, now: int)
    requires a.tokens == b.tokens
    ensures HasLiveLink(a, intent, now) <==> HasLiveLink(b, intent, now)
  {
  }

  lemma AckKeepsTokens(db: Db, intent: OperationIntent, ack: NewJob, now: int)
    requires IntentKey(intent) in db.bindings
    ensures EnsureAck(db, intent, ack, now).tokens == db.tokens
  {
  }

  // ---------------------------------------------------------------- library reads

  /** Whoever presses this button, and whenever, finds it consumed, and nothing changes. */
  ghost predicate ReadSpent(db: Db, token: TokenId) {
    forall reader, user, now ::
      ResolveLibraryRead(db, token, reader, user, now) == (db, TokenRefused(TokenRefusal.Consumed))
  }

  lemma {:induction false} MintedReads(db: Db, intents: seq<LibraryIntent>, now: int, i: nat)
    requires i < |intents|
    ensures var after := MintLibraryReads(db, intents, now);
      && db.nextToken + i in after.tokens && after.tokens[db.nextToken + i] == LibraryToken(intents[i], now)
    decreases |intents|
  {
    var added := AddToken(db, LibraryToken(intents[0], now));
    if i == 0 {
      MintingKeeps(added, intents[1..], now, db.nextToken);
    } else {
      MintedReads(added, intents[1..], now, i - 1);
    }
  }

  lemma {:induction false} MintingKeeps(db: Db, intents: seq<LibraryIntent>, now: int, t: TokenId)
    requires t in db.tokens && t < db.nextToken
    ensures var after := MintLibraryReads(db, intents, now);
      && t in after.tokens && after.tokens[t] == db.tokens[t] && after.nextToken == db.nextToken + |intents|
    decreases |intents|
  {
    if intents == [] {
    } else {
      MintingKeeps(AddToken(db, LibraryToken(intents[0], now)), intents[1..], now, t);
    }
  }

  /** Every button of an enqueued library page releases, in its place, the analysis that was prepared for it:
      to the user and chat it was prepared for and to nobody else, once, and until it expires. */
  lemma PreparedReadsAreReleased(db: Db, intents: seq<LibraryIntent>, job: NewJob, now: int, i: nat, reader: Scope,
                                 user: Uuid, to: int)
    requires EnqueueLibraryReads(db, intents, job, now).1.Issued? && i < |intents|
    ensures var (page, issued) := EnqueueLibraryReads(db, intents, job, now);
      var (after, answer) := ResolveLibraryRead(page, issued.firstToken + i, reader, user, to);
      && (answer.LibraryReadReleased? <==>
            to < intents[i].expiresAt && reader == intents[i].scope && user == intents[i].internalUser)
      && (answer.LibraryReadReleased? ==>
            && answer == LibraryReadReleased(intents[i].analysis)
            && ReadSpent(after, issued.firstToken + i))
      && (!answer.LibraryReadReleased? ==>
            after == page
            && answer == TokenRefused(if to >= intents[i].expiresAt then TokenRefusal.Expired
                                      else TokenRefusal.ScopeMismatch))
  {
    var page := EnqueueLibraryReads(db, intents, job, now).0;
    MintedReads(db, intents, now, i);
    assert page.tokens == MintLibraryReads(db, intents, now).tokens;
    ReadIsReleasedOnce(page, db.nextToken + i, intents[i], now, reader, user, to);
  }

  /** A page is enqueued exactly when every read it shows is for its chat and bot and expires later; otherwise
      nothing is stored. With it goes the message as ordered. */
  lemma PageIsExact(db: Db, intents: seq<LibraryIntent>, job: NewJob, now: int)
    ensures var (after, answer) := EnqueueLibraryReads(db, intents, job, now);
      && (answer.Issued? <==>
            forall i | 0 <= i < |intents| ::
              intents[i].scope.bot == job.bot && intents[i].scope.chat == job.chat && now < intents[i].expiresAt)
      && (!answer.Issued? ==> after == db)
      && (answer.Issued? ==>
            db.nextJob in after.jobs && after.nextJob == db.nextJob + 1
            && after.jobs[db.nextJob] == FreshJob(job, now))
  {
    MintingLeavesJobs(db, intents, now);
    if exists i | i in intents :: i.scope.bot != job.bot || i.scope.chat != job.chat || i.expiresAt <= now {
      var i :| i in intents && (i.scope.bot != job.bot || i.scope.chat != job.chat || i.expiresAt <= now);
      var k :| 0 <= k < |intents| && intents[k] == i;
    }
  }

  lemma {:induction false} MintingLeavesJobs(db: Db, intents: seq<LibraryIntent>, now: int)
    ensures var after := MintLibraryReads(db, intents, now); after.jobs == db.jobs && after.nextJob == db.nextJob
    decreases |intents|
  {
    if intents == [] {
    } else {
      MintingLeavesJobs(AddToken(db, LibraryToken(intents[0], now)), intents[1..], now);
    }
  }

  lemma ReadIsReleasedOnce(db: Db, token: TokenId, intent: LibraryIntent, now: int, reader: Scope, user: Uuid, to: int)
    requires token in db.tokens && db.tokens[token] == LibraryToken(intent, now)
    ensures var (after, answer) := ResolveLibraryRead(db, token, reader, user, to);
      && (answer.LibraryReadReleased? <==>
            to < intent.expiresAt && reader == intent.scope && user == intent.internalUser)
      && (answer.LibraryReadReleased? ==>
            && answer == LibraryReadReleased(intent.analysis)
            && ReadSpent(after, token))
      && (!answer.LibraryReadReleased? ==>
            after == db
            && answer == TokenRefused(if to >= intent.expiresAt then TokenRefusal.Expired else TokenRefusal.ScopeMismatch))
  {
  }
}
