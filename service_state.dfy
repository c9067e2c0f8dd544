/** What each exported operation of src/services/notification-service.ts
    does to the two persisted collections, as functions from the old stored
    state to the new one (together with the push sends they make). The
    `Store` class in module NotificationService runs the same operations
    step by step and is proved against these functions. */
module ServiceState {
  import opened Wrappers
  import opened Json
  import opened Seqs
  import opened Records
  import opened NotificationLog
  import opened SubscriptionRegistry
  import opened RecipientResolver

  /** The contents of notifications.json and subscriptions.json, and how many
      times each file has been written (`writeDb` calls). */
  datatype DbState = DbState(
    notifications: seq<Notification>,
    subscriptions: seq<SubscriptionRecord>,
    notificationWrites: nat,
    subscriptionWrites: nat)

  /** A new stored state and the push sends made on the way, in order. */
  datatype Effect = Effect(db: DbState, attempts: seq<PushAttempt>)

  /** The invariant every operation keeps: the log within its cap and one
      registry record per endpoint. */
  predicate Valid(db: DbState) {
    |db.notifications| <= Limit && EndpointsUnique(db.subscriptions)
  }

  /** `JSON.stringify(payload)`: the flat payload the service sends; `url` is
      left out when it is undefined. */
  function FlatPayload(p: NotificationPayload): JsonValue {
    JObject(map["title" := JString(p.title), "body" := JString(p.body)]
      + Defined("url", if p.url.Some? then Some(JString(p.url.value)) else None))
  }

  /** `removeSubscription`: re-read, drop the endpoint, write back (always). */
  function RemoveSubscription(db: DbState, sub: Subscription): DbState {
    db.(subscriptions := RemoveEndpoint(db.subscriptions, sub.endpoint),
        subscriptionWrites := db.subscriptionWrites + 1)
  }

  /** `sendPushNotification`: one send; a 404 or 410 removes the subscription,
      any other failure is only logged. */
  function SendPushNotification(db: DbState, sub: Subscription, wire: JsonValue, send: Transport): Effect {
    var outcome := send(sub, wire);
    Effect(if IsGone(outcome) then RemoveSubscription(db, sub) else db, [PushAttempt(sub, wire, outcome)])
  }

  /** The `for...of` loop of `notifyUser`: one awaited send per target, in order. */
  function Dispatch(db: DbState, targets: seq<SubscriptionRecord>, wire: JsonValue, send: Transport): Effect
    decreases |targets|
  {
    if targets == [] then Effect(db, [])
    else
      var before := Dispatch(db, targets[..|targets| - 1], wire, send);
      var last := SendPushNotification(before.db, targets[|targets| - 1].subscription, wire, send);
      Effect(last.db, before.attempts + last.attempts)
  }

  /** The endpoints among `targets` that the transport reports gone. */
  ghost function GoneEndpoints(targets: seq<SubscriptionRecord>, wire: JsonValue, send: Transport): (gone: set<string>)
    ensures forall t <- targets :: IsGone(send(t.subscription, wire)) ==> t.subscription.endpoint in gone
    ensures forall e <- gone :: exists t <- targets :: t.subscription.endpoint == e && IsGone(send(t.subscription, wire))
    decreases |targets|
  {
    if targets == [] then {}
    else
      var t := targets[|targets| - 1];
      var init := targets[..|targets| - 1];
      assert forall x <- targets :: x in init || x == t;
      assert forall x <- init :: x in targets;
      GoneEndpoints(init, wire, send) + (if IsGone(send(t.subscription, wire)) then {t.subscription.endpoint} else {})
  }

  /** How many of `targets` the transport reports gone (one registry write each). */
  function GoneCount(targets: seq<SubscriptionRecord>, wire: JsonValue, send: Transport): nat
    decreases |targets|
  {
    if targets == [] then 0
    else GoneCount(targets[..|targets| - 1], wire, send) + (if IsGone(send(targets[|targets| - 1].subscription, wire)) then 1 else 0)
  }

  /** `notifyUser`: log the record (one write), then send the flat payload to
      the user's subscriptions as they were read after that write. */
  function NotifyUser(db: DbState, user: User, payload: NotificationPayload, projectId: Option<string>, stamp: Stamp, send: Transport): Effect {
    var logged := db.(notifications := LogAppend(db.notifications, NewRecord(user, payload, projectId, stamp)),
                      notificationWrites := db.notificationWrites + 1);
    Dispatch(logged, SubscriptionsOf(logged.subscriptions, user.id), FlatPayload(payload), send)
  }

  /** The loop of `notifyUsersByRole` over the resolved users; the k-th
      record gets `clock(k)`. */
  function NotifyAll(db: DbState, recipients: seq<User>, payload: NotificationPayload, projectId: Option<string>,
                     clock: nat -> Stamp, send: Transport): Effect
    decreases |recipients|
  {
    if recipients == [] then Effect(db, [])
    else
      var n := |recipients| - 1;
      var before := NotifyAll(db, recipients[..n], payload, projectId, clock, send);
      var last := NotifyUser(before.db, recipients[n], payload, projectId, clock(n), send);
      Effect(last.db, before.attempts + last.attempts)
  }

  /** One more turn of the recipient loop notifies the next recipient. */
  lemma NotifyAllNext(db: DbState, recipients: seq<User>, k: nat, payload: NotificationPayload, projectId: Option<string>,
                      clock: nat -> Stamp, send: Transport)
    requires k < |recipients|
    ensures var before := NotifyAll(db, recipients[..k], payload, projectId, clock, send);
      var last := NotifyUser(before.db, recipients[k], payload, projectId, clock(k), send);
      NotifyAll(db, recipients[..k + 1], payload, projectId, clock, send) == Effect(last.db, before.attempts + last.attempts)
  {
    assert recipients[..k + 1][..k] == recipients[..k];
  }

  /** `notifyUsersByRole`. */
  function NotifyUsersByRole(db: DbState, roles: RoleArg, allUsers: seq<User>, payload: NotificationPayload,
                             projectId: Option<string>, clock: nat -> Stamp, send: Transport): Effect
  {
    var rolesToNotify := RolesToNotify(roles);
    if |rolesToNotify| == 0 || AllFalsy(rolesToNotify) then Effect(db, [])
    else
      var usersToNotify := Recipients(allUsers, rolesToNotify);
      if |usersToNotify| == 0 then Effect(db, [])
      else NotifyAll(db, usersToNotify, payload, projectId, clock, send)
  }

  /** `notifyUserById`; `found` is what the external `findUserById` returned. */
  function NotifyUserById(db: DbState, userId: string, found: Option<User>, payload: NotificationPayload,
                          projectId: Option<string>, stamp: Stamp, send: Transport): Effect
  {
    if userId == "" then Effect(db, [])
    else if found.Some? then NotifyUser(db, found.value, payload, projectId, stamp, send)
    else Effect(db, [])
  }

  /** `markNotificationAsRead`. */
  function MarkNotificationAsRead(db: DbState, notificationId: string): DbState {
    if MarkReadWrites(db.notifications, notificationId)
    then db.(notifications := MarkRead(db.notifications, notificationId), notificationWrites := db.notificationWrites + 1)
    else db
  }

  /** `deleteNotificationsByProjectId`. */
  function DeleteNotificationsByProjectId(db: DbState, projectId: string): DbState {
    if projectId == "" then db
    else
      var filtered := WithoutProject(db.notifications, projectId);
      if |db.notifications| != |filtered| then db.(notifications := filtered, notificationWrites := db.notificationWrites + 1)
      else db
  }

  /** `clearAllNotifications`. */
  function ClearAllNotifications(db: DbState): DbState {
    db.(notifications := [], notificationWrites := db.notificationWrites + 1)
  }

  /** `saveSubscription`. */
  function SaveSubscription(db: DbState, userId: string, sub: Subscription): DbState {
    db.(subscriptions := Save(db.subscriptions, userId, sub), subscriptionWrites := db.subscriptionWrites + 1)
  }

  /** The send loop leaves the log alone. */
  lemma {:induction false} DispatchKeepsLog(db: DbState, targets: seq<SubscriptionRecord>, wire: JsonValue, send: Transport)
    ensures Dispatch(db, targets, wire, send).db.notifications == db.notifications
    ensures Dispatch(db, targets, wire, send).db.notificationWrites == db.notificationWrites
    decreases |targets|
  {
    if targets != [] {
      DispatchKeepsLog(db, targets[..|targets| - 1], wire, send);
    }
  }

  /** The send loop makes exactly one attempt per target, in stored order, with
      the outcome the transport gives. */
  lemma {:induction false} DispatchAttempts(db: DbState, targets: seq<SubscriptionRecord>, wire: JsonValue, send: Transport)
    ensures var e := Dispatch(db, targets, wire, send);
      |e.attempts| == |targets|
      && forall i :: 0 <= i < |targets| ==>
           e.attempts[i] == PushAttempt(targets[i].subscription, wire, send(targets[i].subscription, wire))
    decreases |targets|
  {
    if targets != [] {
      var init := targets[..|targets| - 1];
      DispatchAttempts(db, init, wire, send);
      var before := Dispatch(db, init, wire, send);
      var last := SendPushNotification(before.db, targets[|targets| - 1].subscription, wire, send);
      assert Dispatch(db, targets, wire, send).attempts == before.attempts + last.attempts;
      assert forall i :: 0 <= i < |init| ==> init[i] == targets[i];
    }
  }

  /** The send loop removes exactly the endpoints reported gone, with one
      registry write for each such report. */
  lemma {:induction false} DispatchPrunes(db: DbState, targets: seq<SubscriptionRecord>, wire: JsonValue, send: Transport)
    ensures var e := Dispatch(db, targets, wire, send);
      e.db.subscriptions == WithoutEndpoints(db.subscriptions, GoneEndpoints(targets, wire, send))
      && e.db.subscriptionWrites == db.subscriptionWrites + GoneCount(targets, wire, send)
    decreases |targets|
  {
    if targets == [] {
      WithoutNoEndpoints(db.subscriptions);
    } else {
      var init := targets[..|targets| - 1];
      var t := targets[|targets| - 1];
      DispatchPrunes(db, init, wire, send);
      var before := Dispatch(db, init, wire, send);
      var goneBefore := GoneEndpoints(init, wire, send);
      assert before.db.subscriptions == WithoutEndpoints(db.subscriptions, goneBefore);
      if IsGone(send(t.subscription, wire)) {
        RemoveAfterRemovals(db.subscriptions, goneBefore, t.subscription.endpoint);
        assert GoneEndpoints(targets, wire, send) == goneBefore + {t.subscription.endpoint};
      } else {
        assert GoneEndpoints(targets, wire, send) == goneBefore;
      }
    }
  }

  /** The three facts about the send loop together. */
  lemma DispatchOutcome(db: DbState, targets: seq<SubscriptionRecord>, wire: JsonValue, send: Transport)
    ensures var e := Dispatch(db, targets, wire, send);
      e.db.notifications == db.notifications && e.db.notificationWrites == db.notificationWrites
      && |e.attempts| == |targets|
      && (forall i :: 0 <= i < |targets| ==>
            e.attempts[i] == PushAttempt(targets[i].subscription, wire, send(targets[i].subscription, wire)))
      && e.db.subscriptions == WithoutEndpoints(db.subscriptions, GoneEndpoints(targets, wire, send))
      && e.db.subscriptionWrites == db.subscriptionWrites + GoneCount(targets, wire, send)
  {
    DispatchKeepsLog(db, targets, wire, send);
    DispatchAttempts(db, targets, wire, send);
    DispatchPrunes(db, targets, wire, send);
  }

  /** Without a 404 or 410 among the outcomes, sending leaves the registry
      exactly as it was and writes nothing. */
  lemma DispatchWithoutGoneKeepsRegistry(db: DbState, targets: seq<SubscriptionRecord>, wire: JsonValue, send: Transport)
    requires forall t <- targets :: !IsGone(send(t.subscription, wire))
    ensures Dispatch(db, targets, wire, send).db == db
  {
    DispatchOutcome(db, targets, wire, send);
    var gone := GoneEndpoints(targets, wire, send);
    assert gone == {};
    WithoutNoEndpoints(db.subscriptions);
    GoneCountZero(targets, wire, send);
  }

  /** No outcome gone, no registry write. */
  lemma {:induction false} GoneCountZero(targets: seq<SubscriptionRecord>, wire: JsonValue, send: Transport)
    requires forall t <- targets :: !IsGone(send(t.subscription, wire))
    ensures GoneCount(targets, wire, send) == 0
    decreases |targets|
  {
    if targets != [] {
      assert targets[|targets| - 1] in targets;
      GoneCountZero(targets[..|targets| - 1], wire, send);
    }
  }

  /** `notifyUser` adds one unread record for the user carrying the payload's
      body at the front of the log (evicting at most the oldest one), writes
      the log once, sends the flat payload once to each of the user's
      subscriptions in stored order, and removes exactly those reported gone. */
  lemma NotifyUserEffect(db: DbState, user: User, payload: NotificationPayload, projectId: Option<string>, stamp: Stamp, send: Transport)
    ensures var e := NotifyUser(db, user, payload, projectId, stamp, send);
      var log := e.db.notifications;
      var targets := SubscriptionsOf(db.subscriptions, user.id);
      |log| == (if |db.notifications| < Limit then |db.notifications| + 1 else |db.notifications|)
      && log[0] == Notification(stamp.id, user.id, projectId, payload.body, stamp.timestamp, false)
      && log[1..] == db.notifications[..|log| - 1]
      && (|db.notifications| <= Limit ==> |log| <= Limit)
      && e.db.notificationWrites == db.notificationWrites + 1
      && |e.attempts| == |targets|
      && (forall i :: 0 <= i < |targets| ==>
            e.attempts[i].subscription == targets[i].subscription && e.attempts[i].payload == FlatPayload(payload))
      && e.db.subscriptions == WithoutEndpoints(db.subscriptions, GoneEndpoints(targets, FlatPayload(payload), send))
  {
    var logged := db.(notifications := LogAppend(db.notifications, NewRecord(user, payload, projectId, stamp)),
                      notificationWrites := db.notificationWrites + 1);
    var targets := SubscriptionsOf(db.subscriptions, user.id);
    assert NotifyUser(db, user, payload, projectId, stamp, send) == Dispatch(logged, targets, FlatPayload(payload), send);
    NotifyUserLog(db, user, payload, projectId, stamp, send);
    DispatchAttempts(logged, targets, FlatPayload(payload), send);
    DispatchPrunes(logged, targets, FlatPayload(payload), send);
  }

  /** `notifyUser` changes the log only by appending its one record, with one
      write; the sends after it leave the log alone. */
  lemma NotifyUserLog(db: DbState, user: User, payload: NotificationPayload, projectId: Option<string>, stamp: Stamp, send: Transport)
    ensures NotifyUser(db, user, payload, projectId, stamp, send).db.notifications
            == LogAppend(db.notifications, NewRecord(user, payload, projectId, stamp))
    ensures NotifyUser(db, user, payload, projectId, stamp, send).db.notificationWrites == db.notificationWrites + 1
  {
    var logged := db.(notifications := LogAppend(db.notifications, NewRecord(user, payload, projectId, stamp)),
                      notificationWrites := db.notificationWrites + 1);
    DispatchKeepsLog(logged, SubscriptionsOf(logged.subscriptions, user.id), FlatPayload(payload), send);
  }

  /** A user with no subscription gets the log record and no send at all; the
      registry is untouched. */
  lemma NotifyUserWithoutSubscriptions(db: DbState, user: User, payload: NotificationPayload, projectId: Option<string>, stamp: Stamp, send: Transport)
    requires forall r <- db.subscriptions :: r.userId != user.id
    ensures var e := NotifyUser(db, user, payload, projectId, stamp, send);
      e.attempts == [] && e.db.subscriptions == db.subscriptions && e.db.subscriptionWrites == db.subscriptionWrites
      && |e.db.notifications| > 0 && e.db.notifications[0].userId == user.id && e.db.notifications[0].message == payload.body
  {
    NotifyUserEffect(db, user, payload, projectId, stamp, send);
    var targets := SubscriptionsOf(db.subscriptions, user.id);
    assert targets == [];
    var logged := db.(notifications := LogAppend(db.notifications, NewRecord(user, payload, projectId, stamp)),
                      notificationWrites := db.notificationWrites + 1);
    assert NotifyUser(db, user, payload, projectId, stamp, send) == Effect(logged, []);
  }

  /** Two subscriptions of one user, the first gone and the second healthy:
      both are tried, only the first is removed, and the log record is written
      regardless. */
  lemma NotifyUserOneGoneOneDelivered(db: DbState, user: User, payload: NotificationPayload, projectId: Option<string>, stamp: Stamp,
                                      send: Transport, r1: SubscriptionRecord, r2: SubscriptionRecord)
    requires db.subscriptions == [r1, r2] && r1.userId == user.id && r2.userId == user.id
    requires r1.subscription.endpoint != r2.subscription.endpoint
    requires IsGone(send(r1.subscription, FlatPayload(payload))) && send(r2.subscription, FlatPayload(payload)) == Delivered
    ensures var e := NotifyUser(db, user, payload, projectId, stamp, send);
      e.db.subscriptions == [r2] && |e.attempts| == 2
      && |e.db.notifications| > 0 && e.db.notifications[0].userId == user.id && e.db.notificationWrites == db.notificationWrites + 1
  {
    var wire := FlatPayload(payload);
    var logged := db.(notifications := LogAppend(db.notifications, NewRecord(user, payload, projectId, stamp)),
                      notificationWrites := db.notificationWrites + 1);
    var own := (r: SubscriptionRecord) => r.userId == user.id;
    assert [r1, r2][1..] == [r2];
    assert Filter(own, [r2]) == [r2];
    var targets := SubscriptionsOf(db.subscriptions, user.id);
    assert targets == [r1, r2];
    assert NotifyUser(db, user, payload, projectId, stamp, send) == Dispatch(logged, targets, wire, send);
    DispatchKeepsLog(logged, targets, wire, send);
    DispatchAttempts(logged, targets, wire, send);
    DispatchPrunes(logged, targets, wire, send);
    var gone := GoneEndpoints(targets, wire, send);
    assert [r1, r2][..1] == [r1];
    assert GoneEndpoints([r1], wire, send) == {r1.subscription.endpoint};
    assert gone == {r1.subscription.endpoint};
    var drop := (r: SubscriptionRecord) => r.subscription.endpoint !in gone;
    assert Filter(drop, [r2]) == [r2];
    assert Filter(drop, [r1, r2]) == [r2];
  }

  /** The records `NotifyAll` creates, in creation order. */
  function NewRecords(recipients: seq<User>, payload: NotificationPayload, projectId: Option<string>, clock: nat -> Stamp): (r: seq<Notification>)
    ensures |r| == |recipients|
    ensures forall k :: 0 <= k < |r| ==>
              r[k].userId == recipients[k].id && r[k].message == payload.body && !r[k].isRead
              && r[k].projectId == projectId && r[k].id == clock(k).id && r[k].timestamp == clock(k).timestamp
  {
    var r := seq(|recipients|, k requires 0 <= k < |recipients| => NewRecord(recipients[k], payload, projectId, clock(k)));
    assert forall k :: 0 <= k < |r| ==> r[k] == NewRecord(recipients[k], payload, projectId, clock(k));
    r
  }

  /** Notifying several users appends one record per user, in order. */
  lemma {:induction false} NotifyAllAppends(db: DbState, recipients: seq<User>, payload: NotificationPayload, projectId: Option<string>,
                                            clock: nat -> Stamp, send: Transport)
    ensures NotifyAll(db, recipients, payload, projectId, clock, send).db.notifications
            == LogAppendAll(db.notifications, NewRecords(recipients, payload, projectId, clock))
    decreases |recipients|
  {
    if recipients != [] {
      var n := |recipients| - 1;
      var recs := NewRecords(recipients, payload, projectId, clock);
      NotifyAllAppends(db, recipients[..n], payload, projectId, clock, send);
      assert NewRecords(recipients[..n], payload, projectId, clock) == recs[..n];
      assert recs[n] == NewRecord(recipients[n], payload, projectId, clock(n));
      var before := NotifyAll(db, recipients[..n], payload, projectId, clock, send);
      NotifyUserLog(before.db, recipients[n], payload, projectId, clock(n), send);
    }
  }

  /** So the log ends as the newest `Limit` records, newest first. */
  lemma NotifyAllLog(db: DbState, recipients: seq<User>, payload: NotificationPayload, projectId: Option<string>,
                     clock: nat -> Stamp, send: Transport)
    ensures NotifyAll(db, recipients, payload, projectId, clock, send).db.notifications
            == LogAppendAll(db.notifications, NewRecords(recipients, payload, projectId, clock))
    ensures |db.notifications| <= Limit ==>
            NotifyAll(db, recipients, payload, projectId, clock, send).db.notifications
            == (Reversed(NewRecords(recipients, payload, projectId, clock)) + db.notifications)[..Min(|recipients| + |db.notifications|, Limit)]
  {
    NotifyAllAppends(db, recipients, payload, projectId, clock, send);
    if |db.notifications| <= Limit {
      LogAppendAllWindow(db.notifications, NewRecords(recipients, payload, projectId, clock));
    }
  }

  /** The subscriptions a fan-out to `recipients` sends to: each recipient's
      own records, recipient after recipient, each in stored order. */
  function AllTargets(subs: seq<SubscriptionRecord>, recipients: seq<User>): (r: seq<SubscriptionRecord>)
    ensures forall t <- r :: t in subs && exists u <- recipients :: t.userId == u.id
    ensures forall t <- subs :: (exists u <- recipients :: t.userId == u.id) ==> t in r
    decreases |recipients|
  {
    if recipients == [] then []
    else
      var n := |recipients| - 1;
      var init := AllTargets(subs, recipients[..n]);
      var own := SubscriptionsOf(subs, recipients[n].id);
      assert forall u <- recipients[..n] :: u in recipients;
      assert forall u <- recipients :: u in recipients[..n] || u == recipients[n];
      init + own
  }

  /** `attempts` is one send per target, in order, each with `wire` and the
      outcome the transport gives. */
  predicate SentTo(attempts: seq<PushAttempt>, targets: seq<SubscriptionRecord>, wire: JsonValue, send: Transport) {
    |attempts| == |targets|
    && forall i :: 0 <= i < |targets| ==>
         attempts[i] == PushAttempt(targets[i].subscription, wire, send(targets[i].subscription, wire))
  }

  /** Sends to two target lists one after the other are sends to their
      concatenation. */
  lemma SentToConcat(a1: seq<PushAttempt>, t1: seq<SubscriptionRecord>, a2: seq<PushAttempt>, t2: seq<SubscriptionRecord>,
                     wire: JsonValue, send: Transport)
    requires SentTo(a1, t1, wire, send) && SentTo(a2, t2, wire, send)
    ensures SentTo(a1 + a2, t1 + t2, wire, send)
  {
    forall i | 0 <= i < |t1 + t2|
      ensures (a1 + a2)[i] == PushAttempt((t1 + t2)[i].subscription, wire, send((t1 + t2)[i].subscription, wire))
    {
      if i >= |t1| {
        assert (a1 + a2)[i] == a2[i - |t1|] && (t1 + t2)[i] == t2[i - |t1|];
      }
    }
  }

  /** The gone endpoints of a concatenation are those of either part. */
  lemma GoneEndpointsConcat(a: seq<SubscriptionRecord>, b: seq<SubscriptionRecord>, wire: JsonValue, send: Transport)
    ensures GoneEndpoints(a + b, wire, send) == GoneEndpoints(a, wire, send) + GoneEndpoints(b, wire, send)
  {
    forall e | e in GoneEndpoints(a + b, wire, send)
      ensures e in GoneEndpoints(a, wire, send) + GoneEndpoints(b, wire, send)
    {
      var t :| t in a + b && t.subscription.endpoint == e && IsGone(send(t.subscription, wire));
      assert t in a || t in b;
    }
    forall e | e in GoneEndpoints(a, wire, send) + GoneEndpoints(b, wire, send)
      ensures e in GoneEndpoints(a + b, wire, send)
    {
      if e in GoneEndpoints(a, wire, send) {
        var t :| t in a && t.subscription.endpoint == e && IsGone(send(t.subscription, wire));
        assert t in a + b;
      } else {
        var t :| t in b && t.subscription.endpoint == e && IsGone(send(t.subscription, wire));
        assert t in a + b;
      }
    }
  }

  /** The gone count of a concatenation is the sum of the parts' counts. */
  lemma {:induction false} GoneCountConcat(a: seq<SubscriptionRecord>, b: seq<SubscriptionRecord>, wire: JsonValue, send: Transport)
    ensures GoneCount(a + b, wire, send) == GoneCount(a, wire, send) + GoneCount(b, wire, send)
    decreases |b|
  {
    if b == [] {
      assert a + b == a;
    } else {
      var m := |b| - 1;
      assert (a + b)[..|a + b| - 1] == a + b[..m];
      assert (a + b)[|a + b| - 1] == b[m];
      GoneCountConcat(a, b[..m], wire, send);
    }
  }

  /** `notifyUser`'s sends: one flat-payload send per subscription of the
      user, in stored order; the gone ones are pruned, one write each. */
  lemma NotifyUserSends(db: DbState, user: User, payload: NotificationPayload, projectId: Option<string>, stamp: Stamp, send: Transport)
    ensures var e := NotifyUser(db, user, payload, projectId, stamp, send);
      var targets := SubscriptionsOf(db.subscriptions, user.id);
      SentTo(e.attempts, targets, FlatPayload(payload), send)
      && e.db.subscriptions == WithoutEndpoints(db.subscriptions, GoneEndpoints(targets, FlatPayload(payload), send))
      && e.db.subscriptionWrites == db.subscriptionWrites + GoneCount(targets, FlatPayload(payload), send)
  {
    var logged := db.(notifications := LogAppend(db.notifications, NewRecord(user, payload, projectId, stamp)),
                      notificationWrites := db.notificationWrites + 1);
    var targets := SubscriptionsOf(db.subscriptions, user.id);
    assert NotifyUser(db, user, payload, projectId, stamp, send) == Dispatch(logged, targets, FlatPayload(payload), send);
    DispatchAttempts(logged, targets, FlatPayload(payload), send);
    DispatchPrunes(logged, targets, FlatPayload(payload), send);
  }

  /** One step of the fan-out: after sends to `earlier` (subscriptions of
      other users) and the prunes they caused, notifying `user` sends to all
      of that user's original subscriptions, and the prunes add up. */
  lemma NotifyUserAfterOthers(subs: seq<SubscriptionRecord>, earlier: seq<SubscriptionRecord>, db: DbState,
                              attempts: seq<PushAttempt>, writes: nat, user: User, payload: NotificationPayload,
                              projectId: Option<string>, stamp: Stamp, send: Transport)
    requires EndpointsUnique(subs)
    requires forall t <- earlier :: t in subs && t.userId != user.id
    requires SentTo(attempts, earlier, FlatPayload(payload), send)
    requires db.subscriptions == WithoutEndpoints(subs, GoneEndpoints(earlier, FlatPayload(payload), send))
    requires db.subscriptionWrites == writes + GoneCount(earlier, FlatPayload(payload), send)
    ensures var last := NotifyUser(db, user, payload, projectId, stamp, send);
      var targets := earlier + SubscriptionsOf(subs, user.id);
      SentTo(attempts + last.attempts, targets, FlatPayload(payload), send)
      && last.db.subscriptions == WithoutEndpoints(subs, GoneEndpoints(targets, FlatPayload(payload), send))
      && last.db.subscriptionWrites == writes + GoneCount(targets, FlatPayload(payload), send)
  {
    var wire := FlatPayload(payload);
    var gone := GoneEndpoints(earlier, wire, send);
    var own := SubscriptionsOf(subs, user.id);
    forall e <- gone
      ensures exists t <- subs :: t.subscription.endpoint == e && t.userId != user.id
    {
      var t :| t in earlier && t.subscription.endpoint == e && IsGone(send(t.subscription, wire));
    }
    PruneOthersKeepsOwn(subs, gone, user.id);
    NotifyUserSends(db, user, payload, projectId, stamp, send);
    WithoutEndpointsTwice(subs, gone, GoneEndpoints(own, wire, send));
    GoneEndpointsConcat(earlier, own, wire, send);
    GoneCountConcat(earlier, own, wire, send);
    SentToConcat(attempts, earlier, NotifyUser(db, user, payload, projectId, stamp, send).attempts, own, wire, send);
  }

  /** The fan-out to several distinct users sends once to every subscription
      of each, recipient after recipient, and prunes exactly the endpoints
      reported gone: with unique endpoints, pruning one user's gone endpoints
      never removes a later user's subscriptions. */
  lemma {:induction false} NotifyAllSends(db: DbState, recipients: seq<User>, payload: NotificationPayload, projectId: Option<string>,
                                          clock: nat -> Stamp, send: Transport)
    requires EndpointsUnique(db.subscriptions)
    requires KeysUnique(UserId, recipients)
    ensures var e := NotifyAll(db, recipients, payload, projectId, clock, send);
      var targets := AllTargets(db.subscriptions, recipients);
      SentTo(e.attempts, targets, FlatPayload(payload), send)
      && e.db.subscriptions == WithoutEndpoints(db.subscriptions, GoneEndpoints(targets, FlatPayload(payload), send))
      && e.db.subscriptionWrites == db.subscriptionWrites + GoneCount(targets, FlatPayload(payload), send)
    decreases |recipients|
  {
    if recipients == [] {
      WithoutNoEndpoints(db.subscriptions);
    } else {
      var n := |recipients| - 1;
      var init := recipients[..n];
      KeysUniquePrefix(UserId, recipients, n);
      NotifyAllSends(db, init, payload, projectId, clock, send);
      var before := NotifyAll(db, init, payload, projectId, clock, send);
      var earlier := AllTargets(db.subscriptions, init);
      assert forall t <- earlier :: t in db.subscriptions && t.userId != recipients[n].id;
      NotifyUserAfterOthers(db.subscriptions, earlier, before.db, before.attempts, db.subscriptionWrites,
                            recipients[n], payload, projectId, clock(n), send);
    }
  }

  /** `notifyUsersByRole` sends once to every subscription of every resolved
      user, in resolution order, and the registry ends as the old one less
      the endpoints reported gone; with no resolved user nothing is sent. */
  lemma NotifyUsersByRoleSends(db: DbState, roles: RoleArg, allUsers: seq<User>, payload: NotificationPayload,
                               projectId: Option<string>, clock: nat -> Stamp, send: Transport)
    requires EndpointsUnique(db.subscriptions)
    ensures var e := NotifyUsersByRole(db, roles, allUsers, payload, projectId, clock, send);
      var targets := AllTargets(db.subscriptions, Recipients(allUsers, RolesToNotify(roles)));
      SentTo(e.attempts, targets, FlatPayload(payload), send)
      && e.db.subscriptions == WithoutEndpoints(db.subscriptions, GoneEndpoints(targets, FlatPayload(payload), send))
      && e.db.subscriptionWrites == db.subscriptionWrites + GoneCount(targets, FlatPayload(payload), send)
  {
    var rs := RolesToNotify(roles);
    var recipients := Recipients(allUsers, rs);
    RecipientsExact(allUsers, rs);
    if |rs| == 0 || AllFalsy(rs) {
      NoWantedUserNoRecipients(allUsers, rs);
    }
    if recipients == [] {
      WithoutNoEndpoints(db.subscriptions);
    } else {
      NotifyAllSends(db, recipients, payload, projectId, clock, send);
    }
  }

  /** An empty role list, a list of empty roles, or roles no directory user
      has leave both collections unwritten and send nothing. */
  lemma NotifyUsersByRoleNoRecipients(db: DbState, roles: RoleArg, allUsers: seq<User>, payload: NotificationPayload,
                                      projectId: Option<string>, clock: nat -> Stamp, send: Transport)
    requires var rs := RolesToNotify(roles); |rs| == 0 || AllFalsy(rs) || forall u <- allUsers :: !Wanted(u, rs)
    ensures NotifyUsersByRole(db, roles, allUsers, payload, projectId, clock, send) == Effect(db, [])
  {
    var rs := RolesToNotify(roles);
    if !(|rs| == 0 || AllFalsy(rs)) {
      NoWantedUserNoRecipients(allUsers, rs);
    }
  }

  /** Otherwise every wanted user gets exactly one record, in resolution
      order, and nobody else does. */
  lemma NotifyUsersByRoleRecords(db: DbState, roles: RoleArg, allUsers: seq<User>, payload: NotificationPayload,
                                 projectId: Option<string>, clock: nat -> Stamp, send: Transport)
    ensures var recipients := Recipients(allUsers, RolesToNotify(roles));
      NotifyUsersByRole(db, roles, allUsers, payload, projectId, clock, send).db.notifications
        == LogAppendAll(db.notifications, NewRecords(recipients, payload, projectId, clock))
      && KeysUnique(UserId, recipients)
      && (forall u <- recipients :: u in allUsers && Wanted(u, RolesToNotify(roles)))
      && (forall u <- allUsers :: Wanted(u, RolesToNotify(roles)) ==> u.id in Ids(recipients))
  {
    var rs := RolesToNotify(roles);
    RecipientsExact(allUsers, rs);
    if |rs| == 0 || AllFalsy(rs) {
      NoWantedUserNoRecipients(allUsers, rs);
    } else {
      NotifyAllLog(db, Recipients(allUsers, rs), payload, projectId, clock, send);
    }
  }

  /** An empty or unknown user id changes nothing and sends nothing. */
  lemma NotifyUserByIdNoUser(db: DbState, userId: string, found: Option<User>, payload: NotificationPayload,
                             projectId: Option<string>, stamp: Stamp, send: Transport)
    requires userId == "" || found.None?
    ensures NotifyUserById(db, userId, found, payload, projectId, stamp, send) == Effect(db, [])
  {
  }

  /** Marking read is idempotent on the whole stored state (the second call
      writes nothing), touches only the log, and writes only when the first
      record with that id was unread. */
  lemma MarkNotificationAsReadIdempotent(db: DbState, notificationId: string)
    ensures MarkNotificationAsRead(MarkNotificationAsRead(db, notificationId), notificationId) == MarkNotificationAsRead(db, notificationId)
    ensures MarkNotificationAsRead(db, notificationId).subscriptions == db.subscriptions
    ensures MarkNotificationAsRead(db, notificationId).notificationWrites
            == db.notificationWrites + (if MarkReadWrites(db.notifications, notificationId) then 1 else 0)
  {
    MarkReadIdempotent(db.notifications, notificationId);
  }

  /** Deleting by an empty project id, or by one no record carries, leaves the
      state unchanged and unwritten; otherwise exactly that project's records
      go, in one write. */
  lemma DeleteNotificationsByProjectIdEffect(db: DbState, projectId: string)
    ensures var r := DeleteNotificationsByProjectId(db, projectId);
      r.subscriptions == db.subscriptions
      && ((projectId == "" || forall n <- db.notifications :: n.projectId != Some(projectId)) ==> r == db)
      && ((projectId != "" && exists n <- db.notifications :: n.projectId == Some(projectId)) ==>
            r.notifications == WithoutProject(db.notifications, projectId) && r.notificationWrites == db.notificationWrites + 1)
  {
    WithoutProjectExact(db.notifications, [], projectId);
  }

  /** Notifying one user keeps the log within its cap and the endpoints unique. */
  lemma NotifyUserPreservesValid(db: DbState, user: User, payload: NotificationPayload, projectId: Option<string>, stamp: Stamp, send: Transport)
    requires Valid(db)
    ensures Valid(NotifyUser(db, user, payload, projectId, stamp, send).db)
  {
    NotifyUserEffect(db, user, payload, projectId, stamp, send);
    WithoutEndpointsKeepsUnique(db.subscriptions, GoneEndpoints(SubscriptionsOf(db.subscriptions, user.id), FlatPayload(payload), send));
  }

  /** Notifying several users keeps the invariant. */
  lemma {:induction false} NotifyAllPreservesValid(db: DbState, recipients: seq<User>, payload: NotificationPayload, projectId: Option<string>,
                                                   clock: nat -> Stamp, send: Transport)
    requires Valid(db)
    ensures Valid(NotifyAll(db, recipients, payload, projectId, clock, send).db)
    decreases |recipients|
  {
    if recipients != [] {
      var n := |recipients| - 1;
      NotifyAllPreservesValid(db, recipients[..n], payload, projectId, clock, send);
      NotifyUserPreservesValid(NotifyAll(db, recipients[..n], payload, projectId, clock, send).db, recipients[n], payload, projectId, clock(n), send);
    }
  }

  /** Notifying by role keeps the invariant. */
  lemma NotifyUsersByRolePreservesValid(db: DbState, roles: RoleArg, allUsers: seq<User>, payload: NotificationPayload,
                                        projectId: Option<string>, clock: nat -> Stamp, send: Transport)
    requires Valid(db)
    ensures Valid(NotifyUsersByRole(db, roles, allUsers, payload, projectId, clock, send).db)
  {
    var rs := RolesToNotify(roles);
    if !(|rs| == 0 || AllFalsy(rs)) {
      NotifyAllPreservesValid(db, Recipients(allUsers, rs), payload, projectId, clock, send);
    }
  }

  /** Every other operation keeps the invariant too. */
  lemma OperationsPreserveValid(db: DbState, id: string, userId: string, sub: Subscription)
    requires Valid(db)
    ensures Valid(MarkNotificationAsRead(db, id))
    ensures Valid(DeleteNotificationsByProjectId(db, id))
    ensures Valid(ClearAllNotifications(db))
    ensures Valid(SaveSubscription(db, userId, sub))
    ensures Valid(RemoveSubscription(db, sub))
  {
    MarkReadExact(db.notifications, id);
    SaveKeepsEndpointsUnique(db.subscriptions, userId, sub);
    RemoveEndpointExact(db.subscriptions, [], sub.endpoint);
  }
}
