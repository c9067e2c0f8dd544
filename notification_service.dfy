/** src/services/notification-service.ts as an object: the two persisted
    collections are fields that each operation reads and reassigns, the way
    the source reads a JSON file with `readDb`, changes the array and writes
    it back with `writeDb`. Each method is proved to do what the matching
    function of module ServiceState says. */
module NotificationService {
  import opened Wrappers
  import opened Json
  import opened Seqs
  import opened Records
  import opened NotificationLog
  import opened SubscriptionRegistry
  import opened RecipientResolver
  import ServiceState

  class Store {
    /** notifications.json */
    var notifications: seq<Notification>
    /** subscriptions.json */
    var subscriptions: seq<SubscriptionRecord>
    /** How many times each file has been written. */
    var notificationWrites: nat
    var subscriptionWrites: nat

    function State(): ServiceState.DbState
      reads this
    {
      ServiceState.DbState(notifications, subscriptions, notificationWrites, subscriptionWrites)
    }

    /** A store whose files hold `initial`; `readDb`'s default for a missing
        file is the empty state. */
    constructor (initial: ServiceState.DbState)
      ensures State() == initial
    {
      notifications := initial.notifications;
      subscriptions := initial.subscriptions;
      notificationWrites := initial.notificationWrites;
      subscriptionWrites := initial.subscriptionWrites;
    }

    /** `removeSubscription`. */
    method RemoveSubscription(subscription: Subscription)
      modifies this
      ensures State() == ServiceState.RemoveSubscription(old(State()), subscription)
    {
      subscriptions := RemoveEndpoint(subscriptions, subscription.endpoint);
      subscriptionWrites := subscriptionWrites + 1;
    }

    /** `sendPushNotification`: one send, then the 404/410 pruning. */
    method SendPushNotification(subscription: Subscription, payload: JsonValue, send: Transport) returns (attempt: PushAttempt)
      modifies this
      ensures ServiceState.Effect(State(), [attempt]) == ServiceState.SendPushNotification(old(State()), subscription, payload, send)
    {
      var outcome := send(subscription, payload);
      attempt := PushAttempt(subscription, payload, outcome);
      if IsGone(outcome) {
        RemoveSubscription(subscription);
      }
    }

    /** `notifyUser`. */
    method NotifyUser(user: User, payload: NotificationPayload, projectId: Option<string>, stamp: Stamp, send: Transport)
      returns (attempts: seq<PushAttempt>)
      modifies this
      ensures ServiceState.Effect(State(), attempts) == ServiceState.NotifyUser(old(State()), user, payload, projectId, stamp, send)
    {
      var newNotification := NewRecord(user, payload, projectId, stamp);
      notifications := [newNotification] + notifications;
      if |notifications| > Limit {
        notifications := notifications[..|notifications| - 1];
      }
      notificationWrites := notificationWrites + 1;

      var userSubscriptions := SubscriptionsOf(subscriptions, user.id);
      var pushPayload := ServiceState.FlatPayload(payload);
      ghost var logged := State();
      attempts := [];
      var i := 0;
      while i < |userSubscriptions|
        invariant 0 <= i <= |userSubscriptions|
        invariant ServiceState.Effect(State(), attempts) == ServiceState.Dispatch(logged, userSubscriptions[..i], pushPayload, send)
      {
        assert userSubscriptions[..i + 1][..i] == userSubscriptions[..i];
        var attempt := SendPushNotification(userSubscriptions[i].subscription, pushPayload, send);
        attempts := attempts + [attempt];
        i := i + 1;
      }
      assert userSubscriptions[..i] == userSubscriptions;
    }

    /** `notifyUsersByRole`; `allUsers` is what the external
        `getAllUsersForDisplay` returned, and the k-th record created gets
        `clock(k)`. */
    method NotifyUsersByRole(roles: RoleArg, allUsers: seq<User>, payload: NotificationPayload, projectId: Option<string>,
                             clock: nat -> Stamp, send: Transport) returns (attempts: seq<PushAttempt>)
      modifies this
      ensures ServiceState.Effect(State(), attempts)
              == ServiceState.NotifyUsersByRole(old(State()), roles, allUsers, payload, projectId, clock, send)
      ensures EndpointsUnique(old(subscriptions)) ==>
                var targets := ServiceState.AllTargets(old(subscriptions), Recipients(allUsers, RolesToNotify(roles)));
                ServiceState.SentTo(attempts, targets, ServiceState.FlatPayload(payload), send)
                && subscriptions == WithoutEndpoints(old(subscriptions), ServiceState.GoneEndpoints(targets, ServiceState.FlatPayload(payload), send))
    {
      if EndpointsUnique(subscriptions) {
        ServiceState.NotifyUsersByRoleSends(State(), roles, allUsers, payload, projectId, clock, send);
      }
      attempts := [];
      var rolesToNotify := RolesToNotify(roles);
      if |rolesToNotify| == 0 || AllFalsy(rolesToNotify) {
        return;
      }
      var usersToNotify := ResolveRecipients(allUsers, rolesToNotify);
      if |usersToNotify| == 0 {
        return;
      }
      attempts := NotifyEach(usersToNotify, payload, projectId, clock, send);
    }

    /** Notifies the resolved users one after another, in resolution order,
        the k-th record stamped `clock(k)`
        (src/services/notification-service.ts:108-110). */
    method NotifyEach(usersToNotify: seq<User>, payload: NotificationPayload, projectId: Option<string>,
                      clock: nat -> Stamp, send: Transport) returns (attempts: seq<PushAttempt>)
      modifies this
      ensures ServiceState.Effect(State(), attempts)
              == ServiceState.NotifyAll(old(State()), usersToNotify, payload, projectId, clock, send)
      ensures EndpointsUnique(old(subscriptions)) && KeysUnique(UserId, usersToNotify) ==>
                var targets := ServiceState.AllTargets(old(subscriptions), usersToNotify);
                ServiceState.SentTo(attempts, targets, ServiceState.FlatPayload(payload), send)
                && subscriptions == WithoutEndpoints(old(subscriptions), ServiceState.GoneEndpoints(targets, ServiceState.FlatPayload(payload), send))
    {
      if EndpointsUnique(subscriptions) && KeysUnique(UserId, usersToNotify) {
        ServiceState.NotifyAllSends(State(), usersToNotify, payload, projectId, clock, send);
      }
      attempts := [];
      var k := 0;
      while k < |usersToNotify|
        invariant 0 <= k <= |usersToNotify|
        invariant ServiceState.Effect(State(), attempts)
                  == ServiceState.NotifyAll(old(State()), usersToNotify[..k], payload, projectId, clock, send)
      {
        ServiceState.NotifyAllNext(old(State()), usersToNotify, k, payload, projectId, clock, send);
        var sent := NotifyUser(usersToNotify[k], payload, projectId, clock(k), send);
        attempts := attempts + sent;
        k := k + 1;
      }
      assert usersToNotify[..k] == usersToNotify;
    }

    /** `notifyUserById`; `found` is what the external `findUserById` returned. */
    method NotifyUserById(userId: string, found: Option<User>, payload: NotificationPayload, projectId: Option<string>,
                          stamp: Stamp, send: Transport) returns (attempts: seq<PushAttempt>)
      modifies this
      ensures ServiceState.Effect(State(), attempts)
              == ServiceState.NotifyUserById(old(State()), userId, found, payload, projectId, stamp, send)
    {
      attempts := [];
      if userId == "" {
        return;
      }
      if found.Some? {
        attempts := NotifyUser(found.value, payload, projectId, stamp, send);
      }
    }

    /** `getNotificationsForUser`: the user's records in stored order. */
    method GetNotificationsForUser(userId: string) returns (r: seq<Notification>)
      ensures r == ForUser(notifications, userId)
      ensures forall n <- r :: n in notifications && n.userId == userId
      ensures forall n <- notifications :: n.userId == userId ==> n in r
    {
      var allNotifications := notifications;
      r := ForUser(allNotifications, userId);
      ForUserExact(allNotifications, [], userId);
    }

    /** `markNotificationAsRead`. */
    method MarkNotificationAsRead(notificationId: string)
      modifies this
      ensures State() == ServiceState.MarkNotificationAsRead(old(State()), notificationId)
    {
      var notificationIndex := IndexOfId(notifications, notificationId);
      if notificationIndex != -1 && !notifications[notificationIndex].isRead {
        notifications := notifications[notificationIndex := notifications[notificationIndex].(isRead := true)];
        notificationWrites := notificationWrites + 1;
      }
    }

    /** `deleteNotificationsByProjectId`. */
    method DeleteNotificationsByProjectId(projectId: string)
      modifies this
      ensures State() == ServiceState.DeleteNotificationsByProjectId(old(State()), projectId)
    {
      if projectId == "" {
        return;
      }
      var filtered := WithoutProject(notifications, projectId);
      if |notifications| != |filtered| {
        notifications := filtered;
        notificationWrites := notificationWrites + 1;
      }
    }

    /** `clearAllNotifications`. */
    method ClearAllNotifications()
      modifies this
      ensures State() == ServiceState.ClearAllNotifications(old(State()))
    {
      notifications := [];
      notificationWrites := notificationWrites + 1;
    }

    /** `saveSubscription`: overwrite by index when the endpoint is known,
        otherwise push. */
    method SaveSubscription(userId: string, subscription: Subscription)
      modifies this
      ensures State() == ServiceState.SaveSubscription(old(State()), userId, subscription)
    {
      var existingIndex := EndpointIndex(subscriptions, subscription.endpoint);
      var newRecord := SubscriptionRecord(userId, subscription);
      if existingIndex > -1 {
        subscriptions := subscriptions[existingIndex := newRecord];
      } else {
        subscriptions := subscriptions + [newRecord];
      }
      subscriptionWrites := subscriptionWrites + 1;
    }
  }
}
