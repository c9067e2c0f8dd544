/** The records of the notification subsystem (the interfaces at the top of
    src/services/notification-service.ts) and the push transport's interface. */
module Records {
  import opened Wrappers
  import opened Json

  /** One entry of the in-app notification log. */
  datatype Notification = Notification(
    id: string,
    userId: string,
    projectId: Option<string>,
    message: string,
    timestamp: string,
    isRead: bool)

  /** A browser push subscription: the transport-assigned endpoint and the
      encryption keys, which the code never looks into. */
  datatype Subscription = Subscription(endpoint: string, keys: string)

  /** One entry of the subscription registry. */
  datatype SubscriptionRecord = SubscriptionRecord(userId: string, subscription: Subscription)

  /** What the calling domain code asks to be shown. */
  datatype NotificationPayload = NotificationPayload(title: string, body: string, url: Option<string>)

  /** A user as the external directory returns it (only the fields used here). */
  datatype User = User(id: string, role: string)

  /** The id and ISO timestamp a new log record gets (from `Date.now()`,
      `Math.random()` and `new Date()` in the source). */
  datatype Stamp = Stamp(id: string, timestamp: string)

  /** What one `webPush.sendNotification` call ends with: success, or a
      rejection whose error may carry an HTTP status code. */
  datatype SendOutcome = Delivered | Rejected(statusCode: Option<int>)

  /** The transport's verdict that the endpoint is gone for good (410 Gone or
      404 Not Found). */
  predicate IsGone(o: SendOutcome) {
    o.Rejected? && o.statusCode.Some? && (o.statusCode.value == 410 || o.statusCode.value == 404)
  }

  /** The push transport: the outcome of sending a payload to a subscription. */
  type Transport = (Subscription, JsonValue) -> SendOutcome

  /** One send attempt: to whom, what, and how it ended. */
  datatype PushAttempt = PushAttempt(subscription: Subscription, payload: JsonValue, outcome: SendOutcome)
}
