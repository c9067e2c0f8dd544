/** What the delivery agent shows for the payloads the two senders put on
    the wire: the flat payload of the notification service and the nested
    payload of the send-notification route. JSON serialisation and parsing
    are taken to round-trip, so the agent's data is the sender's value. */
module PushDelivery {
  import opened Json
  import opened Records
  import opened ServiceWorker
  import ServiceState
  import SendNotificationRoute

  /** A service push shows the payload's title, body and url, each replaced
      by its default only when empty or absent. */
  lemma ServicePushShown(p: NotificationPayload)
    ensures OnPush(Parsed(ServiceState.FlatPayload(p)))
            == Show(Shown(JString(if p.title != "" then p.title else DefaultTitle),
                          JString(if p.body != "" then p.body else DefaultBody),
                          JString(if p.url.Some? && p.url.value != "" then p.url.value else RootUrl)))
  {
  }

  /** As written, a route push always shows the generic title, the generic
      body and the root url, whatever the request carried: the agent reads
      only top-level fields and the route nests them under `notification`. */
  lemma RoutePushShowsDefaults(payload: JsonValue)
    ensures OnPush(Parsed(SendNotificationRoute.NestedPayload(payload)))
            == Show(Shown(JString(DefaultTitle), JString(DefaultBody), JString(RootUrl)))
  {
  }

  /** A concrete case: a route push for "Update" / "Task assigned" is shown
      as the generic notification. */
  lemma RoutePushLosesContent()
    ensures var payload := JObject(map["title" := JString("Update"), "body" := JString("Task assigned")]);
      OnPush(Parsed(SendNotificationRoute.NestedPayload(payload))).notification.body != JString("Task assigned")
  {
    var payload := JObject(map["title" := JString("Update"), "body" := JString("Task assigned")]);
    RoutePushShowsDefaults(payload);
  }

  /** With the tolerant decode, a route push shows the request's title, body
      and url (defaults only where they are missing or falsy). */
  lemma TolerantShowsRoutePush(payload: JsonValue)
    ensures TolerantOnPush(Parsed(SendNotificationRoute.NestedPayload(payload)))
            == Shown(Or(Get(payload, "title"), JString(DefaultTitle)),
                     Or(Get(payload, "body"), JString(DefaultBody)),
                     Or(Get(payload, "url"), JString(RootUrl)))
  {
  }

  /** The tolerant decode shows service pushes exactly as the handler as
      written does. */
  lemma TolerantShowsServicePush(p: NotificationPayload)
    ensures TolerantOnPush(Parsed(ServiceState.FlatPayload(p))) == OnPush(Parsed(ServiceState.FlatPayload(p))).notification
  {
  }
}
