/** The POST handler of src/app/api/send-notification/route.ts as a decision
    function: the configuration guard, request validation, selection of the
    target subscriptions, construction of the nested push payload, and one
    send per target whose failures are swallowed. The route never writes the
    registry. */
module SendNotificationRoute {
  import opened Wrappers
  import opened Json
  import opened Seqs
  import opened Records

  /** The request body: unreadable as JSON (`request.json()` rejects), or a
      parsed value. */
  datatype RequestBody = Unreadable | Body(value: JsonValue)

  /** The responses the handler returns. */
  datatype Reply =
    | KeysNotConfigured   // VAPID keys missing
    | InvalidRequest      // missing or invalid userIds/payload
    | NoSubscriptions     // success, nothing to send to
    | Dispatched(count: nat)  // success after the sends settled
    | HandlerFailed       // an exception reached the catch block

  /** The HTTP status of each response. */
  function Status(r: Reply): int {
    match r
    case KeysNotConfigured => 500
    case InvalidRequest => 400
    case NoSubscriptions => 200
    case Dispatched(_) => 200
    case HandlerFailed => 500
  }

  /** The response and the sends made before it. */
  datatype PostResult = PostResult(reply: Reply, attempts: seq<PushAttempt>)

  /** The stored subscriptions whose owner's id is among the requested ids,
      in stored order (src/app/api/send-notification/route.ts:67). */
  function TargetSubscriptions(allSubscriptions: seq<SubscriptionRecord>, userIds: seq<JsonValue>): seq<SubscriptionRecord> {
    Filter((r: SubscriptionRecord) => JString(r.userId) in userIds, allSubscriptions)
  }

  /** The object the route stringifies: title and body of the request's
      payload (left out when undefined) and `data.url`, which is
      `payload.url || '/'`, all nested under `notification`. */
  function NestedPayload(payload: JsonValue): JsonValue {
    JObject(map["notification" := JObject(
      Defined("title", Get(payload, "title"))
      + Defined("body", Get(payload, "body"))
      + map["data" := JObject(map["url" := Or(Get(payload, "url"), JString("/"))])])])
  }

  /** The `Promise.all` over the targets: one send each; the route's
      `sendPushNotification` catches every failure. */
  function SendAll(targets: seq<SubscriptionRecord>, wire: JsonValue, send: Transport): seq<PushAttempt> {
    seq(|targets|, i requires 0 <= i < |targets| => PushAttempt(targets[i].subscription, wire, send(targets[i].subscription, wire)))
  }

  /** The request is rejected with 400: `!userIds || !Array.isArray(userIds)
      || userIds.length === 0 || !payload`. */
  predicate Invalid(userIds: Option<JsonValue>, payload: Option<JsonValue>) {
    userIds.None? || !Truthy(userIds.value) || !userIds.value.JArray? || |userIds.value.items| == 0
    || payload.None? || !Truthy(payload.value)
  }

  /** `POST`. `vapidConfigured` is whether both VAPID keys are set; the
      subscriptions are what `readDb` returned. */
  function Post(vapidConfigured: bool, request: RequestBody, allSubscriptions: seq<SubscriptionRecord>, send: Transport): PostResult {
    if !vapidConfigured then PostResult(KeysNotConfigured, [])
    else match request
      case Unreadable => PostResult(HandlerFailed, [])
      case Body(v) =>
        // destructuring `null` throws a TypeError, caught as a 500
        if v.JNull? then PostResult(HandlerFailed, [])
        else
          var userIds := Get(v, "userIds");
          var payload := Get(v, "payload");
          if Invalid(userIds, payload) then PostResult(InvalidRequest, [])
          else
            var targets := TargetSubscriptions(allSubscriptions, userIds.value.items);
            if |targets| == 0 then PostResult(NoSubscriptions, [])
            else PostResult(Dispatched(|targets|), SendAll(targets, NestedPayload(payload.value), send))
  }

  /** Missing keys give 500 whatever the request holds: the body is not read. */
  lemma PostWithoutKeys(request: RequestBody, other: RequestBody, allSubscriptions: seq<SubscriptionRecord>, send: Transport)
    ensures Post(false, request, allSubscriptions, send) == PostResult(KeysNotConfigured, [])
    ensures Post(false, request, allSubscriptions, send) == Post(false, other, allSubscriptions, send)
    ensures Status(KeysNotConfigured) == 500
  {
  }

  /** A readable, non-null body gets 400 and no send exactly when `userIds`
      is missing, not an array or empty, or `payload` is missing or falsy. */
  lemma PostRejectsInvalid(v: JsonValue, allSubscriptions: seq<SubscriptionRecord>, send: Transport)
    requires v != JNull
    ensures var r := Post(true, Body(v), allSubscriptions, send);
      var ids := Get(v, "userIds"); var p := Get(v, "payload");
      (r.reply == InvalidRequest <==>
         (ids.None? || !ids.value.JArray? || |ids.value.items| == 0 || p.None? || !Truthy(p.value)))
      && (r.reply == InvalidRequest ==> r.attempts == [] && Status(r.reply) == 400)
  {
  }

  /** For a valid request, the sends go to exactly the subscriptions of the
      listed users, one each, in stored order, all with the nested payload;
      no target means success with no send. */
  lemma PostSendsToTargets(v: JsonValue, allSubscriptions: seq<SubscriptionRecord>, send: Transport)
    requires v != JNull && !Invalid(Get(v, "userIds"), Get(v, "payload"))
    ensures var ids := Get(v, "userIds").value.items;
      var targets := TargetSubscriptions(allSubscriptions, ids);
      var r := Post(true, Body(v), allSubscriptions, send);
      |r.attempts| == |targets|
      && (forall i :: 0 <= i < |targets| ==>
            r.attempts[i].subscription == targets[i].subscription
            && r.attempts[i].payload == NestedPayload(Get(v, "payload").value))
      && (forall t <- targets :: t in allSubscriptions && JString(t.userId) in ids)
      && (forall t <- allSubscriptions :: JString(t.userId) in ids ==> t in targets)
      && (r.reply == if |targets| == 0 then NoSubscriptions else Dispatched(|targets|))
      && Status(r.reply) == 200
  {
  }

  /** Send failures, 404 and 410 included, change neither the response nor
      which sends are made. */
  lemma PostIgnoresSendOutcomes(vapidConfigured: bool, request: RequestBody, allSubscriptions: seq<SubscriptionRecord>,
                                send1: Transport, send2: Transport)
    ensures var r1 := Post(vapidConfigured, request, allSubscriptions, send1);
      var r2 := Post(vapidConfigured, request, allSubscriptions, send2);
      r1.reply == r2.reply && |r1.attempts| == |r2.attempts|
      && forall i :: 0 <= i < |r1.attempts| ==>
           r1.attempts[i].subscription == r2.attempts[i].subscription && r1.attempts[i].payload == r2.attempts[i].payload
  {
  }

  /** The wire payload's click target is the request's url when that is
      truthy and `'/'` otherwise; title and body are carried unchanged. */
  lemma NestedPayloadShape(payload: JsonValue)
    ensures var w := NestedPayload(payload);
      var n := Get(w, "notification");
      n.Some? && n.value.JObject?
      && Get(n.value, "title") == Get(payload, "title")
      && Get(n.value, "body") == Get(payload, "body")
      && Get(n.value, "data").Some?
      && Get(Get(n.value, "data").value, "url")
         == Some(if Get(payload, "url").Some? && Truthy(Get(payload, "url").value) then Get(payload, "url").value else JString("/"))
  {
  }
}
