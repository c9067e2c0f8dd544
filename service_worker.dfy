/** The delivery agent, public/sw.js: decoding an inbound push into the
    notification to show, choosing what a click on it does, and the two
    lifecycle hooks. Everything is a function of the event's data; the host
    effects are returned as values. */
module ServiceWorker {
  import opened Wrappers
  import opened Json
  import opened Seqs

  const DefaultTitle: string := "Notifikasi Baru"
  const DefaultBody: string := "Anda memiliki pembaruan baru."
  const RootUrl: string := "/"

  // ---------------------------------------------------------------- push

  /** `event.data` of a push event: absent, text that `.json()` parses, or
      text it fails on. */
  datatype PushData = NoData | Parsed(value: JsonValue) | Unparseable(text: string)

  /** What `showNotification` is given: the title, the body and `data.url`.
      Each is the value of a `||` expression, so a JSON value. */
  datatype Shown = Shown(title: JsonValue, body: JsonValue, url: JsonValue)

  /** The push handler either shows a notification or throws (reading a
      property of `null`). */
  datatype PushResult = Show(notification: Shown) | Threw

  /** The local `data` after the decode step. */
  function PushDataObject(d: PushData): JsonValue {
    match d
    case NoData => JObject(map[])
    case Parsed(v) => v
    case Unparseable(text) =>
      JObject(map["title" := JString(DefaultTitle), "body" := JString(text), "url" := JString(RootUrl)])
  }

  /** The notification built from `data` with the `||` defaults. */
  function WithDefaults(data: JsonValue): Shown {
    Shown(Or(Get(data, "title"), JString(DefaultTitle)),
          Or(Get(data, "body"), JString(DefaultBody)),
          Or(Get(data, "url"), JString(RootUrl)))
  }

  /** The `push` listener as written. */
  function OnPush(d: PushData): PushResult {
    var data := PushDataObject(d);
    if data.JNull? then Threw else Show(WithDefaults(data))
  }

  /** With no data, the generic notification pointing at the root. */
  lemma OnPushNoData()
    ensures OnPush(NoData) == Show(Shown(JString(DefaultTitle), JString(DefaultBody), JString(RootUrl)))
  {
  }

  /** Unparseable text becomes the body under the generic title, pointing at
      the root; empty text falls back to the generic body. */
  lemma OnPushUnparseable(text: string)
    ensures OnPush(Unparseable(text))
            == Show(Shown(JString(DefaultTitle), JString(if text != "" then text else DefaultBody), JString(RootUrl)))
  {
  }

  /** For parsed data other than `null`, each of title, body and url
      independently is the given value when that is present and truthy, and
      its default otherwise; so none of them is ever falsy. */
  lemma OnPushFieldDefaults(v: JsonValue)
    requires v != JNull
    ensures OnPush(Parsed(v)).Show?
    ensures var n := OnPush(Parsed(v)).notification;
      (n.title == if Get(v, "title").Some? && Truthy(Get(v, "title").value) then Get(v, "title").value else JString(DefaultTitle))
      && (n.body == if Get(v, "body").Some? && Truthy(Get(v, "body").value) then Get(v, "body").value else JString(DefaultBody))
      && (n.url == if Get(v, "url").Some? && Truthy(Get(v, "url").value) then Get(v, "url").value else JString(RootUrl))
      && Truthy(n.title) && Truthy(n.body) && Truthy(n.url)
  {
  }

  /** The handler throws exactly on a payload that parses to `null`. */
  lemma OnPushThrowsOnlyOnNull(d: PushData)
    ensures OnPush(d).Threw? <==> d == Parsed(JNull)
  {
  }

  /** A decode that degrades malformed payloads to the generic notification
      and accepts both payload shapes used here: `null` treated as no fields, and when
      the data carries a `notification` object (the shape the send route
      produces), title and body read from it and the url from its `data`.
      Other data is decoded as `OnPush` does. */
  function TolerantOnPush(d: PushData): (r: Shown)
    ensures Truthy(r.title) && Truthy(r.body) && Truthy(r.url)
  {
    var data := PushDataObject(d);
    if data.JNull? then WithDefaults(JObject(map[]))
    else match Get(data, "notification")
      case Some(JObject(inner)) =>
        var n := JObject(inner);
        var url := match Get(n, "data") case Some(extra) => Get(extra, "url") case None => None;
        Shown(Or(Get(n, "title"), JString(DefaultTitle)),
              Or(Get(n, "body"), JString(DefaultBody)),
              Or(url, JString(RootUrl)))
      case _ => WithDefaults(data)
  }

  /** The tolerant decode never throws and agrees with `OnPush` on every
      payload without a `notification` object. */
  lemma TolerantAgreesOnFlat(d: PushData)
    requires OnPush(d).Show?
    requires Get(PushDataObject(d), "notification").None? || !Get(PushDataObject(d), "notification").value.JObject?
    ensures TolerantOnPush(d) == OnPush(d).notification
  {
  }

  /** The tolerant decode shows the generic notification for a `null`
      payload instead of throwing. */
  lemma TolerantNullShowsDefault()
    ensures OnPush(Parsed(JNull)) == Threw
    ensures TolerantOnPush(Parsed(JNull)) == Shown(JString(DefaultTitle), JString(DefaultBody), JString(RootUrl))
  {
  }

  // ---------------------------------------------------------------- click

  /** A window client: its identity and current URL. */
  datatype Client = Client(id: nat, url: string)

  /** The message posted to a client. */
  datatype Message = Navigate(url: string)

  /** The host effects of the click handler, in order. */
  datatype ClickEffect =
    | CloseNotification
    | Focus(client: Client)
    | PostMessage(client: Client, message: Message)
    | OpenWindow(url: string)

  /** Index of the first window whose URL is exactly `urlToOpen`, or -1. */
  function ExactMatchIndex(windowClients: seq<Client>, urlToOpen: string): int {
    IndexWhere((c: Client) => c.url == urlToOpen, windowClients)
  }

  /** `matchingClient` after the search and the fallback. */
  function ChosenClient(windowClients: seq<Client>, urlToOpen: string): Option<Client> {
    var i := ExactMatchIndex(windowClients, urlToOpen);
    if i != -1 then Some(windowClients[i])
    else if |windowClients| > 0 then Some(windowClients[0])
    else None
  }

  /** The effects of a click, given the open windows and the resolved target
      `new URL(data.url, origin).href`. */
  function ClickEffects(windowClients: seq<Client>, urlToOpen: string): seq<ClickEffect> {
    [CloseNotification] +
    match ChosenClient(windowClients, urlToOpen)
    case Some(c) => [Focus(c), PostMessage(c, Navigate(urlToOpen))]
    case None => [OpenWindow(urlToOpen)]
  }

  /** The `notificationclick` listener: close, search the windows for an
      exact URL match (stopping at the first), fall back to the first window,
      then focus and message it or open a new window. */
  method OnNotificationClick(windowClients: seq<Client>, urlToOpen: string) returns (effects: seq<ClickEffect>)
    ensures effects == ClickEffects(windowClients, urlToOpen)
  {
    effects := [CloseNotification];
    var matchingClient: Option<Client> := None;
    var i := 0;
    while i < |windowClients|
      invariant 0 <= i <= |windowClients|
      invariant matchingClient == None
      invariant forall k :: 0 <= k < i ==> windowClients[k].url != urlToOpen
    {
      if windowClients[i].url == urlToOpen {
        matchingClient := Some(windowClients[i]);
        break;
      }
      i := i + 1;
    }
    assert matchingClient.Some? ==> ExactMatchIndex(windowClients, urlToOpen) == i;
    assert matchingClient.None? ==> ExactMatchIndex(windowClients, urlToOpen) == -1;
    if matchingClient.None? && |windowClients| > 0 {
      matchingClient := Some(windowClients[0]);
    }
    if matchingClient.Some? {
      var c := matchingClient.value;
      effects := effects + [Focus(c), PostMessage(c, Navigate(urlToOpen))];
    } else {
      effects := effects + [OpenWindow(urlToOpen)];
    }
  }

  /** The notification is closed first, and only then. */
  lemma ClickClosesFirst(windowClients: seq<Client>, urlToOpen: string)
    ensures var e := ClickEffects(windowClients, urlToOpen);
      |e| > 0 && e[0] == CloseNotification && CloseNotification !in e[1..]
  {
  }

  /** A window at exactly the target URL wins, and it is the first such: it
      is focused and sent `navigate`, and no window is opened. */
  lemma ClickPrefersExactMatch(windowClients: seq<Client>, urlToOpen: string, k: nat)
    requires k < |windowClients| && windowClients[k].url == urlToOpen
    ensures var c := ChosenClient(windowClients, urlToOpen);
      c.Some? && c.value.url == urlToOpen
      && exists j :: 0 <= j <= k && c.value == windowClients[j] && forall m :: 0 <= m < j ==> windowClients[m].url != urlToOpen
    ensures exists j :: 0 <= j <= k && windowClients[j].url == urlToOpen
                        && (forall m :: 0 <= m < j ==> windowClients[m].url != urlToOpen)
                        && ClickEffects(windowClients, urlToOpen)
                           == [CloseNotification, Focus(windowClients[j]), PostMessage(windowClients[j], Navigate(urlToOpen))]
  {
    var j := ExactMatchIndex(windowClients, urlToOpen);
    assert j != -1 && j <= k by {
      assert ((c: Client) => c.url == urlToOpen)(windowClients[k]);
    }
  }

  /** Without an exact match, the first open window is chosen, focused and
      sent `navigate`. */
  lemma ClickFallsBackToFirst(windowClients: seq<Client>, urlToOpen: string)
    requires |windowClients| > 0
    requires forall c <- windowClients :: c.url != urlToOpen
    ensures ChosenClient(windowClients, urlToOpen) == Some(windowClients[0])
    ensures ClickEffects(windowClients, urlToOpen)
            == [CloseNotification, Focus(windowClients[0]), PostMessage(windowClients[0], Navigate(urlToOpen))]
  {
  }

  /** A window is opened exactly when none is open, exactly once and at the
      target; otherwise the chosen window is focused and sent the navigate
      message, also when its URL already matched. */
  lemma ClickOpensOnlyWithoutWindows(windowClients: seq<Client>, urlToOpen: string)
    ensures var e := ClickEffects(windowClients, urlToOpen);
      (|windowClients| == 0 <==> e == [CloseNotification, OpenWindow(urlToOpen)])
      && (|windowClients| > 0 <==>
            exists c <- windowClients :: e == [CloseNotification, Focus(c), PostMessage(c, Navigate(urlToOpen))])
  {
    var e := ClickEffects(windowClients, urlToOpen);
    if |windowClients| > 0 {
      var c := ChosenClient(windowClients, urlToOpen).value;
      assert c in windowClients;
    }
  }

  // ---------------------------------------------------------------- lifecycle

  /** What the host is asked to do by the lifecycle hooks. */
  datatype LifecycleEffect = SkipWaiting | ClaimClients

  /** `install`: activate at once. */
  function OnInstall(): seq<LifecycleEffect> {
    [SkipWaiting]
  }

  /** `activate`: take control of the open windows. */
  function OnActivate(): seq<LifecycleEffect> {
    [ClaimClients]
  }
}
