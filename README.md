# Notification core of the project-management app, in Dafny

This project models the notification core of a small project-management web
application and proves properties of the model. It covers three pieces:

- **The notification service** (`src/services/notification-service.ts`).
  It keeps two JSON files:
  - the notification log: at most 300 records, newest first;
  - the push-subscription registry: one record per endpoint.

  Its operations are writing a notification for one user, by user id or by
  role(s); listing a user's notifications; marking one as read; deleting a
  project's notifications; clearing the log; saving and removing a
  subscription. It sends Web Push messages to the user's subscriptions and
  prunes any subscription whose send fails with status 404 or 410.
- **The service worker** (`public/sw.js`). This is the browser-side delivery
  agent. It turns a push payload into a shown notification, with default
  title, body and url. On a click it chooses which open window gets focus.
  Its install and activate hooks take control at once.
- **The `POST /api/send-notification` route**
  (`src/app/api/send-notification/route.ts`). It checks that the VAPID keys
  are configured, validates the request, picks the subscriptions of the
  listed users, and sends each one a nested payload.

## How the model is built

- **Stored state as a value.** `ServiceState.DbState` holds the contents of
  the two files and counts how many times each file has been written. Every
  service operation is a function from the old `DbState` to the new one. The
  send operations also return the list of push sends they made
  (`ServiceState.Effect`).
- **The `Store` class mirrors the code.** `NotificationService.Store` runs the
  same operations step by step, the way the TypeScript code does: a `for`
  loop over the user's subscriptions, the role loop with its `Map`, and the
  `findIndex` followed by an update. Each of its methods is proved to end in
  the state the function gives.
- **The lemmas sit on the functions.** They cover the log window, upsert by
  endpoint, pruning, recipient resolution, and the invariant that every
  operation preserves: the log within its cap, and endpoints unique.
- **External calls become parameters:**
  - the push transport is a function `Transport` from a subscription and a
    wire payload to `Delivered` or `Rejected(statusCode)`;
  - the id and timestamp generators are a `Stamp` (one per record, or a
    `clock` for a sequence of records);
  - the user lookups are a list of users, or the `Option<User>` that
    `findUserById` returned;
  - the service worker's resolved `urlToOpen` and its list of window clients
    are parameters.
- **JavaScript semantics:**
  - JSON values are `Json.JsonValue`. `JSON.stringify` followed by
    `JSON.parse` is taken to round-trip, with `undefined` fields omitted.
  - `||` defaults and truthiness are written out in `Json.Truthy` and
    `Json.Or`.
  - Reading a property of `null` throws.
  - `String.prototype.trim` strips the full JavaScript whitespace and
    line-terminator set (`Text.IsJsSpace`).

### Where the code departs from the intended behaviour (the model follows the code)

- **Posting a message on exact match.** The intended click policy focuses a
  window already at the target and sends it nothing. The code also posts it
  a `navigate` message (`public/sw.js:77-81`).
- **Which window gets focus.** With no exact match, the intended policy
  picks the most recently focused window. The code takes the first window
  in the host's list (`public/sw.js:72-74`).
- **Push without data.** The intended behaviour for a push without data is
  to show nothing. The code shows the generic notification
  (`public/sw.js:21-44`).
- **The log cap.** Each append evicts at most one record, the oldest. A log
  already stored over the cap stays over it. This is proved in
  `NotificationLog.LogAppendOverCap`.
- **Pruning from the route.** The intended behaviour prunes subscriptions
  that fail permanently on every send path. The route's send only logs a
  404/410 (`src/app/api/send-notification/route.ts:43-46`).
- **Sending without VAPID keys.** The intended behaviour skips push
  delivery when the keys are not configured. The service sends anyway;
  what an unconfigured transport does is left to `Transport`.
- **Lifecycle hooks.** `ServiceWorker.OnInstall` and
  `ServiceWorker.OnActivate` are constant effect lists (skip waiting; claim
  the open clients), with nothing further to prove about them.

## Model

| member | source | states |
|---|---|---|
| Seqs.Filter | src/services/notification-service.ts:126 | `Array.prototype.filter`: the result is no longer than the input, holds only input elements satisfying the predicate, and holds every such element |
| Seqs.IndexWhere | src/services/notification-service.ts:131 | `findIndex`: -1 exactly when no element satisfies the predicate, otherwise the first index that does |
| Seqs.UpsertBy | src/services/notification-service.ts:156-164 | replacing the first element with the same key, or appending: when no element has the key the result is the input followed by the new element; otherwise it is the input with only the first element of that key replaced in place, every other element keeping its position |
| Seqs.UpsertKeepsKeysUnique | src/services/notification-service.ts:156-164 | an upsert keeps keys unique |
| Seqs.UpsertTwice | src/services/notification-service.ts:156-164 | upserting the same key twice equals upserting only the second value |
| Text.Trim | src/services/notification-service.ts:98-99 | the result is a contiguous part of the input with no JavaScript whitespace at either end, and only whitespace was removed |
| NotificationLog.LogAppend | src/services/notification-service.ts:73-76 | `unshift` then at most one `pop`: the new record is first, the old records follow in order, and the length grows by one until it reaches 300 and is unchanged after |
| NotificationLog.LogAppendCapped | src/services/notification-service.ts:73-76 | a log within the cap stays within it; a full log loses exactly its oldest record |
| NotificationLog.LogAppendOverCap | src/services/notification-service.ts:74-76 | a log already stored over the cap is not trimmed back to it: each append evicts only one record |
| NotificationLog.Reversed | src/services/notification-service.ts:73 | the order in which repeated `unshift`s leave a batch: element `i` of the result is element `|s| - 1 - i` of the input, so the newest record comes first |
| NotificationLog.LogAppendAllWindow | src/services/notification-service.ts:73-76 | after any sequence of appends to a log within the cap, the log is the newest min(n, 300) records, newest first |
| NotificationLog.ForUserExact | src/services/notification-service.ts:124-127 | the listing holds a record exactly when it is stored and belongs to the user, in stored order; it distributes over concatenation of logs |
| NotificationLog.MarkReadExact | src/services/notification-service.ts:129-137 | only the first record with the id changes, and only its `isRead` (now true); a write happens exactly when that record exists and was unread |
| NotificationLog.MarkReadIdempotent | src/services/notification-service.ts:129-137 | marking twice is marking once, and the second mark does not write |
| NotificationLog.WithoutProjectExact | src/services/notification-service.ts:139-146 | deletion keeps exactly the records not tagged with the project, in order (it distributes over concatenation); its length is unchanged exactly when no record carries the tag |
| SubscriptionRegistry.SaveUpserts | src/services/notification-service.ts:154-164 | saving replaces the record with the same endpoint in place when there is one, and appends otherwise |
| SubscriptionRegistry.SaveKeepsEndpointsUnique | src/services/notification-service.ts:154-166 | saving keeps one record per endpoint, and afterwards the record for the saved endpoint is the one just saved |
| SubscriptionRegistry.SaveTwiceKeepsLatest | src/services/notification-service.ts:154-166 | saving the same endpoint twice leaves the second record only |
| SubscriptionRegistry.RemoveEndpointExact | src/services/notification-service.ts:170-175 | removal keeps exactly the records with other endpoints, in order, is idempotent and keeps endpoints unique |
| SubscriptionRegistry.WithoutEndpointsKeepsUnique | src/services/notification-service.ts:53-56 | pruning any set of endpoints keeps endpoints unique |
| SubscriptionRegistry.RemoveAfterRemovals | src/services/notification-service.ts:53-56 | removing endpoints one after another is the same as removing the set of them at once |
| RecipientResolver.SetAllFacts | src/services/notification-service.ts:100 | `forEach` of `Map.set` keyed by user id: keys stay unique, every inserted user's id is present, and every entry was already there or inserted |
| RecipientResolver.RecipientsExact | src/services/notification-service.ts:96-101 | the resolved users have unique ids; each has a role that, trimmed and lower-cased, equals a truthy requested role normalised the same way; every user id with such a role is resolved |
| RecipientResolver.NoWantedUserNoRecipients | src/services/notification-service.ts:96-106 | when no user's role matches a requested role, nobody is resolved |
| RecipientResolver.SetEach | src/services/notification-service.ts:100 | the `forEach` loop ends with the map the left fold of `Map.set` gives |
| RecipientResolver.ResolveRecipients | src/services/notification-service.ts:94-101 | the role loop, skipping falsy roles, ends with the recipients `Recipients` gives |
| ServiceState.GoneEndpoints | src/services/notification-service.ts:53-56 | the endpoints reported 404/410 are exactly those of the targets whose send the transport rejects as gone |
| ServiceState.DispatchKeepsLog | src/services/notification-service.ts:84-86 | the send loop changes neither the log nor its write count |
| ServiceState.DispatchAttempts | src/services/notification-service.ts:84-86 | one send per target, in order, each with the same wire payload and the transport's outcome |
| ServiceState.DispatchPrunes | src/services/notification-service.ts:48-58 | after the sends, the registry is the old one with every gone endpoint removed, with one write per gone send |
| ServiceState.DispatchOutcome | src/services/notification-service.ts:48-58 | the send loop's whole effect: log untouched, one send per target in order, gone endpoints pruned |
| ServiceState.DispatchWithoutGoneKeepsRegistry | src/services/notification-service.ts:51-56 | when no send comes back 404/410, the registry and its write count are unchanged |
| ServiceState.GoneCountZero | src/services/notification-service.ts:53 | no gone send means no gone count |
| ServiceState.NotifyUserEffect | src/services/notification-service.ts:60-87 | notifying adds the new record at the head of the (capped) log with one write, sends the flat payload once to each of the user's subscriptions in stored order, and prunes the gone ones |
| ServiceState.NotifyUserLog | src/services/notification-service.ts:73-77 | notifying changes the log only by appending its one record, with one write |
| ServiceState.NotifyUserWithoutSubscriptions | src/services/notification-service.ts:79-86 | a user with no subscriptions still gets the record, and no push is sent |
| ServiceState.NotifyUserOneGoneOneDelivered | src/services/notification-service.ts:48-87 | a concrete case: with two subscriptions, a 410 and a delivery, both are attempted and only the first is removed |
| ServiceState.NewRecords | src/services/notification-service.ts:108-110 | the records the role loop creates, one per recipient, in order, with that recipient's id, the payload body and `isRead` false |
| ServiceState.NotifyAllAppends | src/services/notification-service.ts:108-110 | notifying several users in turn appends their records to the log one after another, in order |
| ServiceState.NotifyAllLog | src/services/notification-service.ts:108-110 | notifying several users in turn leaves the log window of all their new records, newest first |
| ServiceState.NotifyUsersByRoleNoRecipients | src/services/notification-service.ts:89-106 | no roles, only falsy roles, or no matching user: nothing is written and nothing is sent |
| ServiceState.NotifyUsersByRoleRecords | src/services/notification-service.ts:89-111 | the log ends as if one record per resolved user were appended in resolution order, and the resolved users are exactly the wanted ones, one per id |
| ServiceState.NotifyUserByIdNoUser | src/services/notification-service.ts:114-122 | an empty id or an unknown user changes nothing and sends nothing |
| ServiceState.MarkNotificationAsReadIdempotent | src/services/notification-service.ts:129-137 | marking the same id twice equals marking it once; the registry is untouched, and the log is written only when the first record with that id was unread |
| ServiceState.DeleteNotificationsByProjectIdEffect | src/services/notification-service.ts:139-146 | an empty project id, or no tagged record, changes nothing; otherwise the tagged records go, with one write, and the registry is untouched |
| ServiceState.NotifyUserPreservesValid | src/services/notification-service.ts:60-87 | notifying keeps the log within 300 and the endpoints unique |
| ServiceState.NotifyAllPreservesValid | src/services/notification-service.ts:108-110 | notifying several users keeps the invariant |
| ServiceState.NotifyUsersByRolePreservesValid | src/services/notification-service.ts:89-111 | notifying by role keeps the invariant |
| ServiceState.OperationsPreserveValid | src/services/notification-service.ts:129-175 | marking read, deleting by project, clearing, saving and removing a subscription each keep the invariant |
| NotificationService.Store.constructor | src/services/notification-service.ts:61 | the store holds the given file contents |
| NotificationService.Store.RemoveSubscription | src/services/notification-service.ts:170-175 | the registry loses the endpoint and is written once |
| NotificationService.Store.SendPushNotification | src/services/notification-service.ts:48-58 | ends as `ServiceState.SendPushNotification` gives: one send, and the subscription is removed (with one registry write) exactly when the outcome is 404 or 410 |
| NotificationService.Store.NotifyUser | src/services/notification-service.ts:60-87 | the loop ends in the state and send list `ServiceState.NotifyUser` gives |
| NotificationService.Store.NotifyUsersByRole | src/services/notification-service.ts:89-111 | ends in the state and send list `ServiceState.NotifyUsersByRole` gives; with unique endpoints, it sends once to every subscription of every resolved user, in resolution order, and the registry ends as the old one less the endpoints reported gone |
| NotificationService.Store.NotifyEach | src/services/notification-service.ts:108-110 | the recipient loop ends as `ServiceState.NotifyAll` gives; with unique endpoints and distinct recipients, it sends once to every subscription of each recipient in turn, and the registry ends as the old one less the endpoints reported gone |
| NotificationService.Store.NotifyUserById | src/services/notification-service.ts:114-122 | ends as `ServiceState.NotifyUserById` gives |
| NotificationService.Store.GetNotificationsForUser | src/services/notification-service.ts:124-127 | returns exactly the user's stored records in stored order, and changes nothing |
| NotificationService.Store.MarkNotificationAsRead | src/services/notification-service.ts:129-137 | ends as `ServiceState.MarkNotificationAsRead` gives |
| NotificationService.Store.DeleteNotificationsByProjectId | src/services/notification-service.ts:139-146 | ends as `ServiceState.DeleteNotificationsByProjectId` gives |
| NotificationService.Store.ClearAllNotifications | src/services/notification-service.ts:148-150 | ends as `ServiceState.ClearAllNotifications` gives: the log is empty and written once, and the registry is untouched |
| NotificationService.Store.SaveSubscription | src/services/notification-service.ts:154-168 | ends as `ServiceState.SaveSubscription` gives |
| ServiceWorker.OnPushNoData | public/sw.js:21-44 | a push without data shows the generic title and body, linking to `/` |
| ServiceWorker.OnPushUnparseable | public/sw.js:24-33 | unparseable data shows its text as the body (the generic body when empty) under the generic title, linking to `/` |
| ServiceWorker.OnPushFieldDefaults | public/sw.js:36-44 | for parsed non-null data, title, body and url are each the data's field when truthy and the default otherwise, so none is ever falsy |
| ServiceWorker.OnPushThrowsOnlyOnNull | public/sw.js:25-36 | the handler throws exactly when the data parses to `null` |
| ServiceWorker.TolerantOnPush | public/sw.js:19-47 | the corrected decode never throws, and the title, body and url it shows are always truthy; `PushDelivery.TolerantShowsRoutePush` proves it reads the nested shape |
| ServiceWorker.TolerantAgreesOnFlat | public/sw.js:36-44 | the corrected decode agrees with the handler as written on every payload without a `notification` object |
| ServiceWorker.TolerantNullShowsDefault | public/sw.js:25-44 | where the handler throws on `null`, the corrected decode shows the generic notification |
| ServiceWorker.OnNotificationClick | public/sw.js:50-89 | the loop with `break` produces the effects `ClickEffects` gives |
| ServiceWorker.ClickClosesFirst | public/sw.js:53 | the notification is always closed first |
| ServiceWorker.ClickPrefersExactMatch | public/sw.js:61-69 | when some window's URL equals the target, the first such window is chosen; the click's effects are to close, focus that window and send it `navigate`, with no window opened |
| ServiceWorker.ClickFallsBackToFirst | public/sw.js:72-74 | with windows open but none matching, the first window is chosen; the click's effects are to close, focus it and send it `navigate` |
| ServiceWorker.ClickOpensOnlyWithoutWindows | public/sw.js:77-85 | a new window is opened exactly when no window is open |
| SendNotificationRoute.PostWithoutKeys | src/app/api/send-notification/route.ts:52-54 | without both VAPID keys the reply is 500 whatever the request, and nothing is sent |
| SendNotificationRoute.PostRejectsInvalid | src/app/api/send-notification/route.ts:59-61 | a readable body gets 400, with no send, exactly when `userIds` is missing, not an array or empty, or `payload` is missing or falsy |
| SendNotificationRoute.PostSendsToTargets | src/app/api/send-notification/route.ts:65-94 | a valid request sends once to exactly the subscriptions of the listed users, in stored order, with the nested payload; it replies 200 either way |
| SendNotificationRoute.PostIgnoresSendOutcomes | src/app/api/send-notification/route.ts:37-47 | send failures, 404/410 included, change neither the reply nor the sends made |
| SendNotificationRoute.NestedPayloadShape | src/app/api/send-notification/route.ts:77-85 | the wire payload nests title and body under `notification` and the url under `notification.data`, with `/` when the url is falsy |
| Text.ToLower | src/services/notification-service.ts:98 | `toLowerCase` on Basic Latin letters: the result has the input's length, each capital `A`–`Z` becomes its small letter at the same position, and every other character is unchanged |
| Text.ToLowerIdempotent | src/services/notification-service.ts:98 | a lower-cased string holds no Basic Latin capital, and lower-casing it again changes nothing |
| Text.ToLowerIgnoresCase | src/services/notification-service.ts:98 | two strings of equal length that differ only in the case of Basic Latin letters have the same lower case, so the role comparison is case-insensitive |
| Text.Normalize | src/services/notification-service.ts:98-99 | the form roles are compared in: trim, then lower-case; its use is stated by `RecipientResolver.RecipientsExact` |
| NotificationLog.NewRecord | src/services/notification-service.ts:64-71 | the record `notifyUser` creates; its fields in the log are stated by `ServiceState.NotifyUserEffect` |
| NotificationLog.ForUser | src/services/notification-service.ts:126 | the per-user filter; its properties are stated by `NotificationLog.ForUserExact` |
| NotificationLog.MarkRead | src/services/notification-service.ts:131-135 | the find-then-set of `isRead`; its properties are stated by `NotificationLog.MarkReadExact` and `NotificationLog.MarkReadIdempotent` |
| NotificationLog.WithoutProject | src/services/notification-service.ts:142 | the project filter; its properties are stated by `NotificationLog.WithoutProjectExact` |
| SubscriptionRegistry.Save | src/services/notification-service.ts:156-164 | the upsert by endpoint; its properties are stated by `SubscriptionRegistry.SaveUpserts`, `SaveKeepsEndpointsUnique` and `SaveTwiceKeepsLatest` |
| SubscriptionRegistry.RemoveEndpoint | src/services/notification-service.ts:172 | the endpoint filter; its properties are stated by `SubscriptionRegistry.RemoveEndpointExact` |
| SubscriptionRegistry.SubscriptionsOf | src/services/notification-service.ts:80 | one user's subscriptions in stored order; stated as the send targets by `ServiceState.NotifyUserSends` |
| SubscriptionRegistry.WithoutEndpointsTwice | src/services/notification-service.ts:53-56 | two prunes in a row are one prune by the union of their endpoints |
| SubscriptionRegistry.PruneOthersKeepsOwn | src/services/notification-service.ts:53-56 | with unique endpoints, pruning endpoints of other users' records leaves a user's own subscriptions unchanged |
| RecipientResolver.RolesToNotify | src/services/notification-service.ts:90 | one role or a list of roles, as a list |
| RecipientResolver.AllFalsy | src/services/notification-service.ts:91 | every requested role is empty; used by the early return stated in `ServiceState.NotifyUsersByRoleNoRecipients` |
| RecipientResolver.UsersWithRole | src/services/notification-service.ts:99 | the directory users with a given normalised role; stated through `RecipientResolver.RecipientsExact` |
| RecipientResolver.SetAll | src/services/notification-service.ts:100 | `Map.set` by user id, user after user; its properties are stated by `RecipientResolver.SetAllFacts` |
| RecipientResolver.Recipients | src/services/notification-service.ts:96-101 | the resolved users of the role loop; its properties are stated by `RecipientResolver.RecipientsExact` |
| ServiceState.FlatPayload | src/services/notification-service.ts:82 | the flat payload the service sends; what the worker shows for it is stated by `PushDelivery.ServicePushShown` |
| ServiceState.SendPushNotification | src/services/notification-service.ts:48-58 | one send, with the subscription removed on 404 or 410; realised by `NotificationService.Store.SendPushNotification` |
| ServiceState.RemoveSubscription | src/services/notification-service.ts:170-175 | the registry less the endpoint, written always; stated by `SubscriptionRegistry.RemoveEndpointExact` |
| ServiceState.Dispatch | src/services/notification-service.ts:84-86 | the send loop; its effect is stated by `ServiceState.DispatchOutcome` |
| ServiceState.NotifyUser | src/services/notification-service.ts:60-87 | `notifyUser` on the stored state; its effect is stated by `ServiceState.NotifyUserEffect` and `ServiceState.NotifyUserSends` |
| ServiceState.NotifyAll | src/services/notification-service.ts:108-110 | the recipient loop; its log is stated by `ServiceState.NotifyAllLog`, its sends and prunes by `ServiceState.NotifyAllSends` |
| ServiceState.NotifyUsersByRole | src/services/notification-service.ts:89-111 | `notifyUsersByRole` on the stored state; stated by `ServiceState.NotifyUsersByRoleNoRecipients`, `NotifyUsersByRoleRecords` and `NotifyUsersByRoleSends` |
| ServiceState.NotifyUserById | src/services/notification-service.ts:114-122 | `notifyUserById` on the stored state; its no-op paths are stated by `ServiceState.NotifyUserByIdNoUser` |
| ServiceState.MarkNotificationAsRead | src/services/notification-service.ts:129-137 | `markNotificationAsRead` on the stored state; stated by `ServiceState.MarkNotificationAsReadIdempotent` |
| ServiceState.DeleteNotificationsByProjectId | src/services/notification-service.ts:139-146 | `deleteNotificationsByProjectId` on the stored state; stated by `ServiceState.DeleteNotificationsByProjectIdEffect` |
| ServiceState.ClearAllNotifications | src/services/notification-service.ts:148-150 | an empty log, one write; realised by `NotificationService.Store.ClearAllNotifications` |
| ServiceState.SaveSubscription | src/services/notification-service.ts:154-168 | `saveSubscription` on the stored state: the upsert and one write; the invariant is stated by `ServiceState.OperationsPreserveValid` |
| ServiceState.AllTargets | src/services/notification-service.ts:108-110 | the subscriptions a fan-out sends to: each holds a stored record of some recipient, and every stored record of a recipient is among them |
| ServiceState.NotifyUserSends | src/services/notification-service.ts:79-86 | `notifyUser` sends exactly once to each of the user's subscriptions, in stored order, and prunes the gone ones with one write each |
| ServiceState.NotifyUserAfterOthers | src/services/notification-service.ts:108-110 | after sends to other users' subscriptions and the prunes they caused, the next user's sends reach all of that user's original subscriptions, and the prunes add up |
| ServiceState.NotifyAllSends | src/services/notification-service.ts:108-110 | with unique endpoints and distinct recipients, the loop sends once to every subscription of each recipient in turn, and the registry ends as the old one less every endpoint reported gone, with one write each |
| ServiceState.NotifyUsersByRoleSends | src/services/notification-service.ts:89-111 | with unique endpoints, `notifyUsersByRole` sends once to every subscription of every resolved user, and prunes exactly the gone endpoints |
| ServiceWorker.OnPush | public/sw.js:19-47 | the push listener as written; its behaviour is stated by `ServiceWorker.OnPushNoData`, `OnPushUnparseable`, `OnPushFieldDefaults` and `OnPushThrowsOnlyOnNull` |
| ServiceWorker.ChosenClient | public/sw.js:61-74 | the window the click picks; stated by `ServiceWorker.ClickPrefersExactMatch` and `ClickFallsBackToFirst` |
| ServiceWorker.OnInstall | public/sw.js:4-8 | the install hook asks the host only to skip waiting; a constant effect list with nothing further to prove |
| ServiceWorker.OnActivate | public/sw.js:11-15 | the activate hook asks the host only to claim the open windows; a constant effect list with nothing further to prove |
| ServiceWorker.ClickEffects | public/sw.js:53-85 | the click's effects; realised by `ServiceWorker.OnNotificationClick` and stated by the `Click` lemmas |
| SendNotificationRoute.Invalid | src/app/api/send-notification/route.ts:59 | the 400 condition; stated by `SendNotificationRoute.PostRejectsInvalid` |
| SendNotificationRoute.TargetSubscriptions | src/app/api/send-notification/route.ts:67 | the subscriptions of the listed users; stated by `SendNotificationRoute.PostSendsToTargets` |
| SendNotificationRoute.NestedPayload | src/app/api/send-notification/route.ts:77-85 | the nested wire payload; stated by `SendNotificationRoute.NestedPayloadShape` |
| SendNotificationRoute.SendAll | src/app/api/send-notification/route.ts:88-92 | one send per target; stated by `SendNotificationRoute.PostSendsToTargets` |
| SendNotificationRoute.Post | src/app/api/send-notification/route.ts:51-100 | the handler; stated by `SendNotificationRoute.PostWithoutKeys`, `PostRejectsInvalid`, `PostSendsToTargets` and `PostIgnoresSendOutcomes` |
| PushDelivery.ServicePushShown | public/sw.js:36-44 | a service push shows its title, body and url, each replaced by its default only when empty or absent |
| PushDelivery.RoutePushShowsDefaults | public/sw.js:36-42 | as written, every route push shows the generic title, the generic body and `/` |
| PushDelivery.RoutePushLosesContent | src/app/api/send-notification/route.ts:77-85 | a concrete route push whose body is "Task assigned" is not shown with that body |
| PushDelivery.TolerantShowsRoutePush | src/app/api/send-notification/route.ts:77-85 | with the corrected decode, a route push shows the request's title, body and url, with defaults only where they are missing or falsy |
| PushDelivery.TolerantShowsServicePush | public/sw.js:36-44 | the corrected decode shows service pushes exactly as the handler as written does |

## Left out

- File I/O: `readDb`/`writeDb` become the fields of `DbState` and a write counter per file. Read and write failures, and the route's 500 on a failed read, are not modelled.
- The `web-push` library, VAPID setup and payload encryption: a send is the `Transport` parameter; its outcome is `Delivered` or `Rejected` with the error's status code.
- `Transport` is a pure function of the subscription and the payload, so the same payload sent twice to the same subscription gets the same outcome both times; a push service whose answer changes between sends is not modelled.
- Id and timestamp generation (`Date.now`, `Math.random`, `toISOString`) are the `Stamp` and `clock` parameters.
- `findUserById` and `getAllUsersForDisplay` (src/services/data-access/user-data.ts is not part of this model): their results are parameters.
- Concurrency: every `await` runs to completion in order, and `Promise.all` in the route is modelled as sends in list order; interleaving with other requests is not modelled.
- `JSON.stringify`/`JSON.parse` are taken to round-trip; numbers are integers; the `icon` and `badge` image paths are constant and not part of `Shown`.
- `new URL(...)` in the click handler: the resolved `urlToOpen` is a parameter, and an invalid url's exception is not modelled.
- Host-side lifecycle (`waitUntil`, `showNotification`, `matchAll` options): the handlers return their effects as values.
- Logging (`console.*`) and the response body strings: replies are the `Reply` variants with their status codes.
- Text.ToLower: only ASCII letters are lower-cased, whereas JavaScript's `toLowerCase` folds all of Unicode.
- RecipientResolver.RecipientsExact: assumes every user's `role` is a string; a user without a role makes `trim()` throw in the source, which is not modelled.
- The `continue` in the role loop is written as an `if` around the loop body.
- The authentication context, layout and test route of the application are outside the notification core.

## Findings

| source | as written | input that shows it | evidently intended | confidence | as-written member | corrected member |
|---|---|---|---|---|---|---|
| public/sw.js:36-42 | the push handler reads `title`, `body` and `url` only at the top level, while the send route nests them under `notification` and `notification.data` | a POST with payload `{title: "Update", body: "Task assigned"}` is shown as "Notifikasi Baru" / "Anda memiliki pembaruan baru." linking to `/` | the route's title, body and url are shown | not executed | PushDelivery.RoutePushShowsDefaults | PushDelivery.TolerantShowsRoutePush |
| public/sw.js:25-36 | data that parses to `null` is kept, and `data.title` then throws a TypeError, so no notification is shown | a push whose data is the text `null` | the generic notification is shown, as for a push without data | not executed | ServiceWorker.OnPushThrowsOnlyOnNull | ServiceWorker.TolerantNullShowsDefault |

`ServiceWorker.TolerantOnPush` is the corrected push decode. It agrees with the handler as written on every flat payload (`ServiceWorker.TolerantAgreesOnFlat`, `PushDelivery.TolerantShowsServicePush`).
