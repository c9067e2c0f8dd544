/** The push-subscription registry of src/services/notification-service.ts
    as operations on the stored sequence: the upsert of `saveSubscription`,
    the endpoint filter of `removeSubscription`, and the per-user selection
    `notifyUser` sends to. */
module SubscriptionRegistry {
  import opened Seqs
  import opened Records

  /** A record's identity in the registry. */
  function Endpoint(r: SubscriptionRecord): string {
    r.subscription.endpoint
  }

  /** `findIndex` by endpoint. */
  function EndpointIndex(subs: seq<SubscriptionRecord>, endpoint: string): int {
    KeyIndex(Endpoint, subs, endpoint)
  }

  /** No endpoint is registered twice. */
  predicate EndpointsUnique(subs: seq<SubscriptionRecord>) {
    KeysUnique(Endpoint, subs)
  }

  /** `saveSubscription` on the registry. */
  function Save(subs: seq<SubscriptionRecord>, userId: string, sub: Subscription): seq<SubscriptionRecord> {
    UpsertBy(Endpoint, subs, SubscriptionRecord(userId, sub))
  }

  /** Saving is an upsert on the endpoint: a known endpoint's first record is
      replaced in place (whichever user owned it) and nothing else moves; an
      unknown endpoint is appended. */
  lemma SaveUpserts(subs: seq<SubscriptionRecord>, userId: string, sub: Subscription)
    ensures var r := Save(subs, userId, sub); var i := EndpointIndex(subs, sub.endpoint);
      (0 <= i ==>
         subs[i].subscription.endpoint == sub.endpoint
         && (forall k :: 0 <= k < i ==> subs[k].subscription.endpoint != sub.endpoint)
         && |r| == |subs| && r[i] == SubscriptionRecord(userId, sub)
         && forall k :: 0 <= k < |subs| && k != i ==> r[k] == subs[k])
      && (i == -1 ==>
         (forall k :: 0 <= k < |subs| ==> subs[k].subscription.endpoint != sub.endpoint)
         && r == subs + [SubscriptionRecord(userId, sub)])
  {
    var i := EndpointIndex(subs, sub.endpoint);
    var p := (t: SubscriptionRecord) => Endpoint(t) == sub.endpoint;
    assert i == IndexWhere(p, subs);
    assert forall k :: 0 <= k < |subs| ==> p(subs[k]) == (subs[k].subscription.endpoint == sub.endpoint);
  }

  /** Saving keeps endpoints unique, and afterwards the endpoint's one record
      is the one just saved. */
  lemma SaveKeepsEndpointsUnique(subs: seq<SubscriptionRecord>, userId: string, sub: Subscription)
    requires EndpointsUnique(subs)
    ensures EndpointsUnique(Save(subs, userId, sub))
    ensures forall r <- Save(subs, userId, sub) :: r.subscription.endpoint == sub.endpoint ==> r == SubscriptionRecord(userId, sub)
  {
    var rec := SubscriptionRecord(userId, sub);
    var r := Save(subs, userId, sub);
    UpsertKeepsKeysUnique(Endpoint, subs, rec);
    forall x <- r | x.subscription.endpoint == sub.endpoint ensures x == rec {
      var j :| 0 <= j < |r| && r[j] == x;
      var k :| 0 <= k < |r| && r[k] == rec;
      assert Endpoint(r[j]) == Endpoint(r[k]);
    }
  }

  /** Re-registering an endpoint (new keys, possibly a new owner) leaves what
      registering only the latest subscription leaves. */
  lemma SaveTwiceKeepsLatest(subs: seq<SubscriptionRecord>, u1: string, s1: Subscription, u2: string, s2: Subscription)
    requires s1.endpoint == s2.endpoint
    ensures Save(Save(subs, u1, s1), u2, s2) == Save(subs, u2, s2)
  {
    UpsertTwice(Endpoint, subs, SubscriptionRecord(u1, s1), SubscriptionRecord(u2, s2));
  }

  /** `removeSubscription`'s filter: every record with another endpoint. */
  function RemoveEndpoint(subs: seq<SubscriptionRecord>, endpoint: string): seq<SubscriptionRecord> {
    Filter((r: SubscriptionRecord) => r.subscription.endpoint != endpoint, subs)
  }

  /** The records whose endpoint is not in `gone`. */
  function WithoutEndpoints(subs: seq<SubscriptionRecord>, gone: set<string>): seq<SubscriptionRecord> {
    Filter((r: SubscriptionRecord) => r.subscription.endpoint !in gone, subs)
  }

  /** Removing drops every record with that endpoint, keeps the others in
      their order, is idempotent and keeps endpoints unique. */
  lemma RemoveEndpointExact(subs: seq<SubscriptionRecord>, rest: seq<SubscriptionRecord>, endpoint: string)
    ensures forall r <- RemoveEndpoint(subs, endpoint) :: r in subs && r.subscription.endpoint != endpoint
    ensures forall r <- subs :: r.subscription.endpoint != endpoint ==> r in RemoveEndpoint(subs, endpoint)
    ensures RemoveEndpoint(subs + rest, endpoint) == RemoveEndpoint(subs, endpoint) + RemoveEndpoint(rest, endpoint)
    ensures RemoveEndpoint(RemoveEndpoint(subs, endpoint), endpoint) == RemoveEndpoint(subs, endpoint)
    ensures EndpointsUnique(subs) ==> EndpointsUnique(RemoveEndpoint(subs, endpoint))
  {
    var p := (r: SubscriptionRecord) => r.subscription.endpoint != endpoint;
    FilterConcat(p, subs, rest);
    FilterFuse(p, p, p, subs);
    if EndpointsUnique(subs) {
      FilterKeepsKeysUnique(Endpoint, p, subs);
    }
  }

  /** Filtering by no endpoints keeps the registry as it is. */
  lemma WithoutNoEndpoints(subs: seq<SubscriptionRecord>)
    ensures WithoutEndpoints(subs, {}) == subs
  {
    var gone: set<string> := {};
    FilterKeepsAll((r: SubscriptionRecord) => r.subscription.endpoint !in gone, subs);
  }

  /** Filtering by a set of endpoints keeps endpoints unique. */
  lemma WithoutEndpointsKeepsUnique(subs: seq<SubscriptionRecord>, gone: set<string>)
    requires EndpointsUnique(subs)
    ensures EndpointsUnique(WithoutEndpoints(subs, gone))
  {
    FilterKeepsKeysUnique(Endpoint, (r: SubscriptionRecord) => r.subscription.endpoint !in gone, subs);
  }

  /** Removals one endpoint at a time amount to one filter by the set of
      removed endpoints. */
  lemma RemoveAfterRemovals(subs: seq<SubscriptionRecord>, gone: set<string>, endpoint: string)
    ensures RemoveEndpoint(WithoutEndpoints(subs, gone), endpoint) == WithoutEndpoints(subs, gone + {endpoint})
  {
    FilterFuse(
      (r: SubscriptionRecord) => r.subscription.endpoint != endpoint,
      (r: SubscriptionRecord) => r.subscription.endpoint !in gone,
      (r: SubscriptionRecord) => r.subscription.endpoint !in gone + {endpoint},
      subs);
  }

  /** Two prunes in a row are one prune by the union of their endpoints. */
  lemma WithoutEndpointsTwice(subs: seq<SubscriptionRecord>, g1: set<string>, g2: set<string>)
    ensures WithoutEndpoints(WithoutEndpoints(subs, g1), g2) == WithoutEndpoints(subs, g1 + g2)
  {
    FilterFuse(
      (r: SubscriptionRecord) => r.subscription.endpoint !in g2,
      (r: SubscriptionRecord) => r.subscription.endpoint !in g1,
      (r: SubscriptionRecord) => r.subscription.endpoint !in g1 + g2,
      subs);
  }

  /** With unique endpoints, pruning endpoints that belong to other users'
      records leaves a user's own records as they were. */
  lemma PruneOthersKeepsOwn(subs: seq<SubscriptionRecord>, gone: set<string>, userId: string)
    requires EndpointsUnique(subs)
    requires forall e <- gone :: exists t <- subs :: t.subscription.endpoint == e && t.userId != userId
    ensures SubscriptionsOf(WithoutEndpoints(subs, gone), userId) == SubscriptionsOf(subs, userId)
  {
    forall x <- subs | x.userId == userId
      ensures x.subscription.endpoint !in gone
    {
      forall t <- subs | t.subscription.endpoint == x.subscription.endpoint
        ensures t.userId == userId
      {
        var i :| 0 <= i < |subs| && subs[i] == x;
        var j :| 0 <= j < |subs| && subs[j] == t;
        assert Endpoint(subs[i]) == Endpoint(subs[j]);
      }
    }
    FilterSkipsFilter(
      (r: SubscriptionRecord) => r.userId == userId,
      (r: SubscriptionRecord) => r.subscription.endpoint !in gone,
      subs);
  }

  /** The records of one user, in stored order (`notifyUser`'s targets). */
  function SubscriptionsOf(subs: seq<SubscriptionRecord>, userId: string): seq<SubscriptionRecord> {
    Filter((r: SubscriptionRecord) => r.userId == userId, subs)
  }
}
