/** The in-app notification log of src/services/notification-service.ts as
    operations on the stored sequence: the capped newest-first append of
    `notifyUser`, the per-user view, marking one record read and deleting
    a project's records. */
module NotificationLog {
  import opened Wrappers
  import opened Seqs
  import opened Records

  /** NOTIFICATION_LIMIT: the cap on the whole log (not per user). */
  const Limit: nat := 300

  /** The record `notifyUser` creates for `user`. */
  function NewRecord(user: User, payload: NotificationPayload, projectId: Option<string>, stamp: Stamp): Notification {
    Notification(stamp.id, user.id, projectId, payload.body, stamp.timestamp, false)
  }

  /** `unshift` the record, then `pop` once if the log is now over the cap. */
  function LogAppend(log: seq<Notification>, record: Notification): (r: seq<Notification>)
    ensures |r| == if |log| < Limit then |log| + 1 else |log|
    ensures |r| > 0 && r[0] == record
    ensures r[1..] == log[..|r| - 1]
  {
    var grown := [record] + log;
    if |grown| > Limit then grown[..|grown| - 1] else grown
  }

  /** A log within the cap stays within it, and a full log loses exactly its
      oldest (last) record. */
  lemma LogAppendCapped(log: seq<Notification>, record: Notification)
    requires |log| <= Limit
    ensures |LogAppend(log, record)| <= Limit
    ensures |log| < Limit ==> LogAppend(log, record) == [record] + log
    ensures |log| == Limit ==> LogAppend(log, record) == [record] + log[..Limit - 1]
  {
  }

  /** A log stored over the cap is never brought back to it: each append
      evicts one record, so the length stays the same. */
  lemma LogAppendOverCap(log: seq<Notification>, record: Notification)
    requires |log| > Limit
    ensures |LogAppend(log, record)| == |log| > Limit
  {
  }

  /** Appending several records, oldest first. */
  function LogAppendAll(log: seq<Notification>, records: seq<Notification>): seq<Notification>
    decreases |records|
  {
    if records == [] then log
    else LogAppend(LogAppendAll(log, records[..|records| - 1]), records[|records| - 1])
  }

  /** `s` in reverse order. */
  function Reversed<T>(s: seq<T>): (r: seq<T>)
    ensures |r| == |s|
    ensures forall i :: 0 <= i < |s| ==> r[i] == s[|s| - 1 - i]
    decreases |s|
  {
    if s == [] then [] else [s[|s| - 1]] + Reversed(s[..|s| - 1])
  }

  function Min(a: int, b: int): int { if a < b then a else b }

  /** After any sequence of appends to a log within the cap, the log is the
      newest `Limit` records of all ever held, newest first: every record
      kept is newer than every record evicted. */
  lemma {:induction false} LogAppendAllWindow(log: seq<Notification>, records: seq<Notification>)
    requires |log| <= Limit
    ensures LogAppendAll(log, records) == (Reversed(records) + log)[..Min(|records| + |log|, Limit)]
    decreases |records|
  {
    if records != [] {
      var n := |records|;
      var init := records[..n - 1];
      var x := records[n - 1];
      LogAppendAllWindow(log, init);
      var prev := LogAppendAll(log, init);
      var all := Reversed(records) + log;
      assert Reversed(records) == [x] + Reversed(init);
      assert all == [x] + (Reversed(init) + log);
      var m := Min(n - 1 + |log|, Limit);
      assert prev == (Reversed(init) + log)[..m];
      if m < Limit {
        assert prev == Reversed(init) + log;
        assert LogAppend(prev, x) == [x] + prev;
      } else {
        assert LogAppend(prev, x) == ([x] + prev)[..Limit];
        assert ([x] + prev)[..Limit] == all[..Limit];
      }
    }
  }

  /** `getNotificationsForUser`: the records addressed to `userId`. */
  function ForUser(log: seq<Notification>, userId: string): seq<Notification> {
    Filter((n: Notification) => n.userId == userId, log)
  }

  /** The per-user view holds exactly that user's records, in stored order. */
  lemma ForUserExact(log: seq<Notification>, rest: seq<Notification>, userId: string)
    ensures forall n <- ForUser(log, userId) :: n in log && n.userId == userId
    ensures forall n <- log :: n.userId == userId ==> n in ForUser(log, userId)
    ensures ForUser(log + rest, userId) == ForUser(log, userId) + ForUser(rest, userId)
  {
    FilterConcat((n: Notification) => n.userId == userId, log, rest);
  }

  /** `findIndex` by id. */
  function IndexOfId(log: seq<Notification>, id: string): int {
    IndexWhere((n: Notification) => n.id == id, log)
  }

  /** Whether `markNotificationAsRead` changes (and writes) anything: the id
      is present and its first record is still unread. */
  predicate MarkReadWrites(log: seq<Notification>, id: string) {
    var i := IndexOfId(log, id);
    i != -1 && !log[i].isRead
  }

  /** `markNotificationAsRead` on the log. */
  function MarkRead(log: seq<Notification>, id: string): seq<Notification> {
    var i := IndexOfId(log, id);
    if i != -1 && !log[i].isRead then log[i := log[i].(isRead := true)] else log
  }

  /** Marking read sets `isRead` on the first record with that id and on
      nothing else; without a write the log is unchanged. */
  lemma MarkReadExact(log: seq<Notification>, id: string)
    ensures var r := MarkRead(log, id); var i := IndexOfId(log, id);
      |r| == |log|
      && (forall k :: 0 <= k < |log| && k != i ==> r[k] == log[k])
      && (0 <= i ==> log[i].id == id && r[i] == log[i].(isRead := true))
      && (forall k :: 0 <= k < i ==> log[k].id != id)
      && (!MarkReadWrites(log, id) ==> r == log)
  {
  }

  /** Marking read twice is marking read once, and the second call writes
      nothing. */
  lemma MarkReadIdempotent(log: seq<Notification>, id: string)
    ensures MarkRead(MarkRead(log, id), id) == MarkRead(log, id)
    ensures !MarkReadWrites(MarkRead(log, id), id)
  {
    var r := MarkRead(log, id);
    var i := IndexOfId(log, id);
    assert forall k :: 0 <= k < |log| ==> r[k].id == log[k].id;
    assert IndexOfId(r, id) == i;
  }

  /** `deleteNotificationsByProjectId`'s filter: records of other projects
      and records without a project. */
  function WithoutProject(log: seq<Notification>, projectId: string): seq<Notification> {
    Filter((n: Notification) => n.projectId != Some(projectId), log)
  }

  /** Deleting by project removes exactly that project's records, keeping the
      others in their order (it distributes over concatenation); the length
      is unchanged (and nothing is written) exactly when there is none, and
      then the log is unchanged. */
  lemma WithoutProjectExact(log: seq<Notification>, rest: seq<Notification>, projectId: string)
    ensures forall n <- WithoutProject(log, projectId) :: n in log && n.projectId != Some(projectId)
    ensures WithoutProject(log + rest, projectId) == WithoutProject(log, projectId) + WithoutProject(rest, projectId)
    ensures forall n <- log :: n.projectId != Some(projectId) ==> n in WithoutProject(log, projectId)
    ensures |WithoutProject(log, projectId)| == |log| <==> forall n <- log :: n.projectId != Some(projectId)
    ensures (forall n <- log :: n.projectId != Some(projectId)) ==> WithoutProject(log, projectId) == log
  {
    var p := (n: Notification) => n.projectId != Some(projectId);
    FilterConcat(p, log, rest);
    FilterSameLength(p, log);
    if forall n <- log :: n.projectId != Some(projectId) {
      FilterKeepsAll(p, log);
    }
  }
}
