/** The notification routes of server/routes/notificationRoutes.js: the
    caller's latest notifications (`GET /`) and mark-as-read
    (`PATCH /:id/read`). */
module NotificationRoutes {
  import opened Entities
  import opened Listing
  import opened Store

  /** `.limit(50)` of the listing. */
  const PageSize: nat := 50

  function ReceivedIds(ns: map<Id, Notification>, receiver: UserId): set<Id> {
    set k | k in ns && ns[k].receiverId == receiver
  }

  /** `GET /`: the caller's notifications, newest first, at most 50. */
  function ListNotifications(db: Db, caller: UserId): seq<Notification> {
    Take(Lookup(db.notifications, Descending(ReceivedIds(db.notifications, caller), db.nextId)), PageSize)
  }

  /** At most 50 notifications, all the caller's, newest first; and they are
      the caller's newest: any of the caller's notifications left out is older
      than every listed one, and then the page is full. */
  lemma ListNotificationsSpec(db: Db, caller: UserId)
    requires WellKeyed(db)
    ensures var r := ListNotifications(db, caller);
      && |r| <= PageSize
      && (forall i :: 0 <= i < |r| ==>
            r[i].receiverId == caller && r[i].id in db.notifications && r[i] == db.notifications[r[i].id])
      && (forall i, j :: 0 <= i < j < |r| ==> r[i].createdAt > r[j].createdAt)
      && (forall k ::
            (k in db.notifications && db.notifications[k].receiverId == caller && db.notifications[k] !in r) ==>
              |r| == PageSize && forall i :: 0 <= i < |r| ==> r[i].createdAt > k)
  {
    ListedNotifications(db, caller);
    forall k | k in db.notifications && db.notifications[k].receiverId == caller
                 && db.notifications[k] !in ListNotifications(db, caller)
      ensures var r := ListNotifications(db, caller);
        |r| == PageSize && forall i :: 0 <= i < |r| ==> r[i].createdAt > k
    {
      OmittedNotificationOlder(db, caller, k);
    }
  }

  /** Each listed notification is the caller's stored record, and the page is
      ordered by its ids. */
  lemma ListedNotifications(db: Db, caller: UserId)
    requires WellKeyed(db)
    ensures var ids := Descending(ReceivedIds(db.notifications, caller), db.nextId);
      var r := ListNotifications(db, caller);
      && |r| <= PageSize && |r| <= |ids|
      && forall i :: 0 <= i < |r| ==>
           r[i] == db.notifications[ids[i]] && r[i].id == ids[i] && r[i].createdAt == ids[i]
           && r[i].receiverId == caller
  {
  }

  /** A notification of the caller's left off the page is older than all
      that are on it, and the page is full. */
  lemma OmittedNotificationOlder(db: Db, caller: UserId, k: Id)
    requires WellKeyed(db)
    requires k in db.notifications && db.notifications[k].receiverId == caller
    requires db.notifications[k] !in ListNotifications(db, caller)
    ensures var r := ListNotifications(db, caller);
      |r| == PageSize && forall i :: 0 <= i < |r| ==> r[i].createdAt > k
  {
    var ids := Descending(ReceivedIds(db.notifications, caller), db.nextId);
    var r := ListNotifications(db, caller);
    ListedNotifications(db, caller);
    assert k in ids;
    var p :| 0 <= p < |ids| && ids[p] == k;
    assert forall i :: 0 <= i < |r| ==> r[i] != db.notifications[k];
    assert |r| <= p;
  }

  /** `PATCH /:id/read`: 404, 403, or the notification saved as read. */
  function MarkRead(db: Db, caller: UserId, id: Id): Outcome<Notification> {
    if id !in db.notifications then Outcome(Err(NotificationNotFound), db)
    else if db.notifications[id].receiverId != caller then Outcome(Err(NotAuthorized), db)
    else
      var n := db.notifications[id].(isRead := true);
      Outcome(Ok(n), db.(notifications := db.notifications[id := n]))
  }

  /** A missing notification answers 404 and someone else's 403, both without
      change; otherwise the notification is read, nothing else about it or any
      other record changes, and the answer is the saved notification. */
  lemma MarkReadEffect(db: Db, caller: UserId, id: Id)
    ensures var o := MarkRead(db, caller, id);
      && (o.result == Err(NotificationNotFound) <==> id !in db.notifications)
      && (o.result == Err(NotAuthorized) <==> id in db.notifications && db.notifications[id].receiverId != caller)
      && (o.result.Ok? <==> id in db.notifications && db.notifications[id].receiverId == caller)
      && (o.result.Err? ==> o.after == db)
      && (o.result.Ok? ==>
            && o.result.value.isRead
            && o.result.value.(isRead := db.notifications[id].isRead) == db.notifications[id]
            && o.after.notifications.Keys == db.notifications.Keys
            && o.after.notifications[id] == o.result.value
            && (forall k :: k in db.notifications && k != id ==> o.after.notifications[k] == db.notifications[k])
            && o.after.(notifications := db.notifications) == db)
  {
  }

  /** Marking a notification read twice is the same as marking it once. */
  lemma MarkReadIdempotent(db: Db, caller: UserId, id: Id)
    ensures var o := MarkRead(db, caller, id);
      MarkRead(o.after, caller, id) == o
  {
    var o := MarkRead(db, caller, id);
    if o.result.Ok? {
      assert o.after.notifications[id := o.result.value] == o.after.notifications;
    }
  }

  /** After a successful mark-read, fetching the list again shows the same
      notifications in the same order, with this one read. */
  lemma MarkReadThenList(db: Db, caller: UserId, id: Id)
    requires WellKeyed(db)
    requires MarkRead(db, caller, id).result.Ok?
    ensures var before := ListNotifications(db, caller);
      var after := ListNotifications(MarkRead(db, caller, id).after, caller);
      && |after| == |before|
      && (forall i :: 0 <= i < |after| ==>
            after[i] == if before[i].id == id then before[i].(isRead := true) else before[i])
  {
    var db' := MarkRead(db, caller, id).after;
    assert ReceivedIds(db'.notifications, caller) == ReceivedIds(db.notifications, caller);
  }

  lemma MarkReadPreservesInv(db: Db, caller: UserId, id: Id)
    requires Inv(db)
    ensures Inv(MarkRead(db, caller, id).after)
  {
  }
}
