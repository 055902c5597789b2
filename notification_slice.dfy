/** The client's notification state
    (client/src/store/slices/notificationSlice.js): the list shown to the
    user, the unread badge counter, a loading flag and the last error. */
module NotificationSlice {
  import opened Entities

  /** A notification as the client holds it. Those fetched from the server
      carry their `_id`; the ones pushed over the socket (client/src/App.jsx)
      have only a message and `isRead: false`, and no `_id`. */
  datatype Item = Item(id: Option<Id>, message: string, isRead: bool)

  function FromServer(n: Notification): Item {
    Item(Some(n.id), n.message, n.isRead)
  }

  function Pushed(message: string): Item {
    Item(None, message, false)
  }

  /** `payload.filter((n) => !n.isRead).length`. */
  function UnreadCount(items: seq<Item>): (n: nat)
    ensures n <= |items|
    ensures n == 0 <==> forall i :: 0 <= i < |items| ==> items[i].isRead
    ensures n == |items| <==> forall i :: 0 <= i < |items| ==> !items[i].isRead
  {
    if items == [] then 0
    else (if items[0].isRead then 0 else 1) + UnreadCount(items[1..])
  }

  /** Replacing one item changes the unread count by what the old item and
      the new one contribute. */
  lemma {:induction false} UnreadCountUpdate(items: seq<Item>, i: nat, n: Item)
    requires i < |items|
    ensures UnreadCount(items[i := n])
         == UnreadCount(items) - (if items[i].isRead then 0 else 1) + (if n.isRead then 0 else 1)
  {
    if i > 0 {
      assert items[i := n][1..] == items[1..][i - 1 := n];
      UnreadCountUpdate(items[1..], i - 1, n);
    }
  }

  /** `findIndex((n) => n._id === id)`: the first position holding that id,
      or -1 when there is none. An absent `_id` matches only an absent `_id`. */
  function FindIndex(items: seq<Item>, id: Option<Id>): (r: int)
    ensures -1 <= r < |items|
    ensures r == -1 <==> forall i :: 0 <= i < |items| ==> items[i].id != id
    ensures r >= 0 ==> items[r].id == id && forall j :: 0 <= j < r ==> items[j].id != id
  {
    if items == [] then -1
    else if items[0].id == id then 0
    else
      var r := FindIndex(items[1..], id);
      if r == -1 then -1 else r + 1
  }

  /** `Math.max(0, count - 1)`. */
  function Decrement(count: int): (r: int)
    ensures r >= 0 && r >= count - 1
    ensures count > 0 ==> r == count - 1
    ensures count <= 0 ==> r == 0
  {
    if count - 1 > 0 then count - 1 else 0
  }

  /** A reply marked read over an unread item: the list then holds one unread
      item fewer, while `markAsRead.fulfilled` leaves the counter as it was
      (its decrement only runs for a reply that is still unread, and the
      server always replies with `isRead: true`). */
  lemma ReadReplyLeavesCountHigh(items: seq<Item>, n: Item)
    requires FindIndex(items, n.id) != -1
    requires !items[FindIndex(items, n.id)].isRead && n.isRead
    ensures UnreadCount(items[FindIndex(items, n.id) := n]) == UnreadCount(items) - 1
  {
    UnreadCountUpdate(items, FindIndex(items, n.id), n);
  }

  class NotificationState {
    var notifications: seq<Item>
    var unreadCount: int
    var isLoading: bool
    var error: Option<string>

    /** The badge counter is never negative. */
    ghost predicate Valid()
      reads this
    {
      unreadCount >= 0
    }

    /** The badge counter agrees with the list. */
    ghost predicate Counted()
      reads this
    {
      unreadCount == UnreadCount(notifications)
    }

    /** `initialState`. */
    constructor ()
      ensures notifications == [] && unreadCount == 0 && !isLoading && error == None
      ensures Valid() && Counted()
    {
      notifications := [];
      unreadCount := 0;
      isLoading := false;
      error := None;
    }

    /** `addNotification`: the new item goes first and the counter goes up by
        one, whether or not the item is unread. */
    method AddNotification(item: Item)
      requires Valid()
      modifies this
      ensures notifications == [item] + old(notifications)
      ensures unreadCount == old(unreadCount) + 1
      ensures isLoading == old(isLoading) && error == old(error)
      ensures Valid()
      ensures old(Counted()) && !item.isRead ==> Counted()
    {
      notifications := [item] + notifications;
      unreadCount := unreadCount + 1;
      assert notifications[1..] == old(notifications);
    }

    /** `clearNotifications`. */
    method ClearNotifications()
      modifies this
      ensures notifications == [] && unreadCount == 0
      ensures isLoading == old(isLoading) && error == old(error)
      ensures Valid() && Counted()
    {
      notifications := [];
      unreadCount := 0;
    }

    /** `fetchNotifications.pending`. */
    method FetchPending()
      modifies this
      ensures isLoading && error == None
      ensures notifications == old(notifications) && unreadCount == old(unreadCount)
    {
      isLoading := true;
      error := None;
    }

    /** `fetchNotifications.fulfilled`: the list is the server's, and the
        counter is recomputed from it. */
    method FetchFulfilled(payload: seq<Item>)
      modifies this
      ensures notifications == payload && unreadCount == UnreadCount(payload)
      ensures !isLoading && error == old(error)
      ensures Valid() && Counted()
    {
      isLoading := false;
      notifications := payload;
      unreadCount := UnreadCount(payload);
    }

    /** `fetchNotifications.rejected`. */
    method FetchRejected(message: string)
      modifies this
      ensures !isLoading && error == Some(message)
      ensures notifications == old(notifications) && unreadCount == old(unreadCount)
    {
      isLoading := false;
      error := Some(message);
    }

    /** `markAsRead.fulfilled`: the first item with the reply's `_id` is
        replaced by the reply, keeping the list's length; the counter goes
        down, never below zero, only for a reply that is still unread; with
        no matching item nothing changes. A read reply over an unread item
        therefore leaves a counter that agreed with the list one too high. */
    method MarkAsReadFulfilled(n: Item)
      requires Valid()
      modifies this
      ensures var i := FindIndex(old(notifications), n.id);
        && (i == -1 ==> notifications == old(notifications) && unreadCount == old(unreadCount))
        && (i != -1 ==>
              && notifications == old(notifications)[i := n]
              && unreadCount == if n.isRead then old(unreadCount) else Decrement(old(unreadCount)))
      ensures |notifications| == |old(notifications)|
      ensures isLoading == old(isLoading) && error == old(error)
      ensures Valid()
      ensures var i := FindIndex(old(notifications), n.id);
        old(Counted()) && i != -1 && !old(notifications)[i].isRead && n.isRead ==>
          unreadCount == UnreadCount(notifications) + 1
    {
      var index := FindIndex(notifications, n.id);
      if index != -1 {
        if !notifications[index].isRead && n.isRead {
          ReadReplyLeavesCountHigh(notifications, n);
        }
        notifications := notifications[index := n];
        if !n.isRead {
          unreadCount := Decrement(unreadCount);
        }
      }
    }
  }
}
