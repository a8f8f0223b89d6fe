/** BACKEND/controllers/NotificationControllers.js: the newest notifications,
    the unread count, and marking one or all notifications as read. */
module NotificationControllers {
  import opened Common
  import opened Sorting

  /** The `type` enum of BACKEND/models/NotificationModel.js. */
  datatype NotificationType = BudgetExceeded | LowStock | ExpiredProduct | Other

  /** The data a budget-exceeded notification carries. */
  datatype BudgetData = BudgetData(budgetAmount: real, totalExpenses: real, exceededAmount: real)

  datatype Notification = Notification(
    id: nat, message: string, kind: NotificationType, read: bool, createdAt: int, data: Option<BudgetData>)

  /** `sort({ createdAt: -1 })`: newer first. */
  predicate NewerFirst(a: Notification, b: Notification)
  {
    a.createdAt >= b.createdAt
  }

  lemma NewerFirstIsTotalPreorder()
    ensures TotalPreorder(NewerFirst)
  {
  }

  const NOTIFICATION_LIMIT: nat := 20

  /** getNotifications: the notifications sorted newest first, cut at 20. */
  function LatestNotifications(notifications: seq<Notification>): (r: seq<Notification>)
    ensures |r| == if |notifications| < NOTIFICATION_LIMIT then |notifications| else NOTIFICATION_LIMIT
    ensures multiset(r) <= multiset(notifications)
  {
    var sorted := SortBy(notifications, NewerFirst);
    var r := if |sorted| < NOTIFICATION_LIMIT then sorted else sorted[..NOTIFICATION_LIMIT];
    assert sorted == r + sorted[|r|..];
    r
  }

  /** The answer is the head of the newest-first ordering of all notifications
      (a permutation of them, by SortBy's contract), so no notification left out
      is newer than one returned. */
  lemma LatestAreNewest(notifications: seq<Notification>)
    ensures var sorted := SortBy(notifications, NewerFirst);
      && LatestNotifications(notifications) == sorted[..|LatestNotifications(notifications)|]
      && (forall i, j :: 0 <= i < j < |sorted| ==> sorted[i].createdAt >= sorted[j].createdAt)
  {
    NewerFirstIsTotalPreorder();
    SortBySorted(notifications, NewerFirst);
  }

  predicate IsUnread(n: Notification) { !n.read }

  /** getUnreadCount. */
  function UnreadCount(notifications: seq<Notification>): (c: nat)
    ensures c <= |notifications|
    ensures c == 0 <==> forall i :: 0 <= i < |notifications| ==> notifications[i].read
  {
    var unread := Filter(IsUnread, notifications);
    if |unread| == 0 then
      assert forall i :: 0 <= i < |notifications| ==> notifications[i] !in unread;
      0
    else
      assert unread[0] in notifications;
      |unread|
  }

  /** markAsRead on the collection: 404 for an unknown id, otherwise that
      notification (the first with the id) has read set. */
  function MarkRead(notifications: seq<Notification>, id: nat): (r: Response<seq<Notification>>)
    ensures r.Ok? || r == NotFound
    ensures r == NotFound <==> forall i :: 0 <= i < |notifications| ==> notifications[i].id != id
    ensures r.Ok? ==>
      exists k :: 0 <= k < |notifications| && notifications[k].id == id
                  && r.value == notifications[k := notifications[k].(read := true)]
  {
    match FindFirst((n: Notification) => n.id == id, notifications)
    case None => NotFound
    case Some(k) => Ok(notifications[k := notifications[k].(read := true)])
  }

  /** Marking the same notification twice leaves what marking it once left. */
  lemma MarkReadIdempotent(notifications: seq<Notification>, id: nat)
    requires MarkRead(notifications, id).Ok?
    ensures MarkRead(MarkRead(notifications, id).value, id) == MarkRead(notifications, id)
  {
    var k := FindFirst((n: Notification) => n.id == id, notifications).value;
    var once := MarkRead(notifications, id).value;
    assert forall i :: 0 <= i < |once| ==> once[i].id == notifications[i].id;
    assert FindFirst((n: Notification) => n.id == id, once) == Some(k);
    assert once[k := once[k].(read := true)] == once;
  }

  /** Marking a notification read lowers the unread count by one if it was
      unread, and leaves it otherwise. */
  lemma {:induction false} MarkReadUnreadCount(notifications: seq<Notification>, k: nat)
    requires k < |notifications|
    ensures Count(IsUnread, notifications[k := notifications[k].(read := true)])
         == Count(IsUnread, notifications) - (if notifications[k].read then 0 else 1)
  {
    if k > 0 {
      MarkReadUnreadCount(notifications[1..], k - 1);
      assert notifications[k := notifications[k].(read := true)][1..]
          == notifications[1..][k - 1 := notifications[k].(read := true)];
    } else {
      assert notifications[0 := notifications[0].(read := true)][1..] == notifications[1..];
    }
  }

  /** The notification collection. */
  class NotificationStore {
    var notifications: seq<Notification>

    constructor ()
      ensures notifications == []
    {
      notifications := [];
    }

    method Add(n: Notification)
      modifies this
      ensures notifications == old(notifications) + [n]
    {
      notifications := notifications + [n];
    }

    method MarkAsRead(id: nat) returns (r: Response<Notification>)
      modifies this
      ensures MarkRead(old(notifications), id) == NotFound ==> r == NotFound && notifications == old(notifications)
      ensures MarkRead(old(notifications), id).Ok? ==>
        notifications == MarkRead(old(notifications), id).value && r.Ok? && r.value.read && r.value.id == id
    {
      var found := FindFirst((n: Notification) => n.id == id, notifications);
      if found.None? {
        return NotFound;
      }
      var k := found.value;
      notifications := notifications[k := notifications[k].(read := true)];
      r := Ok(notifications[k]);
    }

    /** `updateMany({ read: false }, { read: true })`. */
    method MarkAllAsRead()
      modifies this
      ensures |notifications| == |old(notifications)|
      ensures forall i :: 0 <= i < |notifications| ==> notifications[i] == old(notifications)[i].(read := true)
      ensures UnreadCount(notifications) == 0
    {
      var all := notifications;
      notifications := seq(|all|, i requires 0 <= i < |all| => all[i].(read := true));
    }
  }
}
