/** frontend/src/components/NotificationBell.js: the "time ago" label, when
    the bell rings, and the icon of each notification type. */
module NotificationBell {
  import opened Text
  import opened NotificationControllers

  const MINUTE_MS: int := 60_000

  /** formatTime for a notification created at `timestamp`, seen at `now`:
      successive floors to minutes, hours and days, and the first bucket that
      applies. */
  function FormatTime(timestamp: int, now: int): (shown: string)
  {
    var diffMins := (now - timestamp) / MINUTE_MS;
    var diffHours := diffMins / 60;
    var diffDays := diffHours / 24;
    if diffMins < 1 then "Just now"
    else if diffMins < 60 then NatToString(diffMins) + " min ago"
    else if diffHours < 24 then NatToString(diffHours) + " hr ago"
    else NatToString(diffDays) + " day ago"
  }

  /** Flooring minutes to hours and hours to days is flooring the elapsed
      time to whole hours and whole days. */
  lemma SuccessiveFloors(diffMs: int)
    ensures diffMs / MINUTE_MS / 60 == diffMs / (60 * MINUTE_MS)
    ensures diffMs / MINUTE_MS / 60 / 24 == diffMs / (24 * 60 * MINUTE_MS)
  {
    FloorOfFloor(diffMs, MINUTE_MS, 60);
    FloorOfFloor(diffMs, 60 * MINUTE_MS, 24);
  }

  /** `floor(floor(x / a) / b) == floor(x / (a * b))` for positive a and b. */
  lemma FloorOfFloor(x: int, a: int, b: int)
    requires a > 0 && b > 0
    ensures x / a / b == x / (a * b)
  {
    var q := x / a;
    var r := q / b;
    DivBounds(x, a);
    DivBounds(q, b);
    MultiplyMonotone(a, b * r, q);
    MultiplyMonotone(a, q + 1, b * r + b);
    assert a * (b * r) == (a * b) * r;
    assert a * (b * r + b) == (a * b) * r + a * b;
    assert a * (q + 1) == a * q + a;
    DivUnique(x, a * b, r);
  }

  lemma DivBounds(x: int, d: int)
    requires d > 0
    ensures d * (x / d) <= x < d * (x / d) + d
  {
  }

  lemma DivUnique(x: int, d: int, q: int)
    requires d > 0 && d * q <= x < d * q + d
    ensures x / d == q
  {
    DivBounds(x, d);
    var p := x / d;
    assert d * (p + 1) == d * p + d;
    assert d * (q + 1) == d * q + d;
    if p < q {
      MultiplyMonotone(d, p + 1, q);
    } else if p > q {
      MultiplyMonotone(d, q + 1, p);
    }
  }

  lemma MultiplyMonotone(a: int, x: int, y: int)
    requires a > 0 && x <= y
    ensures a * x <= a * y
  {
  }

  /** The bucket each elapsed time falls in. A timestamp in the future reads
      "Just now". */
  lemma FormatTimeBuckets(timestamp: int, now: int)
    ensures FormatTime(timestamp, now) == "Just now" <==> now - timestamp < MINUTE_MS
    ensures MINUTE_MS <= now - timestamp < 60 * MINUTE_MS ==>
      FormatTime(timestamp, now) == NatToString((now - timestamp) / MINUTE_MS) + " min ago"
    ensures 60 * MINUTE_MS <= now - timestamp < 24 * 60 * MINUTE_MS ==>
      FormatTime(timestamp, now) == NatToString((now - timestamp) / (60 * MINUTE_MS)) + " hr ago"
    ensures 24 * 60 * MINUTE_MS <= now - timestamp ==>
      FormatTime(timestamp, now) == NatToString((now - timestamp) / (24 * 60 * MINUTE_MS)) + " day ago"
    ensures timestamp > now ==> FormatTime(timestamp, now) == "Just now"
  {
    SuccessiveFloors(now - timestamp);
    var diffMins := (now - timestamp) / MINUTE_MS;
    if diffMins >= 1 {
      var shown := FormatTime(timestamp, now);
      assert shown[|shown| - 4..] == " ago";
      assert "Just now"[|"Just now"| - 4..] != " ago";
    }
  }

  /** The bell rings when a poll finds more unread notifications than before. */
  function Rings(previousCount: nat, newCount: nat): (ring: bool)
    ensures ring <==> newCount > previousCount
  {
    newCount > previousCount
  }

  /** Marking a notification read never makes the bell ring on the refetch
      that markAsRead starts at once, which compares with the count on
      display. */
  lemma MarkReadNeverRings(notifications: seq<Notification>, k: nat)
    requires k < |notifications|
    ensures !Rings(UnreadCount(notifications), UnreadCount(notifications[k := notifications[k].(read := true)]))
  {
    MarkReadUnreadCount(notifications, k);
  }

  /** The bell's state: the unread count on display, and whether the latest
      fetch of the count started the ring animation. */
  class Bell {
    var unreadCount: nat
    var rang: bool

    constructor ()
      ensures unreadCount == 0 && !rang
    {
      unreadCount := 0;
      rang := false;
    }

    /** fetchUnreadCount of the current render, as markAsRead, markAllAsRead
        and the mount effect call it: it rings when the count rose above the
        one on display, then shows the new count. */
    method FetchUnreadCount(notifications: seq<Notification>)
      modifies this
      ensures rang == Rings(old(unreadCount), UnreadCount(notifications))
      ensures unreadCount == UnreadCount(notifications)
    {
      var newCount := UnreadCount(notifications);
      rang := Rings(unreadCount, newCount);
      unreadCount := newCount;
    }

    /** The 30-second poll as written. The interval is created once, on
        mount, and calls the fetchUnreadCount of the first render, whose
        count is still 0: every poll rings while anything is unread. */
    method PollAsWritten(notifications: seq<Notification>)
      modifies this
      ensures rang <==> UnreadCount(notifications) > 0
      ensures unreadCount == UnreadCount(notifications)
    {
      var newCount := UnreadCount(notifications);
      rang := Rings(0, newCount);
      unreadCount := newCount;
    }
  }

  /** With an unread notification and nothing new since, the poll as written
      rings again after the count is already on display. */
  method StalePollRingsAgain(notifications: seq<Notification>) returns (bell: Bell)
    requires UnreadCount(notifications) > 0
    ensures bell.unreadCount == UnreadCount(notifications) && bell.rang
  {
    bell := new Bell();
    bell.FetchUnreadCount(notifications);
    bell.PollAsWritten(notifications);
  }

  /** Compared with the count on display, a second fetch with nothing new
      stays silent, and so does the refetch after a notification is marked
      read. */
  method RefetchRingsOnlyOnIncrease(notifications: seq<Notification>, k: nat) returns (bell: Bell)
    requires k < |notifications|
    ensures bell.unreadCount == UnreadCount(notifications[k := notifications[k].(read := true)])
    ensures !bell.rang
  {
    bell := new Bell();
    bell.FetchUnreadCount(notifications);
    bell.FetchUnreadCount(notifications);
    MarkReadNeverRings(notifications, k);
    bell.FetchUnreadCount(notifications[k := notifications[k].(read := true)]);
  }

  /** The `type` string the server sends. */
  function TypeName(t: NotificationType): string
  {
    match t
    case BudgetExceeded => "budget_exceeded"
    case LowStock => "low_stock"
    case ExpiredProduct => "expired_product"
    case Other => "other"
  }

  datatype Icon = MoneyBill | Warning | CalendarCross | Circle

  /** getNotificationIcon. */
  function NotificationIcon(kind: string): (icon: Icon)
    ensures icon == MoneyBill <==> kind == "budget_exceeded"
    ensures icon == Warning <==> kind == "low_stock"
    ensures icon == CalendarCross <==> kind == "expired_product"
    ensures icon == Circle <==> kind !in ["budget_exceeded", "low_stock", "expired_product"]
  {
    match kind
    case "budget_exceeded" => MoneyBill
    case "low_stock" => Warning
    case "expired_product" => CalendarCross
    case _ => Circle
  }

  /** Different server types get different icons. */
  lemma IconsDistinguishTypes(a: NotificationType, b: NotificationType)
    ensures NotificationIcon(TypeName(a)) == NotificationIcon(TypeName(b)) <==> a == b
  {
  }
}
