/** BACKEND/controllers/reminderController.js: reminders for items that do not
    expire. A reminder keeps an interval in days and the date of the last
    purchase; it is due once that many days have passed. "add" puts the item on
    the shopping list and re-learns the interval; "skip" only lengthens it. */
module NonExpiringReminders {
  import opened Common
  import opened ShoppingListController

  /** A TempReminder document. The interval is in days and may be fractional
      (a skip stores elapsed time without rounding); dates are milliseconds. */
  datatype TempReminder = TempReminder(id: nat, itemName: string, reminderInterval: real, lastPurchasedDate: int)

  /** One entry of the reminder response (its text quotes itemName and daysUsed). */
  datatype ReminderMessage = ReminderMessage(id: nat, itemName: string, daysUsed: int)

  /** The query's test: now − lastPurchasedDate ≥ reminderInterval days; reaching the
      interval exactly counts as due. */
  predicate IsDue(r: TempReminder, now: int)
  {
    (now - r.lastPurchasedDate) as real >= r.reminderInterval * DAY_MS as real
  }

  /** Whole days since the last purchase, rounded down (Math.floor). */
  function DaysUsed(r: TempReminder, now: int): (d: int)
    ensures d * DAY_MS <= now - r.lastPurchasedDate < (d + 1) * DAY_MS
  {
    (now - r.lastPurchasedDate) / DAY_MS
  }

  function MessageFor(r: TempReminder, now: int): ReminderMessage
  {
    ReminderMessage(r.id, r.itemName, DaysUsed(r, now))
  }

  /** getNonExpiringReminders: nothing unless the query flag is exactly "true";
      otherwise one message per due reminder, in stored order. */
  function DueMessages(reminders: seq<TempReminder>, showReminders: Option<string>, now: int)
    : (r: seq<ReminderMessage>)
    ensures showReminders != Some("true") ==> r == []
    ensures showReminders == Some("true") ==>
      var due := Filter((x: TempReminder) => IsDue(x, now), reminders);
      |r| == |due| && forall i :: 0 <= i < |r| ==> r[i] == MessageFor(due[i], now)
  {
    if showReminders != Some("true") then []
    else
      var due := Filter((x: TempReminder) => IsDue(x, now), reminders);
      seq(|due|, i requires 0 <= i < |due| => MessageFor(due[i], now))
  }

  /** Every message answered with the flag set names a due reminder, and every
      due reminder gets a message. */
  lemma DueMessagesExactlyTheDue(reminders: seq<TempReminder>, now: int)
    ensures forall m :: m in DueMessages(reminders, Some("true"), now) <==>
      exists x :: x in reminders && IsDue(x, now) && m == MessageFor(x, now)
  {
    var due := Filter((x: TempReminder) => IsDue(x, now), reminders);
    var r := DueMessages(reminders, Some("true"), now);
    forall m ensures m in r <==> exists x :: x in reminders && IsDue(x, now) && m == MessageFor(x, now) {
      if m in r {
        var i :| 0 <= i < |r| && r[i] == m;
        assert due[i] in due;
      }
      if exists x :: x in reminders && IsDue(x, now) && m == MessageFor(x, now) {
        var x :| x in reminders && IsDue(x, now) && m == MessageFor(x, now);
        assert x in due;
        var i :| 0 <= i < |due| && due[i] == x;
        assert r[i] == m;
      }
    }
  }

  /** The "add" transition: the interval becomes the whole days used and the
      purchase date becomes now. */
  function AfterAdd(r: TempReminder, now: int): (s: TempReminder)
    ensures s.id == r.id && s.itemName == r.itemName
    ensures s.lastPurchasedDate == now
    ensures s.reminderInterval == DaysUsed(r, now) as real
  {
    r.(reminderInterval := DaysUsed(r, now) as real, lastPurchasedDate := now)
  }

  /** Days elapsed since the last purchase, not rounded. */
  function TimeSkipped(r: TempReminder, now: int): real
  {
    (now - r.lastPurchasedDate) as real / DAY_MS as real
  }

  /** The "skip" transition: the interval grows to the time elapsed when that is
      longer; nothing else changes. */
  function AfterSkip(r: TempReminder, now: int): (s: TempReminder)
    ensures s.reminderInterval >= r.reminderInterval
    ensures s.reminderInterval >= TimeSkipped(r, now)
    ensures s.reminderInterval == r.reminderInterval || s.reminderInterval == TimeSkipped(r, now)
    ensures s.(reminderInterval := r.reminderInterval) == r
  {
    var timeSkipped := TimeSkipped(r, now);
    if timeSkipped > r.reminderInterval then r.(reminderInterval := timeSkipped) else r
  }

  /** Right after "add", the reminder is due only if the learned interval is 0 (or
      negative, for a purchase date in the future). */
  lemma AfterAddDueIff(r: TempReminder, now: int)
    ensures IsDue(AfterAdd(r, now), now) <==> AfterAdd(r, now).reminderInterval <= 0.0
    ensures IsDue(AfterAdd(r, now), now) <==> now - r.lastPurchasedDate < DAY_MS
  {
    var d := DaysUsed(r, now);
    if d >= 1 {
      assert d as real * DAY_MS as real >= DAY_MS as real;
    }
  }

  /** A due reminder stays due as time passes. */
  lemma DueStaysDue(r: TempReminder, now: int, later: int)
    requires IsDue(r, now) && now <= later
    ensures IsDue(r, later)
  {
    assert (later - r.lastPurchasedDate) as real >= (now - r.lastPurchasedDate) as real;
  }

  /** "skip" never changes whether the reminder is due, now or at any later time:
      a due reminder gets exactly the elapsed time as interval, which the
      inclusive test still meets, and a reminder that is not due is unchanged. */
  lemma SkipKeepsDueness(r: TempReminder, now: int, later: int)
    requires now <= later
    ensures IsDue(AfterSkip(r, now), later) <==> IsDue(r, later)
  {
    var t := TimeSkipped(r, now);
    var elapsed := (now - r.lastPurchasedDate) as real;
    assert t * DAY_MS as real == elapsed;
    if t > r.reminderInterval {
      assert IsDue(r, now);
      DueStaysDue(r, now, later);
      assert IsDue(AfterSkip(r, now), now);
      DueStaysDue(AfterSkip(r, now), now, later);
    }
  }

  /** Position of the reminder with that id (findById). */
  function Find(reminders: seq<TempReminder>, id: nat): Option<nat>
  {
    FindFirst((r: TempReminder) => r.id == id, reminders)
  }

  /** addNonExpiringItem's new document: the interval given, or the default
      30 when none is kept (`reminderInterval || 30`), and the date given,
      or now. */
  function NewReminder(id: nat, itemName: string, reminderInterval: Option<real>,
                       lastPurchasedDate: Option<int>, now: int): (r: TempReminder)
    ensures r.id == id && r.itemName == itemName
    ensures r.reminderInterval == if reminderInterval.Some? then reminderInterval.value else 30.0
    ensures r.lastPurchasedDate == if lastPurchasedDate.Some? then lastPurchasedDate.value else now
  {
    var interval := if reminderInterval.None? then 30.0 else reminderInterval.value;
    var last := if lastPurchasedDate.Some? then lastPurchasedDate.value else now;
    TempReminder(id, itemName, interval, last)
  }

  /** A fresh reminder with default date is not due before its interval passes. */
  lemma NewReminderNotDueAtOnce(id: nat, itemName: string, interval: Option<real>, now: int)
    requires interval.None? || interval.value > 0.0
    ensures !IsDue(NewReminder(id, itemName, interval, None, now), now)
  {
  }

  /** The interval `reminderInterval || 30` keeps: the cast of a truthy field,
      none for a falsy one. */
  function KeptInterval(reminderInterval: NumberField): (r: Option<real>)
    requires !CastNumber(reminderInterval).CastFails?
    ensures r.None? <==> !Truthy(reminderInterval)
    ensures r.Some? ==> CastNumber(reminderInterval) == CastTo(r.value)
  {
    if Truthy(reminderInterval) then Some(CastNumber(reminderInterval).value) else None
  }

  /** What addNonExpiringItem answers. `itemName` is None when missing or
      null; `lastPurchasedDate` is None when falsy and Some(None) when it does
      not parse. `save()` fails (500) on a missing or empty name (the path is
      required) and on an interval or a date that does not cast. */
  function NewReminderOutcome(id: nat, itemName: Option<string>, reminderInterval: NumberField,
                              lastPurchasedDate: Option<Option<int>>, now: int): (r: Response<TempReminder>)
    ensures r.Ok? || r == ServerError
    ensures r == ServerError <==>
      || itemName.None? || itemName == Some("")
      || CastNumber(reminderInterval).CastFails? || lastPurchasedDate == Some(None)
    ensures r.Ok? ==> r.value == NewReminder(id, itemName.value, KeptInterval(reminderInterval),
      if lastPurchasedDate.Some? then lastPurchasedDate.value else None, now)
  {
    if itemName.None? || itemName.value == "" || CastNumber(reminderInterval).CastFails?
       || lastPurchasedDate == Some(None) then
      ServerError
    else
      Ok(NewReminder(id, itemName.value, KeptInterval(reminderInterval),
        if lastPurchasedDate.Some? then lastPurchasedDate.value else None, now))
  }

  /** The number 0 and null fall back to 30 days, while the string "0" is
      truthy and stored as 0, so the new reminder is due at once. */
  lemma ZeroTextIntervalIsKept(id: nat, itemName: string, now: int)
    requires itemName != ""
    ensures NewReminderOutcome(id, Some(itemName), JsonNumber(0.0), None, now).value.reminderInterval == 30.0
    ensures NewReminderOutcome(id, Some(itemName), Null, None, now).value.reminderInterval == 30.0
    ensures NewReminderOutcome(id, Some(itemName), JsonText("0", Some(0.0)), None, now)
         == Ok(TempReminder(id, itemName, 0.0, now))
    ensures IsDue(NewReminderOutcome(id, Some(itemName), JsonText("0", Some(0.0)), None, now).value, now)
  {
  }

  /** The TempReminder collection. */
  class ReminderStore {
    var reminders: seq<TempReminder>

    constructor ()
      ensures reminders == []
    {
      reminders := [];
    }

    /** addNonExpiringItem: the new document is stored only when it saves. */
    method AddNonExpiringItem(id: nat, itemName: Option<string>, reminderInterval: NumberField,
                              lastPurchasedDate: Option<Option<int>>, now: int) returns (r: Response<TempReminder>)
      modifies this
      ensures r == NewReminderOutcome(id, itemName, reminderInterval, lastPurchasedDate, now)
      ensures reminders == if r.Ok? then old(reminders) + [r.value] else old(reminders)
    {
      r := NewReminderOutcome(id, itemName, reminderInterval, lastPurchasedDate, now);
      if r.Ok? {
        reminders := reminders + [r.value];
      }
    }

    /** updateReminder. The action is checked before any lookup; "add" changes
        the shopping list too. */
    method UpdateReminder(list: ShoppingListStore, itemId: nat, action: string, now: int)
      returns (r: Response<()>)
      modifies this, list
      ensures action != "add" && action != "skip" ==>
        r == BadRequest && reminders == old(reminders) && list.lists == old(list.lists)
      ensures (action == "add" || action == "skip") && Find(old(reminders), itemId).None? ==>
        r == NotFound && reminders == old(reminders) && list.lists == old(list.lists)
      ensures action == "add" && Find(old(reminders), itemId).Some? ==>
        var k := Find(old(reminders), itemId).value;
        && r == Ok(())
        && reminders == old(reminders)[k := AfterAdd(old(reminders)[k], now)]
        && list.lists == ReminderAdd(old(list.lists), old(reminders)[k].itemName)
      ensures action == "skip" && Find(old(reminders), itemId).Some? ==>
        var k := Find(old(reminders), itemId).value;
        && r == Ok(())
        && reminders == old(reminders)[k := AfterSkip(old(reminders)[k], now)]
        && list.lists == old(list.lists)
      ensures old(list.Valid()) ==> list.Valid()
    {
      if action != "add" && action != "skip" {
        return BadRequest;
      }
      var found := Find(reminders, itemId);
      if found.None? {
        return NotFound;
      }
      var k := found.value;
      var item := reminders[k];
      if action == "add" {
        list.AddIfAbsent(item.itemName);
        reminders := reminders[k := AfterAdd(item, now)];
      } else {
        reminders := reminders[k := AfterSkip(item, now)];
      }
      r := Ok(());
    }
  }
}
