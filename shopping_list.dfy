/** BACKEND/controllers/shoppingListController.js: the single pending shopping
    list, kept as one document that may or may not exist. Three controllers
    change it in place (this one, the "add" action of the reminder controller
    and the seasonal merge); each has its own duplicate policy. */
module ShoppingListController {
  import opened Common

  /** addItem's outcome on the stored list `pending` (None: no pending document).
      The result carries the list that is saved. */
  function AddItemOutcome(pending: Option<seq<string>>, item: Option<string>, isSeasonal: bool)
    : (r: Response<seq<string>>)
    ensures r.Ok? || r == BadRequest
    ensures (item.None? || item == Some("")) ==> r == BadRequest
    ensures r.Ok? <==> item.Some? && item.value != ""
                       && (pending.None? || isSeasonal || item.value !in pending.value)
    ensures r.Ok? ==> r.value == (if pending.None? then [] else pending.value) + [item.value]
  {
    if item.None? || item.value == "" then BadRequest
    else if pending.None? then Ok([item.value])
    else if !isSeasonal && item.value in pending.value then BadRequest
    else Ok(pending.value + [item.value])
  }

  /** removeItems' list: the entries not named in `toRemove`, in their order. */
  function Without(items: seq<string>, toRemove: seq<string>): (r: seq<string>)
    ensures forall x :: x in r <==> x in items && x !in toRemove
    ensures multiset(r) <= multiset(items)
  {
    Filter((x: string) => x !in toRemove, items)
  }

  /** One line of the downloaded list: `${index + 1}. ${item}`. */
  datatype Line = Line(number: nat, item: string)

  function Numbered(items: seq<string>): (r: seq<Line>)
    ensures |r| == |items|
    ensures forall i :: 0 <= i < |r| ==> r[i] == Line(i + 1, items[i])
  {
    seq(|items|, i requires 0 <= i < |items| => Line(i + 1, items[i]))
  }

  /** What a reminder contributes to the download: the handler maps `item.name`
      over TempReminder documents and `item.itemName` over SeasonalReminder
      documents, fields their schemas do not have, so each found reminder
      prints as the text of `undefined`. */
  const UNDEFINED := "undefined"

  /** The items downloadPDF lists: the pending list's items, then one
      UNDEFINED per non-expiring reminder and per seasonal reminder that the
      `find({ status: "pending" })` queries return (how many that is depends
      on how the driver treats a filter on a path the schema lacks, so the
      counts are parameters); 404 when there is nothing to list. */
  function DownloadLines(pending: Option<seq<string>>, nonExpiringFound: nat, seasonalFound: nat)
    : (r: Response<seq<Line>>)
    ensures r.Ok? || r == NotFound
    ensures r == NotFound <==> (pending.None? || pending.value == []) && nonExpiringFound == 0 && seasonalFound == 0
    ensures r.Ok? ==>
      var items := if pending.None? then [] else pending.value;
      && |r.value| == |items| + nonExpiringFound + seasonalFound
      && (forall i :: 0 <= i < |items| ==> r.value[i] == Line(i + 1, items[i]))
      && (forall i :: |items| <= i < |r.value| ==> r.value[i] == Line(i + 1, UNDEFINED))
  {
    var shoppingItems := if pending.None? then [] else pending.value;
    var reminderItems := seq(nonExpiringFound + seasonalFound, _ => UNDEFINED);
    var all := shoppingItems + reminderItems;
    if |all| == 0 then NotFound
    else
      assert forall i :: |shoppingItems| <= i < |all| ==> all[i] == UNDEFINED;
      Ok(Numbered(all))
  }

  /** A shopping-list document; `pending` says its status is "pending". A
      document created without a status is not pending. */
  datatype ListDoc = ListDoc(items: seq<string>, pending: bool)

  /** The document `findOne({ status: "pending" })` returns. */
  function PendingIndex(lists: seq<ListDoc>): Option<nat>
  {
    FindFirst((d: ListDoc) => d.pending, lists)
  }

  /** The items of that document; None when no document is pending. */
  function PendingList(lists: seq<ListDoc>): (r: Option<seq<string>>)
    ensures r.None? <==> forall i :: 0 <= i < |lists| ==> !lists[i].pending
    ensures r.Some? ==> exists i :: 0 <= i < |lists| && lists[i].pending && lists[i].items == r.value
  {
    match PendingIndex(lists)
    case None => None
    case Some(k) => Some(lists[k].items)
  }

  /** At most one document is pending. */
  predicate OnePending(lists: seq<ListDoc>)
  {
    forall i, j :: 0 <= i < j < |lists| && lists[i].pending ==> !lists[j].pending
  }

  /** Saving `items` as the pending list: into the pending document when there
      is one, otherwise as a new pending document. Other documents stay. */
  function SavePending(lists: seq<ListDoc>, items: seq<string>): (r: seq<ListDoc>)
    ensures PendingList(r) == Some(items)
    ensures |lists| <= |r| <= |lists| + 1
    ensures forall i :: 0 <= i < |lists| && !lists[i].pending ==> r[i] == lists[i]
    ensures OnePending(lists) ==> OnePending(r)
  {
    match PendingIndex(lists)
    case Some(k) =>
      var r := lists[k := ListDoc(items, true)];
      assert PendingIndex(r) == Some(k) by {
        assert forall i :: 0 <= i < k ==> !r[i].pending;
        assert r[k].pending;
      }
      r
    case None =>
      var r := lists + [ListDoc(items, true)];
      assert PendingIndex(r) == Some(|lists|) by {
        assert forall i :: 0 <= i < |lists| ==> !r[i].pending;
        assert r[|lists|].pending;
      }
      r
  }

  /** `deleteOne({ status: "pending" })`: the pending document goes, if any. */
  function DeletePending(lists: seq<ListDoc>): (r: seq<ListDoc>)
    ensures PendingIndex(lists).None? ==> r == lists
    ensures PendingIndex(lists).Some? ==> |r| == |lists| - 1
    ensures forall d :: d in r ==> d in lists
    ensures OnePending(lists) ==> OnePending(r) && PendingList(r).None?
  {
    match PendingIndex(lists)
    case None => lists
    case Some(k) =>
      var r := lists[..k] + lists[k + 1..];
      assert forall i :: 0 <= i < |r| ==> r[i] == lists[if i < k then i else i + 1];
      r
  }

  /** The "add" action of the reminder controller: `findOne()` without a status
      filter takes the first document of any status, which gains the name
      unless it already holds it exactly; with no document at all, a new one
      is created without a status. */
  function ReminderAdd(lists: seq<ListDoc>, name: string): (r: seq<ListDoc>)
    ensures |r| == if lists == [] then 1 else |lists|
    ensures lists == [] ==> r == [ListDoc([name], false)] && PendingList(r).None?
    ensures lists != [] ==> r[0] == ListDoc(AppendIfAbsent(lists[0].items, name), lists[0].pending) && name in r[0].items
    ensures forall i :: 1 <= i < |lists| ==> r[i] == lists[i]
    ensures lists != [] && lists[0].pending ==> PendingList(r) == Some(AppendIfAbsent(lists[0].items, name))
    ensures lists != [] && !lists[0].pending ==> PendingList(r) == PendingList(lists)
    ensures OnePending(lists) ==> OnePending(r)
  {
    if lists == [] then [ListDoc([name], false)]
    else
      var r := lists[0 := lists[0].(items := AppendIfAbsent(lists[0].items, name))];
      assert forall i :: 0 <= i < |r| ==> r[i].pending == lists[i].pending;
      assert lists[0].pending ==> PendingIndex(lists) == Some(0) && PendingIndex(r) == Some(0);
      assert !lists[0].pending ==> PendingIndex(r) == PendingIndex(lists) by {
        if !lists[0].pending { PendingIndexSameFlags(lists, r); }
      }
      r
  }

  /** Documents with the same statuses in the same places have the same
      pending document. */
  lemma {:induction false} PendingIndexSameFlags(a: seq<ListDoc>, b: seq<ListDoc>)
    requires |a| == |b| && forall i :: 0 <= i < |a| ==> a[i].pending == b[i].pending
    ensures PendingIndex(a) == PendingIndex(b)
  {
    if a != [] {
      PendingIndexSameFlags(a[1..], b[1..]);
    }
  }

  /** The shopping-list collection. */
  class ShoppingListStore {
    var lists: seq<ListDoc>

    /** Every handler that creates a pending document first looks for one, so
        at most one document is pending. */
    ghost predicate Valid()
      reads this
    {
      OnePending(lists)
    }

    constructor ()
      ensures lists == [] && Valid()
    {
      lists := [];
    }

    /** The items of the pending list (empty when there is none). */
    function Items(): seq<string>
      reads this
    {
      if PendingList(lists).None? then [] else PendingList(lists).value
    }

    method AddItem(item: Option<string>, isSeasonal: bool) returns (r: Response<seq<string>>)
      modifies this
      ensures r == AddItemOutcome(old(PendingList(lists)), item, isSeasonal)
      ensures lists == if r.Ok? then SavePending(old(lists), r.value) else old(lists)
      ensures old(Valid()) ==> Valid()
    {
      if item.None? || item.value == "" {
        return BadRequest;
      }
      var pending := PendingList(lists);
      if pending.None? {
        r := Ok([item.value]);
      } else {
        if !isSeasonal && item.value in pending.value {
          return BadRequest;
        }
        r := Ok(pending.value + [item.value]);
      }
      lists := SavePending(lists, r.value);
    }

    method GetShoppingList() returns (r: Response<seq<string>>)
      ensures r == NotFound <==> PendingList(lists).None?
      ensures r.Ok? ==> PendingList(lists) == Some(r.value)
      ensures r.Ok? || r == NotFound
    {
      var pending := PendingList(lists);
      if pending.None? {
        return NotFound;
      }
      r := Ok(pending.value);
    }

    /** `itemsToRemove` is None when the body's field is missing or not an array. */
    method RemoveItems(itemsToRemove: Option<seq<string>>) returns (r: Response<seq<string>>)
      modifies this
      ensures itemsToRemove.None? ==> r == BadRequest && lists == old(lists)
      ensures itemsToRemove.Some? && old(PendingList(lists)).None? ==> r == NotFound && lists == old(lists)
      ensures itemsToRemove.Some? && old(PendingList(lists)).Some? ==>
        && r == Ok(Without(old(PendingList(lists)).value, itemsToRemove.value))
        && lists == SavePending(old(lists), r.value)
      ensures old(Valid()) ==> Valid()
    {
      if itemsToRemove.None? {
        return BadRequest;
      }
      var pending := PendingList(lists);
      if pending.None? {
        return NotFound;
      }
      r := Ok(Without(pending.value, itemsToRemove.value));
      lists := SavePending(lists, r.value);
    }

    /** Deletes the pending document; succeeds whether or not one existed. */
    method ClearShoppingList() returns (r: Response<()>)
      modifies this
      ensures lists == DeletePending(old(lists)) && r == Ok(())
      ensures old(Valid()) ==> Valid() && PendingList(lists).None?
    {
      lists := DeletePending(lists);
      r := Ok(());
    }

    /** The "add" action of the reminder controller (see ReminderAdd). */
    method AddIfAbsent(name: string)
      modifies this
      ensures lists == ReminderAdd(old(lists), name)
      ensures old(Valid()) ==> Valid()
    {
      if lists == [] {
        lists := [ListDoc([name], false)];
      } else if name !in lists[0].items {
        lists := lists[0 := lists[0].(items := lists[0].items + [name])];
      }
    }
  }

  /** The list after an exact-match deduplicating append. */
  function AppendIfAbsent(items: seq<string>, name: string): (r: seq<string>)
    ensures name in r
    ensures name in items ==> r == items
    ensures name !in items ==> r == items + [name]
  {
    if name in items then items else items + [name]
  }

  /** An append that deduplicates keeps a duplicate-free list duplicate-free. */
  lemma AppendIfAbsentKeepsDistinct(items: seq<string>, name: string)
    requires forall i, j :: 0 <= i < j < |items| ==> items[i] != items[j]
    ensures var r := AppendIfAbsent(items, name);
      forall i, j :: 0 <= i < j < |r| ==> r[i] != r[j]
  {
    var r := AppendIfAbsent(items, name);
    if name !in items {
      forall i, j | 0 <= i < j < |r| ensures r[i] != r[j] {
        if j == |items| { assert r[i] == items[i]; }
      }
    }
  }

  /** A non-seasonal addItem keeps a duplicate-free list duplicate-free. */
  lemma AddItemNonSeasonalKeepsDistinct(pending: Option<seq<string>>, item: Option<string>)
    requires pending.Some? ==> forall i, j :: 0 <= i < j < |pending.value| ==> pending.value[i] != pending.value[j]
    ensures var r := AddItemOutcome(pending, item, false);
      r.Ok? ==> forall i, j :: 0 <= i < j < |r.value| ==> r.value[i] != r.value[j]
  {
    var r := AddItemOutcome(pending, item, false);
    if r.Ok? && pending.Some? {
      assert r.value == AppendIfAbsent(pending.value, item.value);
      AppendIfAbsentKeepsDistinct(pending.value, item.value);
    }
  }

  /** With isSeasonal, adding an item already present succeeds and duplicates it. */
  lemma SeasonalAddDuplicates(items: seq<string>, item: string)
    requires item != "" && item in items
    ensures AddItemOutcome(Some(items), Some(item), true) == Ok(items + [item])
    ensures multiset(items + [item])[item] >= 2
  {
    var k :| 0 <= k < |items| && items[k] == item;
    assert multiset(items)[item] >= 1;
  }

  /** removeItems keeps the surviving items in their original relative order. */
  lemma WithoutIsSubsequence(items: seq<string>, toRemove: seq<string>)
    ensures IsSubsequence(Without(items, toRemove), items)
  {
    FilterIsSubsequence((x: string) => x !in toRemove, items);
  }

  /** A second identical removeItems call changes nothing. */
  lemma WithoutIdempotent(items: seq<string>, toRemove: seq<string>)
    ensures Without(Without(items, toRemove), toRemove) == Without(items, toRemove)
  {
    FilterIdempotent((x: string) => x !in toRemove, items);
  }

  /** After clearShoppingList, getShoppingList reports 404; addItem then starts a
      new list holding only its item. */
  method ClearThenGet(store: ShoppingListStore, item: string) returns (got: Response<seq<string>>, added: Response<seq<string>>)
    requires item != "" && store.Valid()
    modifies store
    ensures got == NotFound
    ensures added == Ok([item]) && PendingList(store.lists) == Some([item])
  {
    var _ := store.ClearShoppingList();
    got := store.GetShoppingList();
    added := store.AddItem(Some(item), false);
  }

  /** On an empty collection, a reminder's "add" creates a list that is not
      pending: getShoppingList still answers 404, and a later addItem starts a
      second document. */
  method ReminderAddThenGet(store: ShoppingListStore, name: string, item: string)
    returns (got: Response<seq<string>>, added: Response<seq<string>>)
    requires store.lists == [] && item != ""
    modifies store
    ensures got == NotFound
    ensures added == Ok([item])
    ensures store.lists == [ListDoc([name], false), ListDoc([item], true)]
  {
    store.AddIfAbsent(name);
    got := store.GetShoppingList();
    added := store.AddItem(Some(item), false);
  }
}
