/** BACKEND/controllers/seasonalReminderController.js: the seasonal reminders of
    the current month, and the batch merge of seasonal items into the pending
    shopping list, which skips items already listed under any letter case. */
module SeasonalReminderController {
  import opened Common
  import opened Text
  import opened ShoppingListController

  /** A SeasonalReminder document (BACKEND/models/seasonalReminder.js). */
  datatype SeasonalReminder = SeasonalReminder(
    season: string, items: seq<string>, reminderDate: int, message: string, month: int, active: bool)

  /** The query of getActiveSeasonalReminders for calendar month `month` (1..12)
      and day of month `day`: the month must match and 1 ≤ day ≤ 31. */
  function ActiveSeasonalReminders(stored: seq<SeasonalReminder>, month: int, day: int)
    : (r: seq<SeasonalReminder>)
    ensures forall x :: x in r <==> x in stored && x.month == month && 1 <= day <= 31
    ensures IsSubsequence(r, stored)
  {
    var p := (x: SeasonalReminder) => x.month == month && 1 <= day <= 31;
    FilterIsSubsequence(p, stored);
    Filter(p, stored)
  }

  /** The day bounds exclude nothing: every real day of the month lies in 1..31,
      so the result is exactly the reminders of the current month. */
  lemma DayBoundsNeverExclude(stored: seq<SeasonalReminder>, month: int, day: int)
    requires 1 <= day <= 31
    ensures ActiveSeasonalReminders(stored, month, day)
         == Filter((x: SeasonalReminder) => x.month == month, stored)
  {
    FilterSameOnAll(
      (x: SeasonalReminder) => x.month == month && 1 <= day <= 31,
      (x: SeasonalReminder) => x.month == month, stored);
  }

  lemma {:induction false} FilterSameOnAll<T(!new)>(p: T -> bool, q: T -> bool, s: seq<T>)
    requires forall x :: p(x) == q(x)
    ensures Filter(p, s) == Filter(q, s)
  {
    if s != [] {
      FilterSameOnAll(p, q, s[1..]);
    }
  }

  /** `list.some(listItem => listItem.toLowerCase() === item.toLowerCase())`. */
  predicate HasCaseInsensitive(list: seq<string>, item: string)
  {
    exists k :: 0 <= k < |list| && EqualsIgnoreCase(list[k], item)
  }

  /** The list after the forEach over `items`: each item is pushed unless the list,
      as it stands at that point, already holds it under some letter case. */
  function MergeCaseInsensitive(list: seq<string>, items: seq<string>): (r: seq<string>)
    ensures |list| <= |r| <= |list| + |items|
    ensures r[..|list|] == list
    decreases |items|
  {
    if items == [] then list
    else
      var m := MergeCaseInsensitive(list, items[..|items| - 1]);
      var item := items[|items| - 1];
      if HasCaseInsensitive(m, item) then m else m + [item]
  }

  /** After the merge every input item is present, up to letter case. */
  lemma {:induction false} MergeContainsAll(list: seq<string>, items: seq<string>)
    ensures forall j :: 0 <= j < |items| ==> HasCaseInsensitive(MergeCaseInsensitive(list, items), items[j])
    decreases |items|
  {
    if items != [] {
      var init := items[..|items| - 1];
      var m := MergeCaseInsensitive(list, init);
      var r := MergeCaseInsensitive(list, items);
      MergeContainsAll(list, init);
      forall j | 0 <= j < |items| ensures HasCaseInsensitive(r, items[j]) {
        if j < |items| - 1 {
          assert items[j] == init[j];
          var k :| 0 <= k < |m| && EqualsIgnoreCase(m[k], items[j]);
          assert r[k] == m[k];
        } else if !HasCaseInsensitive(m, items[j]) {
          assert r[|m|] == items[j];
        }
      }
    }
  }

  /** No entry from position `from` on equals an earlier entry up to letter case. */
  predicate NoCaseInsensitiveRepeatFrom(r: seq<string>, from: int)
  {
    forall i, j :: 0 <= i < j < |r| && from <= j ==> !EqualsIgnoreCase(r[i], r[j])
  }

  /** An entry added by the merge is equal, up to letter case, to no entry
      before it: the batch creates no new case-insensitive duplicate, not even
      between two of its own items. */
  lemma {:induction false} MergeAddsNoDuplicates(list: seq<string>, items: seq<string>)
    ensures NoCaseInsensitiveRepeatFrom(MergeCaseInsensitive(list, items), |list|)
    decreases |items|
  {
    if items != [] {
      var m := MergeCaseInsensitive(list, items[..|items| - 1]);
      MergeAddsNoDuplicates(list, items[..|items| - 1]);
      var item := items[|items| - 1];
      var r := MergeCaseInsensitive(list, items);
      if !HasCaseInsensitive(m, item) {
        assert r == m + [item];
        forall i, j | 0 <= i < j < |r| && |list| <= j ensures !EqualsIgnoreCase(r[i], r[j]) {
          if j == |m| {
            assert r[i] == m[i] && r[j] == item;
          } else {
            assert r[i] == m[i] && r[j] == m[j];
          }
        }
      }
    }
  }

  /** The entries after the old list are input items, in input order. */
  lemma {:induction false} MergeAppendsInInputOrder(list: seq<string>, items: seq<string>)
    ensures var r := MergeCaseInsensitive(list, items);
      IsSubsequence(r[|list|..], items)
    decreases |items|
  {
    var r := MergeCaseInsensitive(list, items);
    if items == [] {
      assert r[|list|..] == [];
    } else {
      var init := items[..|items| - 1];
      var m := MergeCaseInsensitive(list, init);
      var item := items[|items| - 1];
      MergeAppendsInInputOrder(list, init);
      assert items == init + [item];
      if HasCaseInsensitive(m, item) {
        SubsequenceAppendRight(m[|list|..], init, item);
      } else {
        assert r[|list|..] == m[|list|..] + [item];
        SubsequenceAppendBoth(m[|list|..], init, item);
      }
    }
  }

  /** addSeasonalItemsToShoppingList. `items` is None when the body has no
      array; `items.forEach` then throws and nothing is saved, not even the empty
      list created for the occasion. */
  method AddSeasonalItemsToShoppingList(list: ShoppingListStore, items: Option<seq<string>>)
    returns (r: Response<()>)
    modifies list
    ensures items.None? ==> r == ServerError && list.lists == old(list.lists)
    ensures items.Some? ==>
      r == Ok(()) && list.lists == SavePending(old(list.lists), MergeCaseInsensitive(old(list.Items()), items.value))
    ensures old(list.Valid()) ==> list.Valid()
  {
    if items.None? {
      return ServerError;
    }
    var cur := list.Items();
    var i := 0;
    while i < |items.value|
      invariant 0 <= i <= |items.value|
      invariant cur == MergeCaseInsensitive(old(list.Items()), items.value[..i])
    {
      var item := items.value[i];
      assert items.value[..i + 1][..i] == items.value[..i];
      if !HasCaseInsensitive(cur, item) {
        cur := cur + [item];
      }
      i := i + 1;
    }
    assert items.value[..i] == items.value;
    list.lists := SavePending(list.lists, cur);
    r := Ok(());
  }
}
