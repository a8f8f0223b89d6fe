/** frontend/src/components/SmartShoppingList.js: the item selection and the
    guards that decide what the page sends to the shopping-list endpoints. */
module SmartShoppingList {
  import opened Common
  import opened Text
  import opened ShoppingListController

  /** handleSelectItem: a selected item is unselected, any other is
      appended to the selection. */
  function SelectItem(selected: seq<string>, item: string): (r: seq<string>)
    ensures item in selected ==> item !in r
    ensures item !in selected ==> r == selected + [item]
    ensures forall x :: x != item ==> (x in r <==> x in selected)
  {
    Toggle(selected, item)
  }

  /** Selecting an item twice leaves the same items selected, and a
      selection without repeats keeps none. */
  lemma SelectTwice(selected: seq<string>, item: string)
    ensures forall x :: x in SelectItem(SelectItem(selected, item), item) <==> x in selected
    ensures item !in selected ==> SelectItem(SelectItem(selected, item), item) == selected
    ensures Unique(selected) ==> Unique(SelectItem(selected, item))
  {
    ToggleTwice(selected, item);
    if Unique(selected) {
      ToggleKeepsUnique(selected, item);
    }
  }

  /** handleAddItem: the trimmed text is sent, and nothing for blank text. */
  function AddRequest(newItem: string): (item: Option<string>)
    ensures item.None? <==> IsBlank(newItem)
    ensures item.Some? ==> item.value == Trim(newItem) && item.value != ""
  {
    if IsBlank(newItem) then None else Some(Trim(newItem))
  }

  /** What the page sends is never refused by addItem for being missing or
      empty; only an exact duplicate of a pending item is refused. */
  lemma AddRequestAccepted(pending: Option<seq<string>>, newItem: string)
    requires !IsBlank(newItem)
    ensures AddItemOutcome(pending, AddRequest(newItem), false).Ok? <==>
      pending.None? || Trim(newItem) !in pending.value
  {
  }

  /** handleRemoveSelected: nothing is sent for an empty selection. */
  function RemoveRequest(selected: seq<string>): (r: Option<seq<string>>)
    ensures r.None? <==> selected == []
    ensures r.Some? ==> r.value == selected
  {
    if |selected| == 0 then None else Some(selected)
  }

  /** Once removeItems has run on the request, no selected item is left on
      the list, and every unselected item still is. */
  lemma RemovedSelectionIsGone(items: seq<string>, selected: seq<string>)
    requires RemoveRequest(selected).Some?
    ensures forall x :: x in selected ==> x !in Without(items, RemoveRequest(selected).value)
    ensures forall x :: x in items && x !in selected ==> x in Without(items, RemoveRequest(selected).value)
  {
  }

  /** The update request: the item being edited and the trimmed new text. */
  datatype Rename = Rename(oldItem: string, newItem: string)

  /** handleUpdateItem: nothing is sent unless an item is being edited and
      the new text is not blank. */
  function UpdateRequest(editingItem: Option<string>, editValue: string): (r: Option<Rename>)
    ensures r.Some? <==> editingItem.Some? && editingItem.value != "" && !IsBlank(editValue)
    ensures r.Some? ==> r.value == Rename(editingItem.value, Trim(editValue)) && r.value.newItem != ""
  {
    if editingItem.None? || editingItem.value == "" || IsBlank(editValue) then None
    else Some(Rename(editingItem.value, Trim(editValue)))
  }

  /** The Edit button, shown only with a non-empty selection, edits the
      first selected item. */
  function EditTarget(selected: seq<string>): (target: Option<string>)
    ensures target.None? <==> selected == []
    ensures target.Some? ==> target.value == selected[0] && target.value in selected
  {
    if |selected| == 0 then None else Some(selected[0])
  }
}
