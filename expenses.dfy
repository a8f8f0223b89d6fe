/** BACKEND/controllers/ExpenseControllers.js: expenses listed newest first,
    by category, partially updated and deleted. */
module ExpenseControllers {
  import opened Common
  import opened Text
  import opened Sorting

  /** The categories BACKEND/models/ExpenseModel.js accepts. */
  const EXPENSE_CATEGORIES: seq<string> := [
    "Groceries", "Utilities", "Housing", "Transportation", "Entertainment", "Healthcare",
    "Education", "Personal Care", "Dining Out", "Travel", "Clothing", "Home Improvement",
    "Electronics", "Gifts", "Other"]

  datatype Expense = Expense(
    id: nat, itemName: string, category: string, subcategory: string, amount: real, createdAt: int)

  /** What `save()` accepts: the schema's required fields, its enum and `min: 0`. */
  predicate ValidExpense(e: Expense)
  {
    e.itemName != "" && e.category in EXPENSE_CATEGORIES && e.subcategory != "" && e.amount >= 0.0
  }

  /** `sort({ createdAt: -1 })`. */
  predicate NewerFirst(a: Expense, b: Expense)
  {
    a.createdAt >= b.createdAt
  }

  lemma NewerFirstIsTotalPreorder()
    ensures TotalPreorder(NewerFirst)
  {
  }

  /** getAllExpenses: every expense, newest first. */
  function AllExpenses(expenses: seq<Expense>): (r: seq<Expense>)
    ensures multiset(r) == multiset(expenses)
    ensures forall i, j :: 0 <= i < j < |r| ==> r[i].createdAt >= r[j].createdAt
  {
    NewerFirstIsTotalPreorder();
    SortBySorted(expenses, NewerFirst);
    SortBy(expenses, NewerFirst)
  }

  /** getExpensesByCategory: exactly that category's expenses, newest first;
      404 when there are none. */
  function ExpensesByCategory(expenses: seq<Expense>, category: string): (r: Response<seq<Expense>>)
    ensures r.Ok? || r == NotFound
    ensures r == NotFound <==> forall i :: 0 <= i < |expenses| ==> expenses[i].category != category
    ensures r.Ok? ==> multiset(r.value) == multiset(Filter((e: Expense) => e.category == category, expenses))
    ensures r.Ok? ==> forall e :: e in r.value <==> e in expenses && e.category == category
    ensures r.Ok? ==> forall i, j :: 0 <= i < j < |r.value| ==> r.value[i].createdAt >= r.value[j].createdAt
  {
    var matching := Filter((e: Expense) => e.category == category, expenses);
    if |matching| == 0 then
      assert forall i :: 0 <= i < |expenses| ==> expenses[i] !in matching;
      NotFound
    else
      assert matching[0] in expenses && matching[0].category == category;
      var sorted := AllExpenses(matching);
      assert forall e :: e in sorted <==> e in multiset(matching);
      Ok(sorted)
  }

  /** The body of an update request. A string field is None when not sent and
      Some(None) when sent as null; the amount is a NumberField. */
  datatype ExpensePatch = ExpensePatch(
    itemName: Option<Option<string>>, category: Option<Option<string>>,
    subcategory: Option<Option<string>>, amount: NumberField)

  /** updateExpense's `!== undefined` assignments, as `save()` sees them: a
      field sent as null fails its `required` path and an amount that casts
      to null or fails the cast is refused (500); otherwise each sent field
      is assigned, itemName trimmed by the schema. */
  function ApplyPatch(e: Expense, patch: ExpensePatch): (r: Response<Expense>)
    ensures r.Ok? || r == ServerError
    ensures r == ServerError <==>
      || patch.itemName == Some(None) || patch.category == Some(None) || patch.subcategory == Some(None)
      || (!patch.amount.Absent? && !CastNumber(patch.amount).CastTo?)
    ensures r.Ok? ==>
      && r.value.id == e.id && r.value.createdAt == e.createdAt
      && r.value.itemName == (if patch.itemName.Some? then Trim(patch.itemName.value.value) else e.itemName)
      && r.value.category == (if patch.category.Some? then patch.category.value.value else e.category)
      && r.value.subcategory == (if patch.subcategory.Some? then patch.subcategory.value.value else e.subcategory)
      && r.value.amount == (if patch.amount.Absent? then e.amount else CastNumber(patch.amount).value)
  {
    if patch.itemName == Some(None) || patch.category == Some(None) || patch.subcategory == Some(None)
       || (!patch.amount.Absent? && !CastNumber(patch.amount).CastTo?) then
      ServerError
    else
      var e1 := if patch.itemName.Some? then e.(itemName := Trim(patch.itemName.value.value)) else e;
      var e2 := if patch.category.Some? then e1.(category := patch.category.value.value) else e1;
      var e3 := if patch.subcategory.Some? then e2.(subcategory := patch.subcategory.value.value) else e2;
      Ok(if patch.amount.Absent? then e3 else e3.(amount := CastNumber(patch.amount).value))
  }

  /** An update that sends nothing leaves the expense as it was. */
  lemma EmptyPatchIsIdentity(e: Expense)
    ensures ApplyPatch(e, ExpensePatch(None, None, None, Absent)) == Ok(e)
  {
  }

  /** Sending null differs from not sending: a null amount or name is a 500,
      and so is an amount that is not a number, while the string "0" is
      stored as 0. */
  lemma NullIsNotAbsent(e: Expense)
    ensures ApplyPatch(e, ExpensePatch(None, None, None, Null)) == ServerError
    ensures ApplyPatch(e, ExpensePatch(Some(None), None, None, Absent)) == ServerError
    ensures ApplyPatch(e, ExpensePatch(None, None, None, JsonText("abc", None))) == ServerError
    ensures ApplyPatch(e, ExpensePatch(None, None, None, JsonText("0", Some(0.0)))) == Ok(e.(amount := 0.0))
  {
  }

  /** The expense collection. */
  class ExpenseStore {
    var expenses: seq<Expense>

    constructor ()
      ensures expenses == []
    {
      expenses := [];
    }

    /** updateExpense: 404 for an unknown id; 500 and nothing saved when a
        field is refused or the result fails validation. */
    method UpdateExpense(id: nat, patch: ExpensePatch) returns (r: Response<Expense>)
      modifies this
      ensures FindFirst((e: Expense) => e.id == id, old(expenses)).None? ==>
        r == NotFound && expenses == old(expenses)
      ensures FindFirst((e: Expense) => e.id == id, old(expenses)).Some? ==>
        var k := FindFirst((e: Expense) => e.id == id, old(expenses)).value;
        var updated := ApplyPatch(old(expenses)[k], patch);
        && (!updated.Ok? ==> r == ServerError && expenses == old(expenses))
        && (updated.Ok? && !ValidExpense(updated.value) ==> r == ServerError && expenses == old(expenses))
        && (updated.Ok? && ValidExpense(updated.value) ==> r == updated && expenses == old(expenses)[k := updated.value])
    {
      var found := FindFirst((e: Expense) => e.id == id, expenses);
      if found.None? {
        return NotFound;
      }
      var k := found.value;
      var updated := ApplyPatch(expenses[k], patch);
      if !updated.Ok? || !ValidExpense(updated.value) {
        return ServerError;
      }
      expenses := expenses[k := updated.value];
      r := updated;
    }

    /** deleteExpense: 404 for an unknown id, otherwise that expense goes and
        the others stay in order. */
    method DeleteExpense(id: nat) returns (r: Response<()>)
      modifies this
      ensures FindFirst((e: Expense) => e.id == id, old(expenses)).None? ==>
        r == NotFound && expenses == old(expenses)
      ensures FindFirst((e: Expense) => e.id == id, old(expenses)).Some? ==>
        var k := FindFirst((e: Expense) => e.id == id, old(expenses)).value;
        r == Ok(()) && expenses == old(expenses)[..k] + old(expenses)[k + 1..]
    {
      var found := FindFirst((e: Expense) => e.id == id, expenses);
      if found.None? {
        return NotFound;
      }
      var k := found.value;
      expenses := expenses[..k] + expenses[k + 1..];
      r := Ok(());
    }
  }

  /** When ids are distinct, deleting an expense removes exactly it: the
      remaining expenses are the others, each once. */
  lemma DeleteRemovesExactlyOne(expenses: seq<Expense>, k: nat)
    requires k < |expenses|
    requires forall i, j :: 0 <= i < j < |expenses| ==> expenses[i].id != expenses[j].id
    ensures var rest := expenses[..k] + expenses[k + 1..];
      && multiset(rest) == multiset(expenses) - multiset{expenses[k]}
      && forall e :: e in rest ==> e.id != expenses[k].id
  {
    var rest := expenses[..k] + expenses[k + 1..];
    assert expenses == expenses[..k] + [expenses[k]] + expenses[k + 1..];
    forall e | e in rest ensures e.id != expenses[k].id {
      var i :| 0 <= i < |rest| && rest[i] == e;
      if i < k { assert rest[i] == expenses[i]; } else { assert rest[i] == expenses[i + 1]; }
    }
  }
}
