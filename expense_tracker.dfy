/** frontend/src/components/ExpenseTracker.js: the expense form with its
    category-dependent subcategory options, its validation, and the edit and
    cancel transitions. */
module ExpenseTracker {
  import opened Common
  import opened ExpenseControllers

  /** categorySubcategoryMap. */
  const SUBCATEGORIES: map<string, seq<string>> := map[
    "Groceries" := ["Fruits", "Vegetables", "Dairy", "Meat", "Bakery", "Snacks", "Beverages", "Canned Goods", "Frozen Foods", "Other"],
    "Utilities" := ["Electricity", "Water", "Gas", "Internet", "Phone", "Cable TV", "Garbage", "Other"],
    "Housing" := ["Rent", "Mortgage", "Insurance", "Maintenance", "Property Tax", "HOA Fees", "Furniture", "Appliances", "Other"],
    "Transportation" := ["Fuel", "Car Payment", "Insurance", "Maintenance", "Public Transport", "Parking", "Tolls", "Ride Share", "Other"],
    "Entertainment" := ["Movies", "Music", "Books", "Games", "Concerts", "Sports Events", "Streaming Services", "Hobbies", "Other"],
    "Healthcare" := ["Doctor Visits", "Medications", "Insurance", "Dental", "Vision", "Fitness", "Other"],
    "Education" := ["Tuition", "Books", "Supplies", "Courses", "Student Loan", "Other"],
    "Personal Care" := ["Haircuts", "Spa", "Cosmetics", "Toiletries", "Laundry", "Other"],
    "Dining Out" := ["Breakfast", "Lunch", "Dinner", "Coffee", "Fast Food", "Fine Dining", "Delivery", "Other"],
    "Travel" := ["Flights", "Hotels", "Car Rental", "Activities", "Food", "Souvenirs", "Other"],
    "Clothing" := ["Casual", "Formal", "Shoes", "Accessories", "Seasonal", "Other"],
    "Home Improvement" := ["Repairs", "Renovations", "Decor", "Gardening", "Tools", "Other"],
    "Electronics" := ["Devices", "Accessories", "Repairs", "Software", "Other"],
    "Gifts" := ["Birthday", "Holiday", "Wedding", "Anniversary", "Charity", "Other"],
    "Other" := ["Miscellaneous"]]

  /** The form offers exactly the categories the expense schema accepts, and
      each of them has some subcategory. */
  lemma SubcategoryKeysAreCategories()
    ensures SUBCATEGORIES.Keys == set c | c in EXPENSE_CATEGORIES
    ensures forall c :: c in SUBCATEGORIES ==> |SUBCATEGORIES[c]| > 0
  {
  }

  /** `categorySubcategoryMap[category] || []`. */
  function SubcategoriesOf(category: string): (r: seq<string>)
    ensures category in EXPENSE_CATEGORIES ==> r == SUBCATEGORIES[category] && r != []
    ensures category !in EXPENSE_CATEGORIES ==> r == []
  {
    SubcategoryKeysAreCategories();
    if category in SUBCATEGORIES then SUBCATEGORIES[category] else []
  }

  /** The amount field: text typed by the user, or the stored number loaded
      by handleEdit. */
  datatype Amount = Typed(text: string) | Loaded(value: real)

  /** `!formData.amount` is false: non-empty text, or a non-zero number. */
  predicate AmountGiven(a: Amount)
  {
    match a
    case Typed(t) => t != ""
    case Loaded(v) => v != 0.0
  }

  /** The request handleSubmit sends: an update of the expense being edited,
      or a new expense. */
  datatype Request = Update(id: nat) | Create

  /** The expense form. */
  class ExpenseForm {
    var itemName: string
    var category: string
    var subcategory: string
    var amount: Amount
    var editingExpense: Option<nat>
    var availableSubcategories: seq<string>

    /** The subcategory options always belong to the chosen category. */
    ghost predicate Valid()
      reads this
    {
      availableSubcategories == SubcategoriesOf(category)
    }

    /** The empty form, not editing, with no options. */
    predicate IsReset()
      reads this
    {
      itemName == "" && category == "" && subcategory == "" && amount == Typed("")
      && editingExpense.None? && availableSubcategories == []
    }

    constructor ()
      ensures IsReset() && Valid()
    {
      itemName, category, subcategory, amount := "", "", "", Typed("");
      editingExpense, availableSubcategories := None, [];
    }

    /** handleCategoryChange: the subcategory is cleared and the options
        become those of the new category. */
    method ChangeCategory(selected: string)
      modifies this
      ensures category == selected && subcategory == ""
      ensures availableSubcategories == SubcategoriesOf(selected)
      ensures itemName == old(itemName) && amount == old(amount) && editingExpense == old(editingExpense)
      ensures Valid()
    {
      category, subcategory := selected, "";
      availableSubcategories := SubcategoriesOf(selected);
    }

    /** The check of handleSubmit. */
    predicate Complete()
      reads this
    {
      itemName != "" && category != "" && subcategory != "" && AmountGiven(amount)
    }

    /** handleSubmit, with `serverOk` the outcome of the request: nothing is
        sent for an incomplete form; a request the server accepts resets the
        form, one it refuses leaves it as it was. */
    method Submit(serverOk: bool) returns (sent: Option<Request>)
      modifies this
      ensures sent.Some? <==> old(Complete())
      ensures sent.Some? ==> sent.value == (if old(editingExpense).Some? then Update(old(editingExpense).value) else Create)
      ensures sent.Some? && serverOk ==> IsReset()
      ensures sent.None? || !serverOk ==>
        && itemName == old(itemName) && category == old(category) && subcategory == old(subcategory)
        && amount == old(amount) && editingExpense == old(editingExpense)
        && availableSubcategories == old(availableSubcategories)
      ensures old(Valid()) ==> Valid()
    {
      if !Complete() {
        return None;
      }
      sent := if editingExpense.Some? then Some(Update(editingExpense.value)) else Some(Create);
      if serverOk {
        itemName, category, subcategory, amount := "", "", "", Typed("");
        editingExpense, availableSubcategories := None, [];
      }
    }

    /** handleEdit: the expense's four fields and its category's options are
        loaded, and the form now edits that expense. */
    method Edit(e: Expense)
      modifies this
      ensures editingExpense == Some(e.id)
      ensures itemName == e.itemName && category == e.category && subcategory == e.subcategory
      ensures amount == Loaded(e.amount)
      ensures availableSubcategories == SubcategoriesOf(e.category)
      ensures Valid()
    {
      editingExpense := Some(e.id);
      itemName, category, subcategory, amount := e.itemName, e.category, e.subcategory, Loaded(e.amount);
      availableSubcategories := SubcategoriesOf(e.category);
    }

    /** handleCancelEdit. */
    method CancelEdit()
      modifies this
      ensures IsReset() && Valid()
    {
      editingExpense := None;
      itemName, category, subcategory, amount := "", "", "", Typed("");
      availableSubcategories := [];
    }
  }

  /** An expense the server stored passes the form's check once loaded for
      editing, unless its amount is 0. */
  lemma StoredExpenseIsComplete(e: Expense)
    requires ValidExpense(e) && e.amount != 0.0
    ensures e.itemName != "" && e.category != "" && e.subcategory != "" && AmountGiven(Loaded(e.amount))
    ensures SubcategoriesOf(e.category) != []
  {
    assert e.category != "" by { assert forall c :: c in EXPENSE_CATEGORIES ==> c != ""; }
  }
}
