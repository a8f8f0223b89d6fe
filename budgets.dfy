/** BACKEND/controllers/BudgetControllers.js: one active budget, its status
    against the sum of all expenses, the notification raised when expenses
    exceed it, and the figures of the budget report. */
module BudgetControllers {
  import opened Common
  import opened ExpenseControllers
  import opened NotificationControllers

  /** A budget document; BACKEND/models/BudgetModel.js gives `amount` a minimum
      of 0 and `active` a default of true. */
  datatype Budget = Budget(id: nat, amount: real, active: bool)

  predicate IsActive(b: Budget) { b.active }

  /** `findOne({ active: true })`: the first active budget. */
  function ActiveBudget(budgets: seq<Budget>): (r: Option<nat>)
    ensures r.Some? ==> r.value < |budgets| && budgets[r.value].active
    ensures r.None? <==> forall i :: 0 <= i < |budgets| ==> !budgets[i].active
  {
    FindFirst(IsActive, budgets)
  }

  function ActiveCount(budgets: seq<Budget>): nat
  {
    if budgets == [] then 0 else (if budgets[0].active then 1 else 0) + ActiveCount(budgets[1..])
  }

  lemma {:induction false} ActiveCountZero(budgets: seq<Budget>)
    ensures ActiveCount(budgets) == 0 <==> forall i :: 0 <= i < |budgets| ==> !budgets[i].active
  {
    if budgets != [] {
      ActiveCountZero(budgets[1..]);
      assert forall i :: 1 <= i < |budgets| ==> budgets[i] == budgets[1..][i - 1];
    }
  }

  /** `expenses.reduce((sum, expense) => sum + expense.amount, 0)`. */
  function Total(expenses: seq<Expense>): real
  {
    if expenses == [] then 0.0 else Total(expenses[..|expenses| - 1]) + expenses[|expenses| - 1].amount
  }

  lemma {:induction false} TotalAppend(a: seq<Expense>, b: seq<Expense>)
    ensures Total(a + b) == Total(a) + Total(b)
  {
    if b != [] {
      TotalAppend(a, b[..|b| - 1]);
      assert (a + b)[..|a + b| - 1] == a + b[..|b| - 1];
    } else {
      assert a + b == a;
    }
  }

  lemma RemoveAtMultiset(b: seq<Expense>, j: nat)
    requires j < |b|
    ensures multiset(b[..j] + b[j + 1..]) == multiset(b) - multiset{b[j]}
  {
    assert b == b[..j] + [b[j]] + b[j + 1..];
  }

  lemma TotalRemoveAt(b: seq<Expense>, j: nat)
    requires j < |b|
    ensures Total(b) == Total(b[..j] + b[j + 1..]) + b[j].amount
  {
    TotalAppend(b[..j], b[j..]);
    TotalAppend([b[j]], b[j + 1..]);
    TotalAppend(b[..j], b[j + 1..]);
    assert Total([b[j]]) == b[j].amount by { assert [b[j]][..0] == []; }
    assert [b[j]] + b[j + 1..] == b[j..];
    assert b[..j] + b[j..] == b;
  }

  /** The total does not depend on the order of the expenses, so the sorted
      list of the report and the unsorted list of the status give the same sum. */
  lemma {:induction false} TotalPermutation(a: seq<Expense>, b: seq<Expense>)
    requires multiset(a) == multiset(b)
    ensures Total(a) == Total(b)
    decreases |a|
  {
    if a == [] {
      assert |b| == |multiset(b)| == 0;
    } else {
      var x := a[|a| - 1];
      assert x in multiset(b);
      var j :| 0 <= j < |b| && b[j] == x;
      RemoveAtMultiset(a, |a| - 1);
      RemoveAtMultiset(b, j);
      assert a[..|a| - 1] + a[|a| - 1 + 1..] == a[..|a| - 1];
      TotalPermutation(a[..|a| - 1], b[..j] + b[j + 1..]);
      TotalRemoveAt(b, j);
    }
  }

  /** Expense amounts are at least 0 (the schema's `min: 0`), so their total is too. */
  lemma {:induction false} TotalNonNegative(expenses: seq<Expense>)
    requires forall i :: 0 <= i < |expenses| ==> expenses[i].amount >= 0.0
    ensures Total(expenses) >= 0.0
  {
    if expenses != [] {
      TotalNonNegative(expenses[..|expenses| - 1]);
    }
  }

  /** The budgets after setBudget's upsert: the active budget's amount is
      overwritten, or a new active budget is created when there is none. */
  function Upsert(budgets: seq<Budget>, amount: real, freshId: nat): (r: seq<Budget>)
    ensures ActiveBudget(budgets).Some? ==>
      var k := ActiveBudget(budgets).value;
      r == budgets[k := budgets[k].(amount := amount)]
    ensures ActiveBudget(budgets).None? ==> r == budgets + [Budget(freshId, amount, true)]
  {
    match ActiveBudget(budgets)
    case Some(k) => budgets[k := budgets[k].(amount := amount)]
    case None => budgets + [Budget(freshId, amount, true)]
  }

  lemma {:induction false} CountUpdateSameActive(budgets: seq<Budget>, k: nat, b: Budget)
    requires k < |budgets| && b.active == budgets[k].active
    ensures ActiveCount(budgets[k := b]) == ActiveCount(budgets)
  {
    if k > 0 {
      CountUpdateSameActive(budgets[1..], k - 1, b);
      assert budgets[k := b][1..] == budgets[1..][k - 1 := b];
    } else {
      assert budgets[k := b][1..] == budgets[1..];
    }
  }

  lemma {:induction false} CountAppend(budgets: seq<Budget>, b: Budget)
    ensures ActiveCount(budgets + [b]) == ActiveCount(budgets) + (if b.active then 1 else 0)
  {
    if budgets == [] {
      assert budgets + [b] == [b];
      assert [b][1..] == [];
    } else {
      CountAppend(budgets[1..], b);
      assert (budgets + [b])[0] == budgets[0];
      assert (budgets + [b])[1..] == budgets[1..] + [b];
    }
  }

  /** setBudget never adds a second active budget: the number of active budgets
      stays as it was, or becomes 1 when there was none. */
  lemma UpsertActiveCount(budgets: seq<Budget>, amount: real, freshId: nat)
    ensures ActiveCount(Upsert(budgets, amount, freshId))
         == if ActiveCount(budgets) == 0 then 1 else ActiveCount(budgets)
  {
    match ActiveBudget(budgets)
    case Some(k) =>
      CountUpdateSameActive(budgets, k, budgets[k].(amount := amount));
      ActiveCountZero(budgets);
    case None =>
      CountAppend(budgets, Budget(freshId, amount, true));
      ActiveCountZero(budgets);
  }

  /** After the upsert, getBudget finds a budget with the amount just set. */
  lemma UpsertThenActive(budgets: seq<Budget>, amount: real, freshId: nat)
    ensures var after := Upsert(budgets, amount, freshId);
      ActiveBudget(after).Some? && after[ActiveBudget(after).value].amount == amount
  {
    var after := Upsert(budgets, amount, freshId);
    match ActiveBudget(budgets)
    case Some(k) =>
      assert forall i :: 0 <= i < k ==> !after[i].active;
      assert after[k].active;
    case None =>
      assert forall i :: 0 <= i < |budgets| ==> !after[i].active;
      assert after[|budgets|].active;
  }

  /** checkBudgetExceeded: a notification exactly when the expenses exceed the
      budget strictly, carrying the amount by which they do. */
  function ExceedNotification(budgetAmount: real, expenses: seq<Expense>, id: nat, now: int)
    : (r: Option<Notification>)
    ensures r.Some? <==> Total(expenses) > budgetAmount
    ensures r.Some? ==>
      && r.value.kind == BudgetExceeded && !r.value.read && r.value.createdAt == now
      && r.value.data == Some(BudgetData(budgetAmount, Total(expenses), Total(expenses) - budgetAmount))
      && r.value.data.value.exceededAmount > 0.0
  {
    var total := Total(expenses);
    if total > budgetAmount then
      Some(Notification(id, "Budget exceeded", BudgetExceeded, false, now,
                        Some(BudgetData(budgetAmount, total, total - budgetAmount))))
    else None
  }

  /** The answer of getBudgetStatus. `percentUsed` is None where the source
      divides by a zero amount. */
  datatype BudgetStatus = BudgetStatus(
    budgetAmount: real, totalExpenses: real, remaining: real, percentUsed: Option<real>, isExceeded: bool)

  function StatusOf(amount: real, expenses: seq<Expense>): (s: BudgetStatus)
    ensures s.budgetAmount == amount && s.totalExpenses == Total(expenses)
    ensures s.remaining + s.totalExpenses == amount
    ensures s.isExceeded <==> s.totalExpenses > amount
    ensures s.percentUsed.None? <==> amount == 0.0
    ensures s.percentUsed.Some? ==> s.percentUsed.value * amount == 100.0 * s.totalExpenses
  {
    var total := Total(expenses);
    var remaining := amount - total;
    BudgetStatus(amount, total, remaining,
                 if amount == 0.0 then None else Some(total / amount * 100.0), remaining < 0.0)
  }

  /** getBudgetStatus: 404 without an active budget. */
  function GetBudgetStatus(budgets: seq<Budget>, expenses: seq<Expense>): (r: Response<BudgetStatus>)
    ensures r.Ok? || r == NotFound
    ensures r == NotFound <==> ActiveBudget(budgets).None?
    ensures r.Ok? ==> r.value == StatusOf(budgets[ActiveBudget(budgets).value].amount, expenses)
  {
    match ActiveBudget(budgets)
    case None => NotFound
    case Some(k) => Ok(StatusOf(budgets[k].amount, expenses))
  }

  /** For a positive budget, at least 100 percent is used exactly when the
      expenses reach the budget, and more than 100 exactly when it is exceeded. */
  lemma PercentAgreesWithExceeded(amount: real, expenses: seq<Expense>)
    requires amount > 0.0
    ensures var s := StatusOf(amount, expenses);
      && (s.percentUsed.value >= 100.0 <==> s.totalExpenses >= amount)
      && (s.percentUsed.value > 100.0 <==> s.isExceeded)
  {
    var s := StatusOf(amount, expenses);
    var d := s.percentUsed.value - 100.0;
    assert d * amount == 100.0 * (s.totalExpenses - amount);
    SignOfProduct(d, amount);
  }

  lemma SignOfProduct(x: real, y: real)
    requires y > 0.0
    ensures x * y >= 0.0 <==> x >= 0.0
    ensures x * y > 0.0 <==> x > 0.0
  {
    if x < 0.0 { assert x * y < 0.0 * y; }
    if x > 0.0 { assert x * y > 0.0 * y; }
  }

  /** One line of the report's category breakdown. */
  datatype CategoryTotal = CategoryTotal(category: string, total: real)

  function CategoryIndex(summary: seq<CategoryTotal>, category: string): Option<nat>
  {
    FindFirst((c: CategoryTotal) => c.category == category, summary)
  }

  /** One step of the forEach: a new key starts at 0 (appended, in the order
      keys first appear), then the amount is added. */
  function AddExpense(summary: seq<CategoryTotal>, e: Expense): seq<CategoryTotal>
  {
    match CategoryIndex(summary, e.category)
    case Some(k) => summary[k := CategoryTotal(e.category, summary[k].total + e.amount)]
    case None => summary + [CategoryTotal(e.category, e.amount)]
  }

  /** `categorySummary` after the forEach over `expenses`. */
  function CategorySummary(expenses: seq<Expense>): seq<CategoryTotal>
  {
    if expenses == [] then []
    else AddExpense(CategorySummary(expenses[..|expenses| - 1]), expenses[|expenses| - 1])
  }

  function SumTotals(summary: seq<CategoryTotal>): real
  {
    if summary == [] then 0.0 else summary[0].total + SumTotals(summary[1..])
  }

  lemma {:induction false} SumTotalsAppend(summary: seq<CategoryTotal>, c: CategoryTotal)
    ensures SumTotals(summary + [c]) == SumTotals(summary) + c.total
  {
    if summary == [] {
      assert ([] + [c])[1..] == [];
    } else {
      SumTotalsAppend(summary[1..], c);
      assert (summary + [c])[1..] == summary[1..] + [c];
    }
  }

  lemma {:induction false} SumTotalsUpdate(summary: seq<CategoryTotal>, k: nat, c: CategoryTotal)
    requires k < |summary|
    ensures SumTotals(summary[k := c]) == SumTotals(summary) - summary[k].total + c.total
  {
    if k > 0 {
      SumTotalsUpdate(summary[1..], k - 1, c);
      assert summary[k := c][1..] == summary[1..][k - 1 := c];
    } else {
      assert summary[k := c][1..] == summary[1..];
    }
  }

  /** The category totals add up to the total of all expenses. */
  lemma {:induction false} CategoryTotalsSumToTotal(expenses: seq<Expense>)
    ensures SumTotals(CategorySummary(expenses)) == Total(expenses)
  {
    if expenses != [] {
      var prev := CategorySummary(expenses[..|expenses| - 1]);
      var e := expenses[|expenses| - 1];
      CategoryTotalsSumToTotal(expenses[..|expenses| - 1]);
      match CategoryIndex(prev, e.category)
      case Some(k) => SumTotalsUpdate(prev, k, CategoryTotal(e.category, prev[k].total + e.amount));
      case None => SumTotalsAppend(prev, CategoryTotal(e.category, e.amount));
    }
  }

  predicate DistinctCategories(summary: seq<CategoryTotal>)
  {
    forall i, j :: 0 <= i < j < |summary| ==> summary[i].category != summary[j].category
  }

  predicate Lists(summary: seq<CategoryTotal>, category: string)
  {
    exists i :: 0 <= i < |summary| && summary[i].category == category
  }

  /** One step keeps the lines distinct and lists exactly the categories
      listed before plus the expense's own. */
  lemma AddExpenseKeys(prev: seq<CategoryTotal>, e: Expense)
    requires DistinctCategories(prev)
    ensures DistinctCategories(AddExpense(prev, e))
    ensures forall c :: Lists(AddExpense(prev, e), c) <==> Lists(prev, c) || c == e.category
  {
    var next := AddExpense(prev, e);
    match CategoryIndex(prev, e.category)
    case Some(k) =>
      assert forall i :: 0 <= i < |next| ==> next[i].category == prev[i].category;
      forall c ensures Lists(next, c) <==> Lists(prev, c) {
        if Lists(next, c) {
          var i :| 0 <= i < |next| && next[i].category == c;
          assert prev[i].category == c;
        }
        if Lists(prev, c) {
          var i :| 0 <= i < |prev| && prev[i].category == c;
          assert next[i].category == c;
        }
      }
      assert Lists(prev, e.category) by { assert prev[k].category == e.category; }
    case None =>
      assert next == prev + [CategoryTotal(e.category, e.amount)];
      forall c | Lists(next, c) ensures Lists(prev, c) || c == e.category {
        var i :| 0 <= i < |next| && next[i].category == c;
        if i < |prev| { assert prev[i].category == c; }
      }
      forall c | Lists(prev, c) ensures Lists(next, c) {
        var i :| 0 <= i < |prev| && prev[i].category == c;
        assert next[i].category == c;
      }
      assert next[|prev|].category == e.category;
  }

  /** Some expense has the category. */
  predicate HasCategory(expenses: seq<Expense>, category: string)
  {
    exists i :: 0 <= i < |expenses| && expenses[i].category == category
  }

  lemma HasCategoryLast(expenses: seq<Expense>)
    requires expenses != []
    ensures forall c :: HasCategory(expenses, c) <==>
      HasCategory(expenses[..|expenses| - 1], c) || c == expenses[|expenses| - 1].category
  {
    var init := expenses[..|expenses| - 1];
    forall c | HasCategory(expenses, c) && c != expenses[|expenses| - 1].category
      ensures HasCategory(init, c)
    {
      var i :| 0 <= i < |expenses| && expenses[i].category == c;
      assert init[i] == expenses[i];
    }
    forall c | HasCategory(init, c) ensures HasCategory(expenses, c) {
      var i :| 0 <= i < |init| && init[i].category == c;
      assert expenses[i] == init[i];
    }
  }

  /** The breakdown has one line per category that occurs among the expenses,
      and no other line. */
  lemma {:induction false} CategorySummaryKeys(expenses: seq<Expense>)
    ensures DistinctCategories(CategorySummary(expenses))
    ensures forall c :: Lists(CategorySummary(expenses), c) <==> HasCategory(expenses, c)
  {
    if expenses != [] {
      var init := expenses[..|expenses| - 1];
      CategorySummaryKeys(init);
      AddExpenseKeys(CategorySummary(init), expenses[|expenses| - 1]);
      HasCategoryLast(expenses);
    }
  }

  /** The number of expenses listed in the report. */
  const RECENT_LIMIT: nat := 15

  /** The figures of generateBudgetReport (the PDF itself is not modelled). */
  datatype BudgetReport = BudgetReport(
    status: BudgetStatus, categories: seq<CategoryTotal>, recent: seq<Expense>)

  /** generateBudgetReport: 404 without an active budget; otherwise the status
      over the expenses sorted newest first, the category breakdown built in
      that order, and the first 15 of them. */
  function GenerateBudgetReport(budgets: seq<Budget>, expenses: seq<Expense>): (r: Response<BudgetReport>)
    ensures r.Ok? || r == NotFound
    ensures r == NotFound <==> ActiveBudget(budgets).None?
    ensures r.Ok? ==>
      && r.value.categories == CategorySummary(AllExpenses(expenses))
      && |r.value.recent| == (if |expenses| < RECENT_LIMIT then |expenses| else RECENT_LIMIT)
      && r.value.recent == AllExpenses(expenses)[..|r.value.recent|]
  {
    match ActiveBudget(budgets)
    case None => NotFound
    case Some(k) =>
      var sorted := AllExpenses(expenses);
      var recent := if |sorted| < RECENT_LIMIT then sorted else sorted[..RECENT_LIMIT];
      Ok(BudgetReport(StatusOf(budgets[k].amount, sorted), CategorySummary(sorted), recent))
  }

  /** The report agrees with getBudgetStatus, its category totals add up to the
      total expenses, and no expense left out of the recent list is newer than
      one listed. */
  lemma ReportConsistent(budgets: seq<Budget>, expenses: seq<Expense>)
    requires ActiveBudget(budgets).Some?
    ensures var report := GenerateBudgetReport(budgets, expenses).value;
      && report.status == GetBudgetStatus(budgets, expenses).value
      && SumTotals(report.categories) == report.status.totalExpenses
      && forall i, j :: 0 <= i < |report.recent| <= j < |expenses| ==>
           report.recent[i].createdAt >= AllExpenses(expenses)[j].createdAt
  {
    var k := ActiveBudget(budgets).value;
    var sorted := AllExpenses(expenses);
    var report := GenerateBudgetReport(budgets, expenses).value;
    TotalPermutation(sorted, expenses);
    assert report.status == StatusOf(budgets[k].amount, sorted);
    assert StatusOf(budgets[k].amount, sorted) == StatusOf(budgets[k].amount, expenses);
    CategoryTotalsSumToTotal(sorted);
    assert report.categories == CategorySummary(sorted);
    forall i, j | 0 <= i < |report.recent| <= j < |expenses|
      ensures report.recent[i].createdAt >= sorted[j].createdAt
    {
      assert report.recent[i] == sorted[i];
    }
  }

  /** setBudget's `!amount || amount < 0` and the schema's cast to Number:
      400 for a falsy or negative amount, 500 when a string does not cast,
      otherwise the number saved. A string is compared by its number, so "0"
      passes the check and is saved as 0. */
  function SavedAmount(amount: NumberField): (r: Response<real>)
    ensures r.Ok? || r == BadRequest || r == ServerError
    ensures r == BadRequest <==>
      !Truthy(amount) || (CastNumber(amount).CastTo? && CastNumber(amount).value < 0.0)
    ensures r == ServerError <==> CastNumber(amount).CastFails?
    ensures r.Ok? ==> CastNumber(amount) == CastTo(r.value) && r.value >= 0.0
    ensures amount.JsonNumber? ==> (r.Ok? <==> amount.value > 0.0)
  {
    if !Truthy(amount) then BadRequest
    else
      match CastNumber(amount)
      case CastTo(v) => if v < 0.0 then BadRequest else Ok(v)
      case CastFails => ServerError
      case CastNull => BadRequest
  }

  /** The number 0 and null are refused, while the string "0" is saved as a
      zero budget and a string that is not a number fails the cast. */
  lemma ZeroTextIsSaved()
    ensures SavedAmount(JsonNumber(0.0)) == BadRequest
    ensures SavedAmount(Null) == BadRequest
    ensures SavedAmount(JsonText("0", Some(0.0))) == Ok(0.0)
    ensures SavedAmount(JsonText("abc", None)) == ServerError
  {
  }

  /** The budget collection. */
  class BudgetStore {
    var budgets: seq<Budget>

    constructor ()
      ensures budgets == []
    {
      budgets := [];
    }

    /** setBudget: the amount check, then the upsert, then
        checkBudgetExceeded over all expenses, whose notification (if any) is
        added to `notes`. A refused amount changes nothing. */
    method SetBudget(amount: NumberField, freshId: nat, expenses: seq<Expense>,
                     notes: NotificationStore, notificationId: nat, now: int)
      returns (r: Response<Budget>)
      modifies this, notes
      ensures !SavedAmount(amount).Ok? ==>
        && r == (if SavedAmount(amount) == BadRequest then BadRequest else ServerError)
        && budgets == old(budgets) && notes.notifications == old(notes.notifications)
      ensures SavedAmount(amount).Ok? ==>
        var v := SavedAmount(amount).value;
        var n := ExceedNotification(v, expenses, notificationId, now);
        && budgets == Upsert(old(budgets), v, freshId)
        && r.Ok? && r.value.amount == v && r.value.active
        && notes.notifications == old(notes.notifications) + (if n.Some? then [n.value] else [])
    {
      var saved := SavedAmount(amount);
      if saved == BadRequest {
        return BadRequest;
      }
      if !saved.Ok? {
        return ServerError;
      }
      var budget: Budget;
      var found := ActiveBudget(budgets);
      if found.Some? {
        budget := budgets[found.value].(amount := saved.value);
        budgets := budgets[found.value := budget];
      } else {
        budget := Budget(freshId, saved.value, true);
        budgets := budgets + [budget];
      }
      var n := ExceedNotification(budget.amount, expenses, notificationId, now);
      if n.Some? {
        notes.Add(n.value);
      }
      r := Ok(budget);
    }

    /** The loop of generateBudgetReport that fills `categorySummary`. */
    static method SummarizeCategories(expenses: seq<Expense>) returns (summary: seq<CategoryTotal>)
      ensures summary == CategorySummary(expenses)
      ensures SumTotals(summary) == Total(expenses)
    {
      summary := [];
      var i := 0;
      while i < |expenses|
        invariant 0 <= i <= |expenses|
        invariant summary == CategorySummary(expenses[..i])
      {
        var e := expenses[i];
        var k := CategoryIndex(summary, e.category);
        if k.Some? {
          summary := summary[k.value := CategoryTotal(e.category, summary[k.value].total + e.amount)];
        } else {
          summary := summary + [CategoryTotal(e.category, e.amount)];
        }
        assert expenses[..i + 1][..i] == expenses[..i];
        i := i + 1;
      }
      assert expenses[..i] == expenses;
      CategoryTotalsSumToTotal(expenses);
    }
  }
}
