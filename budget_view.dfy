/** frontend/src/components/Budget.js: the progress bar, the remaining card,
    the amount check of the budget form, and the order in which the page
    loads its data. */
module BudgetView {
  import opened Common
  import opened ExpenseControllers
  import opened BudgetControllers

  datatype ProgressClass = Danger | Warning | Normal

  /** getProgressBarClass. */
  function ProgressBarClass(percent: real): (c: ProgressClass)
    ensures c == Danger <==> percent >= 100.0
    ensures c == Warning <==> 75.0 <= percent < 100.0
    ensures c == Normal <==> percent < 75.0
  {
    if percent >= 100.0 then Danger
    else if percent >= 75.0 then Warning
    else Normal
  }

  /** The bar is red exactly when the expenses reach the budget, so a budget
      spent to the last unit is red while the card still reads "Remaining". */
  lemma DangerMeansBudgetReached(amount: real, expenses: seq<Expense>)
    requires amount > 0.0
    ensures var s := StatusOf(amount, expenses);
      && (ProgressBarClass(s.percentUsed.value) == Danger <==> s.totalExpenses >= amount)
      && (ProgressBarClass(s.percentUsed.value) == Danger && !s.isExceeded <==> s.totalExpenses == amount)
  {
    PercentAgreesWithExceeded(amount, expenses);
  }

  /** `Math.min(percentUsed, 100)`: the bar never overflows its track, and
      below 100 it shows the percentage itself. */
  function BarWidth(percent: real): (w: real)
    ensures w <= 100.0
    ensures w == percent || w == 100.0
    ensures percent <= 100.0 ==> w == percent
  {
    MinReal(percent, 100.0)
  }

  datatype SummaryCard = SummaryCard(title: string, shown: real)

  /** The third summary card: "Over Budget" or "Remaining", with the size of
      the difference. */
  function RemainingCard(s: BudgetStatus): (card: SummaryCard)
    ensures card.shown >= 0.0
    ensures card.shown == s.remaining || card.shown == -s.remaining
    ensures card.title == (if s.isExceeded then "Over Budget" else "Remaining")
  {
    SummaryCard(if s.isExceeded then "Over Budget" else "Remaining", AbsReal(s.remaining))
  }

  /** For a real status, the card says "Over Budget" exactly when the
      expenses pass the budget, and then shows by how much. */
  lemma RemainingCardMeaning(amount: real, expenses: seq<Expense>)
    ensures var s := StatusOf(amount, expenses);
      && (RemainingCard(s).title == "Over Budget" <==> Total(expenses) > amount)
      && (Total(expenses) > amount ==> RemainingCard(s).shown == Total(expenses) - amount)
      && (Total(expenses) <= amount ==> RemainingCard(s).shown == amount - Total(expenses))
  {
  }

  /** The check of handleSubmit, on the amount text and what parseFloat
      makes of it (None is NaN): empty text or a number of at most 0 is
      refused; NaN passes, and setBudget then refuses it. */
  function AmountAccepted(text: string, parsed: Option<real>): (ok: bool)
    ensures text == "" ==> !ok
    ensures parsed.Some? ==> (ok <==> text != "" && parsed.value > 0.0)
  {
    text != "" && !(parsed.Some? && parsed.value <= 0.0)
  }

  datatype Fetch = FetchBudget | FetchStatus | FetchExpenses

  /** loadData: the budget first, its status only when there is a budget,
      then the expenses. */
  function LoadSequence(budget: Option<Budget>): (steps: seq<Fetch>)
    ensures |steps| >= 2
    ensures steps[0] == FetchBudget && steps[|steps| - 1] == FetchExpenses
    ensures FetchStatus in steps <==> budget.Some?
  {
    [FetchBudget] + (if budget.Some? then [FetchStatus] else []) + [FetchExpenses]
  }

  /** The status is asked for only when the server has an active budget, so
      the request never meets its 404. */
  lemma StatusFetchedOnlyWhenFound(budgets: seq<Budget>, expenses: seq<Expense>)
    ensures var found := ActiveBudget(budgets);
      FetchStatus in LoadSequence(if found.Some? then Some(budgets[found.value]) else None)
      <==> GetBudgetStatus(budgets, expenses).Ok?
  {
  }

  const RECENT_SHOWN: nat := 5

  /** `expenses.slice(0, 5)` of the newest-first list. */
  function RecentExpenses(expenses: seq<Expense>): (r: seq<Expense>)
    ensures |r| == (if |AllExpenses(expenses)| < RECENT_SHOWN then |expenses| else RECENT_SHOWN)
    ensures forall i :: 0 <= i < |r| ==> r[i] == AllExpenses(expenses)[i]
  {
    var all := AllExpenses(expenses);
    assert |all| == |expenses| by { assert multiset(all) == multiset(expenses); }
    if |all| < RECENT_SHOWN then all else all[..RECENT_SHOWN]
  }
}
