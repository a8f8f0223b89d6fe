# HomeStock core, modelled in Dafny

HomeStock is a household-inventory web application. Its Express/Mongoose
backend keeps:

- products with quantities and expiry dates;
- expenses and a single active budget;
- notifications;
- a pending shopping list;
- non-expiring ("buy again") reminders and seasonal reminders;
- recipes and weekly meal plans.

Its React frontend shows and edits these.

This project models the logic of the core controllers and components.

Backend controllers:

- The shopping list: add, get, remove, clear and the download text.
- Non-expiring reminders: due messages, "add" and "skip".
- Seasonal reminders and their seeding script.
- Meal-plan availability checks and reports.
- Budget status and reports, and the budget-exceeded notification.
- Notifications, product updates and stock lists.
- Expense updates and deletion.
- The inventory report routes.

Frontend components:

- Recipe search and sorting.
- The meal-plan and recipe forms.
- The recipe details page.
- Meal-plan listing and details.
- The product list.
- The add-product form.
- The notification bell.
- The expense tracker.
- The budget page.
- The smart shopping list.

## How the model is built

- **Pure logic.** Queries, filters, status computations and validations are
  functions with named results.
- **Stateful code.** Collections the source mutates, a Mongo collection or a
  React state hook, are fields of a `class`. The handlers become methods with
  `modifies this`, and each method states the whole new state.
- **Loops.** Loops in the source become methods with `while` loops and
  invariants, proved equal to a specification function:
  - `AggregateIngredients` and `ClassifyAll` in the meal-plan controller;
  - `SummarizeCategories` in the budget report.
- **HTTP responses.** Modelled as `Response` (`Ok`, `NotFound`, `BadRequest`,
  `ServerError`).
- **Missing values.** Where a handler treats an absent field and `null`
  alike, both are `None`, and a value that does not parse is `Some(None)`.
  Where they differ, as in `updateExpense`'s `!== undefined` tests, a field
  sent as `null` is `Some(None)` and an absent one is `None`.
- **Numbers in a request.** A field the schema stores as a number is a
  `NumberField`: absent, null, a JSON number, or a string with its `Number`
  value. `Truthy` gives JavaScript truthiness, so the string "0" is truthy.
  `CastNumber` is the schema's cast: null and "" give null, and a string
  that is not a number fails `save()`.

JavaScript details are written out:

- `Math.floor` and `Math.ceil` over milliseconds.
- Falsy string checks.
- `|| default` fallbacks.
- Lower-casing for the `$regex` "i" matches.
- `splice` with an index past the end, which changes nothing.

Common to every module:

- **Time.** The clock is a `now` parameter, in milliseconds since the epoch,
  in UTC.
- **Numbers.** Amounts and quantities are `real`.
- **Sorting.** Mongo's sort is a stable insertion sort (`Sorting.SortBy`). Its
  output is proved sorted and a permutation of its input.

Where the documented behaviour and the code disagree, the model follows the
code:

- `getShoppingList` answers 404 when there is no pending list.
- `clearShoppingList` deletes the list document rather than emptying it.
- The shopping-list controller has no "update item" and no "add expired
  items" handler.
- The smart shopping list posts edits to an `/update` endpoint that the
  controller does not define (`SmartShoppingList.UpdateRequest`).
- The reminder "add" path of `updateReminder` takes the first shopping-list
  document, `ShoppingList.findOne()`, with no status filter. When there is
  none, it creates one without a `status`, which the pending-list handlers
  never find (`ShoppingListController.ReminderAddThenGet`).
- `downloadPDF` reads `item.name` of non-expiring reminders and
  `item.itemName` of seasonal reminders. Neither schema has that path, so each
  such line reads "undefined". Both `status: "pending"` filters name a path
  neither reminder schema declares.
- `setBudget`'s `!amount || amount < 0` compares a string by its number: the
  string "0" is saved as a zero budget, and text that is not a number passes
  the check and fails the cast (500).
- `addNonExpiringItem`'s `reminderInterval || 30` keeps the string "0", so
  that reminder is stored with interval 0 and is due at once.
- In the meal-plan form, `validateForm` is never called. `handleSubmit`
  checks only the name and the dates, so a plan with no meal can be saved
  (`CreateMealPlanForm.SubmitIsWeakerThanValidate`).
- On the budget page, the progress bar turns "danger" when the total equals
  the budget, while the card still reads "Remaining".
- The budget form's check lets `NaN` through; the server then refuses it.
- Reloading the product list resets the filtered list without clearing the
  chosen filters.
- The report routes, the shopping-list model fields, the reminder-route
  import and the server mount disagree on field and route names. The model
  uses abstract records and the logic as written.

## Model

| member | source | states |
|---|---|---|
| ShoppingListController.AddItemOutcome | BACKEND/controllers/shoppingListController.js:9-28 | A missing or empty item is a 400. Success exactly when there is no pending list, the add is seasonal, or the item is not yet listed. The new list is the old one (or empty) with the item at the end. |
| ShoppingListController.ShoppingListStore.AddItem | BACKEND/controllers/shoppingListController.js:7-32 | The answer is AddItemOutcome over the stored list. The store changes only on success, and then to the returned list. |
| ShoppingListController.ShoppingListStore.GetShoppingList | BACKEND/controllers/shoppingListController.js:35-47 | 404 exactly when there is no pending list; otherwise its items. Nothing changes. |
| ShoppingListController.ShoppingListStore.RemoveItems | BACKEND/controllers/shoppingListController.js:50-71 | 400 without an array and 404 without a list, both leaving the store unchanged. Otherwise the list becomes Without(items, toRemove) and is returned. |
| ShoppingListController.ShoppingListStore.ClearShoppingList | BACKEND/controllers/shoppingListController.js:74-81 | Always succeeds. The documents become DeletePending's, so the pending document is gone, not merely emptied. |
| ShoppingListController.Without | BACKEND/controllers/shoppingListController.js:64 | An item survives exactly when it was listed and is not named for removal. The result never holds more copies of anything than the input. |
| ShoppingListController.WithoutIsSubsequence | BACKEND/controllers/shoppingListController.js:64 | The surviving items keep their relative order. |
| ShoppingListController.WithoutIdempotent | BACKEND/controllers/shoppingListController.js:64 | Removing the same names a second time changes nothing. |
| ShoppingListController.Numbered | BACKEND/controllers/shoppingListController.js:115-117 | Line i of the download is the number i+1 followed by the i-th item. |
| ShoppingListController.DownloadLines | BACKEND/controllers/shoppingListController.js:86-117 | 404 exactly when the pending list is missing or empty and no reminder matches either query. Otherwise the pending items come first, numbered from 1, followed by one "undefined" line per matching non-expiring and seasonal reminder. |
| ShoppingListController.ClearThenGet | BACKEND/controllers/shoppingListController.js:15-81 | On a consistent store, a clear followed by a get answers 404, and an add then makes the pending list hold just that item. |
| ShoppingListController.AppendIfAbsent | BACKEND/controllers/reminderController.js:58-70 | After an "add" the name is on the list. The list is unchanged when the name was already there; otherwise the name is appended. |
| ShoppingListController.ShoppingListStore.AddIfAbsent | BACKEND/controllers/reminderController.js:56-70 | The documents become ReminderAdd's result. |
| ShoppingListController.PendingList | BACKEND/controllers/shoppingListController.js:15 | The items of the first pending document; none exactly when no document is pending. |
| ShoppingListController.SavePending | BACKEND/controllers/shoppingListController.js:15-27 | The pending list afterwards is the saved items. At most one document is added, no other document changes, and at most one pending document stays at most one. |
| ShoppingListController.DeletePending | BACKEND/controllers/shoppingListController.js:76 | Without a pending document nothing changes. Otherwise exactly one document goes, the rest are kept, and no pending list remains when there was one. |
| ShoppingListController.ReminderAdd | BACKEND/controllers/reminderController.js:56-70 | With no document, one is created holding just the name and with no status, so there is still no pending list. Otherwise the first document, whatever its status, gets AppendIfAbsent of the name and keeps its status, the others stay, and the pending list changes only when that document is the pending one. |
| ShoppingListController.ReminderAddThenGet | BACKEND/controllers/reminderController.js:56-70 | On an empty store, a reminder "add" leaves getShoppingList answering 404, and a later addItem creates a second, pending document. |
| ShoppingListController.AppendIfAbsentKeepsDistinct | BACKEND/controllers/reminderController.js:58-70 | A list without duplicates stays without duplicates. |
| ShoppingListController.AddItemNonSeasonalKeepsDistinct | BACKEND/controllers/shoppingListController.js:20-24 | A successful non-seasonal add keeps a duplicate-free list duplicate-free. |
| ShoppingListController.SeasonalAddDuplicates | BACKEND/controllers/shoppingListController.js:20-24 | A seasonal add of an item already listed succeeds and lists it twice. |
| NonExpiringReminders.DaysUsed | BACKEND/controllers/reminderController.js:26 | Whole days elapsed, rounded down: d days with d·DAY ≤ elapsed < (d+1)·DAY. |
| NonExpiringReminders.DueMessages | BACKEND/controllers/reminderController.js:8-32 | Empty unless the flag is exactly "true". Otherwise one message per due reminder, in stored order. |
| NonExpiringReminders.DueMessagesExactlyTheDue | BACKEND/controllers/reminderController.js:15-32 | Every message names a due reminder, and every due reminder gets a message. A reminder is due once its interval has elapsed, boundary included. |
| NonExpiringReminders.AfterAdd | BACKEND/controllers/reminderController.js:73-77 | The interval becomes the whole days used and the date becomes now. The item is unchanged. |
| NonExpiringReminders.AfterSkip | BACKEND/controllers/reminderController.js:85-90 | The interval becomes the larger of the old interval and the elapsed days. Nothing else changes. |
| NonExpiringReminders.AfterAddDueIff | BACKEND/controllers/reminderController.js:73-77 | Right after "add", the reminder is due exactly when less than a day had elapsed, because its interval became 0. |
| NonExpiringReminders.DueStaysDue | BACKEND/controllers/reminderController.js:15-22 | A due reminder stays due as time passes. |
| NonExpiringReminders.SkipKeepsDueness | BACKEND/controllers/reminderController.js:85-93 | Skipping never changes whether a reminder is due, now or at any later time. |
| NonExpiringReminders.NewReminder | BACKEND/controllers/reminderController.js:105-109 | The interval is the one kept, or 30 when none is. The date is the one given, else now. |
| NonExpiringReminders.KeptInterval | BACKEND/controllers/reminderController.js:107 | The fallback to 30 days keeps exactly a truthy interval, as the schema casts it. A falsy one (missing, null, 0 or "") is dropped. |
| NonExpiringReminders.NewReminderOutcome | BACKEND/controllers/reminderController.js:101-115 | 500 exactly when the required item name is missing or empty, or the interval or the date does not cast. Otherwise NewReminder of the kept interval and the date given. |
| NonExpiringReminders.ZeroTextIntervalIsKept | BACKEND/controllers/reminderController.js:105-109 | The number 0 and null give 30 days. The string "0" is stored as 0, so that reminder is due at once. |
| NonExpiringReminders.NewReminderNotDueAtOnce | BACKEND/controllers/reminderController.js:105-109 | A new reminder with a positive interval and the default date is not due at once. |
| NonExpiringReminders.ReminderStore.AddNonExpiringItem | BACKEND/controllers/reminderController.js:101-116 | The answer is NewReminderOutcome. On success the new reminder is appended and the others are unchanged; a 500 changes nothing. |
| NonExpiringReminders.ReminderStore.UpdateReminder | BACKEND/controllers/reminderController.js:41-98 | An unknown action is 400 before any lookup, and an unknown id is 404; both change nothing. "add" applies AfterAdd, and the shopping-list documents become ReminderAdd's. "skip" applies AfterSkip and leaves the list alone. |
| SeasonalReminderController.ActiveSeasonalReminders | BACKEND/controllers/seasonalReminderController.js:8-20 | Exactly the stored reminders of the current month, provided the day lies in 1..31, in stored order. The `active` flag is not consulted. |
| SeasonalReminderController.DayBoundsNeverExclude | BACKEND/controllers/seasonalReminderController.js:14-19 | For every real day of the month, the day bounds exclude nothing: the result is the month filter alone. |
| SeasonalReminderController.MergeCaseInsensitive | BACKEND/controllers/seasonalReminderController.js:40-44 | The old list is a prefix of the merged one. The merge adds at most as many entries as there are items. |
| SeasonalReminderController.MergeContainsAll | BACKEND/controllers/seasonalReminderController.js:40-44 | Every seasonal item is on the merged list, up to letter case. |
| SeasonalReminderController.MergeAddsNoDuplicates | BACKEND/controllers/seasonalReminderController.js:41-43 | No appended entry equals an earlier entry up to letter case, including entries appended in the same batch. |
| SeasonalReminderController.MergeAppendsInInputOrder | BACKEND/controllers/seasonalReminderController.js:40-44 | The appended entries are a subsequence of the items, in their order. |
| SeasonalReminderController.AddSeasonalItemsToShoppingList | BACKEND/controllers/seasonalReminderController.js:30-52 | Missing `items` is a 500 (forEach on undefined) and changes nothing. Otherwise the list is created empty when absent, then becomes the merge. |
| SeasonalSeed.SeedWellFormed | BACKEND/seedSeasonalReminders.js:11-93 | The built-in data holds 9 entries. Each has a month in 1..12, a non-empty day window, a reminder date in that month and at least one item. No two entries share a season. |
| SeasonalSeed.ActiveEntries | BACKEND/seedSeasonalReminders.js:120-122 | Exactly the entries active on the given month and day, in order. |
| SeasonalSeed.NewEntries | BACKEND/seedSeasonalReminders.js:130-131 | Exactly the active entries whose season is not stored yet, in order. |
| SeasonalSeed.ToReminder | BACKEND/seedSeasonalReminders.js:133-134 | The stored reminder carries the entry's season, items, message and month. It is active, dated by the entry's reminder month and day. |
| SeasonalSeed.Seasons | BACKEND/seedSeasonalReminders.js:130 | The season of each stored reminder, position by position. |
| SeasonalSeed.Inserted | BACKEND/seedSeasonalReminders.js:133-134 | One stored reminder per new entry, in order. |
| SeasonalSeed.Kept | BACKEND/seedSeasonalReminders.js:116-118 | The deleteMany keeps exactly the reminders of this month or later, in order. |
| SeasonalSeed.SeedEffect | BACKEND/seedSeasonalReminders.js:111-150 | The kept reminders, those of this month or later, come first. Each inserted one is active, of the current month, and of a season not kept. With no active entry, only the deletion happens. |
| SeasonalSeed.SeedKeepsSeasonsDistinct | BACKEND/seedSeasonalReminders.js:129-134 | If stored seasons and entry seasons are distinct, seeding keeps seasons distinct. |
| SeasonalSeed.SeedDataKeepsSeasonsDistinct | BACKEND/seedSeasonalReminders.js:11-93 | Seeding with the shipped data never creates two reminders of one season. |
| SeasonalSeed.SeededAreShown | BACKEND/seedSeasonalReminders.js:120-134 | After seeding, the seasonal-reminder query returns exactly the reminders of the current month, the inserted ones included. |
| SeasonalSeed.SeasonalStore.Seed | BACKEND/seedSeasonalReminders.js:111-150 | The collection becomes the seed result. The count is the number inserted, and 0 when no entry is active. |
| SeasonalSeed.SeedReminders | BACKEND/seedSeasonalReminders.js:111-150 | Seeding with the shipped data on the given date has exactly that effect. |
| MealPlanControllers.ActiveMealPlan | BACKEND/controllers/MealPlanControllers.js:234-256 | 404 exactly when no plan is active and spans now. Otherwise the first such plan. |
| MealPlanControllers.MatchingProduct | BACKEND/controllers/MealPlanControllers.js:287-288 | A product whose name equals the ingredient's up to letter case; none exactly when no product matches. |
| MealPlanControllers.Classify | BACKEND/controllers/MealPlanControllers.js:290-332 | Missing exactly when no product matches or the match has expired, with reason "expired" exactly in the latter case. Otherwise available with stock ≥ required, or insufficient with less. Units are not compared. |
| MealPlanControllers.ClassifyConsistent | BACKEND/controllers/MealPlanControllers.js:290-332 | An available status has enough stock, and an insufficient one has less than required. |
| MealPlanControllers.ShoppingListItems | BACKEND/controllers/MealPlanControllers.js:335-356 | One item per status that is not available, in order. Missing ones ask for the full required quantity. Insufficient ones ask for required minus stock, in the required unit. |
| MealPlanControllers.ShortfallPositive | BACKEND/controllers/MealPlanControllers.js:344-354 | Every shortfall item asks for a positive quantity. |
| MealPlanControllers.ClassifyAll | BACKEND/controllers/MealPlanControllers.js:284-333 | One status per ingredient, in recipe order, each the Classify of that ingredient. |
| MealPlanControllers.CheckIngredientsAvailability | BACKEND/controllers/MealPlanControllers.js:267-370 | 404 exactly when no recipe has the id. Otherwise the recipe's name, one Classify status per ingredient in order, and their shopping list. |
| MealPlanControllers.AggregateNames | BACKEND/controllers/MealPlanControllers.js:393-419 | The aggregate names each mentioned ingredient exactly once, and nothing else. |
| MealPlanControllers.AggregateTotals | BACKEND/controllers/MealPlanControllers.js:396-419 | Each aggregate total is the sum over all occurrences with that exact name, in the first unit seen. |
| MealPlanControllers.AddIngredientTo | BACKEND/controllers/MealPlanControllers.js:399-408 | One ingredient is one AddOccurrence step: its quantity is added to the entry of that exact name, or a new entry starts with its quantity and unit. |
| MealPlanControllers.AggregateIngredients | BACKEND/controllers/MealPlanControllers.js:393-419 | The loop computes the aggregate of every slot's ingredients in every meal. |
| MealPlanControllers.SummaryCounts | BACKEND/controllers/MealPlanControllers.js:506-507 | Missing plus insufficient counts equal the shopping-list length, which is at most the number of statuses. |
| MealPlanControllers.GenerateMealPlanReport | BACKEND/controllers/MealPlanControllers.js:374-517 | 404 exactly for an unknown plan. Otherwise one Classify status per aggregated ingredient, and their shopping list. The summary holds the name, the number of days, the distinct recipe ids and the missing and insufficient counts. |
| BudgetControllers.ActiveBudget | BACKEND/controllers/BudgetControllers.js:19 | An active budget, if any; none exactly when no budget is active. |
| BudgetControllers.TotalAppend | BACKEND/controllers/BudgetControllers.js:72 | The expense total splits over a concatenation. |
| BudgetControllers.TotalPermutation | BACKEND/controllers/BudgetControllers.js:140-143 | The total does not depend on the order of the expenses, such as the report's sorted order. |
| BudgetControllers.TotalNonNegative | BACKEND/controllers/BudgetControllers.js:72 | With the schema's non-negative amounts, the total is non-negative. |
| BudgetControllers.Upsert | BACKEND/controllers/BudgetControllers.js:19-29 | With an active budget, only its amount changes. Otherwise a new active budget is appended. |
| BudgetControllers.UpsertActiveCount | BACKEND/controllers/BudgetControllers.js:19-29 | Setting a budget never makes a second active budget: the count becomes 1 from 0, else stays. |
| BudgetControllers.UpsertThenActive | BACKEND/controllers/BudgetControllers.js:19-43 | After setting, the active budget has the new amount. |
| BudgetControllers.ExceedNotification | BACKEND/controllers/BudgetControllers.js:95-120 | An unread notification, created now, exactly when the total strictly exceeds the budget. It carries the budget, the total and the positive excess. |
| BudgetControllers.StatusOf | BACKEND/controllers/BudgetControllers.js:72-79 | Remaining plus spent is the budget. Exceeded exactly when spent exceeds it. Percent used is undefined for a zero budget and otherwise spent/budget·100. |
| BudgetControllers.GetBudgetStatus | BACKEND/controllers/BudgetControllers.js:59-92 | 404 exactly without an active budget; otherwise the status of its amount. |
| BudgetControllers.PercentAgreesWithExceeded | BACKEND/controllers/BudgetControllers.js:76-79 | For a positive budget, exceeded exactly when percent used is over 100, and remaining ≥ 0 exactly when it is at most 100. |
| BudgetControllers.CategoryTotalsSumToTotal | BACKEND/controllers/BudgetControllers.js:149-155 | The category totals add up to the overall total. |
| BudgetControllers.AddExpenseKeys | BACKEND/controllers/BudgetControllers.js:149-155 | One expense keeps the summary's categories distinct, and the categories afterwards are the earlier ones plus the expense's own. |
| BudgetControllers.CategorySummaryKeys | BACKEND/controllers/BudgetControllers.js:149-155 | The summary lists each category of some expense exactly once, and nothing else. |
| BudgetControllers.GenerateBudgetReport | BACKEND/controllers/BudgetControllers.js:123-218 | 404 exactly without an active budget. Otherwise the category summary of the newest-first expenses, and the first 15 of them. |
| BudgetControllers.ReportConsistent | BACKEND/controllers/BudgetControllers.js:140-155 | The report's status is getBudgetStatus's. Its category totals add up to the total. No expense left out of the recent list is newer than one in it. |
| BudgetControllers.SavedAmount | BACKEND/controllers/BudgetControllers.js:11-16 | 400 exactly for a falsy amount (missing, null, 0 or "") or one whose number is negative. 500 exactly when a string fails the cast. Otherwise the cast value, never negative. A JSON number passes exactly when positive. |
| BudgetControllers.ZeroTextIsSaved | BACKEND/controllers/BudgetControllers.js:11-16 | The number 0 and null are refused, while the string "0" is saved as 0 and a non-numeric string is a 500. |
| BudgetControllers.BudgetStore.SetBudget | BACKEND/controllers/BudgetControllers.js:6-38 | A refused amount is 400 or 500, as SavedAmount says, and changes nothing. Otherwise the budgets become Upsert's of the saved amount, and the answer is the active budget with that amount. The exceed notification is added when due. |
| BudgetControllers.BudgetStore.SummarizeCategories | BACKEND/controllers/BudgetControllers.js:149-155 | The loop builds exactly the category summary, whose totals add up to the overall total. |
| NotificationControllers.LatestNotifications | BACKEND/controllers/NotificationControllers.js:6-8 | The first 20 notifications, or all of them when there are fewer, each drawn from the stored ones. |
| NotificationControllers.LatestAreNewest | BACKEND/controllers/NotificationControllers.js:6-8 | The answer is the head of the newest-first ordering of all notifications, so no notification left out is newer than one returned. |
| NotificationControllers.UnreadCount | BACKEND/controllers/NotificationControllers.js:19 | At most the number stored; 0 exactly when all are read. |
| NotificationControllers.MarkRead | BACKEND/controllers/NotificationControllers.js:28-44 | 404 exactly for an unknown id. Otherwise a notification with that id becomes read and nothing else changes. |
| NotificationControllers.MarkReadIdempotent | BACKEND/controllers/NotificationControllers.js:32-38 | Marking the same notification twice is the same as once. |
| NotificationControllers.MarkReadUnreadCount | BACKEND/controllers/NotificationControllers.js:37 | The unread count drops by one when that notification was unread, and is unchanged otherwise. |
| NotificationControllers.NotificationStore.Add | BACKEND/controllers/BudgetControllers.js:105-115 | The notification is appended. |
| NotificationControllers.NotificationStore.MarkAsRead | BACKEND/controllers/NotificationControllers.js:28-44 | The stored list becomes MarkRead's result, and 404 changes nothing. |
| NotificationControllers.NotificationStore.MarkAllAsRead | BACKEND/controllers/NotificationControllers.js:47-53 | Every notification is read and nothing else changes, so the unread count is 0. |
| ProductControllers.ApplyPatch | BACKEND/controllers/ProductControllers.js:97-119 | An unparsable date is 400. Otherwise a price or quantity that is not a number is 500. Otherwise each supplied field replaces the stored one and the id is kept. The quantity's value and unit are replaced independently, and the image is kept because the schema has no path for it. |
| ProductControllers.EmptyPatchIsIdentity | BACKEND/controllers/ProductControllers.js:97-119 | An update that supplies no field changes nothing, even with a new image file. |
| ProductControllers.ApplyPatchIdempotent | BACKEND/controllers/ProductControllers.js:97-119 | Applying the same update twice is the same as once. |
| ProductControllers.LowStockProducts | BACKEND/controllers/ProductControllers.js:148-162 | 404 exactly when no product is low on stock. Otherwise exactly the low-stock products. |
| ProductControllers.OutOfStockProducts | BACKEND/controllers/ProductControllers.js:165-177 | 404 exactly when none is out of stock. Otherwise exactly those products. |
| ProductControllers.StockListsDisjoint | BACKEND/controllers/ProductControllers.js:150-167 | No product is both low on stock and out of stock. |
| ProductControllers.EndOfDay | BACKEND/controllers/ProductControllers.js:188-189 | The last millisecond of the day. |
| ProductControllers.ReportLists | BACKEND/controllers/ProductControllers.js:180-193 | A missing or empty date is a 400, and a date that does not parse is a 500. Otherwise the products expiring by the end of the chosen day, together with the low-stock and out-of-stock lists. |
| ProductControllers.ImageUrl | BACKEND/controllers/ProductControllers.js:52-55 | No URL without an image name. Otherwise the uploads prefix followed by the name, recoverable from it. |
| ProductControllers.ProductStore.UpdateProduct | BACKEND/controllers/ProductControllers.js:82-126 | 404 for an unknown id. A 400 or 500 from ApplyPatch changes nothing. A result failing the schema (empty name or unit, unknown category) is a 500 and changes nothing. Otherwise only that product becomes ApplyPatch's result. |
| ExpenseControllers.NewerFirstIsTotalPreorder | BACKEND/controllers/ExpenseControllers.js:25 | Newest-first is a total preorder, so sorting by it is well defined. |
| ExpenseControllers.AllExpenses | BACKEND/controllers/ExpenseControllers.js:25 | All expenses, newest first. |
| ExpenseControllers.ExpensesByCategory | BACKEND/controllers/ExpenseControllers.js:84-97 | 404 exactly when no expense has the category. Otherwise exactly those expenses, newest first. |
| ExpenseControllers.ApplyPatch | BACKEND/controllers/ExpenseControllers.js:56-61 | 500 exactly when a field is sent as null, or an amount is sent that casts to null or fails the cast. Otherwise each sent field replaces the stored one (the name trimmed, the amount cast). Id and date are kept. |
| ExpenseControllers.EmptyPatchIsIdentity | BACKEND/controllers/ExpenseControllers.js:56-59 | An update that sends nothing changes nothing. |
| ExpenseControllers.NullIsNotAbsent | BACKEND/controllers/ExpenseControllers.js:56-61 | A null amount or name, and an amount that is not a number, are 500s. The string "0" is stored as 0. |
| ExpenseControllers.ExpenseStore.UpdateExpense | BACKEND/controllers/ExpenseControllers.js:46-66 | 404 for an unknown id, changing nothing. A field ApplyPatch refuses, or a patched expense failing the schema, is a 500 and changes nothing. Otherwise only that expense becomes ApplyPatch's result. |
| ExpenseControllers.ExpenseStore.DeleteExpense | BACKEND/controllers/ExpenseControllers.js:69-81 | 404 for an unknown id. Otherwise the first expense with the id is removed and the rest keep their order. |
| ExpenseControllers.DeleteRemovesExactlyOne | BACKEND/controllers/ExpenseControllers.js:70-76 | With distinct ids, the remaining expenses are all the others, each once, and none has the deleted id. |
| NotificationControllers.NewerFirstIsTotalPreorder | BACKEND/controllers/NotificationControllers.js:6-8 | Newest-first is a total preorder, so sorting by it is well defined. |
| InventoryReports.OrZero | BACKEND/routes/ReportRoutes.js:12-13 | A missing number counts as 0. |
| InventoryReports.InventorySummaryOf | BACKEND/routes/ReportRoutes.js:11-15 | The item count, total quantity and total value of the products. |
| InventoryReports.TotalsAppend | BACKEND/routes/ReportRoutes.js:12-13 | Both totals split over a concatenation. |
| InventoryReports.MissingQuantityAddsNothing | BACKEND/routes/ReportRoutes.js:12-13 | A product without a quantity adds nothing to either total. |
| InventoryReports.TotalsNonNegative | BACKEND/routes/ReportRoutes.js:12-13 | Non-negative quantities and prices give non-negative totals. |
| InventoryReports.ExpiryStatus | BACKEND/routes/ReportRoutes.js:24-35 | Expired: exactly the dated products whose date is before now. Expiring soon: exactly those dated from now to a week ahead. Both keep the stored order. |
| InventoryReports.ExpiryListsDisjoint | BACKEND/routes/ReportRoutes.js:30-33 | No product is both expired and expiring soon. |
| InventoryReports.Categories | BACKEND/routes/ReportRoutes.js:44 | Each category of some product, once. |
| InventoryReports.EntryFor | BACKEND/routes/ReportRoutes.js:48-52 | Exactly the category's products, in order, with their totals. |
| InventoryReports.CategoryReport | BACKEND/routes/ReportRoutes.js:44-55 | One entry per distinct category, in order. |
| InventoryReports.CategoryReportPartitions | BACKEND/routes/ReportRoutes.js:44-53 | A categorised product appears in exactly one entry. An uncategorised one appears in none. |
| RecipeList.Matching | frontend/src/components/mealplanning/RecipeList.js:108-124 | A recipe is kept exactly when it matches the search (when there is a query) and has every selected tag. Nothing is added. |
| RecipeList.MatchingIsSubsequence | frontend/src/components/mealplanning/RecipeList.js:108-124 | The kept recipes keep their order. |
| RecipeList.NoFiltersKeepAll | frontend/src/components/mealplanning/RecipeList.js:108-124 | No query and no tags keep every recipe. |
| RecipeList.OrderIsTotalPreorder | frontend/src/components/mealplanning/RecipeList.js:127-144 | Every sort option's comparator is a total preorder. |
| RecipeList.FilterAndSortRecipes | frontend/src/components/mealplanning/RecipeList.js:107-146 | The matching recipes, sorted by the option and a permutation of them. An unknown option keeps their order. |
| RecipeList.ToggleTagFilter | frontend/src/components/mealplanning/RecipeList.js:85-91 | The tag switches between selected and not, and the other tags and the query stay. |
| RecipeList.ClearFilters | frontend/src/components/mealplanning/RecipeList.js:94-98 | No tags and an empty query. |
| RecipeList.ClearedFiltersKeepAll | frontend/src/components/mealplanning/RecipeList.js:94-98 | After clearing, every recipe is listed. |
| CreateMealPlanForm.InitialMeals | frontend/src/components/mealplanning/CreateMealPlan.js:51-57 | Seven days, Monday to Sunday, every slot empty. |
| CreateMealPlanForm.SelectInDay | frontend/src/components/mealplanning/CreateMealPlan.js:200-209 | A snack is added unless present. Another slot is overwritten. Nothing else changes. |
| CreateMealPlanForm.RemoveInDay | frontend/src/components/mealplanning/CreateMealPlan.js:225-232 | Every copy of the snack goes and the others stay, or the slot empties. Nothing else changes. |
| CreateMealPlanForm.SelectKeepsSnacksUnique | frontend/src/components/mealplanning/CreateMealPlan.js:201-205 | Selecting never duplicates a snack. |
| CreateMealPlanForm.SelectThenRemove | frontend/src/components/mealplanning/CreateMealPlan.js:196-239 | Removing what was just selected empties the slot. |
| CreateMealPlanForm.MealPlanForm.constructor | frontend/src/components/mealplanning/CreateMealPlan.js:47-58 | A new plan: no name, starting now, ending six days later, every slot empty. |
| CreateMealPlanForm.MealPlanForm.SelectRecipe | frontend/src/components/mealplanning/CreateMealPlan.js:196-218 | Only the named day's slot changes, as SelectInDay. An unknown day changes nothing. |
| CreateMealPlanForm.MealPlanForm.RemoveRecipe | frontend/src/components/mealplanning/CreateMealPlan.js:221-239 | Only the named day's slot changes, as RemoveInDay. An unknown day changes nothing. |
| CreateMealPlanForm.ValidateForm | frontend/src/components/mealplanning/CreateMealPlan.js:274-296 | No error exactly when the name is not blank, both dates are set in order and some day has a meal. |
| CreateMealPlanForm.SubmitErrors | frontend/src/components/mealplanning/CreateMealPlan.js:299-320 | No error exactly when the name is not blank and both dates are set in order. |
| CreateMealPlanForm.SubmitIsWeakerThanValidate | frontend/src/components/mealplanning/CreateMealPlan.js:274-320 | What validateForm accepts, handleSubmit accepts, but handleSubmit also accepts a plan with no meals. |
| CreateMealPlanForm.ColorForDay | frontend/src/components/mealplanning/CreateMealPlan.js:731-734 | A colour from the seven-colour palette. |
| CreateMealPlanForm.ColorForDayWeekly | frontend/src/components/mealplanning/CreateMealPlan.js:731-734 | Colours repeat every seven days, and seven consecutive days get seven different colours. |
| CreateRecipeForm.IngredientErrors | frontend/src/components/mealplanning/CreateRecipe.js:106-114 | One message per unusable input: blank name, no quantity, no unit. The other messages stay. |
| CreateRecipeForm.SubmitErrors | frontend/src/components/mealplanning/CreateRecipe.js:224-234 | No error exactly when name, time, servings and instructions are filled in and there is an ingredient. |
| CreateRecipeForm.RecipeForm.constructor | frontend/src/components/mealplanning/CreateRecipe.js:26-52 | An empty form, with grams as the unit. |
| CreateRecipeForm.RecipeForm.AddIngredient | frontend/src/components/mealplanning/CreateRecipe.js:105-141 | Unusable inputs only record their messages. Otherwise the trimmed ingredient is appended and the inputs reset. Keeps the form valid: tags unique and mirrored, ingredients well formed. |
| CreateRecipeForm.RecipeForm.RemoveIngredient | frontend/src/components/mealplanning/CreateRecipe.js:144-151 | The indexed ingredient goes and the rest keep their order. An index past the end changes nothing. |
| CreateRecipeForm.RecipeForm.AddTag | frontend/src/components/mealplanning/CreateRecipe.js:154-168 | A new non-empty tag is appended to both lists and the input clears. Otherwise nothing changes. Tags stay unique. |
| CreateRecipeForm.RecipeForm.RemoveTag | frontend/src/components/mealplanning/CreateRecipe.js:170-176 | The tag leaves both lists, and the other tags stay in order. |
| CreateRecipeForm.RecipeForm.Submit | frontend/src/components/mealplanning/CreateRecipe.js:220-234 | Sent exactly when SubmitErrors finds nothing. Otherwise its messages are shown. The recipe fields are unchanged. |
| RecipeDetails.SplitLines | frontend/src/components/mealplanning/RecipeDetails.js:110-113 | At least one piece, none holding a line break. |
| RecipeDetails.SplitJoin | frontend/src/components/mealplanning/RecipeDetails.js:110-113 | Joining the pieces with "\n" gives back the text with its breaks normalised. |
| RecipeDetails.TrimSteps | frontend/src/components/mealplanning/RecipeDetails.js:110-113 | Blank pieces are dropped. The rest are non-empty, with no white space at either end. |
| RecipeDetails.InstructionSteps | frontend/src/components/mealplanning/RecipeDetails.js:110-113 | Every step is non-empty, trimmed, and free of line breaks. |
| RecipeDetails.StepsInOrder | frontend/src/components/mealplanning/RecipeDetails.js:110-113 | Each line gives its trimmed self (nothing when blank), followed by the steps of the lines after it. |
| RecipeDetails.ImageSource | frontend/src/components/mealplanning/RecipeDetails.js:188-190 | The recipe's image when it is an http(s) URL; otherwise the placeholder. |
| RecipeDetails.ImageSourceIsWebUrl | frontend/src/components/mealplanning/RecipeDetails.js:188-190 | The page always shows an http(s) URL. |
| RecipeDetails.StatusFor | frontend/src/components/mealplanning/RecipeDetails.js:247-249 | The first status whose name matches up to letter case; none exactly when none matches. |
| RecipeDetails.StatusColor | frontend/src/components/mealplanning/RecipeDetails.js:426-437 | Transparent exactly for an ingredient without a known status. |
| RecipeDetails.StatusTooltip | frontend/src/components/mealplanning/RecipeDetails.js:439-469 | No icon exactly without a known status. A missing ingredient says whether it expired. |
| RecipeDetails.StatusDisplayDistinguishes | frontend/src/components/mealplanning/RecipeDetails.js:426-469 | Distinct statuses get distinct colours, and expired is told apart from absent. |
| MealPlanList.FilteredMealPlans | frontend/src/components/mealplanning/MealPlanList.js:94-113 | The all tab shows every plan. The active, upcoming and past tabs show exactly the current, not yet started and already ended plans. Order is kept. |
| MealPlanList.TabsDisjoint | frontend/src/components/mealplanning/MealPlanList.js:100-109 | An active plan is neither upcoming nor past, and a plan that does not end before it starts is never both upcoming and past. |
| MealPlanList.ActiveTabHasServerActivePlan | frontend/src/components/mealplanning/MealPlanList.js:100-103 | The server has an active plan exactly when the active tab is non-empty, and that plan is the first one the tab lists. |
| MealPlanList.FirstOfFilter | frontend/src/components/mealplanning/MealPlanList.js:100-103 | The first plan a filter keeps is the first plan passing its test. |
| MealPlanList.RecipeName | frontend/src/components/mealplanning/MealPlanList.js:55-58 | "Unknown Recipe" when no recipe has the id; otherwise the name of the first recipe with it. |
| MealPlanList.DeletePlan | frontend/src/components/mealplanning/MealPlanList.js:65 | Exactly the plans with a different id, in order. |
| MealPlanList.DeleteRemovesExactly | frontend/src/components/mealplanning/MealPlanList.js:65 | The remaining plans plus the plans with that id make up the whole list. Without such a plan, nothing changes. |
| MealPlanDetails.RecipeById | frontend/src/components/mealplanning/MealPlanDetails.js:114-125 | An empty slot shows nothing. A populated recipe with a name is shown itself. Otherwise it is looked up by id among the loaded recipes. |
| MealPlanDetails.ResolveSnacks | frontend/src/components/mealplanning/MealPlanDetails.js:280-282 | One recipe per snack that resolves, and every recipe shown comes from one of the snacks. |
| MealPlanDetails.AllResolvedKeepsAll | frontend/src/components/mealplanning/MealPlanDetails.js:280-282 | When every snack resolves, none is dropped. |
| MealPlanDetails.ShowsActive | frontend/src/components/mealplanning/MealPlanDetails.js:184-186 | "Active" is shown exactly for an active plan that spans now. |
| MealPlanDetails.ServerActivePlanShowsActive | frontend/src/components/mealplanning/MealPlanDetails.js:184-186 | The plan the server reports as active is shown as active. |
| MealPlanDetails.InitialTab | frontend/src/components/mealplanning/MealPlanDetails.js:32 | The report tab when the URL asks for "report", otherwise the first tab. |
| ProductListView.DaysLeft | frontend/src/components/ProductList.js:79-80 | Days until expiry, rounded up: d with (d-1)·DAY < expiry − now ≤ d·DAY. |
| ProductListView.ExpiryMessageFor | frontend/src/components/ProductList.js:82-90 | "Already expired" below 0 days, "Expired today" at 0, "1 day left" at 1, otherwise the number of days left. |
| ProductListView.ExpiryMessageBands | frontend/src/components/ProductList.js:76-91 | Measured from the expiry instant: "Already expired" once a full day has passed since it, "Expired today" within that day, "1 day left" within the day before it. |
| ProductListView.FilteredProducts | frontend/src/components/ProductList.js:94-116 | Exactly the products of the chosen category (any when none is chosen) expiring on or after the chosen date (any when none), in order. |
| ProductListView.WithoutProduct | frontend/src/components/ProductList.js:33-34 | The products without that id, in order. |
| ProductListView.DeleteCommutesWithFilter | frontend/src/components/ProductList.js:33-34 | Deleting from the filtered list gives the filter of the list after the deletion. |
| ProductListView.ProductList.Load | frontend/src/components/ProductList.js:20-21 | Both lists become the loaded products and the chosen filters stay, so the shown list agrees with the filters only when none is chosen. |
| ProductListView.WithMessages | frontend/src/components/ProductList.js:103-111 | Every product of the category-filtered list gets its days-left message; other earlier messages are kept, and no other product gains one. |
| ProductListView.ProductList.FilterProducts | frontend/src/components/ProductList.js:94-117 | The shown list becomes FilteredProducts of the products. With a date chosen, the messages become WithMessages over the category-filtered list (before the date filter); with none, they stay. |
| ProductListView.ProductList.SelectCategory | frontend/src/components/ProductList.js:63-66 | The category becomes the chosen one, the date and products stay, and the shown list agrees with the filters afterwards. |
| ProductListView.ProductList.SelectExpireDate | frontend/src/components/ProductList.js:69-73 | The date becomes the chosen one, the category and products stay, and the shown list agrees with the filters afterwards. |
| ProductListView.ProductList.DeleteProduct | frontend/src/components/ProductList.js:28-38 | The product leaves both lists, the filters stay, and agreement between the shown list and the filters is kept. |
| AddProductForm.TodayIsPastAsWritten | frontend/src/components/inventory.js:21-25 | The check as written calls a day past once now is after its UTC midnight. |
| AddProductForm.TodayIsPastExample | frontend/src/components/inventory.js:21-25 | Today's date is rejected at midday. |
| AddProductForm.PastDayMeaning | frontend/src/components/inventory.js:21-25 | The corrected check rejects exactly the days before today. |
| AddProductForm.ValidationError | frontend/src/components/inventory.js:33-59 | None exactly when every field is filled, the price is positive, the quantity is at least 1 and the date is not past. Otherwise the first failing check's message, in the source's order. |
| AddProductForm.SelectUnitUnreachable | frontend/src/components/inventory.js:34-59 | The "select a unit" message can never appear, because an empty unit already fails the earlier all-fields check. |
| AddProductForm.AddProduct.constructor | frontend/src/components/inventory.js:7-15 | Every field empty and no error. |
| AddProductForm.AnswerError | frontend/src/components/inventory.js:80-117 | No error exactly on success. With no usable answer, the network message. Otherwise the server's message, or "An error occurred". |
| AddProductForm.AddProduct.Submit | frontend/src/components/inventory.js:27-121 | Sent exactly when validation passes, using the date test as written. A refusal shows the message and keeps the fields. A success empties them. Any other answer keeps them and shows AnswerError's message. |
| AddProductForm.RefusesToday | frontend/src/components/inventory.js:21-54 | A complete form whose product expires today, sent at midday, is refused with the past-date message. |
| NotificationBell.SuccessiveFloors | frontend/src/components/NotificationBell.js:109-112 | Flooring minutes then hours then days equals flooring the milliseconds directly. |
| NotificationBell.FormatTimeBuckets | frontend/src/components/NotificationBell.js:106-118 | Under a minute, or in the future, "Just now". Then whole minutes, hours or days ago, each in exactly its band. |
| NotificationBell.Rings | frontend/src/components/NotificationBell.js:30-35 | The bell rings exactly when the new unread count exceeds the one compared with. |
| NotificationBell.MarkReadNeverRings | frontend/src/components/NotificationBell.js:44-48 | Marking a notification read never rings the bell on the refetch markAsRead starts at once. |
| NotificationBell.Bell.FetchUnreadCount | frontend/src/components/NotificationBell.js:26-41 | It rings exactly when the count rose above the one on display, then displays the new count. |
| NotificationBell.Bell.PollAsWritten | frontend/src/components/NotificationBell.js:92-103 | The 30-second poll compares with the first render's count 0, so it rings exactly when something is unread. |
| NotificationBell.StalePollRingsAgain | frontend/src/components/NotificationBell.js:92-103 | With an unread notification already on display and nothing new, the poll rings again. |
| NotificationBell.RefetchRingsOnlyOnIncrease | frontend/src/components/NotificationBell.js:26-63 | Compared with the count on display, a refetch with nothing new stays silent, and so does the one after marking read. |
| NotificationBell.NotificationIcon | frontend/src/components/NotificationBell.js:121-132 | Each of the three known types has its own icon; every other type gets the circle. |
| NotificationBell.IconsDistinguishTypes | frontend/src/components/NotificationBell.js:121-132 | Two notification types get the same icon exactly when they are the same type. |
| ExpenseTracker.SubcategoryKeysAreCategories | frontend/src/components/ExpenseTracker.js:11-27 | The subcategory table has exactly the expense categories as keys, and each offers at least one subcategory. |
| ExpenseTracker.SubcategoriesOf | frontend/src/components/ExpenseTracker.js:56-64 | A known category's non-empty subcategory list; none for an unknown category. |
| ExpenseTracker.ExpenseForm.constructor | frontend/src/components/ExpenseTracker.js:30-38 | An empty form, not editing, with no subcategories offered. |
| ExpenseTracker.ExpenseForm.ChangeCategory | frontend/src/components/ExpenseTracker.js:56-64 | The category changes, the subcategory resets, the offered subcategories become the category's, and the rest stays. |
| ExpenseTracker.ExpenseForm.Submit | frontend/src/components/ExpenseTracker.js:75-104 | Sent exactly when every field is filled. Editing sends an update of the edited expense, otherwise a create. A success resets the form; otherwise the form is unchanged. |
| ExpenseTracker.ExpenseForm.Edit | frontend/src/components/ExpenseTracker.js:107-116 | The form holds the expense's fields, edits its id, and offers its category's subcategories. |
| ExpenseTracker.ExpenseForm.CancelEdit | frontend/src/components/ExpenseTracker.js:119-123 | Back to an empty form, not editing. |
| ExpenseTracker.StoredExpenseIsComplete | frontend/src/components/ExpenseTracker.js:79-82 | A valid stored expense with a non-zero amount, loaded for editing, passes the form's check, and its category offers subcategories. |
| BudgetView.ProgressBarClass | frontend/src/components/Budget.js:110-114 | Danger exactly from 100%, warning exactly from 75% up to 100%, normal below 75%. |
| BudgetView.DangerMeansBudgetReached | frontend/src/components/Budget.js:110-114 | For a positive budget, the bar is "danger" exactly when the total reaches the budget. It is "danger" without being exceeded exactly when the total equals the budget. |
| BudgetView.BarWidth | frontend/src/components/Budget.js:238 | The width never exceeds 100 and is the percentage itself up to 100. |
| BudgetView.RemainingCard | frontend/src/components/Budget.js:221-224 | "Over Budget" exactly when exceeded, otherwise "Remaining". The amount shown is the size of the remainder, never negative. |
| BudgetView.RemainingCardMeaning | frontend/src/components/Budget.js:221-224 | The card says "Over Budget" exactly when the total passes the budget. It shows by how much the total is over or under. |
| BudgetView.AmountAccepted | frontend/src/components/Budget.js:79-82 | Empty text is refused, and a parsed number is accepted exactly when it is positive. Text that parses to NaN is accepted. |
| BudgetView.LoadSequence | frontend/src/components/Budget.js:61-69 | The budget is fetched first and the expenses last. The status is fetched exactly when a budget was found. |
| BudgetView.StatusFetchedOnlyWhenFound | frontend/src/components/Budget.js:63-66 | The status is requested exactly when the server would answer it with success, so the request never meets its 404. |
| BudgetView.RecentExpenses | frontend/src/components/Budget.js:54 | The first five of the newest-first expenses, or all of them when there are fewer. |
| SmartShoppingList.SelectItem | frontend/src/components/SmartShoppingList.js:44-50 | A selected item is deselected and an unselected one is appended. No other item's selection changes. |
| SmartShoppingList.SelectTwice | frontend/src/components/SmartShoppingList.js:44-50 | Selecting twice restores which items are selected, and exactly restores the list when the item was not selected. The selection stays free of duplicates. |
| SmartShoppingList.AddRequest | frontend/src/components/SmartShoppingList.js:28-34 | Nothing is sent exactly when the typed text is blank. Otherwise the trimmed, non-empty text is sent. |
| SmartShoppingList.AddRequestAccepted | frontend/src/components/SmartShoppingList.js:28-34 | The controller accepts the page's add exactly when there is no pending list or the trimmed item is not yet listed. |
| SmartShoppingList.RemoveRequest | frontend/src/components/SmartShoppingList.js:53-54 | Nothing is sent exactly when the selection is empty. Otherwise the whole selection is sent. |
| SmartShoppingList.RemovedSelectionIsGone | frontend/src/components/SmartShoppingList.js:53-54 | After the removal, no selected item is listed and every unselected item still is. |
| SmartShoppingList.UpdateRequest | frontend/src/components/SmartShoppingList.js:70-77 | A rename is sent exactly when an item is being edited and the new text is not blank; it carries the trimmed text. The endpoint it posts to does not exist in the controller. |
| SmartShoppingList.EditTarget | frontend/src/components/SmartShoppingList.js:171 | No edit target exactly without a selection; otherwise the first selected item. |

## Left out

- HTTP, Express and Mongoose plumbing are not modelled: requests, status codes
  beyond the four modelled, `populate`, ObjectId casting and connection
  handling. Responses are values.
- The clock is a parameter (`now`, or the current month and day).
  Time-zone and daylight-saving effects are not modelled: days are UTC days.
- Floating point is modelled as exact `real` arithmetic. `toFixed` formatting
  and the text of `parseFloat`/`parseInt` results are left out: parsed
  numbers are parameters, and `None` when the text is not a number.
- Letter case is ASCII only, and `localeCompare` is modelled as code-point
  order. Unicode case folding and collation are left out.
- Mongo's order among equal sort keys is modelled as stable, and `distinct`
  as first-appearance order. Mongo leaves both unspecified.
- JavaScript object keys are kept in insertion order.
- Concurrency between requests is not modelled: each handler runs alone.
- File I/O is not modelled: PDF generation, the download's text file, multer
  uploads and `uploadImage`.
- The seeding script's `connectDB` and `process.exit` are not modelled.
- React rendering, polling timers, `localStorage`, alerts and SweetAlert
  dialogs are not modelled. Only the state the handlers change is.
- `createProduct`, `deleteProduct`, `createExpense`, `getExpenseById`,
  `getBudget`, and the recipe and meal-plan create/read/update/delete handlers
  are not modelled. Their logic is a single database call.
- `handleInputChange` (recipe form, expense tracker), `fetchRecipeData`,
  `handleTabChange`, the recipe dialog and `fetchExpenses` are not modelled.
  Each only copies a value into state.
- CreateRecipeForm.RecipeForm.RemoveIngredient: takes a natural index, so a
  negative `splice` index is not modelled.
- CreateRecipeForm.SubmitErrors: cooking time and servings are text, as typed.
  A numeric 0 loaded into the form when editing is not modelled.
- MealPlanControllers.Classify: compares quantities without units, as the
  source does. Unit conversion does not exist in the system.
- Maps built on plain JavaScript objects (`acc[name]`,
  `categorySubcategoryMap[x] || []`) are modelled as maps. A key that collides
  with an `Object.prototype` name, such as "constructor", is not modelled.
- ShoppingListController.DownloadLines: the reminder queries filter on a path
  neither schema declares. The model takes the number of reminders each query
  returns as a parameter; what the driver makes of such a filter is not modelled.
- BudgetControllers.SavedAmount: an amount that is a JSON boolean, array or
  object is not modelled. Only a missing or null amount, a number and a
  string are. The same holds for NonExpiringReminders.KeptInterval and
  ExpenseControllers.ApplyPatch.
- ExpenseControllers.ApplyPatch: a string field sent as a number or another
  non-string value, which Mongoose would cast to a string, is not modelled.
- AddProductForm.AddProduct.Submit: the `loading` flag and the SweetAlert
  dialogs are not modelled. Only the fields and the error line are.
- AddProductForm.AddProduct.Submit: the handler uses the date test as written.
  The corrected test, AddProductForm.IsPastDay, is defined and proved but not
  used by the handler.

## Findings

| source | as written | input that shows it | evidently intended | confidence | as-written member | corrected member |
|---|---|---|---|---|---|---|
| frontend/src/components/inventory.js:21-25 | `isPastDate` compares midnight UTC of the chosen day with the current time, so the chosen day counts as past once its midnight has gone by | choosing today's date (day 20000) when now is midday of that day (20000·DAY + DAY/2 ms) is rejected with "Expiration date cannot be in the past." | only days before today are past | not executed | AddProductForm.TodayIsPastExample | AddProductForm.PastDayMeaning |
| frontend/src/components/NotificationBell.js:92-103 | the interval is created once, on mount, and its `fetchUnreadCount` compares with the first render's count 0 | one unread notification already on display and nothing new: every 30-second poll rings again | a poll rings only when the count rose | not executed | NotificationBell.StalePollRingsAgain | NotificationBell.RefetchRingsOnlyOnIncrease |
