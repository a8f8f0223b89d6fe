/** BACKEND/controllers/MealPlanControllers.js: the active meal plan, the
    availability of a recipe's ingredients in the inventory, and the meal-plan
    report that sums ingredients over all meals and checks each total. */
module MealPlanControllers {
  import opened Common
  import opened Text
  import opened ProductControllers

  datatype RecipeIngredient = RecipeIngredient(ingredient: string, quantity: Quantity)

  /** A Recipe document (BACKEND/models/MealPlanModel.js). */
  datatype Recipe = Recipe(
    id: nat, name: string, description: string, cookingTime: int, servings: int,
    instructions: string, ingredients: seq<RecipeIngredient>, image: Option<string>, tags: seq<string>)

  /** One day of a plan with its references populated: a slot whose recipe no
      longer exists is None, and missing snacks are dropped. */
  datatype Meal = Meal(day: string, breakfast: Option<Recipe>, lunch: Option<Recipe>,
                       dinner: Option<Recipe>, snacks: seq<Recipe>)

  datatype MealPlan = MealPlan(id: nat, name: string, startDate: int, endDate: int,
                               meals: seq<Meal>, isActive: bool)

  /** The plan query of getActiveMealPlan. */
  predicate IsCurrent(plan: MealPlan, now: int)
  {
    plan.isActive && plan.startDate <= now <= plan.endDate
  }

  /** getActiveMealPlan: the first current plan, or 404. */
  function ActiveMealPlan(plans: seq<MealPlan>, now: int): (r: Response<MealPlan>)
    ensures r.Ok? || r == NotFound
    ensures r == NotFound <==> forall i :: 0 <= i < |plans| ==> !IsCurrent(plans[i], now)
    ensures r.Ok? ==> r.value in plans && r.value.isActive
                      && r.value.startDate <= now <= r.value.endDate
  {
    match FindFirst((p: MealPlan) => IsCurrent(p, now), plans)
    case None => NotFound
    case Some(k) => Ok(plans[k])
  }

  /** The outcome of checking one ingredient. Available and Insufficient carry
      the stock found; Missing says whether the match was expired. */
  datatype Status = Available(stock: Quantity) | Insufficient(stock: Quantity) | Missing(expired: bool)

  datatype IngredientStatus = IngredientStatus(ingredient: string, required: Quantity, status: Status)

  /** The first product whose name equals `name` up to letter case. */
  function MatchingProduct(products: seq<Product>, name: string): (r: Option<Product>)
    ensures r.Some? ==> r.value in products && EqualsIgnoreCase(r.value.name, name)
    ensures r.None? ==> forall i :: 0 <= i < |products| ==> !EqualsIgnoreCase(products[i].name, name)
  {
    match FindFirst((p: Product) => EqualsIgnoreCase(p.name, name), products)
    case None => None
    case Some(k) => Some(products[k])
  }

  /** The status pushed for one ingredient: an expired match counts as missing
      whatever its stock; otherwise stock ≥ required is available. Units are not
      compared. */
  function Classify(ingredient: string, required: Quantity, products: seq<Product>, now: int)
    : (r: IngredientStatus)
    ensures r.ingredient == ingredient && r.required == required
    ensures r.status.Missing? <==> match MatchingProduct(products, ingredient)
                                   case None => true
                                   case Some(p) => p.expireDate < now
    ensures r.status == Missing(true) <==> MatchingProduct(products, ingredient).Some?
                                           && MatchingProduct(products, ingredient).value.expireDate < now
    ensures r.status.Available? ==> r.status.stock.value >= required.value
    ensures r.status.Insufficient? ==> r.status.stock.value < required.value
    ensures !r.status.Missing? ==> r.status.stock == MatchingProduct(products, ingredient).value.quantity
  {
    match MatchingProduct(products, ingredient)
    case None => IngredientStatus(ingredient, required, Missing(false))
    case Some(p) =>
      if p.expireDate < now then IngredientStatus(ingredient, required, Missing(true))
      else if p.quantity.value >= required.value then IngredientStatus(ingredient, required, Available(p.quantity))
      else IngredientStatus(ingredient, required, Insufficient(p.quantity))
  }

  /** Why an ingredient is on the shopping list. */
  datatype Reason = MissingReason | InsufficientReason

  datatype ShoppingItem = ShoppingItem(ingredient: string, quantity: Quantity, reason: Reason)

  predicate NeedsBuying(s: IngredientStatus)
  {
    !s.status.Available?
  }

  /** The map callback: a missing ingredient is bought in full, any other in the
      amount by which stock falls short. */
  function ToShoppingItem(s: IngredientStatus): ShoppingItem
  {
    match s.status
    case Missing(_) => ShoppingItem(s.ingredient, s.required, MissingReason)
    case Available(stock) => ShoppingItem(s.ingredient, Quantity(s.required.value - stock.value, s.required.unit), InsufficientReason)
    case Insufficient(stock) => ShoppingItem(s.ingredient, Quantity(s.required.value - stock.value, s.required.unit), InsufficientReason)
  }

  /** A status as Classify produces it: available stock covers the need, and
      insufficient stock does not. */
  predicate Consistent(s: IngredientStatus)
  {
    && (s.status.Available? ==> s.status.stock.value >= s.required.value)
    && (s.status.Insufficient? ==> s.status.stock.value < s.required.value)
  }

  /** shoppingListItems: the statuses that are not available, in order, mapped. */
  function ShoppingListItems(statuses: seq<IngredientStatus>): (r: seq<ShoppingItem>)
    ensures |r| == Count(NeedsBuying, statuses)
    ensures var needed := Filter(NeedsBuying, statuses);
      forall k :: 0 <= k < |r| ==>
        && r[k].ingredient == needed[k].ingredient
        && (r[k].reason == MissingReason <==> needed[k].status.Missing?)
        && (r[k].reason == MissingReason ==> r[k].quantity == needed[k].required)
        && (r[k].reason == InsufficientReason ==>
              && needed[k].status.Insufficient?
              && r[k].quantity == Quantity(needed[k].required.value - needed[k].status.stock.value,
                                           needed[k].required.unit))
  {
    var needed := Filter(NeedsBuying, statuses);
    seq(|needed|, k requires 0 <= k < |needed| => ToShoppingItem(needed[k]))
  }

  /** For statuses as Classify produces them, an insufficient ingredient is
      bought in a positive amount: required − available > 0. */
  lemma ShortfallPositive(statuses: seq<IngredientStatus>)
    requires forall i :: 0 <= i < |statuses| ==> Consistent(statuses[i])
    ensures var r := ShoppingListItems(statuses);
      forall k :: 0 <= k < |r| && r[k].reason == InsufficientReason ==> r[k].quantity.value > 0.0
  {
    var needed := Filter(NeedsBuying, statuses);
    var r := ShoppingListItems(statuses);
    forall k | 0 <= k < |r| && r[k].reason == InsufficientReason ensures r[k].quantity.value > 0.0 {
      assert needed[k] in statuses;
      assert NeedsBuying(needed[k]);
    }
  }

  /** Classify always yields a consistent status. */
  lemma ClassifyConsistent(ingredient: string, required: Quantity, products: seq<Product>, now: int)
    ensures Consistent(Classify(ingredient, required, products, now))
  {
  }

  /** The for-of loop of both handlers: one Classify per needed ingredient, in order. */
  method ClassifyAll(needs: seq<RecipeIngredient>, products: seq<Product>, now: int)
    returns (statuses: seq<IngredientStatus>)
    ensures |statuses| == |needs|
    ensures forall i :: 0 <= i < |needs| ==>
      statuses[i] == Classify(needs[i].ingredient, needs[i].quantity, products, now)
  {
    statuses := [];
    var i := 0;
    while i < |needs|
      invariant 0 <= i <= |needs|
      invariant |statuses| == i
      invariant forall j :: 0 <= j < i ==>
        statuses[j] == Classify(needs[j].ingredient, needs[j].quantity, products, now)
    {
      statuses := statuses + [Classify(needs[i].ingredient, needs[i].quantity, products, now)];
      i := i + 1;
    }
  }

  datatype Availability = Availability(recipeName: string, statuses: seq<IngredientStatus>,
                                       shoppingListItems: seq<ShoppingItem>)

  /** checkIngredientsAvailability. */
  method CheckIngredientsAvailability(recipes: seq<Recipe>, recipeId: nat, products: seq<Product>, now: int)
    returns (r: Response<Availability>)
    ensures r.Ok? || r == NotFound
    ensures r == NotFound <==> forall i :: 0 <= i < |recipes| ==> recipes[i].id != recipeId
    ensures r.Ok? ==>
      exists recipe :: recipe in recipes && recipe.id == recipeId && r.value.recipeName == recipe.name
        && |r.value.statuses| == |recipe.ingredients|
        && (forall i :: 0 <= i < |recipe.ingredients| ==>
              r.value.statuses[i] == Classify(recipe.ingredients[i].ingredient, recipe.ingredients[i].quantity, products, now))
    ensures r.Ok? ==> r.value.shoppingListItems == ShoppingListItems(r.value.statuses)
  {
    var found := FindFirst((x: Recipe) => x.id == recipeId, recipes);
    if found.None? {
      return NotFound;
    }
    var recipe := recipes[found.value];
    var statuses := ClassifyAll(recipe.ingredients, products, now);
    r := Ok(Availability(recipe.name, statuses, ShoppingListItems(statuses)));
  }

  /** Every ingredient occurrence of the plan, meal by meal: breakfast, lunch,
      dinner, then each snack. */
  function Occurrences(meals: seq<Meal>): seq<RecipeIngredient>
  {
    if meals == [] then []
    else MealOccurrences(meals[0]) + Occurrences(meals[1..])
  }

  function MealOccurrences(m: Meal): seq<RecipeIngredient>
  {
    SlotIngredients(m.breakfast) + SlotIngredients(m.lunch) + SlotIngredients(m.dinner)
      + SnackIngredients(m.snacks)
  }

  function SlotIngredients(slot: Option<Recipe>): seq<RecipeIngredient>
  {
    if slot.None? then [] else slot.value.ingredients
  }

  function SnackIngredients(snacks: seq<Recipe>): seq<RecipeIngredient>
  {
    if snacks == [] then [] else snacks[0].ingredients + SnackIngredients(snacks[1..])
  }

  /** An entry of allIngredients: the summed value under an exact name, with
      the unit of its first occurrence. */
  datatype Total = Total(ingredient: string, total: real, unit: string)

  /** Sum of the values of the occurrences named exactly `name`. */
  function SumFor(occ: seq<RecipeIngredient>, name: string): real
  {
    if occ == [] then 0.0
    else SumFor(occ[..|occ| - 1], name)
         + (if occ[|occ| - 1].ingredient == name then occ[|occ| - 1].quantity.value else 0.0)
  }

  /** Unit of the first occurrence named `name` ("" when there is none). */
  function FirstUnit(occ: seq<RecipeIngredient>, name: string): string
  {
    if occ == [] then ""
    else if occ[0].ingredient == name then occ[0].quantity.unit
    else FirstUnit(occ[1..], name)
  }

  function NameIndex(totals: seq<Total>, name: string): Option<nat>
  {
    FindFirst((t: Total) => t.ingredient == name, totals)
  }

  /** One `addIngredients` step: add to the entry of that name, or start one. */
  function AddOccurrence(totals: seq<Total>, ing: RecipeIngredient): seq<Total>
  {
    match NameIndex(totals, ing.ingredient)
    case Some(k) => totals[k := totals[k].(total := totals[k].total + ing.quantity.value)]
    case None => totals + [Total(ing.ingredient, ing.quantity.value, ing.quantity.unit)]
  }

  /** allIngredients after processing `occ` in order (Object.entries order). */
  function Aggregate(occ: seq<RecipeIngredient>): seq<Total>
  {
    if occ == [] then [] else AddOccurrence(Aggregate(occ[..|occ| - 1]), occ[|occ| - 1])
  }

  /** Some occurrence is named exactly `name`. */
  predicate Mentions(occ: seq<RecipeIngredient>, name: string)
  {
    exists i :: 0 <= i < |occ| && occ[i].ingredient == name
  }

  predicate DistinctNames(totals: seq<Total>)
  {
    forall i, j :: 0 <= i < j < |totals| ==> totals[i].ingredient != totals[j].ingredient
  }

  /** What one step does to an entry list with distinct names. */
  lemma AddOccurrenceEffect(prev: seq<Total>, ing: RecipeIngredient)
    requires DistinctNames(prev)
    ensures var t := AddOccurrence(prev, ing);
      && DistinctNames(t)
      && |t| == |prev| + (if NameIndex(prev, ing.ingredient).None? then 1 else 0)
      && (forall k :: 0 <= k < |prev| ==>
            && t[k].ingredient == prev[k].ingredient && t[k].unit == prev[k].unit
            && t[k].total == prev[k].total + (if prev[k].ingredient == ing.ingredient then ing.quantity.value else 0.0))
      && (NameIndex(prev, ing.ingredient).None? ==>
            t[|prev|] == Total(ing.ingredient, ing.quantity.value, ing.quantity.unit))
  {
    var t := AddOccurrence(prev, ing);
    if NameIndex(prev, ing.ingredient).None? {
      forall i, j | 0 <= i < j < |t| ensures t[i].ingredient != t[j].ingredient {
        if j < |prev| { assert t[i] == prev[i] && t[j] == prev[j]; }
      }
    }
  }

  /** The entries name each mentioned ingredient once and nothing else. */
  lemma {:induction false} AggregateNames(occ: seq<RecipeIngredient>)
    ensures DistinctNames(Aggregate(occ))
    ensures forall name :: NameIndex(Aggregate(occ), name).Some? <==> Mentions(occ, name)
  {
    if occ != [] {
      var init := occ[..|occ| - 1];
      var ing := occ[|occ| - 1];
      AggregateNames(init);
      var prev := Aggregate(init);
      var t := Aggregate(occ);
      AddOccurrenceEffect(prev, ing);
      forall name ensures NameIndex(t, name).Some? <==> Mentions(occ, name) {
        if Mentions(occ, name) {
          var i :| 0 <= i < |occ| && occ[i].ingredient == name;
          if i < |occ| - 1 {
            assert init[i].ingredient == name;
            var k := NameIndex(prev, name).value;
            assert t[k].ingredient == name;
          } else if NameIndex(prev, name).Some? {
            var k := NameIndex(prev, name).value;
            assert t[k].ingredient == name;
          } else {
            assert t[|prev|].ingredient == name;
          }
        }
        if NameIndex(t, name).Some? {
          var k := NameIndex(t, name).value;
          if k < |prev| && name != ing.ingredient {
            assert prev[k].ingredient == name;
            assert Mentions(init, name);
            var i :| 0 <= i < |init| && init[i].ingredient == name;
            assert occ[i].ingredient == name;
          } else {
            assert occ[|occ| - 1].ingredient == name;
          }
        }
      }
    }
  }

  /** Each entry holds the sum over every occurrence of its name and the unit of
      the first one. */
  predicate TotalsMatch(occ: seq<RecipeIngredient>, t: seq<Total>)
  {
    forall k :: 0 <= k < |t| ==>
      t[k].total == SumFor(occ, t[k].ingredient) && t[k].unit == FirstUnit(occ, t[k].ingredient)
  }

  lemma {:induction false} AggregateTotals(occ: seq<RecipeIngredient>)
    ensures TotalsMatch(occ, Aggregate(occ))
  {
    if occ != [] {
      var init := occ[..|occ| - 1];
      var ing := occ[|occ| - 1];
      AggregateTotals(init);
      AggregateNames(init);
      var prev := Aggregate(init);
      var t := Aggregate(occ);
      AddOccurrenceEffect(prev, ing);
      assert occ == init + [ing];
      forall k | 0 <= k < |t|
        ensures t[k].total == SumFor(occ, t[k].ingredient) && t[k].unit == FirstUnit(occ, t[k].ingredient)
      {
        var name := t[k].ingredient;
        if k < |prev| {
          assert prev[k].ingredient == name;
          if NameIndex(prev, name).None? {
            assert false;
          }
          assert Mentions(init, name);
          FirstUnitExtend(init, ing, name);
          assert prev[k].unit == FirstUnit(init, name);
          assert occ[..|occ| - 1] == init;
          assert SumFor(occ, name) == SumFor(init, name) + (if ing.ingredient == name then ing.quantity.value else 0.0);
          assert t[k].total == prev[k].total + (if ing.ingredient == name then ing.quantity.value else 0.0);
        } else {
          assert !Mentions(init, name);
          SumForAbsent(init, name);
          FirstUnitExtend(init, ing, name);
        }
      }
    }
  }

  lemma {:induction false} SumForAbsent(occ: seq<RecipeIngredient>, name: string)
    requires !Mentions(occ, name)
    ensures SumFor(occ, name) == 0.0
  {
    if occ != [] {
      var init := occ[..|occ| - 1];
      SumForAbsent(init, name);
    }
  }

  lemma {:induction false} FirstUnitExtend(occ: seq<RecipeIngredient>, ing: RecipeIngredient, name: string)
    ensures Mentions(occ, name) ==> FirstUnit(occ + [ing], name) == FirstUnit(occ, name)
    ensures !Mentions(occ, name) && ing.ingredient == name ==> FirstUnit(occ + [ing], name) == ing.quantity.unit
  {
    if occ != [] {
      assert (occ + [ing])[1..] == occ[1..] + [ing];
      FirstUnitExtend(occ[1..], ing, name);
      if occ[0].ingredient != name && Mentions(occ, name) {
        var i :| 0 <= i < |occ| && occ[i].ingredient == name;
        assert occ[1..][i - 1].ingredient == name;
      }
    }
  }

  /** Aggregating one more occurrence of a prefix is one AddOccurrence step. */
  lemma AggregatePrefixStep(occ: seq<RecipeIngredient>, i: nat)
    requires i < |occ|
    ensures Aggregate(occ[..i + 1]) == AddOccurrence(Aggregate(occ[..i]), occ[i])
  {
    assert occ[..i + 1][..i] == occ[..i];
  }

  /** The body of addIngredients for one ingredient: add its quantity to the
      entry of that name, or start an entry with its quantity and unit. */
  method AddIngredientTo(totals: seq<Total>, ing: RecipeIngredient) returns (t: seq<Total>)
    ensures t == AddOccurrence(totals, ing)
  {
    var found := NameIndex(totals, ing.ingredient);
    if found.Some? {
      var k := found.value;
      t := totals[k := totals[k].(total := totals[k].total + ing.quantity.value)];
    } else {
      t := totals + [Total(ing.ingredient, ing.quantity.value, ing.quantity.unit)];
    }
  }

  /** The loop over allIngredients' entries, accumulating as the forEach does. */
  method AggregateIngredients(meals: seq<Meal>) returns (totals: seq<Total>)
    ensures totals == Aggregate(Occurrences(meals))
  {
    var occ := Occurrences(meals);
    totals := [];
    var i := 0;
    while i < |occ|
      invariant 0 <= i <= |occ|
      invariant totals == Aggregate(occ[..i])
    {
      AggregatePrefixStep(occ, i);
      totals := AddIngredientTo(totals, occ[i]);
      i := i + 1;
    }
    assert occ[..i] == occ;
  }

  /** Ids of every referenced recipe, in slot order (with repetitions). */
  function RecipeIds(meals: seq<Meal>): seq<nat>
  {
    if meals == [] then []
    else
      var m := meals[0];
      (if m.breakfast.Some? then [m.breakfast.value.id] else [])
      + (if m.lunch.Some? then [m.lunch.value.id] else [])
      + (if m.dinner.Some? then [m.dinner.value.id] else [])
      + SnackIds(m.snacks) + RecipeIds(meals[1..])
  }

  function SnackIds(snacks: seq<Recipe>): seq<nat>
  {
    if snacks == [] then [] else [snacks[0].id] + SnackIds(snacks[1..])
  }

  datatype Summary = Summary(name: string, days: nat, totalRecipes: nat,
                             missingIngredients: nat, insufficientIngredients: nat)

  datatype Report = Report(summary: Summary, statuses: seq<IngredientStatus>, shoppingListItems: seq<ShoppingItem>)

  predicate IsMissing(s: IngredientStatus) { s.status.Missing? }

  predicate IsInsufficient(s: IngredientStatus) { s.status.Insufficient? }

  /** The counts of the summary add up to the length of the shopping list,
      which is at most the number of statuses. */
  lemma {:induction false} SummaryCounts(statuses: seq<IngredientStatus>)
    ensures Count(IsMissing, statuses) + Count(IsInsufficient, statuses) == |ShoppingListItems(statuses)|
    ensures |ShoppingListItems(statuses)| <= |statuses|
  {
    if statuses != [] {
      SummaryCounts(statuses[1..]);
    }
  }

  /** The report of a plan: one status per aggregated ingredient, in order,
      the summary of the plan with the counts of those statuses, and the
      shopping list made from them. */
  predicate ReportOf(plan: MealPlan, products: seq<Product>, now: int, report: Report)
  {
    var totals := Aggregate(Occurrences(plan.meals));
    && |report.statuses| == |totals|
    && (forall i :: 0 <= i < |totals| ==>
          report.statuses[i] == Classify(totals[i].ingredient, Quantity(totals[i].total, totals[i].unit), products, now))
    && report.summary == Summary(plan.name, |plan.meals|, |Distinct(RecipeIds(plan.meals))|,
                                 Count(IsMissing, report.statuses), Count(IsInsufficient, report.statuses))
    && report.shoppingListItems == ShoppingListItems(report.statuses)
  }

  /** generateMealPlanReport. */
  method GenerateMealPlanReport(plans: seq<MealPlan>, planId: nat, products: seq<Product>, now: int)
    returns (r: Response<Report>)
    ensures r.Ok? || r == NotFound
    ensures r == NotFound <==> forall i :: 0 <= i < |plans| ==> plans[i].id != planId
    ensures r.Ok? ==> exists plan :: plan in plans && plan.id == planId && ReportOf(plan, products, now, r.value)
  {
    var found := FindFirst((p: MealPlan) => p.id == planId, plans);
    if found.None? {
      return NotFound;
    }
    var plan := plans[found.value];
    var totals := AggregateIngredients(plan.meals);
    var needs := seq(|totals|, i requires 0 <= i < |totals| =>
      RecipeIngredient(totals[i].ingredient, Quantity(totals[i].total, totals[i].unit)));
    var statuses := ClassifyAll(needs, products, now);
    forall i | 0 <= i < |totals|
      ensures statuses[i] == Classify(totals[i].ingredient, Quantity(totals[i].total, totals[i].unit), products, now)
    {
      assert needs[i] == RecipeIngredient(totals[i].ingredient, Quantity(totals[i].total, totals[i].unit));
    }
    var summary := Summary(plan.name, |plan.meals|, |Distinct(RecipeIds(plan.meals))|,
                           Count(IsMissing, statuses), Count(IsInsufficient, statuses));
    r := Ok(Report(summary, statuses, ShoppingListItems(statuses)));
    assert ReportOf(plan, products, now, r.value);
    assert plan in plans && plan.id == planId;
  }
}
