/** frontend/src/components/mealplanning/MealPlanDetails.js: resolving the
    recipe references of a plan, the "active" badge and the initial tab. The
    day colours are CreateMealPlanForm.ColorForDay, whose palette this page
    repeats. */
module MealPlanDetails {
  import opened Common
  import opened MealPlanControllers

  /** What a meal slot holds: nothing, a recipe id, or a recipe object the
      server has already filled in. */
  datatype RecipeRef = Absent | ById(id: nat) | Embedded(recipe: Recipe)

  /** getRecipeById: nothing for an empty slot; an embedded recipe that has a
      name as it is; otherwise the first loaded recipe with the referenced id. */
  function RecipeById(recipes: seq<Recipe>, ref: RecipeRef): (r: Option<Recipe>)
    ensures ref.Absent? ==> r.None?
    ensures ref.Embedded? && ref.recipe.name != "" ==> r == Some(ref.recipe)
    ensures (ref.ById? || (ref.Embedded? && ref.recipe.name == "")) ==>
      var id := if ref.ById? then ref.id else ref.recipe.id;
      && (r.Some? ==> r.value in recipes && r.value.id == id)
      && (r.None? <==> forall i :: 0 <= i < |recipes| ==> recipes[i].id != id)
  {
    match ref
    case Absent => None
    case Embedded(x) =>
      if x.name != "" then Some(x) else FindById(recipes, x.id)
    case ById(id) => FindById(recipes, id)
  }

  function FindById(recipes: seq<Recipe>, id: nat): Option<Recipe>
  {
    match FindFirst((x: Recipe) => x.id == id, recipes)
    case None => None
    case Some(k) => Some(recipes[k])
  }

  predicate Resolves(recipes: seq<Recipe>, ref: RecipeRef)
  {
    RecipeById(recipes, ref).Some?
  }

  /** The snacks shown for a day: each reference resolved, the unresolved
      ones dropped, the order kept. */
  function ResolveSnacks(recipes: seq<Recipe>, refs: seq<RecipeRef>): (r: seq<Recipe>)
    ensures |r| == Count((x: RecipeRef) => Resolves(recipes, x), refs)
    ensures forall x :: x in r ==> exists i :: 0 <= i < |refs| && RecipeById(recipes, refs[i]) == Some(x)
  {
    if refs == [] then []
    else
      var rest := ResolveSnacks(recipes, refs[1..]);
      assert forall x :: x in rest ==> exists i :: 0 <= i < |refs| && RecipeById(recipes, refs[i]) == Some(x) by {
        forall x | x in rest ensures exists i :: 0 <= i < |refs| && RecipeById(recipes, refs[i]) == Some(x) {
          var i :| 0 <= i < |refs[1..]| && RecipeById(recipes, refs[1..][i]) == Some(x);
          assert RecipeById(recipes, refs[i + 1]) == Some(x);
        }
      }
      match RecipeById(recipes, refs[0])
      case None => rest
      case Some(x) => [x] + rest
  }

  /** When every snack reference resolves, every snack is shown. */
  lemma AllResolvedKeepsAll(recipes: seq<Recipe>, refs: seq<RecipeRef>)
    requires forall i :: 0 <= i < |refs| ==> Resolves(recipes, refs[i])
    ensures |ResolveSnacks(recipes, refs)| == |refs|
  {
    FilterAll((x: RecipeRef) => Resolves(recipes, x), refs);
  }

  /** The "Active" badge: the plan is flagged active and now lies between its
      dates, which is how the server chooses the active plan. */
  function ShowsActive(plan: MealPlan, now: int): (active: bool)
    ensures active <==> IsCurrent(plan, now)
  {
    plan.isActive && plan.startDate <= now && plan.endDate >= now
  }

  /** The plan the server reports as active always carries the badge. */
  lemma ServerActivePlanShowsActive(plans: seq<MealPlan>, now: int)
    ensures ActiveMealPlan(plans, now).Ok? ==> ShowsActive(ActiveMealPlan(plans, now).value, now)
  {
  }

  /** The tab opened first: the report tab (1) exactly when the page address
      carries `tab=report`, the schedule tab (0) otherwise. */
  function InitialTab(tab: Option<string>): (t: nat)
    ensures t == 1 <==> tab == Some("report")
    ensures t == 0 <==> tab != Some("report")
  {
    if tab == Some("report") then 1 else 0
  }
}
