/** frontend/src/components/mealplanning/MealPlanList.js: the plan tabs, the
    recipe names shown for ids, and the list after a deletion. */
module MealPlanList {
  import opened Common
  import opened MealPlanControllers

  /** The tabs: 0 all, 1 active, 2 upcoming, 3 past. */
  const ALL_TAB := 0
  const ACTIVE_TAB := 1
  const UPCOMING_TAB := 2
  const PAST_TAB := 3

  predicate IsUpcoming(plan: MealPlan, now: int) { plan.startDate > now }
  predicate IsPast(plan: MealPlan, now: int) { plan.endDate < now }

  /** getFilteredMealPlans at instant `now`; tab 0 and any unknown tab show
      every plan. */
  function FilteredMealPlans(plans: seq<MealPlan>, tab: int, now: int): (r: seq<MealPlan>)
    ensures tab != ACTIVE_TAB && tab != UPCOMING_TAB && tab != PAST_TAB ==> r == plans
    ensures tab == ACTIVE_TAB ==> forall p :: p in r <==> p in plans && IsCurrent(p, now)
    ensures tab == UPCOMING_TAB ==> forall p :: p in r <==> p in plans && IsUpcoming(p, now)
    ensures tab == PAST_TAB ==> forall p :: p in r <==> p in plans && IsPast(p, now)
    ensures IsSubsequence(r, plans)
  {
    SubsequenceReflexive(plans);
    FilterIsSubsequence((p: MealPlan) => IsCurrent(p, now), plans);
    FilterIsSubsequence((p: MealPlan) => IsUpcoming(p, now), plans);
    FilterIsSubsequence((p: MealPlan) => IsPast(p, now), plans);
    if tab == ACTIVE_TAB then Filter((p: MealPlan) => IsCurrent(p, now), plans)
    else if tab == UPCOMING_TAB then Filter((p: MealPlan) => IsUpcoming(p, now), plans)
    else if tab == PAST_TAB then Filter((p: MealPlan) => IsPast(p, now), plans)
    else plans
  }

  /** No plan is both active and upcoming, nor both active and past; a plan
      that does not end before it starts is never both upcoming and past. */
  lemma TabsDisjoint(plans: seq<MealPlan>, now: int, p: MealPlan)
    ensures p in FilteredMealPlans(plans, ACTIVE_TAB, now) ==>
      p !in FilteredMealPlans(plans, UPCOMING_TAB, now) && p !in FilteredMealPlans(plans, PAST_TAB, now)
    ensures p.startDate <= p.endDate && p in FilteredMealPlans(plans, UPCOMING_TAB, now) ==>
      p !in FilteredMealPlans(plans, PAST_TAB, now)
  {
  }

  /** The plan the server reports as active is listed under the Active tab,
      first among them. */
  lemma ActiveTabHasServerActivePlan(plans: seq<MealPlan>, now: int)
    ensures ActiveMealPlan(plans, now).Ok? <==> FilteredMealPlans(plans, ACTIVE_TAB, now) != []
    ensures ActiveMealPlan(plans, now).Ok? ==>
      FilteredMealPlans(plans, ACTIVE_TAB, now)[0] == ActiveMealPlan(plans, now).value
  {
    var active := FilteredMealPlans(plans, ACTIVE_TAB, now);
    if ActiveMealPlan(plans, now).Ok? {
      assert ActiveMealPlan(plans, now).value in active;
      FirstOfFilter((p: MealPlan) => IsCurrent(p, now), plans);
    }
  }

  /** The first element a filter keeps is the first element satisfying it. */
  lemma {:induction false} FirstOfFilter(p: MealPlan -> bool, s: seq<MealPlan>)
    ensures FindFirst(p, s).Some? ==> Filter(p, s) != [] && Filter(p, s)[0] == s[FindFirst(p, s).value]
    decreases |s|
  {
    if s != [] && !p(s[0]) {
      FirstOfFilter(p, s[1..]);
    }
  }

  /** getRecipeName: the name of the first recipe with that id, or
      'Unknown Recipe'. */
  function RecipeName(recipes: seq<Recipe>, id: nat): (name: string)
    ensures (forall i :: 0 <= i < |recipes| ==> recipes[i].id != id) ==> name == "Unknown Recipe"
    ensures (exists i :: 0 <= i < |recipes| && recipes[i].id == id) ==>
      exists i :: 0 <= i < |recipes| && recipes[i].id == id && name == recipes[i].name
                  && forall j :: 0 <= j < i ==> recipes[j].id != id
  {
    match FindFirst((r: Recipe) => r.id == id, recipes)
    case None => "Unknown Recipe"
    case Some(k) => recipes[k].name
  }

  /** The list after deleting plan `id`: the plans with any other id, in order. */
  function DeletePlan(plans: seq<MealPlan>, id: nat): (r: seq<MealPlan>)
    ensures forall p :: p in r <==> p in plans && p.id != id
    ensures IsSubsequence(r, plans)
  {
    FilterIsSubsequence((p: MealPlan) => p.id != id, plans);
    Filter((p: MealPlan) => p.id != id, plans)
  }

  /** Exactly the plans with that id leave the list. */
  lemma DeleteRemovesExactly(plans: seq<MealPlan>, id: nat)
    ensures |DeletePlan(plans, id)| + Count((p: MealPlan) => p.id == id, plans) == |plans|
    ensures (forall i :: 0 <= i < |plans| ==> plans[i].id != id) ==> DeletePlan(plans, id) == plans
  {
    FilterComplementLength((p: MealPlan) => p.id != id, (p: MealPlan) => p.id == id, plans);
    if forall i :: 0 <= i < |plans| ==> plans[i].id != id {
      FilterAll((p: MealPlan) => p.id != id, plans);
    }
  }
}
