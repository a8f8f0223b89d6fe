/** frontend/src/components/mealplanning/CreateMealPlan.js: the week of meal
    slots being edited, recipe selection and removal, the two validations, and
    the per-day colour. */
module CreateMealPlanForm {
  import opened Common
  import opened Text

  const DAYS_OF_WEEK: seq<string> := ["Monday", "Tuesday", "Wednesday", "Thursday", "Friday", "Saturday", "Sunday"]

  /** The slots the recipe dialog can fill. */
  datatype MealType = Breakfast | Lunch | Dinner | Snacks

  /** One day of the form; recipes are referred to by id. */
  datatype DayMeals = DayMeals(
    day: string, breakfast: Option<nat>, lunch: Option<nat>, dinner: Option<nat>, snacks: seq<nat>)

  /** The meals of a new plan: the seven days in order, every slot empty. */
  function InitialMeals(): (r: seq<DayMeals>)
    ensures |r| == 7
    ensures forall i :: 0 <= i < 7 ==> r[i] == DayMeals(DAYS_OF_WEEK[i], None, None, None, [])
  {
    seq(7, i requires 0 <= i < 7 => DayMeals(DAYS_OF_WEEK[i], None, None, None, []))
  }

  /** `findIndex(meal => meal.day === day)`. */
  function DayIndex(meals: seq<DayMeals>, day: string): Option<nat>
  {
    FindFirst((m: DayMeals) => m.day == day, meals)
  }

  /** selectRecipe on one day: a snack id is added unless already there; any
      other slot is overwritten. */
  function SelectInDay(d: DayMeals, mealType: MealType, id: nat): (r: DayMeals)
    ensures r.day == d.day
    ensures mealType == Snacks ==>
      r == d.(snacks := if id in d.snacks then d.snacks else d.snacks + [id])
    ensures mealType == Breakfast ==> r == d.(breakfast := Some(id))
    ensures mealType == Lunch ==> r == d.(lunch := Some(id))
    ensures mealType == Dinner ==> r == d.(dinner := Some(id))
  {
    match mealType
    case Snacks => if id in d.snacks then d else d.(snacks := d.snacks + [id])
    case Breakfast => d.(breakfast := Some(id))
    case Lunch => d.(lunch := Some(id))
    case Dinner => d.(dinner := Some(id))
  }

  /** removeRecipe on one day: every copy of the snack id goes; any other slot
      becomes empty whatever it held. */
  function RemoveInDay(d: DayMeals, mealType: MealType, id: nat): (r: DayMeals)
    ensures r.day == d.day
    ensures mealType == Snacks ==>
      && r.(snacks := d.snacks) == d
      && id !in r.snacks
      && forall x :: x != id ==> (x in r.snacks <==> x in d.snacks)
    ensures mealType == Breakfast ==> r == d.(breakfast := None)
    ensures mealType == Lunch ==> r == d.(lunch := None)
    ensures mealType == Dinner ==> r == d.(dinner := None)
  {
    match mealType
    case Snacks => d.(snacks := Filter((x: nat) => x != id, d.snacks))
    case Breakfast => d.(breakfast := None)
    case Lunch => d.(lunch := None)
    case Dinner => d.(dinner := None)
  }

  /** A day's snacks without repeats stay so after a selection. */
  lemma SelectKeepsSnacksUnique(d: DayMeals, mealType: MealType, id: nat)
    requires Unique(d.snacks)
    ensures Unique(SelectInDay(d, mealType, id).snacks)
  {
    if mealType == Snacks && id !in d.snacks {
      var s := d.snacks + [id];
      forall i, j | 0 <= i < j < |s| ensures s[i] != s[j] {
        if j == |d.snacks| {
          assert s[i] == d.snacks[i];
        }
      }
    }
  }

  /** Removing right after selecting leaves the slot empty. */
  lemma SelectThenRemove(d: DayMeals, mealType: MealType, id: nat)
    ensures var r := RemoveInDay(SelectInDay(d, mealType, id), mealType, id);
      && (mealType == Snacks ==> id !in r.snacks)
      && (mealType == Breakfast ==> r.breakfast.None?)
      && (mealType == Lunch ==> r.lunch.None?)
      && (mealType == Dinner ==> r.dinner.None?)
  {
  }

  /** The meal-plan form. */
  class MealPlanForm {
    var name: string
    var startDate: Option<int>
    var endDate: Option<int>
    var meals: seq<DayMeals>

    /** A new plan starts now and ends six days later, with every slot empty. */
    constructor (now: int)
      ensures name == "" && startDate == Some(now) && endDate == Some(now + 6 * DAY_MS)
      ensures meals == InitialMeals()
    {
      name := "";
      startDate := Some(now);
      endDate := Some(now + 6 * DAY_MS);
      meals := InitialMeals();
    }

    /** selectRecipe: only the named slot of the named day changes; an unknown
        day changes nothing. */
    method SelectRecipe(day: string, mealType: MealType, id: nat)
      modifies this
      ensures name == old(name) && startDate == old(startDate) && endDate == old(endDate)
      ensures DayIndex(old(meals), day).None? ==> meals == old(meals)
      ensures DayIndex(old(meals), day).Some? ==>
        var k := DayIndex(old(meals), day).value;
        meals == old(meals)[k := SelectInDay(old(meals)[k], mealType, id)]
    {
      var k := DayIndex(meals, day);
      if k.Some? {
        meals := meals[k.value := SelectInDay(meals[k.value], mealType, id)];
      }
    }

    /** removeRecipe: only the named slot of the named day changes; an unknown
        day changes nothing. */
    method RemoveRecipe(day: string, mealType: MealType, id: nat)
      modifies this
      ensures name == old(name) && startDate == old(startDate) && endDate == old(endDate)
      ensures DayIndex(old(meals), day).None? ==> meals == old(meals)
      ensures DayIndex(old(meals), day).Some? ==>
        var k := DayIndex(old(meals), day).value;
        meals == old(meals)[k := RemoveInDay(old(meals)[k], mealType, id)]
    {
      var k := DayIndex(meals, day);
      if k.Some? {
        meals := meals[k.value := RemoveInDay(meals[k.value], mealType, id)];
      }
    }
  }

  /** The error messages of a validation, by field; None means no error. */
  datatype FormErrors = FormErrors(
    name: Option<string>, startDate: Option<string>, endDate: Option<string>, meals: Option<string>)

  predicate NoErrors(e: FormErrors)
  {
    e.name.None? && e.startDate.None? && e.endDate.None? && e.meals.None?
  }

  predicate HasMeal(d: DayMeals)
  {
    d.breakfast.Some? || d.lunch.Some? || d.dinner.Some? || |d.snacks| > 0
  }

  /** The common part of both validations: name, dates, and the date order
      (`orderError` says when the order is wrong). */
  function FieldErrors(name: string, startDate: Option<int>, endDate: Option<int>, orderError: bool): FormErrors
  {
    FormErrors(
      if IsBlank(name) then Some("Meal plan name is required") else None,
      if startDate.None? then Some("Start date is required") else None,
      if startDate.Some? && endDate.Some? && orderError then Some("End date must be after start date")
      else if endDate.None? then Some("End date is required")
      else None,
      None)
  }

  /** validateForm. */
  function ValidateForm(name: string, startDate: Option<int>, endDate: Option<int>, meals: seq<DayMeals>)
    : (e: FormErrors)
    ensures NoErrors(e) <==>
      && !IsBlank(name) && startDate.Some? && endDate.Some? && startDate.value <= endDate.value
      && exists i :: 0 <= i < |meals| && HasMeal(meals[i])
    ensures e.meals.Some? <==> forall i :: 0 <= i < |meals| ==> !HasMeal(meals[i])
  {
    var fields := FieldErrors(name, startDate, endDate,
                              startDate.Some? && endDate.Some? && startDate.value > endDate.value);
    var hasMeals := exists i :: 0 <= i < |meals| && HasMeal(meals[i]);
    fields.(meals := if hasMeals then None else Some("At least one meal must be added to the plan"))
  }

  /** The validation of handleSubmit, which is the one the page runs. */
  function SubmitErrors(name: string, startDate: Option<int>, endDate: Option<int>): (e: FormErrors)
    ensures NoErrors(e) <==>
      !IsBlank(name) && startDate.Some? && endDate.Some? && startDate.value <= endDate.value
  {
    FieldErrors(name, startDate, endDate, startDate.Some? && endDate.Some? && endDate.value < startDate.value)
  }

  /** Whatever validateForm accepts, handleSubmit accepts; but handleSubmit also
      accepts a plan with no meal at all, such as a new, untouched plan. */
  lemma SubmitIsWeakerThanValidate(name: string, startDate: Option<int>, endDate: Option<int>, meals: seq<DayMeals>)
    ensures NoErrors(ValidateForm(name, startDate, endDate, meals)) ==> NoErrors(SubmitErrors(name, startDate, endDate))
    ensures NoErrors(SubmitErrors("Week 1", Some(0), Some(6 * DAY_MS)))
    ensures !NoErrors(ValidateForm("Week 1", Some(0), Some(6 * DAY_MS), InitialMeals()))
  {
    assert IsBlank("Week 1") == false by { assert !IsWhitespace("Week 1"[0]); BlankIffAllWhitespace("Week 1"); }
    assert forall i :: 0 <= i < |InitialMeals()| ==> !HasMeal(InitialMeals()[i]);
  }

  const DAY_COLORS: seq<string> := ["#1976d2", "#2196f3", "#03a9f4", "#00bcd4", "#009688", "#4caf50", "#8bc34a"]

  /** getColorForDay (the same palette in MealPlanDetails.js). */
  function ColorForDay(index: nat): (c: string)
    ensures c in DAY_COLORS
  {
    DAY_COLORS[index % |DAY_COLORS|]
  }

  /** The colours repeat weekly, and seven consecutive days get seven
      different colours. */
  lemma ColorForDayWeekly(index: nat)
    ensures ColorForDay(index + 7) == ColorForDay(index)
    ensures forall j :: index < j < index + 7 ==> ColorForDay(j) != ColorForDay(index)
  {
    assert forall a, b :: 0 <= a < b < 7 ==> DAY_COLORS[a] != DAY_COLORS[b];
    forall j | index < j < index + 7 ensures ColorForDay(j) != ColorForDay(index) {
      assert j % 7 != index % 7;
    }
  }
}
