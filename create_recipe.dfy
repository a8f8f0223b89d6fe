/** frontend/src/components/mealplanning/CreateRecipe.js: the recipe form, its
    ingredient and tag editors, and the check made before the recipe is sent. */
module CreateRecipeForm {
  import opened Common
  import opened Text
  import opened MealPlanControllers

  /** The error messages the form shows, by field; None means no error. */
  datatype RecipeErrors = RecipeErrors(
    name: Option<string>, cookingTime: Option<string>, servings: Option<string>,
    instructions: Option<string>, ingredients: Option<string>,
    ingredient: Option<string>, quantity: Option<string>, unit: Option<string>)

  const NO_ERRORS := RecipeErrors(None, None, None, None, None, None, None, None)

  /** The ingredient inputs are usable: a name that is not blank, a quantity
      and a unit. */
  predicate IngredientInputOk(name: string, quantity: string, unit: string)
  {
    !IsBlank(name) && quantity != "" && unit != ""
  }

  /** The three messages addIngredient records when its inputs are not usable. */
  function IngredientErrors(errors: RecipeErrors, name: string, quantity: string, unit: string): (r: RecipeErrors)
    ensures r.(ingredient := errors.ingredient, quantity := errors.quantity, unit := errors.unit) == errors
    ensures r.ingredient.Some? <==> IsBlank(name)
    ensures r.quantity.Some? <==> quantity == ""
    ensures r.unit.Some? <==> unit == ""
    ensures !IngredientInputOk(name, quantity, unit) ==>
      r.ingredient.Some? || r.quantity.Some? || r.unit.Some?
  {
    errors.(
      ingredient := if IsBlank(name) then Some("Ingredient name is required") else None,
      quantity := if quantity == "" then Some("Quantity is required") else None,
      unit := if unit == "" then Some("Unit is required") else None)
  }

  /** Every listed ingredient has a trimmed, non-empty name and a unit. */
  predicate WellFormedIngredients(ingredients: seq<RecipeIngredient>)
  {
    forall i :: 0 <= i < |ingredients| ==> WellFormedIngredient(ingredients[i])
  }

  predicate WellFormedIngredient(x: RecipeIngredient)
  {
    x.ingredient != [] && !IsWhitespace(x.ingredient[0]) && !IsWhitespace(x.ingredient[|x.ingredient| - 1])
    && x.quantity.unit != ""
  }

  /** The error messages of handleSubmit: one per missing field. A field is
      missing when it is empty (the inputs hold text). */
  function SubmitErrors(name: string, cookingTime: string, servings: string, instructions: string,
                        ingredients: seq<RecipeIngredient>): (e: RecipeErrors)
    ensures e == NO_ERRORS <==>
      name != "" && cookingTime != "" && servings != "" && instructions != "" && |ingredients| > 0
    ensures e.ingredient.None? && e.quantity.None? && e.unit.None?
    ensures e.ingredients.Some? <==> ingredients == []
  {
    RecipeErrors(
      if name == "" then Some("Recipe name is required") else None,
      if cookingTime == "" then Some("Cooking time is required") else None,
      if servings == "" then Some("Number of servings is required") else None,
      if instructions == "" then Some("Instructions are required") else None,
      if |ingredients| == 0 then Some("At least one ingredient is required") else None,
      None, None, None)
  }

  /** The state of the create/edit recipe page. */
  class RecipeForm {
    var name: string
    var cookingTime: string
    var servings: string
    var instructions: string
    var ingredients: seq<RecipeIngredient>
    var tags: seq<string>
    var selectedTags: seq<string>
    var currentIngredient: string
    var currentQuantity: string
    var currentUnit: string
    var currentTag: string
    var errors: RecipeErrors

    /** The tag list shown as chips and the tags of the recipe agree, and
        neither repeats a tag; the listed ingredients are well formed. */
    ghost predicate Valid()
      reads this
    {
      selectedTags == tags && Unique(tags) && WellFormedIngredients(ingredients)
    }

    /** An empty form; the unit input starts at grams. */
    constructor ()
      ensures name == "" && cookingTime == "" && servings == "" && instructions == ""
      ensures ingredients == [] && tags == [] && selectedTags == []
      ensures currentIngredient == "" && currentQuantity == "" && currentUnit == "g" && currentTag == ""
      ensures errors == NO_ERRORS
      ensures Valid()
    {
      name, cookingTime, servings, instructions := "", "", "", "";
      ingredients, tags, selectedTags := [], [], [];
      currentIngredient, currentQuantity, currentUnit, currentTag := "", "", "g", "";
      errors := NO_ERRORS;
    }

    /** addIngredient, where `parsed` is what parseFloat makes of the quantity
        input. Unusable inputs only record their messages; otherwise the
        trimmed ingredient is appended, the inputs reset and their messages
        clear. */
    method AddIngredient(parsed: real)
      modifies this
      ensures name == old(name) && cookingTime == old(cookingTime) && servings == old(servings)
      ensures instructions == old(instructions) && tags == old(tags) && selectedTags == old(selectedTags)
      ensures currentTag == old(currentTag)
      ensures !IngredientInputOk(old(currentIngredient), old(currentQuantity), old(currentUnit)) ==>
        && ingredients == old(ingredients)
        && currentIngredient == old(currentIngredient) && currentQuantity == old(currentQuantity)
        && currentUnit == old(currentUnit)
        && errors == IngredientErrors(old(errors), old(currentIngredient), old(currentQuantity), old(currentUnit))
      ensures IngredientInputOk(old(currentIngredient), old(currentQuantity), old(currentUnit)) ==>
        && ingredients == old(ingredients) + [RecipeIngredient(Trim(old(currentIngredient)), Quantity(parsed, old(currentUnit)))]
        && currentIngredient == "" && currentQuantity == "" && currentUnit == "g"
        && errors == old(errors).(ingredient := None, quantity := None, unit := None)
      ensures old(Valid()) ==> Valid()
    {
      if IsBlank(currentIngredient) || currentQuantity == "" || currentUnit == "" {
        errors := IngredientErrors(errors, currentIngredient, currentQuantity, currentUnit);
        return;
      }
      var added := RecipeIngredient(Trim(currentIngredient), Quantity(parsed, currentUnit));
      assert WellFormedIngredient(added);
      ingredients := ingredients + [added];
      currentIngredient, currentQuantity, currentUnit := "", "", "g";
      errors := errors.(ingredient := None, quantity := None, unit := None);
    }

    /** removeIngredient: the ingredient at `index` goes and the others keep
        their order; an index past the end changes nothing. */
    method RemoveIngredient(index: nat)
      modifies this
      ensures index < |old(ingredients)| ==> ingredients == old(ingredients)[..index] + old(ingredients)[index + 1..]
      ensures index >= |old(ingredients)| ==> ingredients == old(ingredients)
      ensures name == old(name) && cookingTime == old(cookingTime) && servings == old(servings)
      ensures instructions == old(instructions) && tags == old(tags) && selectedTags == old(selectedTags)
      ensures currentIngredient == old(currentIngredient) && currentQuantity == old(currentQuantity)
      ensures currentUnit == old(currentUnit) && currentTag == old(currentTag) && errors == old(errors)
      ensures old(Valid()) ==> Valid()
    {
      if index < |ingredients| {
        ingredients := ingredients[..index] + ingredients[index + 1..];
        assert forall i :: 0 <= i < |ingredients| ==>
          ingredients[i] == old(ingredients)[if i < index then i else i + 1];
      }
    }

    /** addTag: a tag already chosen, an empty tag, or one the recipe already
        has is ignored; otherwise it is added to both lists and the input
        clears. */
    method AddTag()
      modifies this
      ensures old(currentTag) in old(selectedTags) || old(currentTag) == "" || old(currentTag) in old(tags) ==>
        tags == old(tags) && selectedTags == old(selectedTags) && currentTag == old(currentTag)
      ensures old(currentTag) !in old(selectedTags) && old(currentTag) != "" && old(currentTag) !in old(tags) ==>
        tags == old(tags) + [old(currentTag)] && selectedTags == old(selectedTags) + [old(currentTag)]
        && currentTag == ""
      ensures name == old(name) && cookingTime == old(cookingTime) && servings == old(servings)
      ensures instructions == old(instructions) && ingredients == old(ingredients)
      ensures currentIngredient == old(currentIngredient) && currentQuantity == old(currentQuantity)
      ensures currentUnit == old(currentUnit) && errors == old(errors)
      ensures old(Valid()) ==> Valid()
    {
      if currentTag in selectedTags {
        return;
      }
      if currentTag != "" && currentTag !in tags {
        tags := tags + [currentTag];
        selectedTags := selectedTags + [currentTag];
        currentTag := "";
        ghost var t := old(tags);
        if Unique(t) {
          forall i, j | 0 <= i < j < |tags| ensures tags[i] != tags[j] {
            if j == |t| { assert tags[i] == t[i]; }
          }
        }
      }
    }

    /** removeTag: every copy of the tag leaves both lists, and the other tags
        stay in order. */
    method RemoveTag(tag: string)
      modifies this
      ensures tags == Filter((t: string) => t != tag, old(tags))
      ensures selectedTags == Filter((t: string) => t != tag, old(selectedTags))
      ensures tag !in tags && tag !in selectedTags
      ensures forall t :: t != tag ==> (t in tags <==> t in old(tags))
      ensures name == old(name) && cookingTime == old(cookingTime) && servings == old(servings)
      ensures instructions == old(instructions) && ingredients == old(ingredients)
      ensures currentIngredient == old(currentIngredient) && currentQuantity == old(currentQuantity)
      ensures currentUnit == old(currentUnit) && currentTag == old(currentTag) && errors == old(errors)
      ensures old(Valid()) ==> Valid()
    {
      if Unique(tags) {
        FilterKeepsUnique((t: string) => t != tag, tags);
      }
      tags := Filter((t: string) => t != tag, tags);
      selectedTags := Filter((t: string) => t != tag, selectedTags);
    }

    /** The validation at the start of handleSubmit: when a field is missing
        the messages replace the form's errors and nothing is sent. */
    method Submit() returns (sent: bool)
      modifies this
      ensures sent <==> SubmitErrors(old(name), old(cookingTime), old(servings), old(instructions), old(ingredients)) == NO_ERRORS
      ensures sent ==> |ingredients| > 0 && name != ""
      ensures !sent ==> errors == SubmitErrors(name, cookingTime, servings, instructions, ingredients)
      ensures sent ==> errors == old(errors)
      ensures name == old(name) && cookingTime == old(cookingTime) && servings == old(servings)
      ensures instructions == old(instructions) && ingredients == old(ingredients) && tags == old(tags)
      ensures selectedTags == old(selectedTags)
      ensures currentIngredient == old(currentIngredient) && currentQuantity == old(currentQuantity)
      ensures currentUnit == old(currentUnit) && currentTag == old(currentTag)
    {
      var e := SubmitErrors(name, cookingTime, servings, instructions, ingredients);
      if e != NO_ERRORS {
        errors := e;
        return false;
      }
      return true;
    }
  }
}
