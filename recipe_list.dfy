/** frontend/src/components/mealplanning/RecipeList.js: the recipe search, the
    tag filter, the sort menu and the filter reset. */
module RecipeList {
  import opened Common
  import opened Text
  import opened Sorting
  import opened MealPlanControllers

  /** The search test: the lowercased query occurs in the lowercased name or
      in the lowercased description. */
  predicate MatchesSearch(r: Recipe, query: string)
  {
    Contains(Lower(r.name), Lower(query)) || Contains(Lower(r.description), Lower(query))
  }

  /** `selectedTags.every(tag => recipe.tags.includes(tag))`. */
  predicate HasAllTags(r: Recipe, tags: seq<string>)
  {
    forall t :: t in tags ==> t in r.tags
  }

  /** The recipes kept by both filters, in their original order; an empty query
      and an empty tag selection skip their filter. */
  function Matching(recipes: seq<Recipe>, query: string, tags: seq<string>): (r: seq<Recipe>)
    ensures forall x :: x in r <==>
      x in recipes && (query == "" || MatchesSearch(x, query)) && HasAllTags(x, tags)
    ensures multiset(r) <= multiset(recipes)
  {
    var searched := if query != "" then Filter((x: Recipe) => MatchesSearch(x, query), recipes) else recipes;
    assert |tags| == 0 ==> forall x :: HasAllTags(x, tags);
    if |tags| > 0 then Filter((x: Recipe) => HasAllTags(x, tags), searched) else searched
  }

  /** Filtering keeps the recipes in their original relative order. */
  lemma MatchingIsSubsequence(recipes: seq<Recipe>, query: string, tags: seq<string>)
    ensures IsSubsequence(Matching(recipes, query, tags), recipes)
  {
    var searched := if query != "" then Filter((x: Recipe) => MatchesSearch(x, query), recipes) else recipes;
    FilterIsSubsequence((x: Recipe) => MatchesSearch(x, query), recipes);
    FilterIsSubsequence((x: Recipe) => HasAllTags(x, tags), searched);
    SubsequenceReflexive(recipes);
    if |tags| > 0 {
      SubsequenceTransitive(Matching(recipes, query, tags), searched, recipes);
    }
  }

  /** Without a query and without selected tags, nothing is filtered out. */
  lemma NoFiltersKeepAll(recipes: seq<Recipe>)
    ensures Matching(recipes, "", []) == recipes
  {
  }

  /** The comparator of each sort option, as "a may precede b". */
  function OrderFor(option: string): (Recipe, Recipe) -> bool
  {
    match option
    case "name" => (a: Recipe, b: Recipe) => LexLessEq(a.name, b.name)
    case "name_desc" => (a: Recipe, b: Recipe) => LexLessEq(b.name, a.name)
    case "time_asc" => (a: Recipe, b: Recipe) => a.cookingTime <= b.cookingTime
    case "time_desc" => (a: Recipe, b: Recipe) => b.cookingTime <= a.cookingTime
    case "servings_asc" => (a: Recipe, b: Recipe) => a.servings <= b.servings
    case "servings_desc" => (a: Recipe, b: Recipe) => b.servings <= a.servings
    case _ => (a: Recipe, b: Recipe) => true
  }

  predicate IsSortOption(option: string)
  {
    option in ["name", "name_desc", "time_asc", "time_desc", "servings_asc", "servings_desc"]
  }

  /** Every comparator orders recipes consistently. */
  lemma OrderIsTotalPreorder(option: string)
    ensures TotalPreorder(OrderFor(option))
  {
    var le := OrderFor(option);
    if option == "name" || option == "name_desc" {
      forall a: Recipe, b: Recipe ensures le(a, b) || le(b, a) {
        LexTotal(a.name, b.name);
      }
      forall a: Recipe, b: Recipe, c: Recipe | le(a, b) && le(b, c) ensures le(a, c) {
        if option == "name" {
          LexTransitive(a.name, b.name, c.name);
        } else {
          LexTransitive(c.name, b.name, a.name);
        }
      }
    }
  }

  /** filterAndSortRecipes: the matching recipes, sorted by the chosen option;
      an unknown option compares everything equal and keeps their order. */
  method FilterAndSortRecipes(recipes: seq<Recipe>, searchQuery: string, selectedTags: seq<string>,
                              sortOption: string) returns (result: seq<Recipe>)
    ensures result == SortBy(Matching(recipes, searchQuery, selectedTags), OrderFor(sortOption))
    ensures multiset(result) == multiset(Matching(recipes, searchQuery, selectedTags))
    ensures multiset(result) <= multiset(recipes)
    ensures SortedBy(result, OrderFor(sortOption))
    ensures !IsSortOption(sortOption) ==> result == Matching(recipes, searchQuery, selectedTags)
  {
    result := recipes;
    if searchQuery != "" {
      result := Filter((x: Recipe) => MatchesSearch(x, searchQuery), result);
    }
    if |selectedTags| > 0 {
      result := Filter((x: Recipe) => HasAllTags(x, selectedTags), result);
    }
    assert result == Matching(recipes, searchQuery, selectedTags);
    var matching := result;
    result := SortBy(result, OrderFor(sortOption));
    OrderIsTotalPreorder(sortOption);
    SortBySorted(matching, OrderFor(sortOption));
    if !IsSortOption(sortOption) {
      SortByAllTiesIdentity(matching, OrderFor(sortOption));
    }
  }

  /** The filter state of the page. */
  datatype Filters = Filters(selectedTags: seq<string>, searchQuery: string)

  /** toggleTagFilter. */
  function ToggleTagFilter(f: Filters, tag: string): (r: Filters)
    ensures r.searchQuery == f.searchQuery
    ensures tag in r.selectedTags <==> tag !in f.selectedTags
    ensures forall t :: t != tag ==> (t in r.selectedTags <==> t in f.selectedTags)
  {
    f.(selectedTags := Toggle(f.selectedTags, tag))
  }

  /** clearFilters: after it, the listing shows every recipe (in sorted order). */
  function ClearFilters(f: Filters): (r: Filters)
    ensures r.selectedTags == [] && r.searchQuery == ""
  {
    Filters([], "")
  }

  lemma ClearedFiltersKeepAll(f: Filters, recipes: seq<Recipe>)
    ensures var c := ClearFilters(f); Matching(recipes, c.searchQuery, c.selectedTags) == recipes
  {
  }
}
