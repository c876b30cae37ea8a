/**
 * The recipe filter of the client (`filteredRecipes` in src/App.jsx): a free
 * text search over the title and the ingredients, and two selectors whose value
 * `Todas` lets every recipe through.
 */
module RecipeFilter {
  import opened Sequences
  import opened Text
  import Recipes

  /** The selector value that matches every category and every difficulty. */
  const All := "Todas"

  /** The term, lower-cased, occurs in the lower-cased title or in some lower-cased ingredient. */
  predicate MatchesSearch(view: Recipes.RecipeView, term: string)
  {
    Includes(Lower(view.recipe.title), Lower(term)) ||
    Any(view.ingredients, (ing: string) => Includes(Lower(ing), Lower(term)))
  }

  predicate MatchesCategory(view: Recipes.RecipeView, category: string)
  {
    category == All || view.recipe.category == category
  }

  predicate MatchesDifficulty(view: Recipes.RecipeView, difficulty: string)
  {
    difficulty == All || view.recipe.difficulty == difficulty
  }

  /** The test the filter applies to each recipe. */
  predicate Keeps(view: Recipes.RecipeView, term: string, category: string, difficulty: string)
  {
    MatchesSearch(view, term) && MatchesCategory(view, category) && MatchesDifficulty(view, difficulty)
  }

  /** The recipes shown for a search term and the two selectors. */
  function Filtered(recipes: seq<Recipes.RecipeView>, term: string, category: string, difficulty: string): (r: seq<Recipes.RecipeView>)
    ensures forall k :: 0 <= k < |r| ==> Keeps(r[k], term, category, difficulty)
  {
    Filter(recipes, (v: Recipes.RecipeView) => Keeps(v, term, category, difficulty))
  }

  /**
   * The shown list is the recipe list with some entries deleted and the order kept; it holds
   * only recipes of the list, and every recipe of the list that passes all three tests.
   */
  lemma FilteredIsSelection(recipes: seq<Recipes.RecipeView>, term: string, category: string, difficulty: string)
    ensures IsSubseq(Filtered(recipes, term, category, difficulty), recipes)
    ensures forall k :: 0 <= k < |Filtered(recipes, term, category, difficulty)| ==>
      Filtered(recipes, term, category, difficulty)[k] in recipes
    ensures forall k :: 0 <= k < |recipes| && Keeps(recipes[k], term, category, difficulty) ==>
      recipes[k] in Filtered(recipes, term, category, difficulty)
  {
    var p := (v: Recipes.RecipeView) => Keeps(v, term, category, difficulty);
    FilterIsSubseq(recipes, p);
    FilterMembers(recipes, p);
  }

  /** Every string includes the empty string. */
  lemma IncludesEmpty(s: string)
    ensures Includes(s, "")
  {
    assert StartsWith(s, "");
  }

  /** With no search term and both selectors on `Todas`, every recipe is shown, in order. */
  lemma NoCriteriaShowsAll(recipes: seq<Recipes.RecipeView>)
    ensures Filtered(recipes, "", All, All) == recipes
  {
    forall k | 0 <= k < |recipes| ensures Keeps(recipes[k], "", All, All) {
      IncludesEmpty(Lower(recipes[k].recipe.title));
    }
    FilterAllPass(recipes, (v: Recipes.RecipeView) => Keeps(v, "", All, All));
  }

  /**
   * A recipe matches the search exactly when the lower-cased term is a substring of the
   * lower-cased title or of one of the lower-cased ingredients.
   */
  lemma SearchIffSubstring(view: Recipes.RecipeView, term: string)
    ensures MatchesSearch(view, term) <==>
      IsSubstring(Lower(term), Lower(view.recipe.title)) ||
      exists k :: 0 <= k < |view.ingredients| && IsSubstring(Lower(term), Lower(view.ingredients[k]))
  {
    IncludesIffSubstring(Lower(view.recipe.title), Lower(term));
    AnyIffExists(view.ingredients, (ing: string) => Includes(Lower(ing), Lower(term)));
    forall k | 0 <= k < |view.ingredients| {
      IncludesIffSubstring(Lower(view.ingredients[k]), Lower(term));
    }
  }

  /** Lower-casing twice is lower-casing once. */
  lemma LowerIdempotent(s: string)
    ensures Lower(Lower(s)) == Lower(s)
  {
  }

  /** The search ignores the case of the term: `Tomate`, `TOMATE` and `tomate` find the same recipes. */
  lemma SearchIgnoresCase(recipes: seq<Recipes.RecipeView>, term: string, category: string, difficulty: string)
    ensures Filtered(recipes, Lower(term), category, difficulty) == Filtered(recipes, term, category, difficulty)
  {
    LowerIdempotent(term);
    FilterAgrees(recipes, (v: Recipes.RecipeView) => Keeps(v, Lower(term), category, difficulty),
                 (v: Recipes.RecipeView) => Keeps(v, term, category, difficulty));
  }
}
