/**
 * The recipe form of the client (src/App.jsx): the editing helpers for its
 * ingredient and step rows, and the request body built from it on submit.
 * Each helper returns a new form, as the React state updates do.
 */
module RecipeForm {
  import opened Wrappers
  import opened Sequences
  import opened Text
  import Recipes
  import Auth

  /** The `newRecipe` state: every input as typed, with one text row per ingredient and per step. */
  datatype Form = Form(
    title: string, category: string, time: string, difficulty: string, servings: string,
    image: string, curiosities: string, ingredients: seq<string>, steps: seq<string>)

  /** Which of the two row lists an edit addresses (`'ingredients'` or `'steps'`). */
  datatype ListField = IngredientList | StepList

  /** The form as first shown and as reset after a successful submit. */
  const BlankForm := Form("", "Italiana", "", "Fácil", "", "", "", [""], [""])

  function Items(form: Form, field: ListField): seq<string>
  {
    match field
    case IngredientList => form.ingredients
    case StepList => form.steps
  }

  function WithItems(form: Form, field: ListField, items: seq<string>): (r: Form)
    ensures Items(r, field) == items
  {
    match field
    case IngredientList => form.(ingredients := items)
    case StepList => form.(steps := items)
  }

  /** Everything of the form other than the rows of `field`. */
  predicate SameOutside(a: Form, b: Form, field: ListField)
  {
    WithItems(a, field, []) == WithItems(b, field, [])
  }

  /** `handleArrayChange`: row `index` of `field` now reads `value`. */
  function ChangeItem(form: Form, field: ListField, index: nat, value: string): (r: Form)
    requires index < |Items(form, field)|
    ensures |Items(r, field)| == |Items(form, field)|
    ensures Items(r, field)[index] == value
    ensures forall k :: 0 <= k < |Items(r, field)| && k != index ==> Items(r, field)[k] == Items(form, field)[k]
    ensures SameOutside(r, form, field)
  {
    WithItems(form, field, Items(form, field)[index := value])
  }

  /** `addArrayItem`: a new empty row at the end of `field`. */
  function AddItem(form: Form, field: ListField): (r: Form)
    ensures |Items(r, field)| == |Items(form, field)| + 1
    ensures Items(r, field)[..|Items(form, field)|] == Items(form, field)
    ensures Items(r, field)[|Items(form, field)|] == ""
    ensures SameOutside(r, form, field)
  {
    WithItems(form, field, Items(form, field) + [""])
  }

  /** `items.filter((_, i) => i !== index)`, scanning from position 0. */
  function WithoutIndex<T>(items: seq<T>, index: int): (r: seq<T>)
    ensures |r| <= |items|
  {
    if items == [] then []
    else (if index == 0 then [] else [items[0]]) + WithoutIndex(items[1..], index - 1)
  }

  /** An index of a row drops exactly that row and keeps the others in order; any other index drops nothing. */
  lemma {:induction false} WithoutIndexRemovesOne<T>(items: seq<T>, index: int)
    ensures 0 <= index < |items| ==> WithoutIndex(items, index) == items[..index] + items[index + 1..]
    ensures !(0 <= index < |items|) ==> WithoutIndex(items, index) == items
  {
    if items != [] {
      WithoutIndexRemovesOne(items[1..], index - 1);
      if 0 < index < |items| {
        assert items[1..][..index - 1] == items[1..index];
        assert [items[0]] + items[1..index] == items[..index];
        assert items[1..][index..] == items[index + 1..];
      } else if index == 0 {
        assert items[0 + 1..] == items[1..];
      } else {
        assert [items[0]] + items[1..] == items;
      }
    }
  }

  /** `removeArrayItem`: the rows of `field` without row `index`. */
  function RemoveItem(form: Form, field: ListField, index: int): (r: Form)
    ensures SameOutside(r, form, field)
  {
    WithItems(form, field, WithoutIndex(Items(form, field), index))
  }

  /** Removing an existing row shortens the list by one; removing a missing row changes nothing. */
  lemma RemoveItemEffect(form: Form, field: ListField, index: int)
    ensures var items := Items(form, field);
      0 <= index < |items| ==> Items(RemoveItem(form, field, index), field) == items[..index] + items[index + 1..]
    ensures !(0 <= index < |Items(form, field)|) ==> RemoveItem(form, field, index) == form
  {
    WithoutIndexRemovesOne(Items(form, field), index);
    if !(0 <= index < |Items(form, field)|) {
      match field
      case IngredientList =>
      case StepList =>
    }
  }

  /** `i.trim()` is truthy: the row holds something besides white space. */
  predicate Filled(s: string)
  {
    Trim(s) != ""
  }

  /**
   * The request body of the submit: the form with `time` and `servings` passed through
   * `parseInt` (`None` for NaN, which is sent as `null`) and with the empty rows dropped.
   */
  function PrepareRecipe(form: Form, parseInt: string -> Option<int>): (r: Recipes.RecipeInput)
    ensures r.time == parseInt(form.time) && r.servings == parseInt(form.servings)
    ensures r.title == form.title && r.category == form.category && r.difficulty == form.difficulty
    ensures r.image == form.image && r.curiosities == form.curiosities
  {
    Recipes.RecipeInput(form.title, form.category, parseInt(form.time), form.difficulty,
                        parseInt(form.servings), form.image, form.curiosities,
                        Filter(form.ingredients, Filled), Filter(form.steps, Filled))
  }

  /** A submitted list is the form's list less the rows that are empty or only white space, in the same order. */
  lemma PreparedDropsBlankRows(form: Form, parseInt: string -> Option<int>)
    ensures var r := PrepareRecipe(form, parseInt);
      && r.ingredients == Filter(form.ingredients, (s: string) => !IsBlank(s))
      && r.steps == Filter(form.steps, (s: string) => !IsBlank(s))
      && IsSubseq(r.ingredients, form.ingredients) && IsSubseq(r.steps, form.steps)
  {
    FilterAgrees(form.ingredients, Filled, (s: string) => !IsBlank(s));
    FilterAgrees(form.steps, Filled, (s: string) => !IsBlank(s));
    FilterIsSubseq(form.ingredients, Filled);
    FilterIsSubseq(form.steps, Filled);
  }

  /** A form whose rows are all filled is sent with its rows unchanged. */
  lemma FilledRowsAllSent(form: Form, parseInt: string -> Option<int>)
    requires forall k :: 0 <= k < |form.ingredients| ==> !IsBlank(form.ingredients[k])
    requires forall k :: 0 <= k < |form.steps| ==> !IsBlank(form.steps[k])
    ensures PrepareRecipe(form, parseInt).ingredients == form.ingredients
    ensures PrepareRecipe(form, parseInt).steps == form.steps
  {
    FilterAllPass(form.ingredients, Filled);
    FilterAllPass(form.steps, Filled);
  }

  /** The empty form, with its one empty ingredient row and one empty step row, sends no rows at all. */
  lemma BlankFormSendsNoRows(parseInt: string -> Option<int>)
    ensures PrepareRecipe(BlankForm, parseInt).ingredients == []
    ensures PrepareRecipe(BlankForm, parseInt).steps == []
    ensures PrepareRecipe(BlankForm, parseInt).category == "Italiana"
    ensures PrepareRecipe(BlankForm, parseInt).difficulty == "Fácil"
  {
    assert IsBlank("");
    FilterNonePass(BlankForm.ingredients, Filled);
  }

  /**
   * Submitting a form and listing again: the new recipe is listed first and shows the
   * filled step rows of the form, in the order they were typed.
   */
  lemma SubmitThenList(recipes: seq<Recipes.RecipeRow>, ingredients: seq<Recipes.IngredientRow>, steps: seq<Recipes.StepRow>,
                       nextId: nat, clock: nat, user: Auth.Claims, form: Form, parseInt: string -> Option<int>)
    requires Recipes.Consistent(recipes, ingredients, steps, nextId, clock)
    ensures var input := PrepareRecipe(form, parseInt);
      var listing := Recipes.Listing(recipes + [Recipes.NewRecipeRow(nextId, clock, user, input)],
                                     ingredients + Recipes.IngredientRows(nextId, input.ingredients),
                                     steps + Recipes.StepRows(nextId, input.steps));
      && listing[0].steps == Filter(form.steps, (s: string) => !IsBlank(s))
      && listing[0].ingredients == Filter(form.ingredients, (s: string) => !IsBlank(s))
  {
    var input := PrepareRecipe(form, parseInt);
    Recipes.CreateThenList(recipes, ingredients, steps, nextId, clock, user, input);
    PreparedDropsBlankRows(form, parseInt);
  }
}
