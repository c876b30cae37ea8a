/**
 * The recipe routes of the backend (recetas-backend/routes/recipes.js): the
 * public listing, which embeds each recipe's ingredients and steps, and the
 * authenticated, transactional creation of a recipe across the `recipes`,
 * `ingredients` and `steps` tables.
 *
 * Database faults are a parameter `failAt`: the index of the first statement
 * that throws, if any. `created_at` is a counter of the store that increases
 * with every recipe insert.
 */
module Recipes {
  import opened Wrappers
  import opened Sequences
  import opened Sorting
  import opened Http
  import Auth

  const ListError := "Error al obtener recetas"
  const CreateError := "Error al crear receta"
  const CreatedMessage := "Receta creada exitosamente"

  /** The body of a create request. `None` stands for a number that did not parse (JSON `null`). */
  datatype RecipeInput = RecipeInput(
    title: string, category: string, time: Option<int>, difficulty: string,
    servings: Option<int>, image: string, curiosities: string,
    ingredients: seq<string>, steps: seq<string>)

  /** A row of `recipes`. */
  datatype RecipeRow = RecipeRow(
    id: nat, title: string, category: string, time: Option<int>, difficulty: string,
    servings: Option<int>, image: string, author: string, userId: nat,
    curiosities: string, createdAt: nat)

  /** A row of `ingredients`. */
  datatype IngredientRow = IngredientRow(recipeId: nat, ingredient: string)

  /** A row of `steps`, numbered from 1 within its recipe. */
  datatype StepRow = StepRow(recipeId: nat, stepNumber: nat, description: string)

  /** A listed recipe: its row with the `ingredients` and `steps` arrays attached. */
  datatype RecipeView = RecipeView(recipe: RecipeRow, ingredients: seq<string>, steps: seq<string>)

  /** The body of a successful create: `{ message, id }`. */
  datatype Created = Created(message: string, id: nat)

  /** The recipe row a create inserts; author and owner come from the authenticated user, never from the body. */
  function NewRecipeRow(id: nat, createdAt: nat, user: Auth.Claims, input: RecipeInput): RecipeRow
  {
    RecipeRow(id, input.title, input.category, input.time, input.difficulty, input.servings,
              input.image, user.name, user.id, input.curiosities, createdAt)
  }

  /** One ingredient row per entry, all for recipe `id`. */
  function IngredientRows(id: nat, items: seq<string>): (r: seq<IngredientRow>)
    ensures |r| == |items|
    ensures forall k :: 0 <= k < |r| ==> r[k] == IngredientRow(id, items[k])
  {
    seq(|items|, k requires 0 <= k < |items| => IngredientRow(id, items[k]))
  }

  /** One step row per entry, the entry at index `k` numbered `k + 1`. */
  function StepRows(id: nat, items: seq<string>): (r: seq<StepRow>)
    ensures |r| == |items|
    ensures forall k :: 0 <= k < |r| ==> r[k] == StepRow(id, k + 1, items[k])
  {
    seq(|items|, k requires 0 <= k < |items| => StepRow(id, k + 1, items[k]))
  }

  function StepKey(s: StepRow): int
  {
    s.stepNumber
  }

  /** Sorting by this key puts the latest `created_at` first. */
  function NewestKey(r: RecipeRow): int
  {
    -(r.createdAt as int)
  }

  predicate HasRecipe(recipes: seq<RecipeRow>, id: nat)
  {
    exists k :: 0 <= k < |recipes| && recipes[k].id == id
  }

  function IngredientRowsFor(table: seq<IngredientRow>, id: nat): seq<IngredientRow>
  {
    Filter(table, (r: IngredientRow) => r.recipeId == id)
  }

  function StepRowsFor(table: seq<StepRow>, id: nat): seq<StepRow>
  {
    Filter(table, (s: StepRow) => s.recipeId == id)
  }

  function Ingredients(rows: seq<IngredientRow>): (r: seq<string>)
    ensures |r| == |rows|
    ensures forall k :: 0 <= k < |r| ==> r[k] == rows[k].ingredient
  {
    seq(|rows|, k requires 0 <= k < |rows| => rows[k].ingredient)
  }

  function Descriptions(rows: seq<StepRow>): (r: seq<string>)
    ensures |r| == |rows|
    ensures forall k :: 0 <= k < |r| ==> r[k] == rows[k].description
  {
    seq(|rows|, k requires 0 <= k < |rows| => rows[k].description)
  }

  /** `SELECT ingredient FROM ingredients WHERE recipe_id = ?` */
  function IngredientsOf(table: seq<IngredientRow>, id: nat): seq<string>
  {
    Ingredients(IngredientRowsFor(table, id))
  }

  /** Each ingredient is listed once per row of the recipe that holds it. */
  lemma {:induction false} IngredientsOfCounts(table: seq<IngredientRow>, id: nat)
    ensures forall x :: multiset(IngredientsOf(table, id))[x] == multiset(table)[IngredientRow(id, x)]
  {
    if table != [] {
      IngredientsOfCounts(table[1..], id);
      var rows := IngredientRowsFor(table, id);
      var rest := IngredientRowsFor(table[1..], id);
      assert table == [table[0]] + table[1..];
      if table[0].recipeId == id {
        assert rows == [table[0]] + rest;
        assert Ingredients(rows) == [table[0].ingredient] + Ingredients(rest);
      } else {
        assert rows == rest;
      }
    }
  }

  /**
   * A recipe lists exactly the ingredients of the rows that reference it, each as many
   * times as there are such rows; only the order is left to the database.
   */
  lemma IngredientsOfMembers(table: seq<IngredientRow>, id: nat)
    ensures forall x :: x in IngredientsOf(table, id) <==> IngredientRow(id, x) in table
    ensures forall x :: multiset(IngredientsOf(table, id))[x] == multiset(table)[IngredientRow(id, x)]
  {
    IngredientsOfCounts(table, id);
    var rows := IngredientRowsFor(table, id);
    var r := Ingredients(rows);
    FilterMembers(table, (row: IngredientRow) => row.recipeId == id);
    forall x | x in r ensures IngredientRow(id, x) in table {
      var k :| 0 <= k < |r| && r[k] == x;
      assert rows[k] == IngredientRow(id, x);
    }
    forall x | IngredientRow(id, x) in table ensures x in r {
      var j :| 0 <= j < |table| && table[j] == IngredientRow(id, x);
      assert table[j] in rows;
      var k :| 0 <= k < |rows| && rows[k] == table[j];
      assert r[k] == x;
    }
  }

  /** `SELECT description FROM steps WHERE recipe_id = ? ORDER BY step_number` */
  function StepsOf(table: seq<StepRow>, id: nat): seq<string>
  {
    Descriptions(SortBy(StepRowsFor(table, id), StepKey))
  }

  /** A recipe row with its children attached. */
  function Embed(row: RecipeRow, ingredients: seq<IngredientRow>, steps: seq<StepRow>): RecipeView
  {
    RecipeView(row, IngredientsOf(ingredients, row.id), StepsOf(steps, row.id))
  }

  function RowsOf(views: seq<RecipeView>): (r: seq<RecipeRow>)
    ensures |r| == |views|
    ensures forall k :: 0 <= k < |r| ==> r[k] == views[k].recipe
  {
    seq(|views|, k requires 0 <= k < |views| => views[k].recipe)
  }

  /** What GET / answers for these tables: every recipe, newest first, with its children. */
  function Listing(recipes: seq<RecipeRow>, ingredients: seq<IngredientRow>, steps: seq<StepRow>): (r: seq<RecipeView>)
    ensures |r| == |recipes|
  {
    Map(SortBy(recipes, NewestKey), (row: RecipeRow) => Embed(row, ingredients, steps))
  }

  /** A sequence that embeds each row of the newest-first order in turn is the listing. */
  lemma ListingOf(recipes: seq<RecipeRow>, ingredients: seq<IngredientRow>, steps: seq<StepRow>, views: seq<RecipeView>)
    requires |views| == |recipes|
    requires forall j :: 0 <= j < |views| ==> views[j] == Embed(SortBy(recipes, NewestKey)[j], ingredients, steps)
    ensures views == Listing(recipes, ingredients, steps)
  {
  }

  /**
   * The listing holds every recipe row once, latest `created_at` first, and each with
   * the ingredient rows and the step rows of its own id.
   */
  lemma ListingShape(recipes: seq<RecipeRow>, ingredients: seq<IngredientRow>, steps: seq<StepRow>)
    ensures var r := Listing(recipes, ingredients, steps);
      && multiset(RowsOf(r)) == multiset(recipes)
      && (forall i, j :: 0 <= i < j < |r| ==> r[i].recipe.createdAt >= r[j].recipe.createdAt)
      && (forall k :: 0 <= k < |r| ==>
            r[k].ingredients == IngredientsOf(ingredients, r[k].recipe.id) && r[k].steps == StepsOf(steps, r[k].recipe.id))
  {
    var rows := SortBy(recipes, NewestKey);
    var r := Listing(recipes, ingredients, steps);
    SortByPermutes(recipes, NewestKey);
    SortByOrders(recipes, NewestKey);
    assert RowsOf(r) == rows;
    assert forall i, j :: 0 <= i < j < |r| ==> NewestKey(rows[i]) <= NewestKey(rows[j]);
  }

  /** The GET / listing fails when statement `failAt` is among the `1 + 2 * n` queries it runs for `n` recipes. */
  predicate ListFails(failAt: Option<nat>, n: nat)
  {
    failAt.Some? && failAt.value <= 2 * n
  }

  /**
   * A create runs `2 + |ingredients| + |steps| + 1` statements: begin, the recipe insert,
   * the ingredient inserts, the step inserts and the commit. It fails when one of them throws.
   */
  predicate CreateFails(failAt: Option<nat>, input: RecipeInput)
  {
    failAt.Some? && failAt.value <= 2 + |input.ingredients| + |input.steps|
  }

  /** The invariant of the three tables. */
  predicate Consistent(recipes: seq<RecipeRow>, ingredients: seq<IngredientRow>, steps: seq<StepRow>, nextId: nat, clock: nat)
  {
    && (forall i, j :: 0 <= i < j < |recipes| ==> recipes[i].id < recipes[j].id && recipes[i].createdAt < recipes[j].createdAt)
    && (forall k :: 0 <= k < |recipes| ==> recipes[k].id < nextId && recipes[k].createdAt < clock)
    && (forall k :: 0 <= k < |ingredients| ==> HasRecipe(recipes, ingredients[k].recipeId))
    && (forall k :: 0 <= k < |steps| ==> HasRecipe(recipes, steps[k].recipeId))
  }

  /** A fresh recipe id owns no ingredient and no step row yet. */
  lemma FreshIdHasNoChildren(recipes: seq<RecipeRow>, ingredients: seq<IngredientRow>, steps: seq<StepRow>, nextId: nat, clock: nat)
    requires Consistent(recipes, ingredients, steps, nextId, clock)
    ensures IngredientRowsFor(ingredients, nextId) == []
    ensures StepRowsFor(steps, nextId) == []
  {
    forall k | 0 <= k < |ingredients| ensures ingredients[k].recipeId != nextId {
      assert HasRecipe(recipes, ingredients[k].recipeId);
      var j :| 0 <= j < |recipes| && recipes[j].id == ingredients[k].recipeId;
    }
    FilterNonePass(ingredients, (r: IngredientRow) => r.recipeId == nextId);
    forall k | 0 <= k < |steps| ensures steps[k].recipeId != nextId {
      assert HasRecipe(recipes, steps[k].recipeId);
      var j :| 0 <= j < |recipes| && recipes[j].id == steps[k].recipeId;
    }
    FilterNonePass(steps, (s: StepRow) => s.recipeId == nextId);
  }

  /** The rows a create adds for recipe `id` are the only ones a lookup of `id` finds beside the old ones. */
  lemma {:induction false} IngredientsAfterInsert(old_: seq<IngredientRow>, id: nat, items: seq<string>, other: nat)
    ensures IngredientRowsFor(old_ + IngredientRows(id, items), other) ==
      IngredientRowsFor(old_, other) + (if other == id then IngredientRows(id, items) else [])
  {
    var p := (r: IngredientRow) => r.recipeId == other;
    FilterAppend(old_, IngredientRows(id, items), p);
    if other == id {
      FilterAllPass(IngredientRows(id, items), p);
    } else {
      FilterNonePass(IngredientRows(id, items), p);
    }
  }

  lemma {:induction false} StepsAfterInsert(old_: seq<StepRow>, id: nat, items: seq<string>, other: nat)
    ensures StepRowsFor(old_ + StepRows(id, items), other) ==
      StepRowsFor(old_, other) + (if other == id then StepRows(id, items) else [])
  {
    var p := (s: StepRow) => s.recipeId == other;
    FilterAppend(old_, StepRows(id, items), p);
    if other == id {
      FilterAllPass(StepRows(id, items), p);
    } else {
      FilterNonePass(StepRows(id, items), p);
    }
  }

  /** Reading back the steps of a new recipe gives the submitted steps, in the submitted order. */
  lemma StepsRoundTrip(old_: seq<StepRow>, id: nat, items: seq<string>)
    requires StepRowsFor(old_, id) == []
    ensures StepsOf(old_ + StepRows(id, items), id) == items
  {
    StepsAfterInsert(old_, id, items, id);
    var rows := StepRows(id, items);
    assert StepRowsFor(old_ + rows, id) == rows;
    assert SortedBy(rows, StepKey);
    SortBySorted(rows, StepKey);
  }

  /** Reading back the ingredients of a new recipe gives the submitted ingredients. */
  lemma IngredientsRoundTrip(old_: seq<IngredientRow>, id: nat, items: seq<string>)
    requires IngredientRowsFor(old_, id) == []
    ensures IngredientsOf(old_ + IngredientRows(id, items), id) == items
  {
    IngredientsAfterInsert(old_, id, items, id);
    assert IngredientRowsFor(old_ + IngredientRows(id, items), id) == IngredientRows(id, items);
  }

  /** Adding the children of recipe `id` leaves what any other recipe embeds unchanged. */
  lemma EmbedOther(row: RecipeRow, ingredients: seq<IngredientRow>, steps: seq<StepRow>, id: nat, input: RecipeInput)
    requires row.id != id
    ensures Embed(row, ingredients + IngredientRows(id, input.ingredients), steps + StepRows(id, input.steps)) ==
      Embed(row, ingredients, steps)
  {
    IngredientsAfterInsert(ingredients, id, input.ingredients, row.id);
    StepsAfterInsert(steps, id, input.steps, row.id);
    assert IngredientRowsFor(ingredients, row.id) + [] == IngredientRowsFor(ingredients, row.id);
    assert StepRowsFor(steps, row.id) + [] == StepRowsFor(steps, row.id);
  }

  /** A recipe newer than all others is listed first, ahead of the listing of the others. */
  lemma ListingPrepend(recipes: seq<RecipeRow>, row: RecipeRow, ingredients: seq<IngredientRow>, steps: seq<StepRow>)
    requires forall k :: 0 <= k < |recipes| ==> recipes[k].createdAt < row.createdAt
    ensures Listing(recipes + [row], ingredients, steps) == [Embed(row, ingredients, steps)] + Listing(recipes, ingredients, steps)
  {
    SortByAppendSmallest(recipes, row, NewestKey);
    MapAppend([row], SortBy(recipes, NewestKey), (r: RecipeRow) => Embed(r, ingredients, steps));
  }

  /** Children added for an id that no recipe has do not change the listing. */
  lemma ListingIgnoresNewChildren(recipes: seq<RecipeRow>, ingredients: seq<IngredientRow>, steps: seq<StepRow>,
                                  id: nat, input: RecipeInput)
    requires forall k :: 0 <= k < |recipes| ==> recipes[k].id != id
    ensures Listing(recipes, ingredients + IngredientRows(id, input.ingredients), steps + StepRows(id, input.steps)) ==
      Listing(recipes, ingredients, steps)
  {
    var rows := SortBy(recipes, NewestKey);
    SortByPermutes(recipes, NewestKey);
    forall k | 0 <= k < |rows|
      ensures Embed(rows[k], ingredients + IngredientRows(id, input.ingredients), steps + StepRows(id, input.steps)) ==
        Embed(rows[k], ingredients, steps)
    {
      assert rows[k] in multiset(recipes);
      EmbedOther(rows[k], ingredients, steps, id, input);
    }
  }

  /**
   * Create followed by list: the new recipe comes first, carrying exactly the submitted
   * ingredients and steps, and every older recipe is listed as before.
   */
  lemma CreateThenList(recipes: seq<RecipeRow>, ingredients: seq<IngredientRow>, steps: seq<StepRow>,
                       nextId: nat, clock: nat, user: Auth.Claims, input: RecipeInput)
    requires Consistent(recipes, ingredients, steps, nextId, clock)
    ensures var row := NewRecipeRow(nextId, clock, user, input);
      Listing(recipes + [row], ingredients + IngredientRows(nextId, input.ingredients), steps + StepRows(nextId, input.steps)) ==
      [RecipeView(row, input.ingredients, input.steps)] + Listing(recipes, ingredients, steps)
  {
    var row := NewRecipeRow(nextId, clock, user, input);
    var ingredients' := ingredients + IngredientRows(nextId, input.ingredients);
    var steps' := steps + StepRows(nextId, input.steps);
    ListingPrepend(recipes, row, ingredients', steps');
    ListingIgnoresNewChildren(recipes, ingredients, steps, nextId, input);
    FreshIdHasNoChildren(recipes, ingredients, steps, nextId, clock);
    IngredientsRoundTrip(ingredients, nextId, input.ingredients);
    StepsRoundTrip(steps, nextId, input.steps);
  }

  /** Committing a create keeps the tables consistent: the new rows reference the new recipe. */
  lemma CommitKeepsConsistent(recipes: seq<RecipeRow>, ingredients: seq<IngredientRow>, steps: seq<StepRow>,
                              nextId: nat, clock: nat, user: Auth.Claims, input: RecipeInput)
    requires Consistent(recipes, ingredients, steps, nextId, clock)
    ensures Consistent(recipes + [NewRecipeRow(nextId, clock, user, input)],
                       ingredients + IngredientRows(nextId, input.ingredients),
                       steps + StepRows(nextId, input.steps), nextId + 1, clock + 1)
  {
    var recipes' := recipes + [NewRecipeRow(nextId, clock, user, input)];
    var ingredients' := ingredients + IngredientRows(nextId, input.ingredients);
    var steps' := steps + StepRows(nextId, input.steps);
    assert recipes'[|recipes|].id == nextId;
    forall k | 0 <= k < |ingredients'| ensures HasRecipe(recipes', ingredients'[k].recipeId) {
      if k < |ingredients| {
        var j :| 0 <= j < |recipes| && recipes[j].id == ingredients[k].recipeId;
        assert recipes'[j] == recipes[j];
      }
    }
    forall k | 0 <= k < |steps'| ensures HasRecipe(recipes', steps'[k].recipeId) {
      if k < |steps| {
        var j :| 0 <= j < |recipes| && recipes[j].id == steps[k].recipeId;
        assert recipes'[j] == recipes[j];
      }
    }
  }

  /** The three tables of the store, with the auto-increment counter of `recipes.id` and the `created_at` clock. */
  class Store {
    var recipes: seq<RecipeRow>
    var ingredients: seq<IngredientRow>
    var steps: seq<StepRow>
    var nextId: nat
    var clock: nat

    ghost predicate Valid()
      reads this
    {
      Consistent(recipes, ingredients, steps, nextId, clock)
    }

    constructor ()
      ensures Valid()
      ensures recipes == [] && ingredients == [] && steps == [] && nextId == 1
    {
      recipes, ingredients, steps := [], [], [];
      nextId, clock := 1, 0;
    }

    /** GET /: the recipes newest first, each with its ingredients and steps, or 500 with no partial result. */
    method List(failAt: Option<nat>) returns (reply: Reply<seq<RecipeView>>)
      ensures ListFails(failAt, |recipes|) ==> reply == Fail(500, ListError)
      ensures !ListFails(failAt, |recipes|) ==> reply == Ok(200, Listing(recipes, ingredients, steps))
    {
      if failAt.Some? && failAt.value == 0 {
        return Fail(500, ListError);
      }
      var rows := SortBy(recipes, NewestKey);
      var listed := ReadAll(rows, failAt);
      if listed.None? {
        return Fail(500, ListError);
      }
      ListingOf(recipes, ingredients, steps, listed.value);
      reply := Ok(200, listed.value);
    }

    /** The child queries of every listed row in turn; row `k` runs statements `1 + 2 * k` and `2 + 2 * k`. */
    method ReadAll(rows: seq<RecipeRow>, failAt: Option<nat>) returns (listed: Option<seq<RecipeView>>)
      ensures listed.None? <==> failAt.Some? && 1 <= failAt.value <= 2 * |rows|
      ensures listed.Some? ==> |listed.value| == |rows|
      ensures listed.Some? ==> forall j :: 0 <= j < |rows| ==> listed.value[j] == Embed(rows[j], ingredients, steps)
    {
      var views: seq<RecipeView> := [];
      var k := 0;
      while k < |rows|
        invariant 0 <= k <= |rows|
        invariant |views| == k
        invariant forall j :: 0 <= j < k ==> views[j] == Embed(rows[j], ingredients, steps)
        invariant !(failAt.Some? && 1 <= failAt.value < 1 + 2 * k)
      {
        var view := ReadChildren(rows[k], 1 + 2 * k, failAt);
        if view.None? {
          return None;
        }
        views := views + [view.value];
        k := k + 1;
      }
      listed := Some(views);
    }

    /** The two child queries of one listed recipe, statements `q` and `q + 1`. */
    method ReadChildren(row: RecipeRow, q: nat, failAt: Option<nat>) returns (view: Option<RecipeView>)
      ensures view.None? <==> failAt.Some? && (failAt.value == q || failAt.value == q + 1)
      ensures view.Some? ==> view.value == Embed(row, ingredients, steps)
    {
      if failAt.Some? && failAt.value == q {
        return None;
      }
      var rowIngredients := IngredientsOf(ingredients, row.id);
      if failAt.Some? && failAt.value == q + 1 {
        return None;
      }
      var rowSteps := StepsOf(steps, row.id);
      view := Some(RecipeView(row, rowIngredients, rowSteps));
    }

    /** Inserts one ingredient row per entry; statement `first + k` inserts entry `k`. */
    method InsertIngredients(id: nat, items: seq<string>, first: nat, failAt: Option<nat>) returns (ok: bool)
      modifies this`ingredients
      ensures ok <==> !(failAt.Some? && first <= failAt.value < first + |items|)
      ensures ok ==> ingredients == old(ingredients) + IngredientRows(id, items)
    {
      for k := 0 to |items|
        invariant ingredients == old(ingredients) + IngredientRows(id, items[..k])
        invariant !(failAt.Some? && first <= failAt.value < first + k)
      {
        if failAt.Some? && failAt.value == first + k {
          return false;
        }
        ingredients := ingredients + [IngredientRow(id, items[k])];
      }
      assert items[..|items|] == items;
      return true;
    }

    /** Inserts one step row per entry, numbered `k + 1`; statement `first + k` inserts entry `k`. */
    method InsertSteps(id: nat, items: seq<string>, first: nat, failAt: Option<nat>) returns (ok: bool)
      modifies this`steps
      ensures ok <==> !(failAt.Some? && first <= failAt.value < first + |items|)
      ensures ok ==> steps == old(steps) + StepRows(id, items)
    {
      for k := 0 to |items|
        invariant steps == old(steps) + StepRows(id, items[..k])
        invariant !(failAt.Some? && first <= failAt.value < first + k)
      {
        if failAt.Some? && failAt.value == first + k {
          return false;
        }
        steps := steps + [StepRow(id, k + 1, items[k])];
      }
      assert items[..|items|] == items;
      return true;
    }

    /**
     * POST / for the authenticated `user`, with `curiosities` read from the body. All three
     * tables are committed together, or rolled back to exactly what they were. The id
     * counter is not given back on rollback.
     */
    method Create(user: Auth.Claims, input: RecipeInput, failAt: Option<nat>) returns (reply: Reply<Created>)
      requires Valid()
      modifies this
      ensures Valid()
      ensures CreateFails(failAt, input) ==>
        && reply == Fail(500, CreateError)
        && recipes == old(recipes) && ingredients == old(ingredients) && steps == old(steps)
        && nextId == old(nextId) + (if failAt.value < 2 then 0 else 1)
      ensures !CreateFails(failAt, input) ==>
        && reply == Ok(201, Created(CreatedMessage, old(nextId)))
        && recipes == old(recipes) + [NewRecipeRow(old(nextId), old(clock), user, input)]
        && ingredients == old(ingredients) + IngredientRows(old(nextId), input.ingredients)
        && steps == old(steps) + StepRows(old(nextId), input.steps)
        && nextId == old(nextId) + 1
    {
      // beginTransaction: what a rollback returns to
      var savedRecipes, savedIngredients, savedSteps, savedClock := recipes, ingredients, steps, clock;
      var id := nextId;
      var ok := !(failAt.Some? && failAt.value < 2);
      if ok {
        recipes := recipes + [NewRecipeRow(id, clock, user, input)];
        nextId := nextId + 1;
        clock := clock + 1;
        ok := InsertIngredients(id, input.ingredients, 2, failAt);
      }
      if ok {
        ok := InsertSteps(id, input.steps, 2 + |input.ingredients|, failAt);
      }
      if ok && !(failAt.Some? && failAt.value == 2 + |input.ingredients| + |input.steps|) {
        reply := Ok(201, Created(CreatedMessage, id));
        CommitKeepsConsistent(savedRecipes, savedIngredients, savedSteps, id, savedClock, user, input);
      } else {
        recipes, ingredients, steps, clock := savedRecipes, savedIngredients, savedSteps, savedClock;
        reply := Fail(500, CreateError);
      }
    }

    /**
     * POST / as written: the insert's parameter list names `curiosities`, which the handler
     * never declared, so building it throws before any insert runs; the handler rolls back
     * and answers 500 for every request. With no modifies clause, the store is untouched.
     */
    method CreateAsWritten(user: Auth.Claims, input: RecipeInput, failAt: Option<nat>) returns (reply: Reply<Created>)
      ensures reply == Fail(500, CreateError)
    {
      reply := Fail(500, CreateError);
    }
  }

  /**
   * The sample session: one create and one listing on an empty store. The handler as written
   * rejects the request; the intended handler stores it under id 1 and lists it back.
   */
  method CuriositiesDefect() returns (asWritten: Reply<Created>, created: Reply<Created>, listed: Reply<seq<RecipeView>>)
    ensures asWritten == Fail(500, CreateError)
    ensures created == Ok(201, Created(CreatedMessage, 1))
    ensures listed.Ok? && |listed.value| == 1
    ensures listed.value[0].recipe.id == 1 && listed.value[0].recipe.author == "Ana"
    ensures listed.value[0].ingredients == ["harina", "azúcar"] && listed.value[0].steps == ["mezclar", "hornear"]
  {
    var store := new Store();
    var user := Auth.Claims(1, "a@x.com", "Ana");
    var input := RecipeInput("Tarta", "Postres", Some(30), "Fácil", Some(4), "http://...", "",
                             ["harina", "azúcar"], ["mezclar", "hornear"]);
    asWritten := store.CreateAsWritten(user, input, None);
    ghost var r0, i0, s0, n0, c0 := store.recipes, store.ingredients, store.steps, store.nextId, store.clock;
    created := store.Create(user, input, None);
    listed := store.List(None);
    CreateThenList(r0, i0, s0, n0, c0, user, input);
  }
}
