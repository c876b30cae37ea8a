# RecetasFáciles in Dafny

A model of the logic of RecetasFáciles, a recipe sharing site: an Express
backend over MySQL and a React client.

- `recipes.dfy`: the recipe routes. A `Store` class owns the `recipes`,
  `ingredients` and `steps` tables. `List` is the public listing, newest
  first, with each recipe's ingredients and its steps in step order. `Create`
  is the authenticated, transactional insert of one recipe with its rows. It
  commits all rows or rolls the three tables back to exactly what they were.
- `auth.dfy`: the `/register` and `/login` routes over a `UserTable` class with
  unique emails. bcrypt and JSON Web Tokens are symbolic: a `Digest` can only
  be checked with `Compare`, and a `Token` is the signed claim set with its
  issue and expiry times. `Digest` is a symbolic term: the row a registration
  adds holds `Hash(password, salt)`, never the password string itself.
- `client_filter.dfy`, `client_form.dfy`, `client_session.dfy`: the client's
  recipe filter, the editing helpers and submit preparation of the recipe
  form, the registration checks, and the login state with its copy in
  `localStorage`.
- `sequences.dfy`, `sorting.dfy`, `text.dfy`, `http.dfy`, `wrappers.dfy`: what
  these use. `Array.prototype.filter`, `map` and `some`; a stable sort by an
  integer key standing for SQL `ORDER BY`; the JavaScript `includes`,
  `toLowerCase` and `trim`; an HTTP reply with its status code.

Database and library failures are parameters. For a recipe route, `failAt`
is the index of the first statement that throws. The listing runs statement
0 (the recipes query), then `1 + 2k` and `2 + 2k` (the two child queries of
the `k`-th recipe). A create runs statement 0 (`beginTransaction`), 1 (the
recipe insert), then one insert per ingredient, one per step, and finally
the commit. For the auth routes, a fault value names the call that throws.
The bcrypt salt and the clock `jwt.sign` reads are parameters too.
`created_at` is a counter of the store that grows with every recipe insert.

The recipe insert at recetas-backend/routes/recipes.js:42-45 passes a variable
`curiosities` that the handler never declares (see Findings). `Store.Create`
models the evidently intended handler, which takes `curiosities` from the
request body. `Store.CreateAsWritten` models the handler as written.

## Model

| member | source | states |
|---|---|---|
| `Recipes.Store.List` | recetas-backend/routes/recipes.js:7-30 | when one of the listing's queries throws, the reply is 500 with the listing error; otherwise it is 200 with `Listing` of the current tables |
| `Recipes.Store.ReadAll` | recetas-backend/routes/recipes.js:12-24 | the per-recipe loop fails exactly when a child query throws; otherwise it returns, for every row in order, that row with its ingredients and steps attached |
| `Recipes.Store.ReadChildren` | recetas-backend/routes/recipes.js:13-23 | fails exactly when one of the row's two queries throws; otherwise attaches the row's ingredients and its steps |
| `Recipes.ListingShape` | recetas-backend/routes/recipes.js:9-24 | the listing holds every recipe row once, with non-increasing `created_at`, and each entry carries the ingredients and steps of its own id |
| `Recipes.Listing` | recetas-backend/routes/recipes.js:9-26 | the listing has one entry per recipe row |
| `Sorting.SortByOrders` | recetas-backend/routes/recipes.js:9 | an `ORDER BY` result is in key order |
| `Sorting.SortByPermutes` | recetas-backend/routes/recipes.js:9 | an `ORDER BY` result holds the same rows as the table |
| `Sorting.SortBySorted` | recetas-backend/routes/recipes.js:18 | rows already in key order come back unchanged |
| `Sorting.SortByAppendSmallest` | recetas-backend/routes/recipes.js:9 | a row whose key is below every other comes first, before the others in their sorted order |
| `Recipes.IngredientsOfMembers` | recetas-backend/routes/recipes.js:13-22 | a recipe lists an ingredient exactly when an ingredient row of its id holds it, and lists it once per such row; only the order is left open |
| `Recipes.IngredientsOfCounts` | recetas-backend/routes/recipes.js:13-22 | each ingredient is listed as many times as there are rows of the recipe holding it |
| `Recipes.IngredientRows` | recetas-backend/routes/recipes.js:50-55 | one ingredient row per entry, in order, all for the new recipe id |
| `Recipes.StepRows` | recetas-backend/routes/recipes.js:58-63 | one step row per entry; entry `i` gets step number `i + 1` |
| `Recipes.Store.InsertIngredients` | recetas-backend/routes/recipes.js:50-55 | succeeds exactly when none of its inserts throws, and then the table has gained exactly the rows of `IngredientRows` |
| `Recipes.Store.InsertSteps` | recetas-backend/routes/recipes.js:58-63 | succeeds exactly when none of its inserts throws, and then the table has gained exactly the rows of `StepRows` |
| `Recipes.Store.Create` | recetas-backend/routes/recipes.js:33-73 | keeps the tables consistent; a failure answers 500 and leaves all three tables exactly as before; a success answers 201 with the new id and adds one recipe row built from the principal and the body, one row per ingredient and one row per step |
| `Recipes.CommitKeepsConsistent` | recetas-backend/routes/recipes.js:42-65 | committing the new rows keeps ids and `created_at` increasing and every child row pointing at a recipe |
| `Recipes.FreshIdHasNoChildren` | recetas-backend/routes/recipes.js:47 | the id a create receives has no ingredient or step rows yet |
| `Recipes.IngredientsAfterInsert` | recetas-backend/routes/recipes.js:50-55 | after the inserts, a lookup of the inserted id finds its earlier rows followed by the new ones; a lookup of any other id is unchanged |
| `Recipes.StepsAfterInsert` | recetas-backend/routes/recipes.js:58-63 | after the inserts, a lookup of the inserted id finds its earlier step rows followed by the new ones; a lookup of any other id is unchanged |
| `Recipes.StepsRoundTrip` | recetas-backend/routes/recipes.js:58-63 | the steps read back for a new recipe are the submitted steps in the submitted order |
| `Recipes.IngredientsRoundTrip` | recetas-backend/routes/recipes.js:50-55 | for an id with no earlier rows, the ingredients read back in table order are the submitted ingredients in the submitted order |
| `Recipes.EmbedOther` | recetas-backend/routes/recipes.js:13-23 | rows added for another id do not change what a recipe embeds |
| `Recipes.ListingPrepend` | recetas-backend/routes/recipes.js:9 | a recipe newer than all others is listed first |
| `Recipes.ListingIgnoresNewChildren` | recetas-backend/routes/recipes.js:12-24 | children added for an id no recipe has do not change the listing |
| `Recipes.CreateThenList` | recetas-backend/routes/recipes.js:42-66 | after a create, the listing starts with the new recipe carrying the submitted steps and, in table order, the submitted ingredients, followed by the old listing |
| `Recipes.Store.CreateAsWritten` | recetas-backend/routes/recipes.js:39-45 | the handler as written answers 500 to every request and changes no table |
| `Recipes.CuriositiesDefect` | recetas-backend/routes/recipes.js:39-45 | on the same request and empty store, the handler as written answers 500, while the intended handler answers 201 with id 1 and lists the recipe back with its ingredients and steps |
| `Auth.UserTable.Register` | recetas-backend/routes/auth.js:8-28 | keeps emails unique; a throw answers 500 and a taken email answers 400, both with the table unchanged; a fresh email answers 201 and adds exactly one row holding the digest of the password |
| `Auth.UserTable.Login` | recetas-backend/routes/auth.js:31-65 | answers `LoginResult` for the table, and changes nothing |
| `Auth.WithEmailFinds` | recetas-backend/routes/auth.js:36 | with unique emails, the lookup of a registered email returns exactly its user |
| `Auth.WithEmailEmpty` | recetas-backend/routes/auth.js:36-40 | the lookup is empty exactly when the email is not registered |
| `Auth.LoginSucceedsIff` | recetas-backend/routes/auth.js:31-65 | a login succeeds exactly when nothing throws and the password matches the digest stored for that email |
| `Auth.LoginIssuesToken` | recetas-backend/routes/auth.js:52-61 | a successful login signs exactly `{id, email, name}` of the user, valid for seven days, and returns those three fields |
| `Auth.UnknownEmailLikeWrongPassword` | recetas-backend/routes/auth.js:38-49 | an unknown email and a wrong password both get the same 401 reply |
| `Auth.PublicViewIgnoresDigest` | recetas-backend/routes/auth.js:58-61 | the returned user is `{id, email, name}` and does not depend on the digest |
| `Auth.RegisterThenLogin` | recetas-backend/routes/auth.js:13-56 | after registering a fresh email, logging in with the same password succeeds as the new user |
| `RecipeFilter.Filtered` | src/App.jsx:68-77 | every shown recipe passes the search, category and difficulty tests |
| `RecipeFilter.FilteredIsSelection` | src/App.jsx:68-77 | the shown list keeps the order of the recipe list, holds only its recipes, and holds every recipe that passes the three tests |
| `RecipeFilter.NoCriteriaShowsAll` | src/App.jsx:70-73 | an empty search with both selectors on `Todas` shows the whole list unchanged |
| `RecipeFilter.SearchIffSubstring` | src/App.jsx:70-71 | a recipe matches exactly when the lower-cased term is a substring of the lower-cased title or of a lower-cased ingredient |
| `RecipeFilter.SearchIgnoresCase` | src/App.jsx:70-71 | a term and its lower-cased form show the same recipes |
| `Text.IncludesIffSubstring` | src/App.jsx:70-71 | `includes` answers exactly whether the term occurs in the string |
| `Text.Lower` | src/App.jsx:70-71 | lower-casing keeps the length and maps each character on its own |
| `Sequences.AnyIffExists` | src/App.jsx:71 | `some` answers whether an element passing the test exists |
| `Text.Trim` | src/App.jsx:156-157 | the trimmed string is empty exactly when the string is all white space, and otherwise starts and ends with a non-white-space character found in the string |
| `Text.TrimRemovesOnlyEnds` | src/App.jsx:156-157 | the trimmed string occurs in the string with only white space before and after it |
| `RecipeForm.ChangeItem` | src/App.jsx:227-231 | the list keeps its length, the edited row holds the new value, every other row and the rest of the form are unchanged |
| `RecipeForm.AddItem` | src/App.jsx:233-235 | the list grows by one empty row at the end; earlier rows and the rest of the form are unchanged |
| `RecipeForm.WithoutIndexRemovesOne` | src/App.jsx:237-240 | filtering out an existing index removes exactly that element and keeps the others in order; any other index removes nothing |
| `RecipeForm.RemoveItemEffect` | src/App.jsx:237-240 | removing an existing row leaves the list without exactly that row; removing a missing row leaves the form unchanged |
| `RecipeForm.RemoveItem` | src/App.jsx:237-240 | only the addressed list changes |
| `RecipeForm.PrepareRecipe` | src/App.jsx:152-158 | the body copies the text fields and passes `time` and `servings` through `parseInt` |
| `RecipeForm.PreparedDropsBlankRows` | src/App.jsx:156-157 | the submitted ingredients and steps are the form's rows less the empty and white-space rows, in the same order |
| `RecipeForm.FilledRowsAllSent` | src/App.jsx:156-157 | when every row is filled, the rows are sent unchanged |
| `RecipeForm.BlankFormSendsNoRows` | src/App.jsx:24-34 | the empty form, with its one empty ingredient row and one empty step row, sends no ingredients and no steps, with the default category and difficulty |
| `RecipeForm.SubmitThenList` | src/App.jsx:152-158 | after submitting a form and a successful create, the listing's first recipe shows the form's filled step rows in the typed order and its filled ingredient rows in table order, which is the typed order |
| `Session.RegisterPrecheck` | src/App.jsx:114-122 | the request is sent exactly when the passwords agree and have at least 6 characters; a mismatch is reported before a short password; the body carries name, email and password only |
| `Session.ClientSession.constructor` | src/App.jsx:16-19 | the page starts logged out, with `token` read from storage |
| `Session.ClientSession.RestoreOnMount` | src/App.jsx:44-50 | the saved session comes back only when both a token and a user are saved; otherwise nothing changes |
| `Session.ClientSession.HandleLogin` | src/App.jsx:95-100 | a successful reply sets `token`, `currentUser` and `isLoggedIn` from the reply and saves token and user; a failed one changes nothing |
| `Session.ClientSession.HandleLogout` | src/App.jsx:195-201 | logged out, no token, no user, nothing saved |
| `Session.ReloadAfterLogin` | src/App.jsx:44-50 | a page loaded after a successful login restores the same token and user |
| `Session.ReloadAfterLogout` | src/App.jsx:44-50 | a page loaded after a logout starts logged out with no token |

## Left out

- I/O: `fetch`, `alert`, `console.error`, the loading flag and `fetchRecipes` are not modelled; the client pieces take the server's reply as a parameter.
- Rendering: JSX, CSS classes, modals, the selected recipe and the `showLogin`/`showRegister`/`showAddRecipe` flags.
- `handleShare`: browser windows, the clipboard and `encodeURIComponent` only.
- The form reset after a successful submit and the reset of the login and register forms: plain assignments of the empty form (`RecipeForm.BlankForm` is that empty form).
- `parseInt` is a parameter: `None` stands for `NaN`, which `JSON.stringify` sends as `null`.
- RecipeForm.ChangeItem: takes the index of an existing row, the only kind the form's inputs pass; JavaScript would grow the array with holes for a larger index, which a sequence of strings cannot hold.
- Text.Lower: lower-cases only Basic Latin and Latin-1 Supplement letters; other scripts and special cases (for example the final sigma) are kept as they are.
- Session.RegisterPrecheck: `length` counts UTF-16 code units in JavaScript, while Dafny counts Unicode scalar values, so a password with characters outside the Basic Multilingual Plane is measured differently.
- Session.ClientSession.RestoreOnMount: storage entries are present or absent; an empty saved token, which is falsy in JavaScript, is not distinguished, because `handleLogin` never saves one.
- JSON (de)serialisation of the reply, the token and the saved user.
- The `authenticateToken` middleware is not part of this model: the principal `user` of `Store.Create` stands for `req.user` after a successful check.
- `db.getConnection()` (outside the `try`), `connection.release()` and a throw inside `rollback` itself: connection handling is not modelled.
- Request bodies with missing or non-array `ingredients` or `steps`: the model's input always holds two sequences.
- Concurrency between requests and transaction isolation: every request runs alone.
- The order in which the database returns ingredient rows and rows with equal sort keys: the model uses table order, one of the orders the database may return.
- Real timestamps: `created_at` is a counter that grows with every recipe insert.
- bcrypt and JSON Web Token internals: `Auth.Hash`, `Auth.Compare` and `Auth.Sign` are symbolic, and the hash is taken to be collision free.
- Recipes.Store.Create: when the recipe insert itself throws, the model gives back no auto-increment value (the id counter stays where it was), one of the outcomes MySQL allows; unlike Auth.UserTable.Register, this one outcome is fixed rather than left open.
- Auth.UserTable.Register: the id counter after a failed insert is left open, because MySQL may consume an auto-increment value on a failed insert.
- Auth.UserTable.Register: emails are compared by exact string equality, in the unique index as in the lookup of Auth.UserTable.Login; the column's collation is not part of this model, and under MySQL's default collation, which ignores case and accents, "A@x.com" would count as a duplicate of "a@x.com" and could log in as that user.
- Auth.UserTable.Register: a duplicate email is detected from the unique index; an insert that fails for another reason is the fault `InsertThrows`.
- `recetas-backend/server.js`: Express, CORS and environment wiring only.

## Findings

| source | as written | input that shows it | evidently intended | confidence | as-written member | corrected member |
|---|---|---|---|---|---|---|
| recetas-backend/routes/recipes.js:39-45 | the insert parameters name `curiosities`, which the destructuring of the body does not declare, so building them throws a `ReferenceError` inside the `try`; the handler rolls back and answers 500 | any authenticated create, e.g. title "Tarta", ingredients ["harina", "azúcar"], steps ["mezclar", "hornear"] on an empty store | `curiosities` is read from the request body with the other fields, and the create answers 201 with the new id | high, not executed | `Recipes.Store.CreateAsWritten`, `Recipes.CuriositiesDefect` | `Recipes.Store.Create` |
