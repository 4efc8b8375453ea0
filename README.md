# recipeBox in Dafny

recipeBox is a small restaurant-kitchen CRUD application: an Express API over
PostgreSQL, plus a React client. This project models the parts of it that
make decisions.

- **Authentication middleware.** The bearer-token check, and the role to
  capability table it attaches to each request.
- **Account handlers.** Register an admin with a new restaurant, register
  staff, log in, and list / read / create / update / delete users. These run
  over an in-memory `users` and `restaurants` store (`Schema.Database`).
- **Recipe handlers.** A tenant-scoped store of recipes and their ingredient
  lines (`RecipeRoutes.RecipeStore`).
- **Client components.** The state handlers of five components:
  - the recipe form's textarea conversion and its PUT-or-POST choice;
  - the edit form's per-row status machine and deletion tracker;
  - the input form's rows and ordered save;
  - the users table's sort toggle and filter / sort view;
  - the ingredients table's remove-by-id and field edits.

## Conventions

- **Stores.**
  - Tables are fields of a class: `users`, `restaurants`, `recipes` and
    `recipe_ingredients`.
  - A SERIAL id is the next value of a counter. A sequence value, once drawn,
    stays used even when the transaction rolls back.
  - `ROLLBACK` restores the row fields.
  - A name or `restaurant_id` that a body leaves out or sends as null is
    stored as NULL (`None`). `ORDER BY last_name` puts NULL after every name,
    as PostgreSQL's ascending order does.
  - The recipe columns `name`, `category`, `station`, `instructions` and
    `yield` are taken as present strings. A body that leaves one out makes
    routes/recipes.js bind `undefined`, which is stored as NULL. The model has
    no such body.
- **Foreign calls are parameters.**
  - bcrypt's hash is `hash`, bcrypt's compare is `matches`, JWT signing is
    `sign`, and express-validator's `isEmail` is `isEmail`.
  - `jwt.verify` is a map from each token it accepts to the `userId` that the
    token carries.
  - The client's axios answers are arguments of the methods that receive them.
- **JavaScript values.** The components' rows are plain objects:
  `JsValues.JsObject`, a map from property name to a primitive `JsValue`.
  Reading an absent property gives `undefined`, and truthiness follows the
  language.
- **Strings.**
  - `trim` and `\s` use the exact set of white-space and line-terminator code
    points.
  - `toLowerCase` is taken as folding ASCII letters only. The real method folds
    every letter.
  - `localeCompare` and the database collation of `ORDER BY` are both taken as
    code-point lexicographic order (`JsStrings.LexLe`). Neither is that in the
    program: their order depends on the locale and on the collation.
  - Request body fields are taken as strings, or as absent where `Option`
    says so. A JSON body can also carry numbers, booleans or null there.
  - Strings are sequences of code points. `password.length` in routes/users.js
    counts UTF-16 code units, which `JsStrings.Utf16Length` computes.
- **Sorting.** `Sorting.Sort` is a stable insertion sort, used for the client's
  `Array.prototype.sort` and for `ORDER BY`. Where SQL leaves the order of rows
  with equal keys open, the model keeps table order.

### Behaviour of the code as written

Each point below is visible in the model. These points are not fixed there.

- `routes/users.js` demands a password of at least 8 characters on PUT as
  well. So the "only update password if provided" branch is always taken, and
  `WHERE id` is always `$7` (`UserRoutes.ValidatedUpdateAlwaysSetsPassword`).
- `/register-admin` and `/register` answer with the whole `RETURNING *` row,
  `password_hash` included (`AuthRoutes.Registered` holds a `UserRow`). Only
  `/login` and routes/users.js project it away.
- In EditRecipeForm, choosing a different saved ingredient for a loaded row
  leaves the row "existing". Submit therefore sends nothing for that change
  (`EditRecipeFormComponent.IngredientSwapIsNotSaved`).
- UsersTable starts with sort column `"name"`, which no user row has. With two
  or more listed users, the comparator meets `undefined.localeCompare` and
  throws (`UsersTableComponent.InitialColumnThrows`).
- InputRecipe reads `recipe_id` from the recipe POST's answer. routes/recipes.js
  answers with `recipeId`, so the link posts carry `recipe_id` as the answer
  holds it (`InputRecipeComponent.InputRecipe.HandleSubmit` takes the answer
  as a parameter).
- The `authMiddleware` takes the token with `replace("Bearer ", "")`. That
  removes the first occurrence of the prefix anywhere in the header, and a
  header without the prefix is used whole (`AuthMiddleware.UnprefixedToken`).

## Model

| member | source | states |
|---|---|---|
| Permissions.RolePermissions | middleware/auth.js:4-23 | `can_manage_users` only for admin; `can_delete_recipes` for admin and manager; `can_manage_recipes` and `can_view_all` for every role but line_cook; `can_view_recipes` only for line_cook |
| Permissions.RoleHierarchy | middleware/auth.js:5-22 | on the four staff capabilities admin covers manager and manager covers chef, each strictly |
| Permissions.ParseRole | routes/users.js:24-25 | a body string names a role exactly when it is one of the four enumeration names, and that role's name is the string |
| AuthMiddleware.BearerToken | middleware/auth.js:27 | a header `Bearer <credentials>` yields exactly the credentials |
| AuthMiddleware.UnprefixedToken | middleware/auth.js:27 | a header that never contains the prefix is used as the token unchanged |
| AuthMiddleware.Authenticate | middleware/auth.js:25-48 | every failure is 401; "Authentication required" exactly when the token is missing or empty; "Please authenticate" exactly when the token is not verified or names no user; success exactly when a non-empty verified token names an existing user, and then the user is the row the token's `userId` names and the permissions are that role's table entry |
| AuthMiddleware.Request.RunAuthMiddleware | middleware/auth.js:25-48 | `next()` is called exactly when the decision succeeds, after `req.user` and `req.permissions` are set; otherwise the 401 is the response and the request is not extended |
| AuthRoutes.RegisterAdminErrors | routes/auth.js:13-21 | the failed fields are email (not an e-mail), password (shorter than 6) and restaurantName (empty), and no others |
| AuthRoutes.RegisterAdmin | routes/auth.js:10-76 | a validation failure is a 400 with no write; otherwise one restaurant and one admin user in it are created, and the token signs the new user's id; a duplicate e-mail rolls both inserts back (500) and leaves the id sequences advanced |
| AuthRoutes.StaffRole | routes/auth.js:86 | only line_cook, chef and manager pass, so the created role is never admin |
| AuthRoutes.RegisterErrors | routes/auth.js:84-93 | the failed fields are email, password (shorter than 6) and role (not a staff role), and no others |
| AuthRoutes.Register | routes/auth.js:79-120 | validation (400) is decided before the `can_manage_users` check (403), and neither writes; a permitted, valid request with a free e-mail inserts one user with the creator's restaurant and a staff role |
| AuthRoutes.LoginErrors | routes/auth.js:125-130 | "email" is listed exactly when the e-mail check fails, "password" exactly when no password is given, and nothing else; the list is empty exactly when both pass |
| AuthRoutes.Login | routes/auth.js:123-171 | a malformed request is answered with exactly its `LoginErrors` list; every 401 is "Invalid credentials"; success answers the signed id and the row's projection without the password hash |
| AuthRoutes.LoginCredentials | routes/auth.js:136-149 | with unique e-mails, a well-formed login succeeds exactly when some row has the e-mail and a matching password, and fails with the same 401 when the e-mail is unknown or the password wrong |
| UserRoutes.MatchesEmailIffShape | routes/users.js:11-14 | the e-mail test accepts exactly a non-empty local part, one `@`, and a domain with a dot that is neither first nor last, with no white space and no other `@` |
| UserRoutes.ValidateUserInput | routes/users.js:7-32 | checks run e-mail, then password length of at least 8 UTF-16 code units, then role: each 400 message arises exactly when its check is the first to fail, and `next()` exactly when all pass |
| UserRoutes.OrDefault | routes/users.js:37-38 | a missing, non-numeric or zero page or limit takes the default |
| UserRoutes.PageOffset | routes/users.js:39 | with a positive limit the offset `(page - 1) * limit` is non-negative exactly when the page is at least 1 |
| UserRoutes.CeilDiv | routes/users.js:55 | `total_pages` is the least page count whose pages hold all users |
| UserRoutes.Window | routes/users.js:41-47 | `LIMIT`/`OFFSET` select the rows from the offset on, at most `limit` of them |
| UserRoutes.ListUsers | routes/users.js:35-63 | the list succeeds exactly when the limit is positive and the page at least 1 (otherwise a negative LIMIT or OFFSET fails with 500); the page is the window at `(page-1)*limit` of the rows ordered by last name; pagination reports the page, the ceiling page count and the total |
| UserRoutes.OffsetSign | routes/users.js:39 | with a positive limit the offset is negative exactly when the page is below 1 |
| UserRoutes.ListUsersOrdered | routes/users.js:44 | a listed page is in last-name order, and users without a last name come after all the others |
| UserRoutes.NullsLastIsOrder | routes/users.js:44 | the order of a nullable text column, with NULL last, is total and transitive |
| UserRoutes.GetUser | routes/users.js:66-85 | the user is found exactly when a row has the id, and is answered without the password hash; otherwise 404 "User not found" |
| UserRoutes.CreateUser | routes/users.js:88-146 | validation 400, then 409 when the e-mail exists, then 400 when a given restaurant is unknown, none of them writing; otherwise exactly one row with the hashed password is appended and its projection answered |
| UserRoutes.BuildUpdateQuery | routes/users.js:192-212 | every placeholder names the parameter meant for its column; the id placeholder is the parameter count, `$7` with a password and `$6` without |
| UserRoutes.BuiltQueryWritesIntendedRow | routes/users.js:192-214 | running the built SET list writes exactly the submitted columns, and the password hash only when one was given |
| UserRoutes.BoundParams | routes/users.js:192-205 | in a well-bound query the parameters `$1`..`$5` are the submitted e-mail, names, restaurant (NULL when absent) and role, and `$6` is the hash when one was given |
| UserRoutes.RunBaseAssignments | routes/users.js:192-197 | the five fixed assignments write e-mail, first and last name, restaurant and role, and keep the id and the password hash |
| UserRoutes.ExecuteSetAppend | routes/users.js:192-204 | the `SET` list appended to by the password branch runs as the fixed list followed by the appended one |
| UserRoutes.ValidatedUpdateAlwaysSetsPassword | routes/users.js:17-201 | after validation the password is truthy, so the password branch is always taken |
| UserRoutes.UpdateUser | routes/users.js:149-229 | 404 for an unknown id; 409 exactly when a different user has the e-mail (keeping one's own is allowed); then 400 for a given unknown restaurant; success exactly when the body is valid, the id exists, the e-mail is free and any given restaurant exists; every failure leaves the table as it was; success rewrites only that row |
| UserRoutes.DeleteUser | routes/users.js:232-261 | 404 and no change exactly when no row has the id; otherwise exactly that row is removed and no row with the id remains |
| RecipeRoutes.RecipeStore.List | routes/recipes.js:8-18 | exactly the recipes whose restaurant is the caller's |
| RecipeRoutes.RecipeStore.Get | routes/recipes.js:21-44 | found exactly when the recipe exists in the caller's restaurant, otherwise 404; the ingredients are the recipe's line descriptions in `sort_order` order |
| RecipeRoutes.StoredLinesReadBack | routes/recipes.js:32-86 | lines stored with `sort_order = index` for a recipe that had none read back as the submitted list, in order |
| RecipeRoutes.LinesOfWithout | routes/recipes.js:138-140 | deleting a recipe's lines leaves none of them and every other recipe's lines unchanged |
| RecipeRoutes.LinesOfNumbered | routes/recipes.js:80-86 | the inserted lines belong to that recipe only |
| RecipeRoutes.LinesOfAppend | routes/recipes.js:33 | selecting one recipe's lines distributes over appended inserts |
| RecipeRoutes.NumberedReadBack | routes/recipes.js:32-40 | lines numbered by index are already in `sort_order` order, so the ordered read gives the list back |
| RecipeRoutes.ReplacedLines | routes/recipes.js:136-153 | deleting a recipe's lines and inserting a numbered list reads back as the list, leaves every other recipe's lines alone, and keeps every line's recipe id issued |
| RecipeRoutes.NoLinesAbove | routes/recipes.js:63-76 | a freshly issued recipe id has no lines yet |
| RecipeRoutes.RecipeStore.InsertLines | routes/recipes.js:79-89 | one line per element, numbered by its index, appended in order |
| RecipeRoutes.RecipeStore.Create | routes/recipes.js:47-96 | 403 with no write without `can_manage_recipes`; otherwise the recipe is stored under the caller's restaurant, with one line per submitted ingredient (none when the list is absent), and reading it back gives the submitted list |
| RecipeRoutes.RecipeStore.Replace | routes/recipes.js:115-153 | the permitted PUT's statements: only that recipe's columns change, its lines become the numbered list, and the store stays valid |
| RecipeRoutes.RecipeStore.Update | routes/recipes.js:99-160 | 403, or 404 outside the caller's restaurant, with no change; otherwise the five columns change, `restaurant_id` is kept, the recipe's lines become exactly the submitted list, and other recipes' lines are untouched |
| RecipeRoutes.RecipeStore.Delete | routes/recipes.js:163-182 | 403 without `can_delete_recipes`, or 404 outside the caller's restaurant, with no change; otherwise only that recipe row goes and the lines stay |
| RecipeFormComponent.IngredientsList | client/src/components/RecipeForm.js:45-47 | no submitted element contains a newline or is blank |
| RecipeFormComponent.NonBlankMembers | client/src/components/RecipeForm.js:47 | a line is kept exactly when it is in the text and not blank |
| RecipeFormComponent.TextRoundTrip | client/src/components/RecipeForm.js:31-47 | joining a list without newlines or blank elements and splitting it back gives the list |
| RecipeFormComponent.TwoLineSubmission | client/src/components/RecipeForm.test.js:75-97 | `"2 cups flour\n1 tsp salt"` is submitted as those two strings, untrimmed and in order |
| RecipeFormComponent.Submission | client/src/components/RecipeForm.js:49-58 | PUT `/recipes/:id` exactly when the route has an id, else POST `/recipes`, with the form's fields and the ingredient list as payload |
| RecipeFormComponent.SamePayloadEitherWay | client/src/components/RecipeForm.js:54-58 | editing and creating send the same payload |
| RecipeFormComponent.RecipeForm.HandleSubmit | client/src/components/RecipeForm.js:41-67 | the request sent is the submission of the current form, and `loading` is reset afterwards |
| RecipeFormComponent.RecipeForm.LoadRecipe | client/src/components/RecipeForm.js:24-39 | after a successful GET the textarea holds the fetched list joined with newlines; after a failed one the form is kept; loading is off either way |
| EditRecipeFormComponent.MarkExisting | client/src/components/EditRecipeForm.js:37-41 | every loaded row gets status "existing", other properties kept |
| EditRecipeFormComponent.EditRecipeForm.LoadIngredients | client/src/components/EditRecipeForm.js:34-41 | the rows become the loaded rows, each marked "existing"; the rest of the state is kept |
| EditRecipeFormComponent.ChangedRow | client/src/components/EditRecipeForm.js:70-81 | the named field takes the value; an "existing" row whose amount changes becomes "updated"; every other property is kept |
| EditRecipeFormComponent.StatusTransitions | client/src/components/EditRecipeForm.js:75-77 | the only status change an edit makes is "existing" to "updated" on an amount edit; "new" and "updated" rows keep theirs |
| EditRecipeFormComponent.WithStatusMembers | client/src/components/EditRecipeForm.js:136-147 | a row is selected exactly when it is in the list with that status |
| EditRecipeFormComponent.IngredientSwapIsNotSaved | client/src/components/EditRecipeForm.js:61-154 | changing a loaded row's ingredient leaves it "existing", so no request is made for it |
| EditRecipeFormComponent.EditRecipeForm.HandleIngredientChange | client/src/components/EditRecipeForm.js:70-81 | only row `index` changes, as `ChangedRow` says |
| EditRecipeFormComponent.EditRecipeForm.HandleIngredientSelect | client/src/components/EditRecipeForm.js:61-68 | "new" opens the modal and changes no row; any other value is an `ingredientId` edit |
| EditRecipeFormComponent.EditRecipeForm.AddIngredientField | client/src/components/EditRecipeForm.js:102-107 | one row `{ingredientId: "", amount: "", status: "new"}` is appended |
| EditRecipeFormComponent.EditRecipeForm.RemoveIngredientField | client/src/components/EditRecipeForm.js:108-116 | exactly row `index` goes, the others keep their order, and its `ingredient_id` is tracked exactly when truthy |
| EditRecipeFormComponent.EditRecipeForm.ProcessDeletions | client/src/components/EditRecipeForm.js:117-129 | one DELETE per tracked id; the tracker is empty once they all succeed |
| EditRecipeFormComponent.EditRecipeForm.HandleSubmit | client/src/components/EditRecipeForm.js:130-171 | the recipe PUT, a POST per "new" row, a PUT per "updated" row and nothing for "existing" rows; the deletions run only after all those succeed |
| EditRecipeFormComponent.EditRecipeForm.HandleRecipeChange | client/src/components/EditRecipeForm.js:54-60 | one recipe field takes the value |
| EditRecipeFormComponent.EditRecipeForm.HandleNewIngredientChange | client/src/components/EditRecipeForm.js:82-88 | only the named field of the new ingredient changes |
| EditRecipeFormComponent.EditRecipeForm.SaveNewIngredient | client/src/components/EditRecipeForm.js:89-101 | on success the created ingredient is appended to the choices and the modal closes |
| InputRecipeComponent.ChangedRow | client/src/components/InputRecipe.js:42-55 | choosing "new" clears `ingredientId`; another `ingredientId` value is stored as is; any other field sets the amount |
| InputRecipeComponent.InputRecipe.HandleIngredientChange | client/src/components/InputRecipe.js:42-55 | only row `index` changes, and choosing "new" opens the modal |
| InputRecipeComponent.InputRecipe.constructor | client/src/components/InputRecipe.js:5-21 | the form starts with exactly one blank row |
| InputRecipeComponent.InputRecipe.AddIngredientField | client/src/components/InputRecipe.js:76-78 | one blank row is appended |
| InputRecipeComponent.InputRecipe.HandleRecipeChange | client/src/components/InputRecipe.js:22-28 | only the named recipe field changes |
| InputRecipeComponent.InputRecipe.FetchIngredients | client/src/components/InputRecipe.js:33-40 | a successful GET replaces the ingredient choices; a failed one keeps them |
| InputRecipeComponent.InputRecipe.HandleNewIngredientChange | client/src/components/InputRecipe.js:56-61 | only the named field of the new ingredient changes |
| InputRecipeComponent.InputRecipe.SaveNewIngredient | client/src/components/InputRecipe.js:62-74 | on success the choices are refetched and the modal closes; on failure nothing changes |
| InputRecipeComponent.InputRecipe.RemoveIngredientField | client/src/components/InputRecipe.js:81-85 | the rows become `Splice1` of the old rows at the index, and nothing else changes |
| InputRecipeComponent.Splice1 | client/src/components/InputRecipe.js:81-85 | `splice(index, 1)` removes exactly the element at an index inside the list, counts a negative index from the end (the first element below `-length`), and removes nothing past the end or from an empty list |
| InputRecipeComponent.FirstIncomplete | client/src/components/InputRecipe.js:96-99 | every row before it is complete and the row at it, if any, is not |
| InputRecipeComponent.InputRecipe.HandleSubmit | client/src/components/InputRecipe.js:88-114 | the recipe POST comes first; then one link POST per row before the first incomplete row, which fails the save with "Incomplete ingredient data" |
| UsersTableComponent.NextDirection | client/src/components/UsersTable.js:44-52 | the same column flips the direction, another column sorts ascending |
| UsersTableComponent.SortTwiceRestores | client/src/components/UsersTable.js:46-48 | sorting twice on the same column restores the direction |
| UsersTableComponent.UsersTable.HandleSort | client/src/components/UsersTable.js:44-52 | the new direction is the toggle's and the sort column becomes the chosen one |
| UsersTableComponent.UsersTable.constructor | client/src/components/UsersTable.js:7-11 | the table starts sorted ascending on "name" with an empty search |
| UsersTableComponent.UsersTable.FetchUsers | client/src/components/UsersTable.js:17-28 | a successful GET replaces the rows and a failed one keeps them; loading is off afterwards |
| UsersTableComponent.UsersTable.SetSearchTerm | client/src/components/UsersTable.js:82 | the search term becomes the typed value and nothing else changes |
| UsersTableComponent.Filtered | client/src/components/UsersTable.js:55-58 | the filter throws exactly when some row has no string first name |
| UsersTableComponent.FilteredMembers | client/src/components/UsersTable.js:55-58 | a row is kept exactly when its lowercased first name contains the lowercased term |
| UsersTableComponent.EmptyTermKeepsAll | client/src/components/UsersTable.js:55-58 | an empty search keeps every row |
| UsersTableComponent.BeforeIsOrder | client/src/components/UsersTable.js:59-62 | each column comparator, ascending or reversed, is a total order |
| UsersTableComponent.SortedUsers | client/src/components/UsersTable.js:54-63 | the view is a permutation of the filtered rows, ordered by the column comparator, reversed for `desc` |
| UsersTableComponent.InitialColumnThrows | client/src/components/UsersTable.js:10-61 | with the initial column "name", two or more listed users make the sort throw |
| UsersTableComponent.UsersTable.HandleDelete | client/src/components/UsersTable.js:30-42 | unconfirmed or failed deletes change nothing; a successful one removes exactly the rows with that id |
| JsValues.RemoveWhereMembers | client/src/components/IngredientsTable.js:30-32 | a row survives the delete filter exactly when it was there and its key differs |
| JsValues.RemoveWhereAppend | client/src/components/UsersTable.js:37 | the delete filter keeps the survivors' relative order |
| JsValues.Put | client/src/components/IngredientsTable.js:37-48 | a field edit changes only the named property |
| IngredientsTableComponent.IngredientsTable.DeleteIngredients | client/src/components/IngredientsTable.js:27-36 | after a successful delete no row has that `ingredient_id` and the rest keep their order; a failed delete changes nothing |
| IngredientsTableComponent.IngredientsTable.FetchIngredients | client/src/components/IngredientsTable.js:19-26 | a successful GET replaces the list and a failed one keeps it |
| IngredientsTableComponent.IngredientsTable.SaveNewIngredient | client/src/components/IngredientsTable.js:49-61 | on success the list is refetched and the create modal closes; on failure nothing changes |
| IngredientsTableComponent.IngredientsTable.HandleNewIngredientChange | client/src/components/IngredientsTable.js:37-42 | only the named field of the new ingredient changes |
| IngredientsTableComponent.IngredientsTable.HandleIngredientChange | client/src/components/IngredientsTable.js:43-48 | only the named field of the edited ingredient changes |
| IngredientsTableComponent.IngredientsTable.OpenEditModal | client/src/components/IngredientsTable.js:78-81 | the edited ingredient is the chosen row and the edit modal opens |
| IngredientsTableComponent.IngredientsTable.OpenCreateModal | client/src/components/IngredientsTable.js:169-177 | the edited ingredient is reset to blank fields with a null id and the create modal opens |
| IngredientsTableComponent.IngredientsTable.SaveEditedIngredient | client/src/components/IngredientsTable.js:62-77 | the PUT targets the edited row's id with the edited row; on success the list is refetched and the modal closes |
| JsStrings.TrimEmptyIffBlank | client/src/components/RecipeForm.js:47 | `trim()` is empty exactly when every character is white space |
| JsStrings.SplitJoin | client/src/components/RecipeForm.js:31-46 | splitting a join of separator-free pieces gives the pieces back |
| JsStrings.Utf16Length | routes/users.js:17 | `length` counts at least one and at most two units per character, and equals the character count exactly when no character lies outside the Basic Multilingual Plane |
| JsStrings.JoinSplit | client/src/components/RecipeForm.js:31-46 | joining the pieces of a split gives the string back |
| Sorting.SortSorted | routes/users.js:44 | the sort's result is ordered and a permutation of its input |
| Sorting.SortOfOrdered | routes/recipes.js:33 | sorting rows already in order leaves them as they are |

## Left out

- Failures of the database, bcrypt or the network are not modelled. Nor are
  the `catch` blocks that answer them: 500 in the route handlers, and in
  middleware/auth.js (lines 45-46) the same 401 "Please authenticate" that
  an unverified token gets, a failed user SELECT included.
- Body fields that are not strings are not modelled. For example, a numeric
  `password` such as 12345678 passes the length check of routes/users.js:17
  (`undefined < 8` is false), and bcrypt then throws, giving 500. A `password`
  of null passes `exists()` in routes/auth.js:125, and `bcrypt.compare` then
  throws, giving 500.
- UserRoutes.ListUsers: the page is ordered by code-point order of last
  names. `ORDER BY last_name` (routes/users.js:44) follows the database
  collation, which the source does not fix, so which users fall on a page
  can differ.
- UserRoutes.ListUsersOrdered: the order proved is code-point order
  (`NullsLastLe` over `JsStrings.LexLe`), not the database collation.
- UsersTableComponent.SortedUsers: the comparator is code-point order, where
  `localeCompare` (UsersTable.js:59-62) follows the locale. For example,
  "adams" sorts before "Baker" and "Émile" before "Zola" under a typical
  locale, and the model orders both pairs the other way.
- UsersTableComponent.FilteredMembers: lowercasing folds ASCII letters only,
  where `toLowerCase` (UsersTable.js:55-58) folds every letter. A search for
  "émile" finds "Émile" in the program but not in the model.
- The 400 "Invalid role value" of routes/users.js (lines 138 and 221) is not
  modelled. That answer covers every `22P02` (invalid text representation)
  error. Validation rules out an invalid role, but a `22P02` still arises
  from a body `restaurant_id` that is not an integer (such as "abc" or 1.5)
  in the restaurant lookup, and, on PUT, from a non-numeric `:id`. The model
  takes `restaurant_id` and `:id` as numbers, so it has no such input.
- Path parameters are taken as numbers. A non-numeric `:id` fails in the
  database; that failure is not modelled.
- `parseInt` is modelled only by its result: `None` for NaN.
- InputRecipeComponent.InputRecipe.HandleSubmit: `PostLink` carries the row's
  raw strings. The client's `parseInt(…, 10)` of `ingredient_id` and `amount`
  (InputRecipe.js:101-102) is not modelled. That call sends 5 for "5abc" and
  null for "abc".
- `Promise.all` runs requests concurrently. Inserts and requests are modelled
  in array order. Each line carries its own `sort_order`, so completion order
  does not matter for what is stored.
- routes/recipes.js uses no transaction. If it fails part way, some statements
  have run and others have not. The model does not claim atomicity, and it
  does not model partial failure either.
- Recipe delete leaves the ingredient lines in place. A database cascade may
  remove them; the schema is not part of this model.
- The ingredient and ingredient-link routes (server/routes/ingredients.js and
  server/routes/ingredientrel.js) are single SQL statements. The components'
  requests to them are modelled only as request values.
- React rendering and modals are left out, and so are `alert`, `confirm`
  (a parameter), navigation, `localStorage`, route guards, and the
  display-only components with RecipesTable.js. RecipesTable's one filter is
  the same remove-by-key already modelled.
- EditRecipeForm's initial `fetchData` is left out. It sets the recipe from
  `data[0]` of a response that routes/recipes.js sends as a single object.
  Only its "mark every loaded row existing" step is modelled
  (`LoadIngredients`).
- Objects are updated by value. A shallow copy in the components shares row
  objects with the previous state. That aliasing, and React's asynchronous
  state updates, are not modelled.
- SortedUsers: whether the comparator throws depends on the engine, because
  the engine chooses which row is the receiver of `localeCompare`. The model
  reports a TypeError whenever two or more rows are sorted and some row has no
  string under the column. An engine may not fail for every such input.
- UserRoutes.ListUsers: SQL does not fix the order of rows with equal last
  names. The model fixes it to table order, so its contract is stronger than
  the program's there.
- UsersTableComponent.UsersTable.FetchUsers: the model stores a row list.
  GET /users answers `{ users, pagination }` (routes/users.js:51-58), and
  UsersTable.js:21 stores that whole object as `users`, so the first
  `users.filter` of the view throws. The model does not capture that
  mismatch between the two files.
- RecipeFormComponent.RecipeForm.LoadRecipe: the form state keeps only the six
  form fields. `...fetchedRecipe` also copies the other keys of the fetched
  recipe (its id, `restaurant_id` and the rest) into the state, and the PUT
  sends them back. The model's request body leaves those keys out.
- AuthRoutes.RegisterAdminErrors and AuthRoutes.RegisterErrors: the length
  rule counts code points. express-validator's `isLength` also leaves out the
  variation selectors U+FE0E and U+FE0F, and the model does not.
- The `created_at` column is not modelled. It is a default filled from the
  database clock. The SELECT and RETURNING lists of routes/users.js (lines 42,
  70, 129 and 211) and the `RETURNING *` of routes/auth.js (lines 43 and 111)
  return it, and every answer in the model leaves it out.
- UserRoutes.ListUsers: page and limit are unbounded integers. PostgreSQL's
  LIMIT and OFFSET take a `bigint`. A value outside that range, such as
  `?limit=100000000000000000000`, makes the query fail with 500, while the
  model answers the page. The success claim holds only for values that fit in
  a signed 64-bit integer.
- The JWT expiry (24 hours) and the token payload format are not modelled. A
  token either verifies to a user id or it does not.
- express-validator's `isEmail` is an opaque predicate. Only the users.js
  regular expression is modelled in full.
