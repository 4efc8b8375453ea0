/**
 * The recipe handlers of routes/recipes.js over the `recipes` table and the
 * `recipe_ingredients` lines `(recipe_id, description, sort_order)`. Every
 * read and write is scoped to the caller's restaurant. The file uses no
 * transaction: each statement is one step of a method.
 */
module RecipeRoutes {
  import opened JsValues
  import opened Http
  import opened Permissions
  import opened AuthMiddleware
  import Sorting

  const NotAuthorized := "Not authorized"
  const RecipeNotFound := "Recipe not found"
  const RecipeDeleted := "Recipe deleted successfully"

  /** The columns a request body sets (`yield` is the request's `yield` field). */
  datatype RecipeFields = RecipeFields(
    name: string, category: string, station: string, instructions: string, recipeYield: string)

  datatype Recipe = Recipe(fields: RecipeFields, restaurantId: Option<nat>)

  /** A `SELECT *` row of `recipes`. */
  datatype RecipeRow = RecipeRow(id: nat, fields: RecipeFields, restaurantId: Option<nat>)

  /** GET /recipes/:id: the row spread out, with the ordered ingredient descriptions. */
  datatype RecipeDetail = RecipeDetail(row: RecipeRow, ingredients: seq<string>)

  datatype IngredientLine = IngredientLine(recipeId: nat, description: string, sortOrder: nat)

  /**
   * `restaurant_id = $n` with the caller's restaurant: a row without a
   * restaurant, or a caller without one, never matches (NULL = NULL is not true).
   */
  predicate SameTenant(row: Option<nat>, caller: Option<nat>)
  {
    row.Some? && row == caller
  }

  /** `ingredients.map((ingredient, index) => INSERT (recipeId, ingredient, index))` */
  function NumberedLines(id: nat, xs: seq<string>): (r: seq<IngredientLine>)
    ensures |r| == |xs|
    ensures forall k | 0 <= k < |xs| :: r[k] == IngredientLine(id, xs[k], k)
  {
    seq(|xs|, k requires 0 <= k < |xs| => IngredientLine(id, xs[k], k))
  }

  /** `WHERE recipe_id = id`, in table order. */
  function LinesOf(lines: seq<IngredientLine>, id: nat): (r: seq<IngredientLine>)
    ensures forall k | 0 <= k < |r| :: r[k].recipeId == id && r[k] in lines
  {
    if lines == [] then []
    else (if lines[0].recipeId == id then [lines[0]] else []) + LinesOf(lines[1..], id)
  }

  /** `DELETE FROM recipe_ingredients WHERE recipe_id = id` */
  function WithoutLines(lines: seq<IngredientLine>, id: nat): (r: seq<IngredientLine>)
    ensures forall k | 0 <= k < |r| :: r[k].recipeId != id && r[k] in lines
  {
    if lines == [] then []
    else (if lines[0].recipeId != id then [lines[0]] else []) + WithoutLines(lines[1..], id)
  }

  function BySortOrder(a: IngredientLine, b: IngredientLine): bool
  {
    a.sortOrder <= b.sortOrder
  }

  function Descriptions(lines: seq<IngredientLine>): (r: seq<string>)
    ensures |r| == |lines| && forall k | 0 <= k < |lines| :: r[k] == lines[k].description
  {
    seq(|lines|, k requires 0 <= k < |lines| => lines[k].description)
  }

  /** `SELECT description ... WHERE recipe_id = id ORDER BY sort_order`, as `rows.map(row => row.description)`. */
  function IngredientsOf(lines: seq<IngredientLine>, id: nat): seq<string>
  {
    Descriptions(Sorting.Sort(LinesOf(lines, id), BySortOrder))
  }

  lemma {:induction false} LinesOfAppend(a: seq<IngredientLine>, b: seq<IngredientLine>, id: nat)
    ensures LinesOf(a + b, id) == LinesOf(a, id) + LinesOf(b, id)
  {
    if a == [] {
      assert a + b == b;
    } else {
      assert (a + b)[0] == a[0];
      assert (a + b)[1..] == a[1..] + b;
      LinesOfAppend(a[1..], b, id);
    }
  }

  /** Removing a recipe's lines leaves no line of it and every other recipe's lines as they were. */
  lemma {:induction false} LinesOfWithout(lines: seq<IngredientLine>, id: nat, other: nat)
    ensures LinesOf(WithoutLines(lines, id), id) == []
    ensures other != id ==> LinesOf(WithoutLines(lines, id), other) == LinesOf(lines, other)
  {
    if lines != [] {
      LinesOfWithout(lines[1..], id, other);
      var head := if lines[0].recipeId != id then [lines[0]] else [];
      LinesOfAppend(head, WithoutLines(lines[1..], id), id);
      LinesOfAppend(head, WithoutLines(lines[1..], id), other);
    }
  }

  /** The lines stored for a list are exactly the lines of that recipe, and no other's. */
  lemma {:induction false} LinesOfNumbered(id: nat, xs: seq<string>, other: nat)
    ensures LinesOf(NumberedLines(id, xs), id) == NumberedLines(id, xs)
    ensures other != id ==> LinesOf(NumberedLines(id, xs), other) == []
  {
    if xs != [] {
      var n := NumberedLines(id, xs);
      var front := NumberedLines(id, xs[..|xs| - 1]);
      assert n == front + [n[|xs| - 1]];
      LinesOfNumbered(id, xs[..|xs| - 1], other);
      LinesOfAppend(front, [n[|xs| - 1]], id);
      LinesOfAppend(front, [n[|xs| - 1]], other);
      assert [n[|xs| - 1]][1..] == [];
    }
  }

  /** A numbered list is already in `sort_order` order, so the ordered read gives the list back. */
  lemma NumberedReadBack(id: nat, xs: seq<string>)
    ensures Descriptions(Sorting.Sort(NumberedLines(id, xs), BySortOrder)) == xs
  {
    var n := NumberedLines(id, xs);
    assert forall i | 0 <= i < |n| - 1 :: BySortOrder(n[i], n[i + 1]);
    Sorting.SortOfOrdered(n, BySortOrder);
  }

  /**
   * Lines stored with `sort_order = index` for a recipe that had none read
   * back as the submitted list, in order.
   */
  lemma StoredLinesReadBack(lines: seq<IngredientLine>, id: nat, xs: seq<string>)
    requires LinesOf(lines, id) == []
    ensures IngredientsOf(lines + NumberedLines(id, xs), id) == xs
  {
    var n := NumberedLines(id, xs);
    LinesOfAppend(lines, n, id);
    LinesOfNumbered(id, xs, id);
    assert [] + n == n;
    NumberedReadBack(id, xs);
  }

  /** A recipe id above every line's `recipe_id` has no lines. */
  lemma {:induction false} NoLinesAbove(lines: seq<IngredientLine>, id: nat)
    requires forall k | 0 <= k < |lines| :: lines[k].recipeId < id
    ensures LinesOf(lines, id) == []
  {
    if lines != [] {
      NoLinesAbove(lines[1..], id);
    }
  }

  /**
   * Replacing a recipe's lines by a numbered list: the list reads back, every
   * other recipe keeps its lines, and every line still refers to an issued id.
   */
  lemma ReplacedLines(lines: seq<IngredientLine>, id: nat, xs: seq<string>, bound: nat)
    requires id < bound
    requires forall k | 0 <= k < |lines| :: lines[k].recipeId < bound
    ensures var replaced := WithoutLines(lines, id) + NumberedLines(id, xs);
      && (forall k | 0 <= k < |replaced| :: replaced[k].recipeId < bound)
      && IngredientsOf(replaced, id) == xs
      && forall other | other != id :: LinesOf(replaced, other) == LinesOf(lines, other)
  {
    var kept, n := WithoutLines(lines, id), NumberedLines(id, xs);
    LinesOfWithout(lines, id, id);
    StoredLinesReadBack(kept, id, xs);
    forall other | other != id ensures LinesOf(kept + n, other) == LinesOf(lines, other) {
      LinesOfAppend(kept, n, other);
      LinesOfWithout(lines, id, other);
      LinesOfNumbered(id, xs, other);
    }
    forall k | 0 <= k < |kept + n| ensures (kept + n)[k].recipeId < bound {
      if k < |kept| {
        assert (kept + n)[k] == kept[k] && kept[k] in lines;
      } else {
        assert (kept + n)[k] == n[k - |kept|];
      }
    }
  }

  class RecipeStore {
    var recipes: map<nat, Recipe>
    var lines: seq<IngredientLine>
    /** The next value of the `recipes.id` sequence. */
    var nextId: nat

    /** Recipe ids come from the sequence, and every line refers to an id it has issued. */
    ghost predicate Valid()
      reads this
    {
      && nextId >= 1
      && (forall id | id in recipes :: 1 <= id < nextId)
      && (forall k | 0 <= k < |lines| :: lines[k].recipeId < nextId)
    }

    constructor ()
      ensures Valid()
      ensures recipes == map[] && lines == [] && nextId == 1
    {
      recipes, lines, nextId := map[], [], 1;
    }

    predicate Visible(caller: Principal, id: nat)
      reads this
    {
      id in recipes && SameTenant(recipes[id].restaurantId, caller.user.restaurantId)
    }

    /** GET /recipes: the caller's restaurant's recipes and no others. */
    function List(caller: Principal): (r: set<RecipeRow>)
      reads this
      ensures forall row | row in r :: row.id in recipes && row == RecipeRow(row.id, recipes[row.id].fields, recipes[row.id].restaurantId)
      ensures forall row | row in r :: row.restaurantId.Some? && row.restaurantId == caller.user.restaurantId
      ensures forall id | Visible(caller, id) :: RecipeRow(id, recipes[id].fields, recipes[id].restaurantId) in r
    {
      set id | id in recipes && SameTenant(recipes[id].restaurantId, caller.user.restaurantId) ::
        RecipeRow(id, recipes[id].fields, recipes[id].restaurantId)
    }

    /** GET /recipes/:id: 404 unless the recipe is the caller's restaurant's. */
    function Get(caller: Principal, id: nat): (r: Result<RecipeDetail>)
      reads this
      ensures r.Ok? <==> Visible(caller, id)
      ensures r.Err? ==> r.failure == Error(404, RecipeNotFound)
      ensures r.Ok? ==> r.value.row.id == id && r.value.row.fields == recipes[id].fields
      ensures r.Ok? ==> r.value.ingredients == IngredientsOf(lines, id)
    {
      if !Visible(caller, id) then Err(Error(404, RecipeNotFound))
      else Ok(RecipeDetail(RecipeRow(id, recipes[id].fields, recipes[id].restaurantId), IngredientsOf(lines, id)))
    }

    /** The inserts of `ingredients.map`, one line per index. */
    method InsertLines(id: nat, xs: seq<string>)
      modifies this
      ensures recipes == old(recipes) && nextId == old(nextId)
      ensures lines == old(lines) + NumberedLines(id, xs)
    {
      for k := 0 to |xs|
        invariant recipes == old(recipes) && nextId == old(nextId)
        invariant lines == old(lines) + NumberedLines(id, xs[..k])
      {
        assert NumberedLines(id, xs[..k + 1]) == NumberedLines(id, xs[..k]) + [IngredientLine(id, xs[k], k)];
        lines := lines + [IngredientLine(id, xs[k], k)];
      }
      assert xs[..|xs|] == xs;
    }

    /**
     * POST /recipes: 403 without `can_manage_recipes`; otherwise insert the
     * recipe into the caller's restaurant and, when `ingredients` is an array,
     * one line per element. `None` stands for an absent or non-array value.
     */
    method Create(caller: Principal, fields: RecipeFields, ingredients: Option<seq<string>>) returns (r: Result<nat>)
      requires Valid()
      modifies this
      ensures Valid()
      ensures !caller.permissions.canManageRecipes ==> r == Err(Error(403, NotAuthorized)) && unchanged(this)
      ensures caller.permissions.canManageRecipes ==>
        && r == Ok(old(nextId)) && nextId == old(nextId) + 1
        && recipes == old(recipes)[r.value := Recipe(fields, caller.user.restaurantId)]
        && lines == old(lines) + (if ingredients.Some? then NumberedLines(r.value, ingredients.value) else [])
      ensures caller.permissions.canManageRecipes && caller.user.restaurantId.Some? ==>
        Get(caller, r.value) == Ok(RecipeDetail(RecipeRow(r.value, fields, caller.user.restaurantId),
                                                if ingredients.Some? then ingredients.value else []))
    {
      if !caller.permissions.canManageRecipes {
        return Err(Error(403, NotAuthorized));
      }
      var id := nextId;
      recipes := recipes[id := Recipe(fields, caller.user.restaurantId)];
      nextId := nextId + 1;
      var xs := if ingredients.Some? then ingredients.value else [];
      ghost var before := lines;
      if ingredients.Some? {
        InsertLines(id, ingredients.value);
      } else {
        assert NumberedLines(id, xs) == [];
      }
      NoLinesAbove(before, id);
      StoredLinesReadBack(before, id, xs);
      r := Ok(id);
    }

    /** The statements of a permitted PUT: the five columns, then the recipe's lines replaced by `xs`. */
    method Replace(id: nat, fields: RecipeFields, xs: seq<string>)
      requires Valid() && id in recipes
      modifies this
      ensures Valid() && nextId == old(nextId)
      ensures recipes == old(recipes)[id := Recipe(fields, old(recipes)[id].restaurantId)]
      ensures lines == WithoutLines(old(lines), id) + NumberedLines(id, xs)
      ensures IngredientsOf(lines, id) == xs
      ensures forall other | other != id :: LinesOf(lines, other) == LinesOf(old(lines), other)
    {
      ReplacedLines(lines, id, xs, nextId);
      recipes := recipes[id := Recipe(fields, recipes[id].restaurantId)];
      lines := WithoutLines(lines, id);
      InsertLines(id, xs);
    }

    /**
     * PUT /recipes/:id: 403 without `can_manage_recipes`; 404 unless the recipe
     * is the caller's restaurant's; otherwise set the five columns, delete the
     * recipe's lines and insert the submitted ones.
     */
    method Update(caller: Principal, id: nat, fields: RecipeFields, ingredients: Option<seq<string>>) returns (r: Result<nat>)
      requires Valid()
      modifies this
      ensures Valid()
      ensures !caller.permissions.canManageRecipes ==> r == Err(Error(403, NotAuthorized)) && unchanged(this)
      ensures caller.permissions.canManageRecipes && !old(Visible(caller, id)) ==>
        r == Err(Error(404, RecipeNotFound)) && unchanged(this)
      ensures r.Ok? <==> caller.permissions.canManageRecipes && old(Visible(caller, id))
      ensures r.Ok? ==>
        && r.value == id && nextId == old(nextId)
        && recipes == old(recipes)[id := Recipe(fields, old(recipes)[id].restaurantId)]
        && lines == WithoutLines(old(lines), id) + (if ingredients.Some? then NumberedLines(id, ingredients.value) else [])
        && Get(caller, id) == Ok(RecipeDetail(RecipeRow(id, fields, old(recipes)[id].restaurantId),
                                              if ingredients.Some? then ingredients.value else []))
        && forall other | other != id :: LinesOf(lines, other) == LinesOf(old(lines), other)
    {
      if !caller.permissions.canManageRecipes {
        return Err(Error(403, NotAuthorized));
      }
      if !Visible(caller, id) {
        return Err(Error(404, RecipeNotFound));
      }
      var xs := if ingredients.Some? then ingredients.value else [];
      Replace(id, fields, xs);
      assert ingredients.None? ==> NumberedLines(id, xs) == [];
      r := Ok(id);
    }

    /**
     * DELETE /recipes/:id: 403 without `can_delete_recipes`; 404 unless the
     * recipe is the caller's restaurant's; otherwise that recipe row goes.
     * The statement touches no ingredient line.
     */
    method Delete(caller: Principal, id: nat) returns (r: Result<string>)
      requires Valid()
      modifies this
      ensures Valid()
      ensures !caller.permissions.canDeleteRecipes ==> r == Err(Error(403, NotAuthorized)) && unchanged(this)
      ensures caller.permissions.canDeleteRecipes && !old(Visible(caller, id)) ==>
        r == Err(Error(404, RecipeNotFound)) && unchanged(this)
      ensures r.Ok? <==> caller.permissions.canDeleteRecipes && old(Visible(caller, id))
      ensures r.Ok? ==>
        && r.value == RecipeDeleted
        && recipes == old(recipes) - {id} && lines == old(lines) && nextId == old(nextId)
    {
      if !caller.permissions.canDeleteRecipes {
        return Err(Error(403, NotAuthorized));
      }
      if !Visible(caller, id) {
        return Err(Error(404, RecipeNotFound));
      }
      recipes := recipes - {id};
      r := Ok(RecipeDeleted);
    }
  }
}
