/**
 * client/src/components/InputRecipe.js: the new-recipe form with a list of
 * `{ ingredientId, amount }` rows. Saving posts the recipe first and then one
 * ingredient link per row, stopping at the first incomplete row.
 */
module InputRecipeComponent {
  import opened JsValues

  const IncompleteIngredientData := "Incomplete ingredient data"

  datatype Row = Row(ingredientId: string, amount: string)

  const BlankRow := Row("", "")

  /** A row is complete when both fields are non-empty (truthy) strings. */
  predicate Complete(row: Row)
  {
    row.ingredientId != "" && row.amount != ""
  }

  /**
   * The row after `handleIngredientChange`: the `ingredientId` select stores
   * its value, except "new", which clears it (and opens the modal); any other
   * field name is the amount input.
   */
  function ChangedRow(row: Row, name: string, value: string): (r: Row)
    ensures name == "ingredientId" && value == "new" ==> r == row.(ingredientId := "")
    ensures name == "ingredientId" && value != "new" ==> r == row.(ingredientId := value)
    ensures name != "ingredientId" ==> r == row.(amount := value)
  {
    if name == "ingredientId" then row.(ingredientId := if value == "new" then "" else value)
    else row.(amount := value)
  }

  /**
   * `values.splice(index, 1)`: a negative index counts from the end (clamped
   * to the first element), and an index past the end removes nothing.
   */
  function Splice1<T>(s: seq<T>, index: int): (r: seq<T>)
    ensures 0 <= index < |s| ==> r == RemoveAt(s, index)
    ensures -|s| <= index < 0 ==> r == RemoveAt(s, |s| + index)
    ensures index < -|s| && s != [] ==> r == RemoveAt(s, 0)
    ensures index >= |s| || s == [] ==> r == s
  {
    var start := if index < 0 then (if |s| + index < 0 then 0 else |s| + index) else index;
    if start < |s| then s[..start] + s[start + 1..] else s
  }

  /** The position of the first incomplete row, or the row count when all are complete. */
  function FirstIncomplete(rows: seq<Row>): (n: nat)
    ensures n <= |rows|
    ensures forall k | 0 <= k < n :: Complete(rows[k])
    ensures n < |rows| ==> !Complete(rows[n])
  {
    if rows == [] then 0
    else if !Complete(rows[0]) then 0
    else 1 + FirstIncomplete(rows[1..])
  }

  /** The requests of a save: the recipe, then one link per row, carrying the row's raw strings. */
  datatype Call =
    | PostRecipe(recipe: JsObject)
    | PostLink(recipeId: JsValue, ingredientId: string, amount: string)

  function LinkPosts(recipeId: JsValue, rows: seq<Row>): (r: seq<Call>)
    ensures |r| == |rows|
    ensures forall k | 0 <= k < |rows| :: r[k] == PostLink(recipeId, rows[k].ingredientId, rows[k].amount)
  {
    seq(|rows|, k requires 0 <= k < |rows| => PostLink(recipeId, rows[k].ingredientId, rows[k].amount))
  }

  /** The answer to the recipe POST or to the link POSTs. */
  datatype Reply = Answered(data: JsObject) | Rejected(message: string)

  /** What the user is told: saved, or the message of the error that was thrown. */
  datatype Outcome = Saved | Failed(message: string)

  class InputRecipe {
    var ingredients: seq<Row>
    var allIngredients: seq<JsObject>
    var showModal: bool
    var newIngredient: JsObject
    var recipe: JsObject

    constructor ()
      ensures ingredients == [BlankRow] && allIngredients == [] && !showModal
      ensures newIngredient == map["name" := Str(""), "category" := Str(""), "price" := Str("")]
      ensures recipe == map["name" := Str(""), "category" := Str(""), "station" := Str(""),
                            "instructions" := Str(""), "yield" := Str("")]
    {
      ingredients := [BlankRow];
      allIngredients := [];
      showModal := false;
      newIngredient := map["name" := Str(""), "category" := Str(""), "price" := Str("")];
      recipe := map["name" := Str(""), "category" := Str(""), "station" := Str(""),
                    "instructions" := Str(""), "yield" := Str("")];
    }

    /** `handleRecipeChange`: one field of the recipe. */
    method HandleRecipeChange(name: string, value: string)
      modifies this
      ensures recipe == Put(old(recipe), name, Str(value))
      ensures ingredients == old(ingredients) && allIngredients == old(allIngredients)
      ensures showModal == old(showModal) && newIngredient == old(newIngredient)
    {
      recipe := Put(recipe, name, Str(value));
    }

    /** `handleIngredientChange(index, event)` for a rendered row. */
    method HandleIngredientChange(index: nat, name: string, value: string)
      requires index < |ingredients|
      modifies this
      ensures ingredients == old(ingredients)[index := ChangedRow(old(ingredients)[index], name, value)]
      ensures showModal == (old(showModal) || (name == "ingredientId" && value == "new"))
      ensures recipe == old(recipe) && allIngredients == old(allIngredients) && newIngredient == old(newIngredient)
    {
      var values := ingredients;
      if name == "ingredientId" {
        if value == "new" {
          showModal := true;
          values := values[index := values[index].(ingredientId := "")];
        } else {
          values := values[index := values[index].(ingredientId := value)];
        }
      } else {
        values := values[index := values[index].(amount := value)];
      }
      ingredients := values;
    }

    /** `handleNewIngredientChange`: one field of the modal's ingredient. */
    method HandleNewIngredientChange(name: string, value: string)
      modifies this
      ensures newIngredient == Put(old(newIngredient), name, Str(value))
      ensures ingredients == old(ingredients) && allIngredients == old(allIngredients)
      ensures showModal == old(showModal) && recipe == old(recipe)
    {
      newIngredient := Put(newIngredient, name, Str(value));
    }

    /** `fetchIngredients` once the GET has settled: `Some(rows)` on success; a failure is only logged. */
    method FetchIngredients(response: Option<seq<JsObject>>)
      modifies this
      ensures allIngredients == (if response.Some? then response.value else old(allIngredients))
      ensures ingredients == old(ingredients) && showModal == old(showModal)
      ensures newIngredient == old(newIngredient) && recipe == old(recipe)
    {
      if response.Some? {
        allIngredients := response.value;
      }
    }

    /**
     * `saveNewIngredient` once the POST has answered; on success the list is
     * fetched again (`refetched`, as for `FetchIngredients`) and the modal closes.
     */
    method SaveNewIngredient(succeeded: bool, refetched: Option<seq<JsObject>>)
      modifies this
      ensures succeeded ==> !showModal && allIngredients == (if refetched.Some? then refetched.value else old(allIngredients))
      ensures !succeeded ==> allIngredients == old(allIngredients) && showModal == old(showModal)
      ensures ingredients == old(ingredients) && newIngredient == old(newIngredient) && recipe == old(recipe)
    {
      if succeeded {
        FetchIngredients(refetched);
        showModal := false;
      }
    }

    /** `addIngredientField`: one blank row at the end. */
    method AddIngredientField()
      modifies this
      ensures ingredients == old(ingredients) + [BlankRow]
      ensures allIngredients == old(allIngredients) && showModal == old(showModal)
      ensures newIngredient == old(newIngredient) && recipe == old(recipe)
    {
      ingredients := ingredients + [BlankRow];
    }

    /** `removeIngredientField(index)` */
    method RemoveIngredientField(index: int)
      modifies this
      ensures ingredients == Splice1(old(ingredients), index)
      ensures allIngredients == old(allIngredients) && showModal == old(showModal)
      ensures newIngredient == old(newIngredient) && recipe == old(recipe)
    {
      ingredients := Splice1(ingredients, index);
    }

    /**
     * `handleSubmit`: POST the recipe; if it is answered, POST one link per
     * row in order until the first incomplete row, which throws "Incomplete
     * ingredient data". `linksReply` is the settled `Promise.all` of the links.
     */
    method HandleSubmit(recipeReply: Reply, linksReply: Reply) returns (calls: seq<Call>, outcome: Outcome)
      ensures |calls| >= 1 && calls[0] == PostRecipe(recipe)
      ensures recipeReply.Rejected? ==> calls == [PostRecipe(recipe)] && outcome == Failed(recipeReply.message)
      ensures recipeReply.Answered? ==>
        var n := FirstIncomplete(ingredients);
        && calls == [PostRecipe(recipe)] + LinkPosts(Get(recipeReply.data, "recipe_id"), ingredients[..n])
        && (n < |ingredients| ==> outcome == Failed(IncompleteIngredientData))
        && (n == |ingredients| ==> outcome == if linksReply.Rejected? then Failed(linksReply.message) else Saved)
    {
      calls := [PostRecipe(recipe)];
      if recipeReply.Rejected? {
        return calls, Failed(recipeReply.message);
      }
      var recipeId := Get(recipeReply.data, "recipe_id");
      var k := 0;
      while k < |ingredients|
        invariant 0 <= k <= FirstIncomplete(ingredients)
        invariant calls == [PostRecipe(recipe)] + LinkPosts(recipeId, ingredients[..k])
      {
        var ingredient := ingredients[k];
        if !Complete(ingredient) {
          return calls, Failed(IncompleteIngredientData);
        }
        assert ingredients[..k + 1] == ingredients[..k] + [ingredient];
        calls := calls + [PostLink(recipeId, ingredient.ingredientId, ingredient.amount)];
        k := k + 1;
      }
      assert ingredients[..k] == ingredients;
      outcome := if linksReply.Rejected? then Failed(linksReply.message) else Saved;
    }
  }
}
