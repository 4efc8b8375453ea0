/**
 * client/src/components/EditRecipeForm.js: the ingredient rows of a recipe
 * being edited, each carrying a `status` of "existing" (loaded), "updated"
 * (amount changed) or "new" (added in the form), and the ids of removed saved
 * rows waiting to be deleted. Rows are plain JS objects; the loaded rows come
 * from the ingredient-link routes, which are not part of this model.
 */
module EditRecipeFormComponent {
  import opened JsValues

  const Existing := Str("existing")
  const UpdatedStatus := Str("updated")
  const NewStatus := Str("new")

  /** `{ ingredientId: "", amount: "", status: "new" }` */
  const NewRow: JsObject := map["ingredientId" := Str(""), "amount" := Str(""), "status" := NewStatus]

  /** `data.map((ing) => ({ ...ing, status: "existing" }))` */
  function MarkExisting(rows: seq<JsObject>): (r: seq<JsObject>)
    ensures |r| == |rows|
    ensures forall i | 0 <= i < |rows| :: r[i] == Put(rows[i], "status", Existing)
  {
    seq(|rows|, i requires 0 <= i < |rows| => Put(rows[i], "status", Existing))
  }

  /**
   * The row after `handleIngredientChange` sets field `name` to `value`: an
   * "existing" row whose amount changes becomes "updated" first.
   */
  function ChangedRow(row: JsObject, name: string, value: string): (r: JsObject)
    ensures Get(r, name) == Str(value)
    ensures forall k | k != name && k != "status" :: Get(r, k) == Get(row, k)
    ensures name != "status" ==>
      Get(r, "status") == (if Get(row, "status") == Existing && name == "amount" then UpdatedStatus else Get(row, "status"))
  {
    var marked := if Get(row, "status") == Existing && name == "amount" then Put(row, "status", UpdatedStatus) else row;
    Put(marked, name, Str(value))
  }

  /**
   * The only status change a field edit makes is "existing" to "updated",
   * and only an amount edit makes it: "new" and "updated" rows keep theirs.
   */
  lemma StatusTransitions(row: JsObject, name: string, value: string)
    requires name != "status"
    ensures Get(ChangedRow(row, name, value), "status") != Get(row, "status") ==>
      Get(row, "status") == Existing && name == "amount" && Get(ChangedRow(row, name, value), "status") == UpdatedStatus
    ensures Get(row, "status") in {NewStatus, UpdatedStatus} ==> Get(ChangedRow(row, name, value), "status") == Get(row, "status")
  {
  }

  /** `rows.filter((ing) => ing.status === status)` */
  function WithStatus(rows: seq<JsObject>, status: JsValue): (r: seq<JsObject>)
    ensures |r| <= |rows|
    ensures forall i | 0 <= i < |r| :: Get(r[i], "status") == status && r[i] in rows
  {
    if rows == [] then []
    else (if Get(rows[0], "status") == status then [rows[0]] else []) + WithStatus(rows[1..], status)
  }

  /** A row is selected exactly when it is in the list with that status. */
  lemma {:induction false} WithStatusMembers(rows: seq<JsObject>, status: JsValue, x: JsObject)
    ensures x in WithStatus(rows, status) <==> x in rows && Get(x, "status") == status
  {
    if rows != [] {
      WithStatusMembers(rows[1..], status, x);
      assert x in rows <==> x == rows[0] || x in rows[1..];
    }
  }

  /** The requests of one save. Ids and amounts are sent as the rows hold them. */
  datatype Call =
    | PutRecipe(recipeId: string, recipe: JsObject)
    | PostLink(recipeId: string, ingredientId: JsValue, amount: JsValue)
    | PutLink(recipeRef: JsValue, ingredientId: JsValue, amount: JsValue)
    | DeleteLink(recipeRef: JsValue, ingredientId: JsValue)

  /** The POST of each "new" row, in row order. */
  function NewRowPosts(rows: seq<JsObject>, recipeId: string): (r: seq<Call>)
    ensures |r| == |WithStatus(rows, NewStatus)|
    ensures forall i | 0 <= i < |r| ::
      var row := WithStatus(rows, NewStatus)[i]; r[i] == PostLink(recipeId, Get(row, "ingredientId"), Get(row, "amount"))
  {
    var added := WithStatus(rows, NewStatus);
    seq(|added|, i requires 0 <= i < |added| => PostLink(recipeId, Get(added[i], "ingredientId"), Get(added[i], "amount")))
  }

  /** The PUT of each "updated" row, in row order. */
  function UpdatedRowPuts(rows: seq<JsObject>, recipeRef: JsValue): (r: seq<Call>)
    ensures |r| == |WithStatus(rows, UpdatedStatus)|
    ensures forall i | 0 <= i < |r| ::
      var row := WithStatus(rows, UpdatedStatus)[i]; r[i] == PutLink(recipeRef, Get(row, "ingredient_id"), Get(row, "amount"))
  {
    var changed := WithStatus(rows, UpdatedStatus);
    seq(|changed|, i requires 0 <= i < |changed| => PutLink(recipeRef, Get(changed[i], "ingredient_id"), Get(changed[i], "amount")))
  }

  /** The DELETE of each tracked id. */
  function Deletions(ids: seq<JsValue>, recipeRef: JsValue): (r: seq<Call>)
    ensures |r| == |ids| && forall i | 0 <= i < |ids| :: r[i] == DeleteLink(recipeRef, ids[i])
  {
    seq(|ids|, i requires 0 <= i < |ids| => DeleteLink(recipeRef, ids[i]))
  }

  /**
   * Choosing another saved ingredient for a loaded row changes its
   * `ingredientId` but leaves it "existing", so the save sends nothing for it.
   */
  lemma IngredientSwapIsNotSaved(row: JsObject, value: string)
    requires Get(row, "status") == Existing
    ensures Get(ChangedRow(row, "ingredientId", value), "status") == Existing
    ensures forall rows: seq<JsObject> | ChangedRow(row, "ingredientId", value) in rows ::
      && ChangedRow(row, "ingredientId", value) !in WithStatus(rows, NewStatus)
      && ChangedRow(row, "ingredientId", value) !in WithStatus(rows, UpdatedStatus)
  {
    var changed := ChangedRow(row, "ingredientId", value);
    forall rows: seq<JsObject> | changed in rows
      ensures changed !in WithStatus(rows, NewStatus) && changed !in WithStatus(rows, UpdatedStatus)
    {
      WithStatusMembers(rows, NewStatus, changed);
      WithStatusMembers(rows, UpdatedStatus, changed);
    }
  }

  class EditRecipeForm {
    /** The `:recipeId` route parameter. */
    const recipeId: string
    var recipe: JsObject
    var ingredients: seq<JsObject>
    var allIngredients: seq<JsObject>
    var deletedIngredients: seq<JsValue>
    var showModal: bool
    var newIngredient: JsObject

    constructor (recipeId: string)
      ensures this.recipeId == recipeId
      ensures recipe == map["name" := Str(""), "category" := Str(""), "station" := Str(""),
                            "instructions" := Str(""), "yield" := Str("")]
      ensures ingredients == [] && allIngredients == [] && deletedIngredients == [] && !showModal
      ensures newIngredient == map["name" := Str(""), "category" := Str(""), "price" := Str("")]
    {
      this.recipeId := recipeId;
      recipe := map["name" := Str(""), "category" := Str(""), "station" := Str(""),
                    "instructions" := Str(""), "yield" := Str("")];
      ingredients, allIngredients, deletedIngredients := [], [], [];
      showModal := false;
      newIngredient := map["name" := Str(""), "category" := Str(""), "price" := Str("")];
    }

    /** The loaded rows, every one marked "existing". */
    method LoadIngredients(loaded: seq<JsObject>)
      modifies this
      ensures ingredients == MarkExisting(loaded)
      ensures forall i | 0 <= i < |ingredients| :: Get(ingredients[i], "status") == Existing
      ensures recipe == old(recipe) && deletedIngredients == old(deletedIngredients)
      ensures allIngredients == old(allIngredients) && showModal == old(showModal) && newIngredient == old(newIngredient)
    {
      ingredients := MarkExisting(loaded);
    }

    /** `handleRecipeChange`: one field of the recipe. */
    method HandleRecipeChange(name: string, value: string)
      modifies this
      ensures recipe == Put(old(recipe), name, Str(value))
      ensures ingredients == old(ingredients) && deletedIngredients == old(deletedIngredients)
      ensures allIngredients == old(allIngredients) && showModal == old(showModal) && newIngredient == old(newIngredient)
    {
      recipe := Put(recipe, name, Str(value));
    }

    /** `handleIngredientChange(index, event)` for a rendered row. */
    method HandleIngredientChange(index: nat, name: string, value: string)
      requires index < |ingredients|
      modifies this
      ensures |ingredients| == |old(ingredients)|
      ensures ingredients[index] == ChangedRow(old(ingredients)[index], name, value)
      ensures forall i | 0 <= i < |ingredients| && i != index :: ingredients[i] == old(ingredients)[i]
      ensures recipe == old(recipe) && deletedIngredients == old(deletedIngredients)
      ensures allIngredients == old(allIngredients) && showModal == old(showModal) && newIngredient == old(newIngredient)
    {
      var updatedIngredients := ingredients;
      var row := updatedIngredients[index];
      if Get(row, "status") == Existing && name == "amount" {
        row := Put(row, "status", UpdatedStatus);
      }
      row := Put(row, name, Str(value));
      updatedIngredients := updatedIngredients[index := row];
      ingredients := updatedIngredients;
    }

    /** `handleIngredientSelect`: "new" opens the modal and leaves the rows alone. */
    method HandleIngredientSelect(index: nat, value: string)
      requires value != "new" ==> index < |ingredients|
      modifies this
      ensures value == "new" ==> showModal && ingredients == old(ingredients)
      ensures value != "new" ==>
        && showModal == old(showModal)
        && ingredients == old(ingredients)[index := ChangedRow(old(ingredients)[index], "ingredientId", value)]
      ensures recipe == old(recipe) && deletedIngredients == old(deletedIngredients)
      ensures allIngredients == old(allIngredients) && newIngredient == old(newIngredient)
    {
      if value == "new" {
        showModal := true;
      } else {
        HandleIngredientChange(index, "ingredientId", value);
      }
    }

    /** `handleNewIngredientChange`: one field of the modal's ingredient. */
    method HandleNewIngredientChange(name: string, value: string)
      modifies this
      ensures newIngredient == Put(old(newIngredient), name, Str(value))
      ensures recipe == old(recipe) && ingredients == old(ingredients) && deletedIngredients == old(deletedIngredients)
      ensures allIngredients == old(allIngredients) && showModal == old(showModal)
    {
      newIngredient := Put(newIngredient, name, Str(value));
    }

    /** `saveNewIngredient` once the POST has answered: `Some(created)` on success. */
    method SaveNewIngredient(response: Option<JsObject>)
      modifies this
      ensures response.Some? ==> allIngredients == old(allIngredients) + [response.value] && !showModal
      ensures response.None? ==> allIngredients == old(allIngredients) && showModal == old(showModal)
      ensures recipe == old(recipe) && ingredients == old(ingredients) && deletedIngredients == old(deletedIngredients)
      ensures newIngredient == old(newIngredient)
    {
      if response.Some? {
        allIngredients := allIngredients + [response.value];
        showModal := false;
      }
    }

    /** `addIngredientField` */
    method AddIngredientField()
      modifies this
      ensures ingredients == old(ingredients) + [NewRow]
      ensures recipe == old(recipe) && deletedIngredients == old(deletedIngredients)
      ensures allIngredients == old(allIngredients) && showModal == old(showModal) && newIngredient == old(newIngredient)
    {
      ingredients := ingredients + [NewRow];
    }

    /** `removeIngredientField(index)` for a rendered row: a saved row's id is tracked for deletion. */
    method RemoveIngredientField(index: nat)
      requires index < |ingredients|
      modifies this
      ensures ingredients == RemoveAt(old(ingredients), index)
      ensures deletedIngredients ==
        old(deletedIngredients) + (if Truthy(Get(old(ingredients)[index], "ingredient_id"))
                                   then [Get(old(ingredients)[index], "ingredient_id")] else [])
      ensures recipe == old(recipe)
      ensures allIngredients == old(allIngredients) && showModal == old(showModal) && newIngredient == old(newIngredient)
    {
      var ingredient := ingredients[index];
      if Truthy(Get(ingredient, "ingredient_id")) {
        deletedIngredients := deletedIngredients + [Get(ingredient, "ingredient_id")];
      }
      ingredients := RemoveAt(ingredients, index);
    }

    /** `processDeletions`: one DELETE per tracked id; the tracker is cleared once all succeed. */
    method ProcessDeletions(allSucceeded: bool) returns (calls: seq<Call>)
      modifies this
      ensures calls == Deletions(old(deletedIngredients), Get(recipe, "recipe_id"))
      ensures deletedIngredients == (if allSucceeded then [] else old(deletedIngredients))
      ensures recipe == old(recipe) && ingredients == old(ingredients)
      ensures allIngredients == old(allIngredients) && showModal == old(showModal) && newIngredient == old(newIngredient)
    {
      calls := Deletions(deletedIngredients, Get(recipe, "recipe_id"));
      if allSucceeded {
        deletedIngredients := [];
      }
    }

    /**
     * `handleSubmit`: the recipe PUT, a POST per "new" row and a PUT per
     * "updated" row; only when all of them succeed do the deletions run.
     */
    method HandleSubmit(requestsSucceeded: bool, deletionsSucceeded: bool) returns (calls: seq<Call>)
      modifies this
      ensures calls ==
        [PutRecipe(recipeId, old(recipe))]
        + NewRowPosts(old(ingredients), recipeId)
        + UpdatedRowPuts(old(ingredients), Get(old(recipe), "recipe_id"))
        + (if requestsSucceeded then Deletions(old(deletedIngredients), Get(old(recipe), "recipe_id")) else [])
      ensures deletedIngredients == (if requestsSucceeded && deletionsSucceeded then [] else old(deletedIngredients))
      ensures recipe == old(recipe) && ingredients == old(ingredients)
      ensures allIngredients == old(allIngredients) && showModal == old(showModal) && newIngredient == old(newIngredient)
    {
      var updateRecipe := PutRecipe(recipeId, recipe);
      var postCalls := NewRowPosts(ingredients, recipeId);
      var updateCalls := UpdatedRowPuts(ingredients, Get(recipe, "recipe_id"));
      calls := [updateRecipe] + postCalls + updateCalls;
      if requestsSucceeded {
        var deleteCalls := ProcessDeletions(deletionsSucceeded);
        calls := calls + deleteCalls;
      }
    }
  }
}
