/**
 * client/src/components/IngredientsTable.js: the ingredient list with a
 * create modal and an edit modal. Rows and the two edited ingredients are
 * plain JS objects.
 */
module IngredientsTableComponent {
  import opened JsValues

  const BlankNewIngredient: JsObject := map["name" := Str(""), "category" := Str(""), "price" := Str("")]

  /** What "Add New Ingredient" puts in `currentIngredient`. */
  const BlankCurrentIngredient: JsObject :=
    map["ingredient_id" := Null, "name" := Str(""), "category" := Str(""), "price" := Str("")]

  class IngredientsTable {
    var ingredients: seq<JsObject>
    var showCreateModal: bool
    var showEditModal: bool
    /** Starts as `false`; spreading `false` gives `{}`, so it is held here as the empty object. */
    var currentIngredient: JsObject
    var newIngredient: JsObject

    constructor ()
      ensures ingredients == [] && !showCreateModal && !showEditModal
      ensures currentIngredient == map[] && newIngredient == BlankNewIngredient
    {
      ingredients := [];
      showCreateModal, showEditModal := false, false;
      currentIngredient := map[];
      newIngredient := BlankNewIngredient;
    }

    /** `fetchIngredients` once the GET has settled: `Some(rows)` on success. */
    method FetchIngredients(response: Option<seq<JsObject>>)
      modifies this
      ensures ingredients == (if response.Some? then response.value else old(ingredients))
      ensures showCreateModal == old(showCreateModal) && showEditModal == old(showEditModal)
      ensures currentIngredient == old(currentIngredient) && newIngredient == old(newIngredient)
    {
      if response.Some? {
        ingredients := response.value;
      }
    }

    /** `deleteIngredients(id)`: after a successful DELETE the rows with that `ingredient_id` go. */
    method DeleteIngredients(id: JsValue, succeeded: bool)
      modifies this
      ensures ingredients == (if succeeded then RemoveWhere(old(ingredients), "ingredient_id", id) else old(ingredients))
      ensures showCreateModal == old(showCreateModal) && showEditModal == old(showEditModal)
      ensures currentIngredient == old(currentIngredient) && newIngredient == old(newIngredient)
    {
      if succeeded {
        ingredients := RemoveWhere(ingredients, "ingredient_id", id);
      }
    }

    /** `handleNewIngredientChange`: one field of the create modal's ingredient. */
    method HandleNewIngredientChange(name: string, value: string)
      modifies this
      ensures newIngredient == Put(old(newIngredient), name, Str(value))
      ensures ingredients == old(ingredients) && currentIngredient == old(currentIngredient)
      ensures showCreateModal == old(showCreateModal) && showEditModal == old(showEditModal)
    {
      newIngredient := Put(newIngredient, name, Str(value));
    }

    /** `handleIngredientChange`: one field of the ingredient being edited. */
    method HandleIngredientChange(name: string, value: string)
      modifies this
      ensures currentIngredient == Put(old(currentIngredient), name, Str(value))
      ensures ingredients == old(ingredients) && newIngredient == old(newIngredient)
      ensures showCreateModal == old(showCreateModal) && showEditModal == old(showEditModal)
    {
      currentIngredient := Put(currentIngredient, name, Str(value));
    }

    /** `openEditModal(ingredient)` */
    method OpenEditModal(ingredient: JsObject)
      modifies this
      ensures currentIngredient == ingredient && showEditModal
      ensures ingredients == old(ingredients) && newIngredient == old(newIngredient)
      ensures showCreateModal == old(showCreateModal)
    {
      currentIngredient := ingredient;
      showEditModal := true;
    }

    /** The "Add New Ingredient" button. */
    method OpenCreateModal()
      modifies this
      ensures currentIngredient == BlankCurrentIngredient && showCreateModal
      ensures ingredients == old(ingredients) && newIngredient == old(newIngredient)
      ensures showEditModal == old(showEditModal)
    {
      currentIngredient := BlankCurrentIngredient;
      showCreateModal := true;
    }

    /** `saveNewIngredient` once the POST has settled; on success the list is fetched again and the modal closes. */
    method SaveNewIngredient(succeeded: bool, refetched: Option<seq<JsObject>>)
      modifies this
      ensures succeeded ==> !showCreateModal && ingredients == (if refetched.Some? then refetched.value else old(ingredients))
      ensures !succeeded ==> showCreateModal == old(showCreateModal) && ingredients == old(ingredients)
      ensures showEditModal == old(showEditModal)
      ensures currentIngredient == old(currentIngredient) && newIngredient == old(newIngredient)
    {
      if succeeded {
        FetchIngredients(refetched);
        showCreateModal := false;
      }
    }

    /** `saveEditedIngredient`: the PUT goes to the edited row's id; on success as for a create. */
    method SaveEditedIngredient(succeeded: bool, refetched: Option<seq<JsObject>>) returns (target: JsValue, body: JsObject)
      modifies this
      ensures target == Get(old(currentIngredient), "ingredient_id") && body == old(currentIngredient)
      ensures succeeded ==> !showEditModal && ingredients == (if refetched.Some? then refetched.value else old(ingredients))
      ensures !succeeded ==> showEditModal == old(showEditModal) && ingredients == old(ingredients)
      ensures showCreateModal == old(showCreateModal)
      ensures currentIngredient == old(currentIngredient) && newIngredient == old(newIngredient)
    {
      target, body := Get(currentIngredient, "ingredient_id"), currentIngredient;
      if succeeded {
        FetchIngredients(refetched);
        showEditModal := false;
      }
    }
  }
}
