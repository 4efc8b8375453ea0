/**
 * client/src/components/RecipeForm.js: the create / edit form whose
 * ingredients are one textarea, one ingredient per line. Loading a recipe
 * joins its list with `"\n"`; submitting splits the text at `"\n"` and drops
 * the blank lines, then sends PUT `/recipes/:id` when the route has an id and
 * POST `/recipes` otherwise.
 */
module RecipeFormComponent {
  import opened JsValues
  import opened JsStrings

  /** The form's `recipe` state; `ingredients` is the textarea's text. */
  datatype FormState = FormState(
    name: string, category: string, station: string, instructions: string, recipeYield: string,
    ingredients: string)

  const BlankForm := FormState("", "", "", "", "", "")

  /** `recipeData`: the form with the ingredient text replaced by a list. */
  datatype RecipeData = RecipeData(
    name: string, category: string, station: string, instructions: string, recipeYield: string,
    ingredients: seq<string>)

  datatype Verb = Put | Post
  datatype Request = Request(verb: Verb, path: string, body: RecipeData)

  /** `.filter((line) => line.trim())`: keeps the lines whose trim is non-empty, unchanged and in order. */
  function NonBlank(lines: seq<string>): (r: seq<string>)
    ensures |r| <= |lines|
    ensures forall i | 0 <= i < |r| :: r[i] in lines && Trim(r[i]) != ""
  {
    if lines == [] then []
    else (if Trim(lines[0]) != "" then [lines[0]] else []) + NonBlank(lines[1..])
  }

  /** A line is kept exactly when it occurs in the input and is not blank. */
  lemma {:induction false} NonBlankMembers(lines: seq<string>, x: string)
    ensures x in NonBlank(lines) <==> x in lines && !IsBlank(x)
  {
    if lines != [] {
      var head := if Trim(lines[0]) != "" then [lines[0]] else [];
      var rest := NonBlank(lines[1..]);
      assert NonBlank(lines) == head + rest;
      NonBlankMembers(lines[1..], x);
      TrimEmptyIffBlank(lines[0]);
      assert x in lines <==> x == lines[0] || x in lines[1..];
    }
  }

  /** Filtering a list whose every line trims to something keeps all of it. */
  lemma {:induction false} NonBlankKeepsAll(lines: seq<string>)
    requires forall i | 0 <= i < |lines| :: Trim(lines[i]) != ""
    ensures NonBlank(lines) == lines
  {
    if lines != [] {
      NonBlankKeepsAll(lines[1..]);
      assert lines == [lines[0]] + lines[1..];
    }
  }

  /** `recipe.ingredients.split("\n").filter((line) => line.trim())` */
  function IngredientsList(text: string): (r: seq<string>)
    ensures forall i | 0 <= i < |r| :: '\n' !in r[i] && !IsBlank(r[i])
  {
    var lines := Split(text, '\n');
    var r := NonBlank(lines);
    assert forall i | 0 <= i < |r| :: r[i] in lines && Trim(r[i]) != "";
    forall i | 0 <= i < |r| ensures '\n' !in r[i] && !IsBlank(r[i]) {
      TrimEmptyIffBlank(r[i]);
    }
    r
  }

  /** `fetchedRecipe.ingredients.join("\n")` */
  function IngredientsText(xs: seq<string>): string
  {
    Join(xs, '\n')
  }

  /**
   * Loading a list into the textarea and submitting it unchanged sends the
   * same list, provided no element holds a newline or is blank.
   */
  lemma TextRoundTrip(xs: seq<string>)
    requires forall i | 0 <= i < |xs| :: '\n' !in xs[i] && !IsBlank(xs[i])
    ensures IngredientsList(IngredientsText(xs)) == xs
  {
    if xs == [] {
      assert Split("", '\n') == [""];
      TrimEmptyIffBlank("");
    } else {
      SplitJoin(xs, '\n');
      forall i | 0 <= i < |xs| ensures Trim(xs[i]) != "" {
        TrimEmptyIffBlank(xs[i]);
      }
      NonBlankKeepsAll(xs);
    }
  }

  /** Two non-blank lines without newlines, joined by one, come back as those two lines. */
  lemma TwoLines(a: string, b: string)
    requires '\n' !in a && '\n' !in b && !IsBlank(a) && !IsBlank(b)
    ensures IngredientsList(a + "\n" + b) == [a, b]
  {
    assert a + "\n" + b == a + ['\n'] + b;
    SplitAfterPiece(a, b, '\n');
    SplitWithoutSeparator(b, '\n');
    var pair := [a, b];
    forall i | 0 <= i < |pair| ensures Trim(pair[i]) != "" {
      TrimEmptyIffBlank(pair[i]);
    }
    NonBlankKeepsAll(pair);
  }

  /** The text the component test types yields its two lines, untrimmed and in order. */
  lemma TwoLineSubmission(text: string)
    requires text == "2 cups flour\n1 tsp salt"
    ensures IngredientsList(text) == ["2 cups flour", "1 tsp salt"]
  {
    var a, b := "2 cups flour", "1 tsp salt";
    assert !IsWhitespace(a[0]) && !IsWhitespace(b[0]);
    assert text == a + "\n" + b;
    TwoLines(a, b);
  }

  function Payload(form: FormState): (d: RecipeData)
    ensures d.ingredients == IngredientsList(form.ingredients)
    ensures d.name == form.name && d.category == form.category && d.station == form.station
    ensures d.instructions == form.instructions && d.recipeYield == form.recipeYield
  {
    RecipeData(form.name, form.category, form.station, form.instructions, form.recipeYield,
               IngredientsList(form.ingredients))
  }

  /** The request `handleSubmit` sends: PUT on the route's id, or POST to the collection. */
  function Submission(routeId: Option<string>, form: FormState): (req: Request)
    ensures req.verb == Put <==> routeId.Some?
    ensures routeId.Some? ==> req.path == "/recipes/" + routeId.value
    ensures routeId.None? ==> req.path == "/recipes"
    ensures req.body == Payload(form)
  {
    match routeId
    case Some(id) => Request(Put, "/recipes/" + id, Payload(form))
    case None => Request(Post, "/recipes", Payload(form))
  }

  /** Editing and creating send the same payload for the same form. */
  lemma SamePayloadEitherWay(id: string, form: FormState)
    ensures Submission(Some(id), form).body == Submission(None, form).body
    ensures Submission(Some(id), form).verb != Submission(None, form).verb
  {
  }

  class RecipeForm {
    /** The `:id` route parameter, absent on the create route. */
    const routeId: Option<string>
    var loading: bool
    var recipe: FormState

    constructor (routeId: Option<string>)
      ensures this.routeId == routeId && !loading && recipe == BlankForm
    {
      this.routeId := routeId;
      loading := false;
      recipe := BlankForm;
    }

    /**
     * `fetchRecipe` once the GET has settled: `Some` with the recipe's fields
     * and list on success; on failure the state is kept. `loading` is reset in
     * `finally` either way.
     */
    method LoadRecipe(fetched: Option<RecipeData>)
      modifies this
      ensures !loading
      ensures fetched.Some? ==>
        var d := fetched.value;
        recipe == FormState(d.name, d.category, d.station, d.instructions, d.recipeYield, IngredientsText(d.ingredients))
      ensures fetched.None? ==> recipe == old(recipe)
    {
      loading := true;
      if fetched.Some? {
        var d := fetched.value;
        recipe := FormState(d.name, d.category, d.station, d.instructions, d.recipeYield, IngredientsText(d.ingredients));
      }
      loading := false;
    }

    /** `handleSubmit`: the request it sends; `loading` is reset in `finally`, whatever the answer. */
    method HandleSubmit() returns (req: Request)
      modifies this
      ensures req == Submission(routeId, recipe)
      ensures recipe == old(recipe) && !loading
    {
      loading := true;
      var ingredientsList := IngredientsList(recipe.ingredients);
      var recipeData := RecipeData(recipe.name, recipe.category, recipe.station, recipe.instructions,
                                   recipe.recipeYield, ingredientsList);
      if routeId.Some? {
        req := Request(Put, "/recipes/" + routeId.value, recipeData);
      } else {
        req := Request(Post, "/recipes", recipeData);
      }
      loading := false;
    }
  }
}
