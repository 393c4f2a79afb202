/**
 * The admin panel's recipe form: its initial state, the checks `handleSave`
 * runs, the record it sends and the author picker.  Records are untyped
 * JavaScript objects.
 */
module AdminRecipeForm {
  import opened Wrappers
  import opened Js
  import ListView

  const TitleRequired := "Title is required"
  const TextRequired := "Text is required"
  const AuthorRequired := "Author is required"
  const BadUserId := "Invalid user ID format. Please select a user again."
  const SaveFailed := "Error saving recipe"

  /**
   * The recipe defaults.  The author default copies a user template that is
   * not part of this model; it is taken to carry no usable id.
   */
  const RecipeDefaults: map<string, Value> := map[
    "id" := Null, "title" := Str(""), "description" := Str(""), "text" := Str(""),
    "photoUrl" := Null, "cookingTime" := Null, "prepTime" := Null, "cookTime" := Null,
    "calories" := Null, "totalFat" := Null, "protein" := Null, "carbohydrates" := Null,
    "cholesterol" := Null, "createdAt" := Null, "updatedAt" := Null,
    "userDto" := Obj(map[]), "categoriesDto" := Arr([]), "ingredientsDto" := Arr([])]

  /** The form's first state: the defaults, overridden key by key by the record being edited. */
  function InitialRecipe(recipeData: map<string, Value>): (r: map<string, Value>)
    ensures r.Keys == RecipeDefaults.Keys + recipeData.Keys
    ensures forall k :: k in recipeData ==> r[k] == recipeData[k]
    ensures forall k :: k in RecipeDefaults && k !in recipeData ==> r[k] == RecipeDefaults[k]
  {
    Spread(RecipeDefaults, recipeData)
  }

  function Field(recipe: map<string, Value>, key: string): Value {
    Get(Obj(recipe), key)
  }

  /** `recipe.userDto.id`, read only once `recipe.userDto` is known to be truthy. */
  function AuthorId(recipe: map<string, Value>): Value {
    Get(Field(recipe, "userDto"), "id")
  }

  /** The alert `handleSave` raises before sending, if any. */
  function CheckRecipe(recipe: map<string, Value>): (alert: Option<string>)
    ensures alert.None? <==>
      && !BlankText(Field(recipe, "title")) && !BlankText(Field(recipe, "text"))
      && Truthy(Field(recipe, "userDto")) && Truthy(AuthorId(recipe)) && !IsObjectType(AuthorId(recipe))
    ensures alert.Some? ==> alert.value in {TitleRequired, TextRequired, AuthorRequired, BadUserId}
  {
    if BlankText(Field(recipe, "title")) then Some(TitleRequired)
    else if BlankText(Field(recipe, "text")) then Some(TextRequired)
    else if !Truthy(Field(recipe, "userDto")) || !Truthy(AuthorId(recipe)) then Some(AuthorRequired)
    else if IsObjectType(AuthorId(recipe)) then Some(BadUserId)
    else None
  }

  /** Title, then text, then a missing author id, then an author id that is an object. */
  lemma CheckOrder(recipe: map<string, Value>)
    ensures BlankText(Field(recipe, "title")) ==> CheckRecipe(recipe) == Some(TitleRequired)
    ensures !BlankText(Field(recipe, "title")) && BlankText(Field(recipe, "text")) ==>
      CheckRecipe(recipe) == Some(TextRequired)
    ensures (!BlankText(Field(recipe, "title")) && !BlankText(Field(recipe, "text"))
             && !Truthy(AuthorId(recipe))) ==> CheckRecipe(recipe) == Some(AuthorRequired)
    ensures CheckRecipe(recipe).None? <==>
      (!BlankText(Field(recipe, "title")) && !BlankText(Field(recipe, "text"))
       && Truthy(AuthorId(recipe)) && !IsObjectType(AuthorId(recipe)))
  {
  }

  /** `{ id: cat.id }`. */
  function IdOnly(v: Value): Value {
    Obj(map["id" := Get(v, "id")])
  }

  function IdsOnly(cats: seq<Value>): (r: seq<Value>)
    ensures |r| == |cats|
    ensures forall i :: 0 <= i < |r| ==> r[i] == Obj(map["id" := Get(cats[i], "id")])
  {
    seq(|cats|, i requires 0 <= i < |cats| => IdOnly(cats[i]))
  }

  /** A row with a product name that is not blank. */
  predicate Named(ing: Value) {
    !BlankText(Get(ing, "productName"))
  }

  function NamedFn(): Value -> bool {
    (ing: Value) => Named(ing)
  }

  /** The row sent for an ingredient: its name, its quantity or 0.0, its unit or "g". */
  function SentRow(ing: Value): (r: Value)
    ensures r.Obj? && r.fields.Keys == {"productName", "quantity", "unit"}
    ensures r.fields["productName"] == Get(ing, "productName")
    ensures r.fields["quantity"] == if Truthy(Get(ing, "quantity")) then Get(ing, "quantity") else Num(0.0)
    ensures r.fields["unit"] == if Truthy(Get(ing, "unit")) then Get(ing, "unit") else Str("g")
  {
    Obj(map["productName" := Get(ing, "productName"),
             "quantity" := Or(Get(ing, "quantity"), Num(0.0)),
             "unit" := Or(Get(ing, "unit"), Str("g"))])
  }

  function SentRows(rows: seq<Value>): (r: seq<Value>)
    ensures |r| == |rows|
    ensures forall i :: 0 <= i < |r| ==> r[i] == SentRow(rows[i])
  {
    seq(|rows|, i requires 0 <= i < |rows| => SentRow(rows[i]))
  }

  /** `recipeToSave`. */
  function RecipeToSave(recipe: map<string, Value>): (sent: map<string, Value>)
    ensures sent.Keys == recipe.Keys + Rewritten
    ensures forall k :: k in recipe && k !in Rewritten ==> sent[k] == recipe[k]
    ensures sent["userDto"] == Obj(map["id" := AuthorId(recipe)])
  {
    Spread(recipe, map[
      "userDto" := Obj(map["id" := AuthorId(recipe)]),
      "categoriesDto" := Arr(IdsOnly(ItemsOf(Or(Field(recipe, "categoriesDto"), Arr([]))))),
      "ingredientsDto" := Arr(SentRows(ListView.Filter(ItemsOf(Or(Field(recipe, "ingredientsDto"), Arr([]))), NamedFn())))])
  }

  const Rewritten: set<string> := {"userDto", "categoriesDto", "ingredientsDto"}

  /** The record sent keeps every field of the form except the author, categories and ingredients, and the author is reduced to its id. */
  lemma SavedRecipePassThrough(recipe: map<string, Value>)
    ensures var sent := RecipeToSave(recipe);
      && sent.Keys == recipe.Keys + Rewritten
      && (forall k :: k in recipe && k !in Rewritten ==> sent[k] == recipe[k])
      && sent["userDto"] == Obj(map["id" := AuthorId(recipe)])
  {
  }

  /** Each category sent is an object holding the category's id and nothing else. */
  lemma SavedCategoriesAreIds(recipe: map<string, Value>)
    ensures var sent := RecipeToSave(recipe)["categoriesDto"];
      && sent.Arr?
      && |sent.items| == |ItemsOf(Or(Field(recipe, "categoriesDto"), Arr([])))|
      && (forall c :: c in sent.items ==> c.Obj? && c.fields.Keys == {"id"})
  {
    var cats := IdsOnly(ItemsOf(Or(Field(recipe, "categoriesDto"), Arr([]))));
    assert RecipeToSave(recipe)["categoriesDto"] == Arr(cats);
  }

  /** Each ingredient sent has a non-blank name, a truthy quantity or 0.0, and a truthy unit. */
  lemma SavedIngredientsFilled(recipe: map<string, Value>)
    ensures var sent := RecipeToSave(recipe)["ingredientsDto"];
      && sent.Arr?
      && (forall ing :: ing in sent.items ==>
            ing.Obj? && ing.fields.Keys == {"productName", "quantity", "unit"}
            && !BlankText(ing.fields["productName"])
            && (Truthy(ing.fields["quantity"]) || ing.fields["quantity"] == Num(0.0))
            && Truthy(ing.fields["unit"]))
  {
    var rows := ListView.Filter(ItemsOf(Or(Field(recipe, "ingredientsDto"), Arr([]))), NamedFn());
    assert RecipeToSave(recipe)["ingredientsDto"] == Arr(SentRows(rows));
    forall ing | ing in SentRows(rows)
      ensures ing.Obj? && ing.fields.Keys == {"productName", "quantity", "unit"}
              && !BlankText(ing.fields["productName"])
              && (Truthy(ing.fields["quantity"]) || ing.fields["quantity"] == Num(0.0))
              && Truthy(ing.fields["unit"])
    {
      var i :| 0 <= i < |SentRows(rows)| && SentRows(rows)[i] == ing;
      assert NamedFn()(rows[i]);
    }
  }

  /** The sent ingredient rows are the named rows, in order, one for one. */
  lemma SavedIngredientsAreNamedRows(recipe: map<string, Value>)
    ensures var rows := ItemsOf(Or(Field(recipe, "ingredientsDto"), Arr([])));
      RecipeToSave(recipe)["ingredientsDto"] == Arr(SentRows(ListView.Filter(rows, NamedFn())))
      && ListView.IsSubsequence(ListView.Filter(rows, NamedFn()), rows)
  {
    ListView.FilterIsSubsequence(ItemsOf(Or(Field(recipe, "ingredientsDto"), Arr([]))), NamedFn());
  }

  /** The author picker's choice: the chosen user's id, or null when it has no usable id. */
  function ChosenAuthor(user: Value): (id: Value)
    ensures Truthy(id) <==> Truthy(user) && IsObjectType(user) && Truthy(Get(user, "id"))
    ensures Truthy(user) && IsObjectType(user) && Truthy(Get(user, "id")) ==> id == Get(user, "id")
    ensures !(Truthy(user) && IsObjectType(user) && Truthy(Get(user, "id"))) ==> id == Null
  {
    if Truthy(user) && IsObjectType(user) && Truthy(Get(user, "id")) then Get(user, "id") else Null
  }

  datatype SaveOutcome = Saved | SaveThrew(message: string)

  class RecipeFormState {
    var recipe: map<string, Value>
    var alerted: Option<string>
    var navigatedTo: Option<string>

    constructor (recipeData: map<string, Value>)
      ensures recipe == InitialRecipe(recipeData) && alerted == None && navigatedTo == None
    {
      recipe := InitialRecipe(recipeData);
      alerted := None;
      navigatedTo := None;
    }

    /** The author select's `onChange`. */
    method ChooseAuthor(user: Value)
      modifies this
      ensures recipe == old(recipe)["userDto" := Obj(map["id" := ChosenAuthor(user)])]
      ensures alerted == old(alerted) && navigatedTo == old(navigatedTo)
    {
      recipe := recipe["userDto" := Obj(map["id" := ChosenAuthor(user)])];
    }

    /** The category and ingredient editors' `onChange`: the list replaces the field. */
    method SetList(key: string, list: seq<Value>)
      requires key == "categoriesDto" || key == "ingredientsDto"
      modifies this
      ensures recipe == old(recipe)[key := Arr(list)]
      ensures alerted == old(alerted) && navigatedTo == old(navigatedTo)
    {
      recipe := recipe[key := Arr(list)];
    }

    /** `handleSave`; `outcome` is what `onSave` does with the record. */
    method HandleSave(outcome: SaveOutcome) returns (sent: Option<map<string, Value>>)
      modifies this
      ensures recipe == old(recipe)
      ensures CheckRecipe(old(recipe)).Some? ==>
        sent == None && alerted == CheckRecipe(old(recipe)) && navigatedTo == old(navigatedTo)
      ensures CheckRecipe(old(recipe)).None? ==> sent == Some(RecipeToSave(old(recipe)))
      ensures CheckRecipe(old(recipe)).None? && outcome.Saved? ==>
        alerted == old(alerted) && navigatedTo == Some("/recipes")
      ensures CheckRecipe(old(recipe)).None? && outcome.SaveThrew? ==>
        alerted == Some(if outcome.message != "" then outcome.message else SaveFailed)
        && navigatedTo == old(navigatedTo)
    {
      var problem := CheckRecipe(recipe);
      if problem.Some? {
        alerted := problem;
        return None;
      }
      sent := Some(RecipeToSave(recipe));
      match outcome {
        case Saved =>
          navigatedTo := Some("/recipes");
        case SaveThrew(message) =>
          alerted := Some(if message != "" then message else SaveFailed);
      }
    }
  }

  /** Picking an author without a usable id leaves a record that cannot be saved. */
  lemma UnusableAuthorBlocksSave(recipe: map<string, Value>, user: Value)
    requires !(Truthy(user) && IsObjectType(user) && Truthy(Get(user, "id")))
    ensures CheckRecipe(recipe["userDto" := Obj(map["id" := ChosenAuthor(user)])]).Some?
  {
    var r := recipe["userDto" := Obj(map["id" := ChosenAuthor(user)])];
    assert AuthorId(r) == Null;
  }
}
