/**
 * The frontend's recipe client: the shapes it exchanges with the server, the
 * body it sends when creating a recipe, and the message it raises when loading
 * one fails.  The HTTP exchange itself is represented by its outcome.
 */
module RecipeApi {
  import opened Wrappers
  import opened Text
  import ListView

  /** JavaScript truthiness of an optional string: present and not "". */
  predicate StrTruthy(s: Option<string>) {
    s.Some? && s.value != ""
  }

  /** JavaScript truthiness of an optional number: present and not 0. */
  predicate NumTruthy(n: Option<int>) {
    n.Some? && n.value != 0
  }

  /** `a || b` on optional numbers. */
  function NumOr(a: Option<int>, b: Option<int>): Option<int> {
    if NumTruthy(a) then a else b
  }

  datatype UserRef = UserRef(id: int, username: string)

  datatype CategoryRef = CategoryRef(id: int, name: string, description: Option<string>, photoUrl: Option<string>)

  /** A quantity is a JavaScript number; it is carried, never computed with. */
  datatype IngredientDto = IngredientDto(
    recipeId: Option<int>, productId: Option<int>, productName: string,
    quantity: Option<real>, unit: Option<string>)

  /** A recipe as the listing and detail pages receive it; `createdAt` is an abstract timestamp. */
  datatype RecipeDto = RecipeDto(
    id: int, title: string, description: Option<string>, text: string,
    photoUrl: Option<string>, cookingTime: Option<int>, prepTime: Option<int>,
    cookTime: Option<int>, status: Option<string>, createdAt: int,
    userDto: Option<UserRef>, categoryDtos: Option<seq<CategoryRef>>,
    ingredientsDto: Option<seq<IngredientDto>>)

  /** `Partial<RecipeDto>`: the create form's state, every field possibly absent. */
  datatype RecipeDraft = RecipeDraft(
    title: Option<string>, description: Option<string>, text: Option<string>,
    photoUrl: Option<string>, cookingTime: Option<int>, prepTime: Option<int>,
    cookTime: Option<int>, status: Option<string>, userDto: Option<UserRef>,
    categoryDtos: Option<seq<CategoryRef>>, ingredientsDto: Option<seq<IngredientDto>>)

  /**
   * The body `createRecipe` posts.  A field set to `None` is absent from the
   * JSON; there is no field for prepTime, cookTime, nutrition or status.
   */
  datatype CreatePayload = CreatePayload(
    title: Option<string>, text: Option<string>, description: Option<string>,
    photoUrl: Option<string>, cookingTime: Option<int>, userId: Option<int>,
    categoriesDto: Option<seq<int>>, ingredientsDto: Option<seq<IngredientDto>>)

  /** `ing.productName && ing.productName.trim() !== ""`. */
  predicate HasProductName(ing: IngredientDto) {
    ing.productName != "" && JsTrim(ing.productName) != ""
  }

  function CategoryIds(cats: seq<CategoryRef>): (ids: seq<int>)
    ensures |ids| == |cats| && forall i :: 0 <= i < |cats| ==> ids[i] == cats[i].id
  {
    if cats == [] then [] else [cats[0].id] + CategoryIds(cats[1..])
  }

  /**
   * `payload` is the body `createRecipe` posts for `recipe`: title and text
   * as given, each optional field only when truthy, the author as its id,
   * categories reduced to their ids and ingredients to the named rows, the
   * last two only when the lists are non-empty.
   */
  predicate IsCreatePayload(recipe: RecipeDraft, payload: CreatePayload) {
    && payload.title == recipe.title && payload.text == recipe.text
    && payload.description == (if StrTruthy(recipe.description) then recipe.description else None)
    && payload.photoUrl == (if StrTruthy(recipe.photoUrl) then recipe.photoUrl else None)
    && payload.cookingTime == (if NumTruthy(recipe.cookingTime) then recipe.cookingTime else None)
    && (payload.userId.Some? <==> recipe.userDto.Some? && recipe.userDto.value.id != 0)
    && (payload.userId.Some? ==> payload.userId.value == recipe.userDto.value.id)
    && (payload.categoriesDto.Some? <==> recipe.categoryDtos.Some? && |recipe.categoryDtos.value| > 0)
    && (payload.categoriesDto.Some? ==> payload.categoriesDto.value == CategoryIds(recipe.categoryDtos.value))
    && (payload.ingredientsDto.Some? <==> recipe.ingredientsDto.Some? && |recipe.ingredientsDto.value| > 0)
    && (payload.ingredientsDto.Some? ==>
          payload.ingredientsDto.value == ListView.Filter(recipe.ingredientsDto.value, HasProductName))
  }

  /** A draft has exactly one create payload: the description above leaves no field open. */
  lemma CreatePayloadUnique(recipe: RecipeDraft, p: CreatePayload, q: CreatePayload)
    requires IsCreatePayload(recipe, p) && IsCreatePayload(recipe, q)
    ensures p == q
  {
  }

  /** `createRecipe`'s payload, filled field by field as the client does. */
  method BuildCreatePayload(recipe: RecipeDraft) returns (payload: CreatePayload)
    ensures IsCreatePayload(recipe, payload)
  {
    payload := CreatePayload(recipe.title, recipe.text, None, None, None, None, None, None);
    if StrTruthy(recipe.description) {
      payload := payload.(description := recipe.description);
    }
    if StrTruthy(recipe.photoUrl) {
      payload := payload.(photoUrl := recipe.photoUrl);
    }
    if NumTruthy(recipe.cookingTime) {
      payload := payload.(cookingTime := recipe.cookingTime);
    }
    if recipe.userDto.Some? && recipe.userDto.value.id != 0 {
      payload := payload.(userId := Some(recipe.userDto.value.id));
    }
    if recipe.categoryDtos.Some? && |recipe.categoryDtos.value| > 0 {
      payload := payload.(categoriesDto := Some(CategoryIds(recipe.categoryDtos.value)));
    }
    if recipe.ingredientsDto.Some? && |recipe.ingredientsDto.value| > 0 {
      payload := payload.(ingredientsDto := Some(ListView.Filter(recipe.ingredientsDto.value, HasProductName)));
    }
  }

  /** The ingredients sent are exactly the named rows, in their original order. */
  lemma PayloadIngredientsAreNamedRows(rows: seq<IngredientDto>)
    ensures var sent := ListView.Filter(rows, HasProductName);
      && ListView.IsSubsequence(sent, rows)
      && (forall i :: 0 <= i < |sent| ==> !IsJsBlank(sent[i].productName))
      && (forall ing :: ing in rows && !IsJsBlank(ing.productName) ==> ing in sent)
  {
    var sent := ListView.Filter(rows, HasProductName);
    ListView.FilterIsSubsequence(rows, HasProductName);
    forall i | 0 <= i < |sent|
      ensures !IsJsBlank(sent[i].productName)
    {
      JsBlankIff(sent[i].productName);
    }
    forall ing | ing in rows && !IsJsBlank(ing.productName)
      ensures ing in sent
    {
      JsBlankIff(ing.productName);
    }
  }

  // ----- the error raised by getRecipe -----

  /** What `JSON.parse` makes of a non-empty error body. */
  datatype ParsedBody =
    | NotJson                                             // JSON.parse throws
    | JsonNull                                            // reading a field of null throws
    | JsonObject(error: Option<string>, message: Option<string>)
    | JsonOther                                           // number, string, boolean or array: fields undefined

  /** Reading the error body: it may fail, or yield a text and its parse. */
  datatype ErrorBody = ReadFailed | Body(text: string, parsed: ParsedBody)

  const DefaultLoadError := "Error loading recipe"

  function ServerError(status: nat, statusText: string): string {
    "Server error: " + NatToString(status) + " " + statusText
  }

  /** The message of the error `getRecipe` throws for a response that is not ok. */
  function GetRecipeErrorMessage(status: nat, statusText: string, body: ErrorBody): (m: string)
    ensures m != ""
  {
    match body
    case ReadFailed => ServerError(status, statusText)
    case Body(text, parsed) =>
      if text == "" then ServerError(status, statusText)
      else
        match parsed
        case JsonObject(error, message) =>
          if StrTruthy(error) then error.value
          else if StrTruthy(message) then message.value
          else DefaultLoadError
        case JsonOther => DefaultLoadError
        case _ => text
  }

  /** A JSON body's `error` wins over its `message`, and both over the default. */
  lemma JsonErrorPrecedence(status: nat, statusText: string, text: string, error: Option<string>, message: Option<string>)
    requires text != ""
    ensures var m := GetRecipeErrorMessage(status, statusText, Body(text, JsonObject(error, message)));
      && (StrTruthy(error) ==> m == error.value)
      && (!StrTruthy(error) && StrTruthy(message) ==> m == message.value)
      && (!StrTruthy(error) && !StrTruthy(message) ==> m == DefaultLoadError)
  {
  }

  /** A non-empty body that is not JSON becomes the message verbatim. */
  lemma NonJsonBodyVerbatim(status: nat, statusText: string, text: string)
    requires text != ""
    ensures GetRecipeErrorMessage(status, statusText, Body(text, NotJson)) == text
  {
  }

  /** An empty or unreadable body yields "Server error: <status> <statusText>". */
  lemma EmptyBodyServerError(status: nat, statusText: string, body: ErrorBody)
    requires body.ReadFailed? || body.text == ""
    ensures GetRecipeErrorMessage(status, statusText, body) == "Server error: " + NatToString(status) + " " + statusText
  {
  }
}
