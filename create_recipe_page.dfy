/**
 * The "create recipe" page: the ingredient-row and category-checkbox editors
 * over the form state, and the submit handler's checks and normalisation.
 */
module CreateRecipePage {
  import opened Wrappers
  import opened Text
  import opened RecipeApi
  import ListView

  const TitleRequired := "Please fill in the recipe title"
  const TextRequired := "Please fill in the recipe description (Directions)"
  const AuthorRequired := "Recipe author not selected"
  const CreateFailed := "Error creating recipe"

  /** The row `addIngredient` appends. */
  const EmptyRow := IngredientDto(None, None, "", Some(0.0), Some("g"))

  /** The form's initial state. */
  const InitialForm := RecipeDraft(
    Some(""), Some(""), Some(""), Some(""), Some(0), None, None, None,
    Some(UserRef(0, "")), Some([]), Some([]))

  /** `addIngredient`: a blank row at the end. */
  function WithIngredientAdded(rows: Option<seq<IngredientDto>>): (r: seq<IngredientDto>)
    ensures |r| == |rows.GetOr([])| + 1
    ensures r[..|r| - 1] == rows.GetOr([]) && r[|r| - 1] == EmptyRow
  {
    rows.GetOr([]) + [EmptyRow]
  }

  /** `removeIngredient(index)`: every row whose position is not `index`. */
  function WithoutIngredient(rows: Option<seq<IngredientDto>>, index: int): (r: seq<IngredientDto>)
    ensures var old_ := rows.GetOr([]);
      if 0 <= index < |old_| then
        |r| == |old_| - 1
        && (forall k :: 0 <= k < index ==> r[k] == old_[k])
        && (forall k :: index <= k < |r| ==> r[k] == old_[k + 1])
      else r == old_
  {
    var old_ := rows.GetOr([]);
    if 0 <= index < |old_| then old_[..index] + old_[index + 1..] else old_
  }

  /** The field `updateIngredient` sets, with its new value. */
  datatype IngredientEdit =
    | ProductName(name: string)
    | Quantity(quantity: Option<real>)
    | Unit(unit: Option<string>)

  function ApplyEdit(row: IngredientDto, edit: IngredientEdit): IngredientDto {
    match edit
    case ProductName(n) => row.(productName := n)
    case Quantity(q) => row.(quantity := q)
    case Unit(u) => row.(unit := u)
  }

  /** Exactly the edited field of a row changes. */
  lemma ApplyEditChangesOneField(row: IngredientDto, edit: IngredientEdit)
    ensures var r := ApplyEdit(row, edit);
      && r.recipeId == row.recipeId && r.productId == row.productId
      && (if edit.ProductName? then r.productName == edit.name else r.productName == row.productName)
      && (if edit.Quantity? then r.quantity == edit.quantity else r.quantity == row.quantity)
      && (if edit.Unit? then r.unit == edit.unit else r.unit == row.unit)
  {
  }

  /** `updateIngredient(index, field, value)`: only row `index` changes. */
  function WithIngredientUpdated(rows: Option<seq<IngredientDto>>, index: nat, edit: IngredientEdit): (r: seq<IngredientDto>)
    requires index < |rows.GetOr([])|
    ensures |r| == |rows.GetOr([])|
    ensures forall k :: 0 <= k < |r| && k != index ==> r[k] == rows.GetOr([])[k]
    ensures r[index] == ApplyEdit(rows.GetOr([])[index], edit)
  {
    rows.GetOr([])[index := ApplyEdit(rows.GetOr([])[index], edit)]
  }

  function OtherCategory(id: int): CategoryRef -> bool {
    (c: CategoryRef) => c.id != id
  }

  /** The category checkbox: checking appends the category, unchecking drops every entry with its id. */
  function WithCategoryToggled(cats: Option<seq<CategoryRef>>, cat: CategoryRef, checked: bool): (r: seq<CategoryRef>)
    ensures checked ==> r == cats.GetOr([]) + [cat]
    ensures !checked ==> forall c :: c in r ==> c.id != cat.id
    ensures !checked ==> forall c :: c in cats.GetOr([]) && c.id != cat.id ==> c in r
  {
    if checked then cats.GetOr([]) + [cat]
    else ListView.Filter(cats.GetOr([]), OtherCategory(cat.id))
  }

  /** Unchecking keeps the remaining categories in their order. */
  lemma UncheckKeepsOrder(cats: Option<seq<CategoryRef>>, cat: CategoryRef)
    ensures ListView.IsSubsequence(WithCategoryToggled(cats, cat, false), cats.GetOr([]))
  {
    ListView.FilterIsSubsequence(cats.GetOr([]), OtherCategory(cat.id));
  }

  /** `!s || s.trim() === ""`. */
  predicate MissingText(s: Option<string>) {
    s.None? || IsJsBlank(s.value)
  }

  /** `recipeToSubmit`, or the first failed check's message. */
  function CheckSubmission(form: RecipeDraft): (r: Result<RecipeDraft, string>)
    ensures r.Err? <==> MissingText(form.title) || MissingText(form.text)
                        || form.userDto.None? || form.userDto.value.id == 0
  {
    if MissingText(form.title) then Err(TitleRequired)
    else if MissingText(form.text) then Err(TextRequired)
    else if form.userDto.None? || form.userDto.value.id == 0 then Err(AuthorRequired)
    else Ok(form.(
      title := Some(JsTrim(form.title.value)),
      text := Some(JsTrim(form.text.value)),
      ingredientsDto := Some(ListView.Filter(form.ingredientsDto.GetOr([]), HasProductName))))
  }

  /** The checks run in order: a blank title is reported first, then a blank text, then the author. */
  lemma FirstFailureWins(form: RecipeDraft)
    ensures MissingText(form.title) ==> CheckSubmission(form) == Err(TitleRequired)
    ensures !MissingText(form.title) && MissingText(form.text) ==> CheckSubmission(form) == Err(TextRequired)
    ensures (!MissingText(form.title) && !MissingText(form.text)
             && (form.userDto.None? || form.userDto.value.id == 0)) ==> CheckSubmission(form) == Err(AuthorRequired)
  {
  }

  /** What is submitted: trimmed non-blank title and text, the named ingredient rows, every other field as entered. */
  lemma SubmissionNormalised(form: RecipeDraft)
    requires CheckSubmission(form).Ok?
    ensures var sent := CheckSubmission(form).value;
      && sent.title.Some? && sent.title.value == JsTrim(form.title.value) && sent.title.value != ""
      && sent.text.Some? && sent.text.value == JsTrim(form.text.value) && sent.text.value != ""
      && sent.ingredientsDto == Some(ListView.Filter(form.ingredientsDto.GetOr([]), HasProductName))
      && sent.description == form.description && sent.photoUrl == form.photoUrl
      && sent.cookingTime == form.cookingTime && sent.userDto == form.userDto
      && sent.categoryDtos == form.categoryDtos
  {
  }

  /** The page's state: the form, the error banner, the busy flag and where it navigated. */
  class CreateRecipeForm {
    var formData: RecipeDraft
    var error: Option<string>
    var loading: bool
    var navigatedTo: Option<string>

    constructor ()
      ensures formData == InitialForm && error == None && !loading && navigatedTo == None
    {
      formData := InitialForm;
      error := None;
      loading := false;
      navigatedTo := None;
    }

    method AddIngredient()
      modifies this
      ensures formData == old(formData).(ingredientsDto := Some(WithIngredientAdded(old(formData).ingredientsDto)))
      ensures error == old(error) && loading == old(loading) && navigatedTo == old(navigatedTo)
    {
      formData := formData.(ingredientsDto := Some(WithIngredientAdded(formData.ingredientsDto)));
    }

    method RemoveIngredient(index: int)
      modifies this
      ensures formData == old(formData).(ingredientsDto := Some(WithoutIngredient(old(formData).ingredientsDto, index)))
      ensures error == old(error) && loading == old(loading) && navigatedTo == old(navigatedTo)
    {
      formData := formData.(ingredientsDto := Some(WithoutIngredient(formData.ingredientsDto, index)));
    }

    method UpdateIngredient(index: nat, edit: IngredientEdit)
      requires index < |formData.ingredientsDto.GetOr([])|
      modifies this
      ensures formData == old(formData).(ingredientsDto := Some(WithIngredientUpdated(old(formData).ingredientsDto, index, edit)))
      ensures error == old(error) && loading == old(loading) && navigatedTo == old(navigatedTo)
    {
      formData := formData.(ingredientsDto := Some(WithIngredientUpdated(formData.ingredientsDto, index, edit)));
    }

    method ToggleCategory(cat: CategoryRef, checked: bool)
      modifies this
      ensures formData == old(formData).(categoryDtos := Some(WithCategoryToggled(old(formData).categoryDtos, cat, checked)))
      ensures error == old(error) && loading == old(loading) && navigatedTo == old(navigatedTo)
    {
      formData := formData.(categoryDtos := Some(WithCategoryToggled(formData.categoryDtos, cat, checked)));
    }

    /**
     * `handleSubmit`.  `serverError` is the outcome of the request: `None` when
     * it succeeds, else the message of the error it throws.  `sent` is the body
     * posted, if any.
     */
    method HandleSubmit(serverError: Option<string>) returns (sent: Option<CreatePayload>)
      modifies this
      ensures formData == old(formData) && !loading
      ensures CheckSubmission(old(formData)).Err? ==>
        sent == None && error == Some(CheckSubmission(old(formData)).error) && navigatedTo == old(navigatedTo)
      ensures CheckSubmission(old(formData)).Ok? ==>
        sent.Some? && IsCreatePayload(CheckSubmission(old(formData)).value, sent.value)
      ensures CheckSubmission(old(formData)).Ok? && serverError.None? ==>
        error == None && navigatedTo == Some("/recipes")
      ensures CheckSubmission(old(formData)).Ok? && serverError.Some? ==>
        error == Some(if serverError.value != "" then serverError.value else CreateFailed)
        && navigatedTo == old(navigatedTo)
    {
      error := None;
      loading := true;
      var checked := CheckSubmission(formData);
      if checked.Err? {
        error := Some(checked.error);
        loading := false;
        return None;
      }
      var payload := BuildCreatePayload(checked.value);
      sent := Some(payload);
      if serverError.None? {
        navigatedTo := Some("/recipes");
      } else {
        error := Some(if serverError.value != "" then serverError.value else CreateFailed);
      }
      loading := false;
    }
  }
}
