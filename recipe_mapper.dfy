/**
 * Converting recipes to their transfer form and applying a transfer object
 * to a recipe: title and text are required, the status is parsed leniently
 * or kept, and the category and ingredient lists are replaced wholesale.
 */
module RecipeMapper {
  import opened Wrappers
  import opened JavaLang
  import opened ContentStatus
  import opened Entities
  import opened Dto
  import UserMapper
  import CategoryMapper
  import IngredientMapper

  const TitleRequired := "Recipe title is required"
  const TextRequired := "Recipe text is required"

  /** The status as `toDto` reports it: its name, with a null status reported as PENDING. */
  function StatusName(status: Option<Status>): (name: string)
    ensures name == Name(status.GetOr(PENDING))
  {
    if status.Some? then Name(status.value) else Name(PENDING)
  }

  /**
   * The status rule recipes and posts share: a non-empty status in the
   * transfer object is parsed with `ContentStatus.fromString`, otherwise a
   * null status becomes PENDING and a set one is kept.
   */
  function StatusAfterUpdate(dtoStatus: Option<string>, current: Option<Status>): (s: Option<Status>)
    ensures s.Some?
    ensures !NonEmpty(dtoStatus) && current.Some? ==> s == current
    ensures !NonEmpty(dtoStatus) && current.None? ==> s == Some(PENDING)
    ensures NonEmpty(dtoStatus) ==> s == Some(FromString(dtoStatus))
  {
    if NonEmpty(dtoStatus) then Some(FromString(dtoStatus))
    else if current.None? then Some(PENDING)
    else current
  }

  /**
   * Sending back the status `toDto` reported restores it: the entity ends
   * with the status it had, a null one having been reported and stored as
   * PENDING.
   */
  lemma StatusRoundTrip(status: Option<Status>, current: Option<Status>)
    ensures StatusAfterUpdate(Some(StatusName(status)), current) == Some(status.GetOr(PENDING))
  {
    FromStringName(status.GetOr(PENDING));
  }

  /** `toDto`: every scalar copied, the status named, the author mapped if present, and both lists mapped element by element in order. */
  method ToDto(recipe: Recipe) returns (dto: RecipeDto)
    requires forall i :: i in recipe.ingredients ==> i.product != null
    ensures dto.id == recipe.id && dto.title == recipe.title && dto.description == recipe.description
    ensures dto.text == recipe.text && dto.photoUrl == recipe.photoUrl
    ensures dto.cookingTime == recipe.cookingTime && dto.prepTime == recipe.prepTime && dto.cookTime == recipe.cookTime
    ensures dto.calories == recipe.calories && dto.totalFat == recipe.totalFat && dto.protein == recipe.protein
    ensures dto.carbohydrates == recipe.carbohydrates && dto.cholesterol == recipe.cholesterol
    ensures dto.status == Some(StatusName(recipe.status))
    ensures dto.createdAt == recipe.createdAt && dto.updatedAt == recipe.updatedAt
    ensures dto.userDto.None? <==> recipe.user == null
    ensures dto.userDto == UserMapper.ToDto(recipe.user)
    ensures dto.categoriesDto.Some? && |dto.categoriesDto.value| == |recipe.categories|
    ensures forall k :: 0 <= k < |recipe.categories| ==>
      dto.categoriesDto.value[k] == CategoryMapper.ToDto(recipe.categories[k])
    ensures dto.ingredientsDto.Some? && |dto.ingredientsDto.value| == |recipe.ingredients|
    ensures forall k :: 0 <= k < |recipe.ingredients| ==>
      dto.ingredientsDto.value[k] == IngredientMapper.ToDto(recipe.ingredients[k])
  {
    var userDto := if recipe.user != null then UserMapper.ToDto(recipe.user) else None;
    var categoriesDto: seq<CategoryDto> := [];
    for k := 0 to |recipe.categories|
      invariant |categoriesDto| == k
      invariant forall j :: 0 <= j < k ==> categoriesDto[j] == CategoryMapper.ToDto(recipe.categories[j])
    {
      categoriesDto := categoriesDto + [CategoryMapper.ToDto(recipe.categories[k])];
    }
    var ingredientsDto: seq<IngredientDto> := [];
    for k := 0 to |recipe.ingredients|
      invariant |ingredientsDto| == k
      invariant forall j :: 0 <= j < k ==> ingredientsDto[j] == IngredientMapper.ToDto(recipe.ingredients[j])
    {
      ingredientsDto := ingredientsDto + [IngredientMapper.ToDto(recipe.ingredients[k])];
    }
    dto := RecipeDto(
      recipe.id, recipe.title, recipe.description, recipe.text, recipe.photoUrl,
      recipe.cookingTime, recipe.prepTime, recipe.cookTime,
      recipe.calories, recipe.totalFat, recipe.protein, recipe.carbohydrates, recipe.cholesterol,
      Some(StatusName(recipe.status)), recipe.createdAt, recipe.updatedAt,
      userDto, Some(categoriesDto), Some(ingredientsDto));
  }

  /** The validation `updateEntity` does before touching the recipe. */
  function CheckTitleAndText(dto: RecipeDto): (thrown: Option<Exception>)
    ensures thrown.None? <==> !NullOrBlank(dto.title) && !NullOrBlank(dto.text)
    ensures NullOrBlank(dto.title) ==> thrown == Some(Runtime(TitleRequired))
    ensures !NullOrBlank(dto.title) && NullOrBlank(dto.text) ==> thrown == Some(Runtime(TextRequired))
  {
    if NullOrBlank(dto.title) then Some(Runtime(TitleRequired))
    else if NullOrBlank(dto.text) then Some(Runtime(TextRequired))
    else None
  }

  /** The fields `updateEntity` leaves once its checks pass. */
  function Applied(f: RecipeFields, dto: RecipeDto, user: User?, categories: seq<Category>, ingredients: seq<Ingredient>): RecipeFields {
    f.(title := dto.title, description := dto.description, text := dto.text, photoUrl := dto.photoUrl,
       cookingTime := dto.cookingTime, prepTime := dto.prepTime, cookTime := dto.cookTime,
       calories := dto.calories, totalFat := dto.totalFat, protein := dto.protein,
       carbohydrates := dto.carbohydrates, cholesterol := dto.cholesterol,
       status := StatusAfterUpdate(dto.status, f.status), updatedAt := dto.updatedAt,
       user := user, categories := categories, ingredients := ingredients)
  }

  /** The descriptive fields `updateEntity` copies. */
  method CopyText(recipe: Recipe, dto: RecipeDto)
    modifies recipe
    ensures recipe.Fields() == old(recipe.Fields()).(
      title := dto.title, description := dto.description, text := dto.text, photoUrl := dto.photoUrl,
      cookingTime := dto.cookingTime, prepTime := dto.prepTime, cookTime := dto.cookTime)
  {
    recipe.title, recipe.description, recipe.text, recipe.photoUrl := dto.title, dto.description, dto.text, dto.photoUrl;
    recipe.cookingTime, recipe.prepTime, recipe.cookTime := dto.cookingTime, dto.prepTime, dto.cookTime;
  }

  /** The nutrition facts `updateEntity` copies. */
  method CopyNutrition(recipe: Recipe, dto: RecipeDto)
    modifies recipe
    ensures recipe.Fields() == old(recipe.Fields()).(
      calories := dto.calories, totalFat := dto.totalFat, protein := dto.protein,
      carbohydrates := dto.carbohydrates, cholesterol := dto.cholesterol)
  {
    recipe.calories, recipe.totalFat, recipe.protein := dto.calories, dto.totalFat, dto.protein;
    recipe.carbohydrates, recipe.cholesterol := dto.carbohydrates, dto.cholesterol;
  }

  /** The status rule, applied to the recipe. */
  method SetStatus(recipe: Recipe, dtoStatus: Option<string>)
    modifies recipe
    ensures recipe.Fields() == old(recipe.Fields()).(status := StatusAfterUpdate(dtoStatus, old(recipe.status)))
  {
    recipe.status := StatusAfterUpdate(dtoStatus, recipe.status);
  }

  /** The timestamp, author and lists `updateEntity` sets. */
  method SetLinks(recipe: Recipe, updatedAt: Option<int>, user: User?, categories: seq<Category>, ingredients: seq<Ingredient>)
    modifies recipe
    ensures recipe.Fields() == old(recipe.Fields()).(
      updatedAt := updatedAt, user := user, categories := categories, ingredients := ingredients)
  {
    recipe.updatedAt, recipe.user := updatedAt, user;
    // The entity's lists are cleared and refilled in place.
    recipe.categories, recipe.ingredients := categories, ingredients;
  }

  /**
   * `updateEntity(recipe, dto, user, categories, ingredients)`: throws
   * before any change on a null or blank title or text; otherwise copies
   * the scalars, applies the status rule, sets the author and replaces
   * both lists, leaving the id and creation time alone.
   */
  method UpdateEntity(recipe: Recipe, dto: RecipeDto, user: User?, categories: seq<Category>, ingredients: seq<Ingredient>)
    returns (thrown: Option<Exception>)
    modifies recipe
    ensures thrown == CheckTitleAndText(dto)
    ensures thrown.Some? ==> unchanged(recipe)
    ensures thrown.None? ==> recipe.Fields() == Applied(old(recipe.Fields()), dto, user, categories, ingredients)
  {
    thrown := CheckTitleAndText(dto);
    if thrown.None? {
      CopyText(recipe, dto);
      CopyNutrition(recipe, dto);
      SetStatus(recipe, dto.status);
      SetLinks(recipe, dto.updatedAt, user, categories, ingredients);
    }
  }

  /** A recipe accepted by `updateEntity` has a title and a text that are not blank, and a status. */
  lemma AcceptedUpdateIsComplete(f: RecipeFields, dto: RecipeDto, user: User?, categories: seq<Category>, ingredients: seq<Ingredient>)
    requires CheckTitleAndText(dto).None?
    ensures var g := Applied(f, dto, user, categories, ingredients);
      && !NullOrBlank(g.title) && !NullOrBlank(g.text) && g.status.Some?
      && g.id == f.id && g.createdAt == f.createdAt
  {
  }

  /** The transfer object `toDto` makes of these fields, whatever lists it carries. */
  predicate DescribesFields(dto: RecipeDto, f: RecipeFields) {
    && dto.title == f.title && dto.description == f.description && dto.text == f.text
    && dto.photoUrl == f.photoUrl && dto.cookingTime == f.cookingTime
    && dto.prepTime == f.prepTime && dto.cookTime == f.cookTime
    && dto.calories == f.calories && dto.totalFat == f.totalFat && dto.protein == f.protein
    && dto.carbohydrates == f.carbohydrates && dto.cholesterol == f.cholesterol
    && dto.status == Some(StatusName(f.status)) && dto.updatedAt == f.updatedAt
  }

  /**
   * Sending a recipe's own transfer object back, with its own author and
   * lists, changes nothing but a null status, which becomes PENDING.
   */
  lemma {:induction false} OwnDtoRoundTrip(f: RecipeFields, dto: RecipeDto)
    requires DescribesFields(dto, f)
    ensures Applied(f, dto, f.user, f.categories, f.ingredients) == f.(status := Some(f.status.GetOr(PENDING)))
  {
    StatusRoundTrip(f.status, f.status);
  }
}
