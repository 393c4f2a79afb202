/**
 * Converting ingredient rows to and from their transfer form.  A row is
 * keyed by its recipe's id and its product's id.
 */
module IngredientMapper {
  import opened Wrappers
  import opened JavaLang
  import opened Entities
  import opened Dto
  import RecipeIngredientKey

  /** `toDto`: the ids come from the key and the name from the product, which must be loaded. */
  function ToDto(ingredient: Ingredient): (dto: IngredientDto)
    requires ingredient.product != null
    reads ingredient, ingredient.id
    ensures dto.recipeId == ingredient.id.recipeId && dto.productId == ingredient.id.productId
    ensures dto.productName == ingredient.product.name
    ensures dto.quantity == ingredient.quantity && dto.unit == ingredient.unit
  {
    IngredientDto(ingredient.id.recipeId, ingredient.id.productId, ingredient.product.name,
                  ingredient.quantity, ingredient.unit)
  }

  /**
   * `toEntity` (and `fromDto`, which is the same code): a new row keyed
   * (recipe id, product id), linked to both, with the transfer object's
   * quantity and unit; a null unit replaces the default "g".
   */
  method ToEntity(dto: IngredientDto, recipe: Recipe, product: Product) returns (ingredient: Ingredient)
    ensures fresh(ingredient) && fresh(ingredient.id)
    ensures ingredient.id.recipeId == recipe.id && ingredient.id.productId == product.id
    ensures ingredient.recipe == recipe && ingredient.product == product
    ensures ingredient.quantity == dto.quantity && ingredient.unit == dto.unit
  {
    ingredient := new Ingredient();
    var key := new RecipeIngredientKey.RecipeIngredientKey(recipe.id, product.id);
    ingredient.id := key;
    ingredient.recipe := recipe;
    ingredient.product := product;
    ingredient.quantity := dto.quantity;
    ingredient.unit := dto.unit;
  }

  /** The products of the given rows, or null for a row without one. */
  function ProductsOf(rows: seq<Ingredient>): (ps: seq<Product?>)
    reads set i | i in rows
    ensures |ps| == |rows| && forall k :: 0 <= k < |rows| ==> ps[k] == rows[k].product
  {
    if rows == [] then [] else [rows[0].product] + ProductsOf(rows[1..])
  }

  /**
   * The stream search in `fromDtoWithRecipe`: the first product whose id
   * equals `id`, or null.  `p.getId().equals(..)` dereferences every
   * product it passes, so a null product or a product without an id before
   * the match throws a NullPointerException.
   */
  function FirstWithId(ps: seq<Product?>, id: Option<int>): (r: Result<Product?, Exception>)
    ensures r.Ok? && r.value != null ==> r.value in ps && r.value.id.Some? && r.value.id == id
    ensures r.Ok? && r.value == null ==> forall p :: p in ps ==> p != null && p.id.Some? && p.id != id
    ensures r.Err? ==> r.error == NullDereference
  {
    if ps == [] then Ok(null)
    else if ps[0] == null || ps[0].id.None? then Err(NullDereference)
    else if ps[0].id == id then Ok(ps[0])
    else
      assert forall p :: p in ps ==> p == ps[0] || p in ps[1..];
      FirstWithId(ps[1..], id)
  }

  /** The product chosen is the first matching one: every product before it has another id. */
  lemma {:induction false} FirstWithIdIsFirst(ps: seq<Product?>, id: Option<int>)
    requires FirstWithId(ps, id).Ok? && FirstWithId(ps, id).value != null
    ensures exists k :: (0 <= k < |ps| && ps[k] == FirstWithId(ps, id).value
                         && forall j :: 0 <= j < k ==> ps[j] != null && ps[j].id.Some? && ps[j].id != id)
  {
    if ps[0] != FirstWithId(ps, id).value {
      FirstWithIdIsFirst(ps[1..], id);
      var k :| 0 <= k < |ps[1..]| && ps[1..][k] == FirstWithId(ps[1..], id).value
        && forall j :: 0 <= j < k ==> ps[1..][j] != null && ps[1..][j].id.Some? && ps[1..][j].id != id;
      assert ps[k + 1] == FirstWithId(ps, id).value;
    }
  }

  /**
   * `fromDtoWithRecipe`: a new row for `recipe` whose product is the first
   * product among the recipe's current rows with the transfer object's
   * product id (or null), keyed on the recipe's id and that product id.
   */
  method FromDtoWithRecipe(dto: IngredientDto, recipe: Recipe) returns (r: Result<Ingredient, Exception>)
    ensures var found := old(FirstWithId(ProductsOf(recipe.ingredients), dto.productId));
      && (found.Err? ==> r == Err(found.error))
      && (found.Ok? ==>
            (r.Ok? && fresh(r.value) && fresh(r.value.id)
             && r.value.product == found.value && r.value.recipe == recipe
             && r.value.id.recipeId == recipe.id && r.value.id.productId == dto.productId
             && r.value.quantity == dto.quantity && r.value.unit == dto.unit))
  {
    var found := FirstWithId(ProductsOf(recipe.ingredients), dto.productId);
    if found.Err? {
      return Err(found.error);
    }
    var ingredient := new Ingredient();
    ingredient.recipe := recipe;
    ingredient.product := found.value;
    ingredient.quantity := dto.quantity;
    ingredient.unit := dto.unit;
    var key := new RecipeIngredientKey.RecipeIngredientKey(recipe.id, dto.productId);
    ingredient.id := key;
    return Ok(ingredient);
  }

  /**
   * `updateEntity`: new quantity, unit and product, and the row's own key
   * object now names the new product; the recipe half of the key stays.
   */
  method UpdateEntity(ingredient: Ingredient, dto: IngredientDto, product: Product)
    modifies ingredient, ingredient.id
    ensures ingredient.id == old(ingredient.id)
    ensures ingredient.id.productId == product.id && ingredient.id.recipeId == old(ingredient.id.recipeId)
    ensures ingredient.quantity == dto.quantity && ingredient.unit == dto.unit && ingredient.product == product
    ensures ingredient.recipe == old(ingredient.recipe)
  {
    ingredient.quantity := dto.quantity;
    ingredient.unit := dto.unit;
    ingredient.product := product;
    ingredient.id.SetProductId(product.id);
  }
}
