/** The composite key of an ingredient row: the recipe's id and the product's id. */
module RecipeIngredientKey {
  import opened Wrappers
  import opened JavaLang

  class RecipeIngredientKey {
    var recipeId: Option<int>
    var productId: Option<int>

    /** The no-argument constructor JPA uses: both ids null. */
    constructor Empty()
      ensures recipeId == None && productId == None
    {
      recipeId := None;
      productId := None;
    }

    /** Stores both ids as given. */
    constructor (recipeId: Option<int>, productId: Option<int>)
      ensures this.recipeId == recipeId && this.productId == productId
    {
      this.recipeId := recipeId;
      this.productId := productId;
    }

    /** The fields `equals` and `hashCode` look at. */
    function Ids(): (Option<int>, Option<int>)
      reads this
    {
      (recipeId, productId)
    }

    /**
     * `equals(o)`: the same object, or another key whose two ids are equal
     * in the `Objects.equals` sense (null equals null).
     */
    predicate Equals(o: object?)
      reads this, o
    {
      this == o || (o is RecipeIngredientKey && Ids() == (o as RecipeIngredientKey).Ids())
    }

    /** `hashCode()`: `Objects.hash(recipeId, productId)`. */
    function HashCode(): (h: int)
      reads this
      ensures -0x8000_0000 <= h < 0x8000_0000
    {
      CombineHashes([NullableLongHash(recipeId), NullableLongHash(productId)])
    }

    method SetRecipeId(id: Option<int>)
      modifies this
      ensures recipeId == id && productId == old(productId)
    {
      recipeId := id;
    }

    method SetProductId(id: Option<int>)
      modifies this
      ensures productId == id && recipeId == old(recipeId)
    {
      productId := id;
    }
  }

  /** Two keys are equal exactly when both id pairs agree, null matching null. */
  lemma EqualsIffSameIds(a: RecipeIngredientKey, b: RecipeIngredientKey)
    ensures a.Equals(b) <==> a.recipeId == b.recipeId && a.productId == b.productId
  {
  }

  /** `equals` is reflexive, symmetric and transitive. */
  lemma EqualsIsEquivalence(a: RecipeIngredientKey, b: RecipeIngredientKey, c: RecipeIngredientKey)
    ensures a.Equals(a)
    ensures a.Equals(b) ==> b.Equals(a)
    ensures a.Equals(b) && b.Equals(c) ==> a.Equals(c)
  {
  }

  /** Equal keys have equal hash codes. */
  lemma EqualKeysHashAlike(a: RecipeIngredientKey, b: RecipeIngredientKey)
    requires a.Equals(b)
    ensures a.HashCode() == b.HashCode()
  {
  }

  /** For ids below 2^31 the hash is `31 * (31 + recipeId) + productId` in `int` arithmetic. */
  lemma SmallIdsHash(k: RecipeIngredientKey)
    requires k.recipeId.Some? && 0 <= k.recipeId.value < 0x8000_0000
    requires k.productId.Some? && 0 <= k.productId.value < 0x8000_0000
    ensures k.HashCode() == ToInt32(31 * (31 + k.recipeId.value) + k.productId.value)
  {
    SmallLongHash(k.recipeId.value);
    SmallLongHash(k.productId.value);
    var hs := [LongHashCode(k.recipeId.value), LongHashCode(k.productId.value)];
    assert hs[..1] == [k.recipeId.value];
    assert [k.recipeId.value][..0] == [];
    assert CombineHashes(hs[..1]) == ToInt32(31 + k.recipeId.value);
    var x := 31 + k.recipeId.value;
    WrapInner(x, k.productId.value);
    assert CombineHashes(hs) == ToInt32(31 * x + k.productId.value);
  }
}
