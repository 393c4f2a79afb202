/**
 * The persistent entities: users, categories, products, recipes with their
 * ingredient rows, and blog posts.  Java's nullable fields are `Option`s,
 * nullable references are `?` types, `List` fields are sequences the
 * mappers replace, and timestamps are abstract integers.
 */
module Entities {
  import opened Wrappers
  import Role
  import ContentStatus
  import RecipeIngredientKey

  /** The user fields as one value, for stating what an update does to all of them. */
  datatype UserFields = UserFields(
    id: Option<int>, username: Option<string>, firstName: Option<string>, lastName: Option<string>,
    email: Option<string>, passwordHash: Option<string>, passwordSalt: Option<string>,
    role: Option<Role.Role>, photoUrl: Option<string>, createdAt: Option<int>)

  class User {
    var id: Option<int>
    var username: Option<string>
    var firstName: Option<string>
    var lastName: Option<string>
    var email: Option<string>
    var passwordHash: Option<string>
    var passwordSalt: Option<string>
    var role: Option<Role.Role>
    var photoUrl: Option<string>
    var createdAt: Option<int>

    /** A new, unsaved user: every field null. */
    constructor ()
      ensures Fields() == UserFields(None, None, None, None, None, None, None, None, None, None)
    {
      id, username, firstName, lastName, email := None, None, None, None, None;
      passwordHash, passwordSalt, role, photoUrl, createdAt := None, None, None, None, None;
    }

    function Fields(): UserFields
      reads this
    {
      UserFields(id, username, firstName, lastName, email, passwordHash, passwordSalt, role, photoUrl, createdAt)
    }
  }

  class Category {
    var id: Option<int>
    var name: Option<string>
    var description: Option<string>
    var photoUrl: Option<string>

    constructor ()
      ensures id == None && name == None && description == None && photoUrl == None
    {
      id, name, description, photoUrl := None, None, None, None;
    }
  }

  /**
   * A stored product.  Its id and name are fixed once it is saved: nothing in
   * the services changes a product afterwards, so both are constants here.
   */
  class Product {
    const id: Option<int>
    const name: Option<string>

    constructor (id: Option<int>, name: Option<string>)
      ensures this.id == id && this.name == name
    {
      this.id, this.name := id, name;
    }
  }

  /** One row of a recipe's ingredient list: which product, how much, in what unit. */
  class Ingredient {
    var id: RecipeIngredientKey.RecipeIngredientKey
    var quantity: Option<real>
    var unit: Option<string>
    var recipe: Recipe?
    var product: Product?

    /** A new row: an empty key of its own, unit "g", everything else null. */
    constructor ()
      ensures fresh(id) && id.recipeId == None && id.productId == None
      ensures quantity == None && unit == Some("g") && recipe == null && product == null
    {
      id := new RecipeIngredientKey.RecipeIngredientKey.Empty();
      quantity := None;
      unit := Some("g");
      recipe := null;
      product := null;
    }
  }

  /** Every field of a recipe, as one value. */
  datatype RecipeFields = RecipeFields(
    id: Option<int>, title: Option<string>, description: Option<string>, text: Option<string>,
    photoUrl: Option<string>, cookingTime: Option<int>, prepTime: Option<int>, cookTime: Option<int>,
    calories: Option<real>, totalFat: Option<real>, protein: Option<real>,
    carbohydrates: Option<real>, cholesterol: Option<real>,
    status: Option<ContentStatus.Status>, createdAt: Option<int>, updatedAt: Option<int>,
    user: User?, categories: seq<Category>, ingredients: seq<Ingredient>)

  /** What `new Recipe()` holds: everything null except the PENDING status and the two empty lists. */
  const NewRecipeFields := RecipeFields(
    None, None, None, None, None, None, None, None, None, None, None, None, None,
    Some(ContentStatus.PENDING), None, None, null, [], [])

  /** The status `onCreate` leaves: a null status becomes PENDING, any other is kept. */
  function PersistedStatus(status: Option<ContentStatus.Status>): (s: Option<ContentStatus.Status>)
    ensures s.Some? && (status.Some? ==> s == status)
  {
    if status.None? then Some(ContentStatus.PENDING) else status
  }

  class Recipe {
    var id: Option<int>
    var title: Option<string>
    var description: Option<string>
    var text: Option<string>
    var photoUrl: Option<string>
    var cookingTime: Option<int>
    var prepTime: Option<int>
    var cookTime: Option<int>
    var calories: Option<real>
    var totalFat: Option<real>
    var protein: Option<real>
    var carbohydrates: Option<real>
    var cholesterol: Option<real>
    var status: Option<ContentStatus.Status>
    var createdAt: Option<int>
    var updatedAt: Option<int>
    var user: User?
    var categories: seq<Category>
    var ingredients: seq<Ingredient>

    /** A new recipe: PENDING, with empty category and ingredient lists. */
    constructor ()
      ensures Fields() == NewRecipeFields
    {
      id, title, description, text, photoUrl := None, None, None, None, None;
      cookingTime, prepTime, cookTime := None, None, None;
      calories, totalFat, protein, carbohydrates, cholesterol := None, None, None, None, None;
      status := Some(ContentStatus.PENDING);
      createdAt, updatedAt := None, None;
      user := null;
      categories := [];
      ingredients := [];
    }

    function Fields(): RecipeFields
      reads this
    {
      RecipeFields(
        id, title, description, text, photoUrl, cookingTime, prepTime, cookTime,
        calories, totalFat, protein, carbohydrates, cholesterol,
        status, createdAt, updatedAt, user, categories, ingredients)
    }

    /**
     * The `@PrePersist` hook `onCreate`, run when the recipe is inserted:
     * both timestamps become the clock reading `now`, and a null status
     * becomes PENDING.
     */
    method OnCreate(now: int)
      modifies this
      ensures Fields() == old(Fields()).(status := PersistedStatus(old(status)), createdAt := Some(now), updatedAt := Some(now))
    {
      createdAt := Some(now);
      updatedAt := createdAt;
      if status.None? {
        status := Some(ContentStatus.PENDING);
      }
    }
  }

  class Blog {
    var id: Option<int>
    var title: Option<string>
    var description: Option<string>
    var text: Option<string>
    var photoUrl: Option<string>
    var cookingTime: Option<int>
    var status: Option<ContentStatus.Status>
    var createdAt: Option<int>
    var updatedAt: Option<int>
    var user: User?

    /** A new post: PENDING, everything else null. */
    constructor ()
      ensures id == None && title == None && description == None && text == None && photoUrl == None
      ensures cookingTime == None && status == Some(ContentStatus.PENDING)
      ensures createdAt == None && updatedAt == None && user == null
    {
      id, title, description, text, photoUrl := None, None, None, None, None;
      cookingTime := None;
      status := Some(ContentStatus.PENDING);
      createdAt, updatedAt := None, None;
      user := null;
    }

    /**
     * The `@PrePersist` hook `onCreate`, run when the post is inserted: both
     * timestamps become the clock reading `now`, and a null status becomes
     * PENDING.
     */
    method OnCreate(now: int)
      modifies this
      ensures createdAt == Some(now) && updatedAt == Some(now) && status == PersistedStatus(old(status))
      ensures id == old(id) && title == old(title) && description == old(description) && text == old(text)
      ensures photoUrl == old(photoUrl) && cookingTime == old(cookingTime) && user == old(user)
    {
      createdAt := Some(now);
      updatedAt := createdAt;
      if status.None? {
        status := Some(ContentStatus.PENDING);
      }
    }
  }
}
