/**
 * The recipe service over in-memory repositories: listing without the
 * duplicates a fetch join produces, creating a recipe (author checks,
 * categories, then ingredients with products found or created by name),
 * and updating one.
 */
module RecipeService {
  import opened Wrappers
  import opened Text
  import opened JavaLang
  import opened Entities
  import opened Dto
  import opened UserRepository
  import ContentStatus
  import Role
  import RecipeMapper
  import RecipeIngredientKey
  import Distinct

  const UserIdRequired := "User ID is required"
  const UserNotFoundWithId := "User not found with ID: "
  const RoleNotAllowed := "Only users with AUTHOR, ADMIN, or MODERATOR role can create recipes"
  const CategoryIdRequired := "Category ID is required"
  const CategoryNotFound := "Category not found: "
  const RecipeNotFound := "Recipe not found"
  const UserNotFound := "User not found"
  const RecipeNotSaved := "Recipe must be saved before creating ingredients"
  const ProductNameRequired := "Ingredient product name is required"
  const ProductIdNull := "Product ID is null after save for: "

  /** A new ingredient row's unit. */
  const DefaultUnit := "g"

  // ----- the repositories' queries -----

  /** `categoryRepo.findById(id)`. */
  function FindCategory(categories: seq<Category>, id: int): (c: Category?)
    reads categories
    ensures c != null ==> c in categories && c.id == Some(id)
    ensures c == null ==> forall d :: d in categories ==> d.id != Some(id)
  {
    if categories == [] then null
    else if categories[0].id == Some(id) then categories[0]
    else FindCategory(categories[1..], id)
  }

  /** `recipeRepo.findById(id)`. */
  function FindRecipe(recipes: seq<Recipe>, id: int): (r: Recipe?)
    reads recipes
    ensures r != null ==> r in recipes && r.id == Some(id)
    ensures r == null ==> forall q :: q in recipes ==> q.id != Some(id)
  {
    if recipes == [] then null
    else if recipes[0].id == Some(id) then recipes[0]
    else FindRecipe(recipes[1..], id)
  }

  predicate NameMatches(p: Product, name: string)
  {
    p.name.Some? && EqualsIgnoreCase(p.name.value, name)
  }

  /** `productRepo.findByNameIgnoreCase(name)`, taken as the first stored product with that name in any letter case. */
  function FindProductByName(products: seq<Product>, name: string): (p: Product?)
    ensures p != null ==> p in products && NameMatches(p, name)
    ensures p == null ==> forall q :: q in products ==> !NameMatches(q, name)
  {
    if products == [] then null
    else if NameMatches(products[0], name) then products[0]
    else FindProductByName(products[1..], name)
  }

  /** The product found is the first stored one with the name: no earlier product has it. */
  lemma {:induction false} FindProductByNameIsFirst(products: seq<Product>, name: string)
    requires FindProductByName(products, name) != null
    ensures exists i ::
      0 <= i < |products| && products[i] == FindProductByName(products, name) && (forall j :: 0 <= j < i ==> !NameMatches(products[j], name))
  {
    if NameMatches(products[0], name) {
      assert products[0] == FindProductByName(products, name);
    } else {
      FindProductByNameIsFirst(products[1..], name);
      var i :| 0 <= i < |products[1..]| && products[1..][i] == FindProductByName(products[1..], name) &&
        (forall j :: 0 <= j < i ==> !NameMatches(products[1..][j], name));
      assert products[i + 1] == FindProductByName(products, name);
      assert forall j :: 0 <= j < i + 1 ==> !NameMatches(products[j], name);
    }
  }

  /** Storing more products does not change what a name already found. */
  lemma {:induction false} FindProductByNameExtended(products: seq<Product>, more: seq<Product>, name: string)
    requires FindProductByName(products, name) != null
    ensures FindProductByName(products + more, name) == FindProductByName(products, name)
  {
    if !NameMatches(products[0], name) {
      assert (products + more)[1..] == products[1..] + more;
      FindProductByNameExtended(products[1..], more, name);
    }
  }

  /**
   * No two stored products have names equal ignoring case.  The unique
   * constraint on the name column is case-sensitive, so only this makes
   * `findByNameIgnoreCase`, a single-result query, find at most one row.
   */
  predicate NamesUniqueIgnoringCase(products: seq<Product>) {
    forall i, j {:trigger NamesDiffer(products[i], products[j])} :: 0 <= i < j < |products| ==> NamesDiffer(products[i], products[j])
  }

  /** Two products whose names, where both have one, differ in more than letter case. */
  predicate NamesDiffer(p: Product, q: Product) {
    p.name.Some? && q.name.Some? ==> !EqualsIgnoreCase(p.name.value, q.name.value)
  }

  /**
   * With names unique ignoring case, the product found is the only one
   * stored with that name, so the first match is what the single-result
   * query returns.
   */
  lemma {:induction false} FindProductByNameOnlyMatch(products: seq<Product>, name: string, i: nat)
    requires NamesUniqueIgnoringCase(products)
    requires i < |products| && NameMatches(products[i], name)
    ensures FindProductByName(products, name) == products[i]
  {
    if i > 0 {
      assert NamesDiffer(products[0], products[i]);
      assert products[1..][i - 1] == products[i];
      FindProductByNameOnlyMatch(products[1..], name, i - 1);
    }
  }

  /** A name found nowhere before is found in the product stored after them. */
  lemma {:induction false} FindProductByNameAppended(products: seq<Product>, p: Product, name: string)
    requires FindProductByName(products, name) == null && NameMatches(p, name)
    ensures FindProductByName(products + [p], name) == p
  {
    if products != [] {
      assert (products + [p])[1..] == products[1..] + [p];
      FindProductByNameAppended(products[1..], p, name);
    }
  }

  /**
   * Looking up the categories of a transfer object, in order; the first
   * entry without an id throws `nullId`, the first unknown id throws
   * "Category not found: <id>".
   */
  function ResolveCategories(dtos: seq<CategoryDto>, categories: seq<Category>, nullId: Exception): (r: Result<seq<Category>, Exception>)
    reads categories
    ensures r.Ok? ==> |r.value| == |dtos|
    ensures r.Ok? ==> forall k :: 0 <= k < |dtos| ==>
      dtos[k].id.Some? && r.value[k] == FindCategory(categories, dtos[k].id.value)
    ensures r.Err? ==> exists k :: 0 <= k < |dtos| && CategoryFailure(dtos[k], categories, nullId) == Some(r.error)
  {
    if dtos == [] then Ok([])
    else
      var failure := CategoryFailure(dtos[0], categories, nullId);
      if failure.Some? then Err(failure.value)
      else
        var rest := ResolveCategories(dtos[1..], categories, nullId);
        if rest.Err? then
          assert exists k :: 0 <= k < |dtos| - 1 && CategoryFailure(dtos[1..][k], categories, nullId) == Some(rest.error);
          Err(rest.error)
        else
          var found := FindCategory(categories, dtos[0].id.value);
          Ok([found] + rest.value)
  }

  /** Why one category entry cannot be resolved, if it cannot. */
  function CategoryFailure(dto: CategoryDto, categories: seq<Category>, nullId: Exception): (e: Option<Exception>)
    reads categories
    ensures e.None? <==> dto.id.Some? && FindCategory(categories, dto.id.value) != null
  {
    if dto.id.None? then Some(nullId)
    else if FindCategory(categories, dto.id.value) == null then Some(Runtime(CategoryNotFound + LongToString(dto.id.value)))
    else None
  }

  /** Every entry resolves exactly when none fails, and then each resolves to the stored category with its id. */
  lemma {:induction false} CategoriesResolveIffNoneFails(dtos: seq<CategoryDto>, categories: seq<Category>, nullId: Exception)
    ensures ResolveCategories(dtos, categories, nullId).Ok? <==>
      forall k :: 0 <= k < |dtos| ==> CategoryFailure(dtos[k], categories, nullId).None?
  {
    if dtos != [] {
      CategoriesResolveIffNoneFails(dtos[1..], categories, nullId);
      assert forall k :: 1 <= k < |dtos| ==> dtos[k] == dtos[1..][k - 1];
    }
  }

  /** The first entry that fails decides the error. */
  lemma {:induction false} FirstCategoryFailureWins(dtos: seq<CategoryDto>, categories: seq<Category>, nullId: Exception, k: nat)
    requires k < |dtos| && CategoryFailure(dtos[k], categories, nullId).Some?
    requires forall j :: 0 <= j < k ==> CategoryFailure(dtos[j], categories, nullId).None?
    ensures ResolveCategories(dtos, categories, nullId) == Err(CategoryFailure(dtos[k], categories, nullId).value)
  {
    if k > 0 {
      assert forall j :: 0 <= j < k - 1 ==> dtos[1..][j] == dtos[j + 1];
      FirstCategoryFailureWins(dtos[1..], categories, nullId, k - 1);
    }
  }

  /** The rows `LEFT JOIN FETCH r.categories` returns: each recipe once per category, or once without any. */
  function JoinRows(recipes: seq<Recipe>): (rows: seq<Recipe>)
    reads recipes
    ensures forall r :: r in rows ==> r in recipes
    ensures forall r :: r in recipes ==> r in rows
  {
    if recipes == [] then []
    else
      var last := recipes[|recipes| - 1];
      var copies := if |last.categories| == 0 then 1 else |last.categories|;
      assert forall r :: r in recipes ==> r in recipes[..|recipes| - 1] || r == last;
      JoinRows(recipes[..|recipes| - 1]) + Distinct.Repeat(last, copies)
  }

  /** The stored recipes in status `s`, the `WHERE r.status = :status` of the query. */
  function WithStatus(recipes: seq<Recipe>, s: ContentStatus.Status): (r: seq<Recipe>)
    reads recipes
    ensures forall x :: x in r ==> x in recipes && x.status == Some(s)
    ensures forall x :: x in recipes && x.status == Some(s) ==> x in r
  {
    if recipes == [] then []
    else if recipes[0].status == Some(s) then [recipes[0]] + WithStatus(recipes[1..], s)
    else WithStatus(recipes[1..], s)
  }

  /** Removing the join's duplicates gives back every stored recipe exactly once, in store order. */
  lemma {:induction false} DistinctUndoesJoin(recipes: seq<Recipe>)
    requires Distinct.NoDuplicates(recipes)
    ensures Distinct.Distinct(JoinRows(recipes)) == recipes
  {
    if recipes != [] {
      var init, last := recipes[..|recipes| - 1], recipes[|recipes| - 1];
      var copies := if |last.categories| == 0 then 1 else |last.categories|;
      assert Distinct.NoDuplicates(init) by {
        forall i, j | 0 <= i < j < |init|
          ensures init[i] != init[j]
        {
          assert recipes[i] != recipes[j];
        }
      }
      assert last !in init by {
        forall k | 0 <= k < |init|
          ensures init[k] != last
        {
          assert recipes[k] != recipes[|recipes| - 1];
        }
      }
      var rows := JoinRows(init);
      assert JoinRows(recipes) == rows + Distinct.Repeat(last, copies);
      DistinctUndoesJoin(init);
      Distinct.DistinctAppendRepeat(rows, last, copies);
      Distinct.DistinctAppend(rows, last);
      assert Distinct.Distinct(rows + [last]) == init + [last];
      assert recipes == init + [last];
    }
  }

  /** Keeping one status keeps a list free of repeats. */
  lemma {:induction false} WithStatusHasNoDuplicates(recipes: seq<Recipe>, s: ContentStatus.Status)
    requires Distinct.NoDuplicates(recipes)
    ensures Distinct.NoDuplicates(WithStatus(recipes, s))
  {
    if recipes != [] {
      assert Distinct.NoDuplicates(recipes[1..]) by {
        forall i, j | 0 <= i < j < |recipes| - 1
          ensures recipes[1..][i] != recipes[1..][j]
        {
          assert recipes[i + 1] != recipes[j + 1];
        }
      }
      WithStatusHasNoDuplicates(recipes[1..], s);
    }
  }

  // ----- building a recipe's ingredient rows -----

  /** The trimmed product name a row is looked up by. */
  function LookupName(row: IngredientDto): string
    requires row.productName.Some?
  {
    JavaTrim(row.productName.value)
  }

  /**
   * Why row `row` fails, given the products stored before the rows are
   * processed: a null or blank product name, or a stored product of that
   * name without an id.  Products the loop creates always have ids.
   */
  function RowError(products: seq<Product>, row: IngredientDto): Option<Exception>
  {
    if NullOrBlank(row.productName) then Some(Runtime(ProductNameRequired))
    else
      var p := FindProductByName(products, LookupName(row));
      if p != null && p.id.None? then Some(Runtime(ProductIdNull + row.productName.value))
      else None
  }

  /** The error of the first failing row, if any. */
  function FirstRowError(products: seq<Product>, rows: seq<IngredientDto>): Option<Exception>
  {
    if rows == [] then None
    else
      var e := FirstRowError(products, rows[..|rows| - 1]);
      if e.Some? then e else RowError(products, rows[|rows| - 1])
  }

  /** No error is reported exactly when every row passes. */
  lemma {:induction false} FirstRowErrorNoneIff(products: seq<Product>, rows: seq<IngredientDto>)
    ensures FirstRowError(products, rows).None? <==> forall k :: 0 <= k < |rows| ==> RowError(products, rows[k]).None?
  {
    if rows != [] {
      FirstRowErrorNoneIff(products, rows[..|rows| - 1]);
      assert forall k :: 0 <= k < |rows| - 1 ==> rows[..|rows| - 1][k] == rows[k];
    }
  }

  /** The first row that fails decides the error. */
  lemma {:induction false} FirstFailingRow(products: seq<Product>, rows: seq<IngredientDto>, k: nat)
    requires k < |rows| && RowError(products, rows[k]).Some?
    requires forall j :: 0 <= j < k ==> RowError(products, rows[j]).None?
    ensures FirstRowError(products, rows) == RowError(products, rows[k])
  {
    FirstRowErrorNoneIff(products, rows[..k]);
    assert forall j :: 0 <= j < k ==> rows[..k][j] == rows[j];
    assert rows[..k + 1][..k] == rows[..k];
    FirstRowErrorOfPrefix(products, rows, k + 1);
  }

  /** One more row: the prefix's error, or else the new row's. */
  lemma FirstRowErrorStep(products: seq<Product>, rows: seq<IngredientDto>, k: nat)
    requires k < |rows|
    ensures FirstRowError(products, rows[..k + 1]) ==
      if FirstRowError(products, rows[..k]).Some? then FirstRowError(products, rows[..k]) else RowError(products, rows[k])
  {
    assert rows[..k + 1][..k] == rows[..k];
  }

  /** Once a prefix has failed, the rows after it do not change the error. */
  lemma {:induction false} FirstRowErrorOfPrefix(products: seq<Product>, rows: seq<IngredientDto>, i: nat)
    requires i <= |rows| && FirstRowError(products, rows[..i]).Some?
    ensures FirstRowError(products, rows) == FirstRowError(products, rows[..i])
  {
    if i < |rows| {
      assert rows[..|rows| - 1][..i] == rows[..i];
      FirstRowErrorOfPrefix(products, rows[..|rows| - 1], i);
    } else {
      assert rows[..i] == rows;
    }
  }

  /** Storing a product with an id does not make any row fail. */
  lemma RowErrorAfterStore(products: seq<Product>, p: Product, row: IngredientDto)
    requires p.id.Some? && RowError(products, row).None?
    ensures RowError(products + [p], row).None?
  {
    if !NullOrBlank(row.productName) {
      var name := LookupName(row);
      if FindProductByName(products, name) != null {
        FindProductByNameExtended(products, [p], name);
      } else if NameMatches(p, name) {
        FindProductByNameAppended(products, p, name);
      } else {
        assert forall q :: q in products + [p] ==> q in products || q == p;
      }
    }
  }

  // ----- the products the rows create -----

  /** The trimmed product names of the rows that name one, in row order. */
  function NamesOf(rows: seq<IngredientDto>): (names: seq<string>)
    ensures |names| <= |rows|
  {
    if rows == [] then []
    else
      var last := rows[|rows| - 1];
      NamesOf(rows[..|rows| - 1]) + (if NullOrBlank(last.productName) then [] else [LookupName(last)])
  }

  /** The rows the loop gets to: up to and including the first failing one, or all of them. */
  function RowsTried(products: seq<Product>, rows: seq<IngredientDto>): (tried: seq<IngredientDto>)
    ensures tried <= rows
  {
    if rows == [] then []
    else if FirstRowError(products, rows[..|rows| - 1]).Some? then RowsTried(products, rows[..|rows| - 1])
    else rows
  }

  /** With no failing row, every row is tried. */
  lemma RowsTriedAll(products: seq<Product>, rows: seq<IngredientDto>)
    requires FirstRowError(products, rows).None?
    ensures RowsTried(products, rows) == rows
  {
  }

  /** When row `k` is the first to fail, the rows tried end with it. */
  lemma {:induction false} RowsTriedUpToFailure(products: seq<Product>, rows: seq<IngredientDto>, k: nat)
    requires k < |rows| && FirstRowError(products, rows[..k]).None? && RowError(products, rows[k]).Some?
    ensures RowsTried(products, rows) == rows[..k + 1]
  {
    var init := rows[..|rows| - 1];
    if k + 1 == |rows| {
      assert init == rows[..k];
      assert rows[..k + 1] == rows;
    } else {
      assert init[..k] == rows[..k] && init[k] == rows[k] && init[..k + 1] == rows[..k + 1];
      FirstRowErrorStep(products, init, k);
      FirstRowErrorOfPrefix(products, init, k + 1);
      RowsTriedUpToFailure(products, init, k);
    }
  }

  /** Row `row` names a product that is not stored yet, so the loop creates it. */
  predicate RowCreates(products: seq<Product>, row: IngredientDto) {
    !NullOrBlank(row.productName) && FindProductByName(products, LookupName(row)) == null
  }

  /** The names of one more row. */
  lemma NamesOfStep(rows: seq<IngredientDto>, k: nat)
    requires k < |rows|
    ensures NamesOf(rows[..k + 1]) == NamesOf(rows[..k]) + NamesOf([rows[k]])
  {
    assert rows[..k + 1][..k] == rows[..k];
    assert [rows[k]][..0] == [];
  }

  /** `names` holds `n` in some letter case. */
  predicate HasIgnoringCase(names: seq<string>, n: string) {
    names != [] && (HasIgnoringCase(names[..|names| - 1], n) || EqualsIgnoreCase(names[|names| - 1], n))
  }

  /** `HasIgnoringCase` holds exactly when some position of `names` holds `n` in some letter case. */
  lemma {:induction false} HasIgnoringCaseAt(names: seq<string>, n: string)
    ensures HasIgnoringCase(names, n) <==> exists i :: 0 <= i < |names| && EqualsIgnoreCase(names[i], n)
  {
    if names != [] {
      var init := names[..|names| - 1];
      HasIgnoringCaseAt(init, n);
      if exists i :: 0 <= i < |names| && EqualsIgnoreCase(names[i], n) {
        var i :| 0 <= i < |names| && EqualsIgnoreCase(names[i], n);
        if i < |init| {
          assert init[i] == names[i];
        }
      }
      if HasIgnoringCase(init, n) {
        var i :| 0 <= i < |init| && EqualsIgnoreCase(init[i], n);
        assert names[i] == init[i];
      }
    }
  }

  /**
   * The names of the products the loop stores for rows named `names`, given
   * the products stored before it: in order, each name that neither a
   * stored product nor an earlier new name has in any letter case.
   */
  function NewNames(products: seq<Product>, names: seq<string>): seq<string>
  {
    if names == [] then []
    else
      var earlier := NewNames(products, names[..|names| - 1]);
      var n := names[|names| - 1];
      if FindProductByName(products, n) == null && !HasIgnoringCase(earlier, n) then earlier + [n] else earlier
  }

  /** The products of `products` from position `from` on are named `names`, in order, under consecutive ids from `nextId`. */
  predicate StoredUnder(products: seq<Product>, from: nat, names: seq<string>, nextId: int) {
    && |products| == from + |names|
    && forall i :: from <= i < |products| ==>
         products[i].name == Some(names[i - from]) && products[i].id == Some(nextId + (i - from))
  }

  /** New names come from `names`, none is stored before, and no two are equal ignoring case. */
  lemma {:induction false} NewNamesAreNew(products: seq<Product>, names: seq<string>)
    ensures forall i :: 0 <= i < |NewNames(products, names)| ==>
      NewNames(products, names)[i] in names && FindProductByName(products, NewNames(products, names)[i]) == null
    ensures forall i, j :: 0 <= i < j < |NewNames(products, names)| ==>
      !EqualsIgnoreCase(NewNames(products, names)[i], NewNames(products, names)[j])
  {
    if names != [] {
      var init := names[..|names| - 1];
      NewNamesAreNew(products, init);
      HasIgnoringCaseAt(NewNames(products, init), names[|names| - 1]);
      assert forall m :: m in init ==> m in names;
    }
  }

  /** Every name is either stored before or among the new names, in some letter case. */
  lemma {:induction false} NewNamesCover(products: seq<Product>, names: seq<string>)
    ensures forall n :: n in names ==> FindProductByName(products, n) != null || HasIgnoringCase(NewNames(products, names), n)
  {
    if names != [] {
      var init := names[..|names| - 1];
      NewNamesCover(products, init);
      var earlier := NewNames(products, init);
      var all := NewNames(products, names);
      forall n | n in names
        ensures FindProductByName(products, n) != null || HasIgnoringCase(NewNames(products, names), n)
      {
        HasIgnoringCaseAt(earlier, n);
        HasIgnoringCaseAt(all, n);
        if n in init && HasIgnoringCase(earlier, n) {
          var i :| 0 <= i < |earlier| && EqualsIgnoreCase(earlier[i], n);
          assert all[i] == earlier[i];
        } else if n !in init {
          assert n == names[|names| - 1];
          if FindProductByName(products, n) == null && !HasIgnoringCase(earlier, n) {
            assert all[|earlier|] == n;
          } else if HasIgnoringCase(earlier, n) {
            var i :| 0 <= i < |earlier| && EqualsIgnoreCase(earlier[i], n);
            assert all[i] == earlier[i];
          }
        }
      }
    }
  }

  /** One more name: it is new exactly when neither the stored products nor the earlier new names have it. */
  lemma NewNamesStep(products: seq<Product>, names: seq<string>, n: string)
    ensures NewNames(products, names + [n]) ==
      if FindProductByName(products, n) == null && !HasIgnoringCase(NewNames(products, names), n)
      then NewNames(products, names) + [n] else NewNames(products, names)
  {
    assert (names + [n])[..|names|] == names;
  }

  /** Looking a name up after products named `names` were added: found exactly when found before or among `names`. */
  lemma FindAfterStored(before: seq<Product>, after: seq<Product>, names: seq<string>, nextId: int, n: string)
    requires before <= after && StoredUnder(after, |before|, names, nextId)
    ensures FindProductByName(after, n) == null <==> FindProductByName(before, n) == null && !HasIgnoringCase(names, n)
  {
    HasIgnoringCaseAt(names, n);
    var found := FindProductByName(after, n);
    if found != null {
      var k :| 0 <= k < |after| && after[k] == found;
      if k >= |before| {
        assert EqualsIgnoreCase(names[k - |before|], n);
      } else {
        assert after[k] == before[k];
      }
    }
    if HasIgnoringCase(names, n) {
      var i :| 0 <= i < |names| && EqualsIgnoreCase(names[i], n);
      assert after[|before| + i] in after;
    }
    if FindProductByName(before, n) != null {
      var k :| 0 <= k < |before| && before[k] == FindProductByName(before, n);
      assert after[k] in after;
    }
  }

  /** Storing products under the new names keeps the stored names unique ignoring case. */
  lemma StoredUnderKeepsUnique(before: seq<Product>, after: seq<Product>, names: seq<string>, nextId: int)
    requires NamesUniqueIgnoringCase(before) && before <= after && StoredUnder(after, |before|, NewNames(before, names), nextId)
    ensures NamesUniqueIgnoringCase(after)
  {
    NewNamesAreNew(before, names);
    var added := NewNames(before, names);
    forall i, j | 0 <= i < j < |after| && after[i].name.Some? && after[j].name.Some?
      ensures NamesDiffer(after[i], after[j])
    {
      if j < |before| {
        assert after[i] == before[i] && after[j] == before[j];
        assert NamesDiffer(before[i], before[j]);
      } else if i < |before| {
        assert after[j].name.value == added[j - |before|];
        assert FindProductByName(before, added[j - |before|]) == null;
        assert before[i] in before && after[i] == before[i];
      } else {
        assert after[i].name.value == added[i - |before|] && after[j].name.value == added[j - |before|];
      }
    }
  }

  /** A lookup of `n` that finds a stored product, or else stores `created` under `nextId`, stores the new names of `[n]`. */
  lemma StoredUnderLookup(stored: seq<Product>, after: seq<Product>, n: string, created: Product, nextId: int)
    requires FindProductByName(stored, n) != null ==> after == stored
    requires FindProductByName(stored, n) == null ==>
      after == stored + [created] && created.id == Some(nextId) && created.name == Some(n)
    ensures stored <= after && StoredUnder(after, |stored|, NewNames(stored, [n]), nextId)
  {
    assert [n][..0] == [];
  }

  /** One more name adds, after the earlier new names, the new names it has against the products stored so far. */
  lemma NewNamesOneMore(before: seq<Product>, stored: seq<Product>, names: seq<string>, n: string, nextId: int)
    requires before <= stored && StoredUnder(stored, |before|, NewNames(before, names), nextId)
    ensures NewNames(before, names + [n]) == NewNames(before, names) + NewNames(stored, [n])
  {
    assert [n][..0] == [];
    FindAfterStored(before, stored, NewNames(before, names), nextId, n);
    NewNamesStep(before, names, n);
  }

  /** Products stored under `names` and then, right after them, under `more` are stored under both. */
  lemma StoredUnderConcat(stored: seq<Product>, after: seq<Product>, from: nat, names: seq<string>, more: seq<string>,
                          nextId: int, laterId: int)
    requires stored <= after && laterId == nextId + |names|
    requires StoredUnder(stored, from, names, nextId) && StoredUnder(after, |stored|, more, laterId)
    ensures StoredUnder(after, from, names + more, nextId)
  {
    forall i | from <= i < |after|
      ensures after[i].name == Some((names + more)[i - from]) && after[i].id == Some(nextId + (i - from))
    {
      if i < |stored| {
        assert after[i] == stored[i];
      }
    }
  }

  /** The products stored for one more name extend those stored for the names before it. */
  lemma StoredUnderOneMore(before: seq<Product>, stored: seq<Product>, after: seq<Product>, names: seq<string>, n: string,
                           nextId: int, storedId: int)
    requires storedId == nextId + (|stored| - |before|)
    requires before <= stored <= after
    requires StoredUnder(stored, |before|, NewNames(before, names), nextId)
    requires StoredUnder(after, |stored|, NewNames(stored, [n]), storedId)
    ensures StoredUnder(after, |before|, NewNames(before, names + [n]), nextId)
  {
    NewNamesOneMore(before, stored, names, n, nextId);
    StoredUnderConcat(stored, after, |before|, NewNames(before, names), NewNames(stored, [n]), nextId, storedId);
  }

  /** The products one more row stores extend those stored for the rows before it. */
  lemma StoredUnderNextRow(before: seq<Product>, stored: seq<Product>, after: seq<Product>, rows: seq<IngredientDto>, k: nat,
                           nextId: int, storedId: int)
    requires k < |rows| && storedId == nextId + (|stored| - |before|)
    requires before <= stored <= after
    requires StoredUnder(stored, |before|, NewNames(before, NamesOf(rows[..k])), nextId)
    requires StoredUnder(after, |stored|, NewNames(stored, NamesOf([rows[k]])), storedId)
    ensures StoredUnder(after, |before|, NewNames(before, NamesOf(rows[..k + 1])), nextId)
  {
    NamesOfStep(rows, k);
    var names, more := NamesOf(rows[..k]), NamesOf([rows[k]]);
    if more == [] {
      assert names + more == names;
    } else {
      assert more == [more[0]];
      StoredUnderOneMore(before, stored, after, names, more[0], nextId, storedId);
    }
  }

  /**
   * The store after the rows before `k` passed: it extends `before` with the
   * products of their new names, under consecutive ids from `firstId`.
   */
  predicate RowsStored(before: seq<Product>, firstId: int, products: seq<Product>, nextId: int, rows: seq<IngredientDto>, k: nat) {
    && k <= |rows|
    && before <= products
    && FirstRowError(before, rows[..k]).None?
    && StoredUnder(products, |before|, NewNames(before, NamesOf(rows[..k])), firstId)
    && nextId == firstId + (|products| - |before|)
  }

  /**
   * The store `after`, with next id `afterId`, is what the loop of
   * `createIngredientsForRecipe` leaves when run over `rows` on the store
   * `before`, with next id `beforeId`: `before` followed, in order and under
   * consecutive ids, by one product for each new name of the rows it tried.
   */
  predicate StoreGrown(before: seq<Product>, beforeId: int, after: seq<Product>, afterId: int, rows: seq<IngredientDto>) {
    && before <= after
    && StoredUnder(after, |before|, NewNames(before, NamesOf(RowsTried(before, rows))), beforeId)
    && afterId == beforeId + (|after| - |before|)
  }

  /**
   * What the loop adds: each added product has the name of a row tried that
   * no product had before, no two added products have the same name in any
   * letter case, and afterwards every row tried names a stored product.
   */
  lemma StoreGrownAdds(before: seq<Product>, beforeId: int, after: seq<Product>, afterId: int, rows: seq<IngredientDto>)
    requires StoreGrown(before, beforeId, after, afterId, rows)
    ensures forall i :: |before| <= i < |after| ==>
      && after[i].name.Some? && after[i].name.value in NamesOf(RowsTried(before, rows))
      && FindProductByName(before, after[i].name.value) == null
      && after[i].id == Some(beforeId + (i - |before|))
    ensures forall i, j :: |before| <= i < j < |after| ==> !EqualsIgnoreCase(after[i].name.value, after[j].name.value)
    ensures forall n :: n in NamesOf(RowsTried(before, rows)) ==> FindProductByName(after, n) != null
  {
    var names := NamesOf(RowsTried(before, rows));
    var added := NewNames(before, names);
    NewNamesAreNew(before, names);
    NewNamesCover(before, names);
    forall i | |before| <= i < |after|
      ensures after[i].name.Some? && after[i].name.value in names && FindProductByName(before, after[i].name.value) == null
    {
      assert after[i].name.value == added[i - |before|];
    }
    forall n | n in names
      ensures FindProductByName(after, n) != null
    {
      FindAfterStored(before, after, added, beforeId, n);
    }
  }

  /** When no row fails, the loop has tried every row. */
  lemma StoreGrownAll(before: seq<Product>, beforeId: int, after: seq<Product>, afterId: int, rows: seq<IngredientDto>)
    requires StoreGrown(before, beforeId, after, afterId, rows) && FirstRowError(before, rows).None?
    ensures StoredUnder(after, |before|, NewNames(before, NamesOf(rows)), beforeId)
  {
    RowsTriedAll(before, rows);
  }

  /** The loop keeps product names unique ignoring case. */
  lemma StoreGrownKeepsUnique(before: seq<Product>, beforeId: int, after: seq<Product>, afterId: int, rows: seq<IngredientDto>)
    requires StoreGrown(before, beforeId, after, afterId, rows)
    ensures NamesUniqueIgnoringCase(before) ==> NamesUniqueIgnoringCase(after)
  {
    if NamesUniqueIgnoringCase(before) {
      StoredUnderKeepsUnique(before, after, NamesOf(RowsTried(before, rows)), beforeId);
    }
  }

  /**
   * One more row, whose new name (if any) is stored next: if it passes, the
   * store is in step with one more row; if it fails, the loop ends with the
   * store grown for the rows tried.
   */
  lemma RowsStoredStep(before: seq<Product>, firstId: int, stored: seq<Product>, storedId: int,
                       after: seq<Product>, afterId: int, rows: seq<IngredientDto>, k: nat)
    requires RowsStored(before, firstId, stored, storedId, rows, k) && k < |rows|
    requires stored <= after && StoredUnder(after, |stored|, NewNames(stored, NamesOf([rows[k]])), storedId)
    requires afterId == storedId + (|after| - |stored|)
    ensures RowError(before, rows[k]).None? ==> RowsStored(before, firstId, after, afterId, rows, k + 1)
    ensures RowError(before, rows[k]).Some? ==>
      FirstRowError(before, rows) == RowError(before, rows[k]) && StoreGrown(before, firstId, after, afterId, rows)
  {
    StoredUnderNextRow(before, stored, after, rows, k, firstId, storedId);
    FirstRowErrorStep(before, rows, k);
    if RowError(before, rows[k]).Some? {
      FirstRowErrorOfPrefix(before, rows, k + 1);
      RowsTriedUpToFailure(before, rows, k);
    }
  }

  /** When every row has passed, the loop has grown the store for all of them. */
  lemma RowsStoredAll(before: seq<Product>, firstId: int, after: seq<Product>, afterId: int, rows: seq<IngredientDto>)
    requires RowsStored(before, firstId, after, afterId, rows, |rows|)
    ensures FirstRowError(before, rows).None? && StoreGrown(before, firstId, after, afterId, rows)
  {
    assert rows[..|rows|] == rows;
    RowsTriedAll(before, rows);
  }

  /**
   * Ingredient `ing` is the one built from `row` for `recipe`, whose id is
   * `recipeId`: keyed by the recipe's and product's ids, quantity 0.0 when
   * absent, unit "g" unless one is given.
   */
  predicate IngredientFor(ing: Ingredient, row: IngredientDto, recipe: Recipe, recipeId: Option<int>)
    reads ing, ing.id
  {
    && ing.recipe == recipe && ing.product != null && ing.product.id.Some?
    && ing.id.recipeId == recipeId && ing.id.productId == ing.product.id
    && ing.quantity == Some(row.quantity.GetOr(0.0))
    && ing.unit == (if NullOrBlank(row.unit) then Some(DefaultUnit) else row.unit)
  }


  /**
   * `ing` is the ingredient built from `row` for `recipe`, and its product
   * is the one `products` holds under the row's trimmed name.
   */
  predicate RowBuilt(ing: Ingredient, row: IngredientDto, recipe: Recipe, recipeId: Option<int>, products: seq<Product>)
    reads ing, ing.id
  {
    IngredientFor(ing, row, recipe, recipeId) && row.productName.Some?
    && ing.product == FindProductByName(products, LookupName(row))
  }

  /** Storing more products keeps every built row's product the one found by its name. */
  lemma {:induction false} RowsBuiltExtended(built: seq<Ingredient>, rows: seq<IngredientDto>, recipe: Recipe, recipeId: Option<int>, products: seq<Product>, later: seq<Product>)
    requires |built| <= |rows| && products <= later
    requires forall j :: 0 <= j < |built| ==> RowBuilt(built[j], rows[j], recipe, recipeId, products)
    ensures forall j :: 0 <= j < |built| ==> RowBuilt(built[j], rows[j], recipe, recipeId, later)
  {
    assert products + later[|products|..] == later;
    forall j | 0 <= j < |built|
      ensures RowBuilt(built[j], rows[j], recipe, recipeId, later)
    {
      FindProductByNameExtended(products, later[|products|..], LookupName(rows[j]));
    }
  }

  /** Each of `built` is the ingredient built from the row at its position, with the product `products` holds for it. */
  predicate AllBuilt(built: seq<Ingredient>, rows: seq<IngredientDto>, recipe: Recipe, recipeId: Option<int>, products: seq<Product>)
    reads built, set ing | ing in built :: ing.id
  {
    |built| <= |rows| && forall j :: 0 <= j < |built| ==> RowBuilt(built[j], rows[j], recipe, recipeId, products)
  }

  /** Appending the next row's ingredient, once more products are stored, keeps every row built. */
  lemma RowsBuiltAppended(built: seq<Ingredient>, ing: Ingredient, rows: seq<IngredientDto>, recipe: Recipe, recipeId: Option<int>,
                          products: seq<Product>, later: seq<Product>)
    requires |built| < |rows| && products <= later
    requires AllBuilt(built, rows, recipe, recipeId, products)
    requires RowBuilt(ing, rows[|built|], recipe, recipeId, later)
    ensures (built + [ing])[..|built|] == built
    ensures AllBuilt(built + [ing], rows, recipe, recipeId, later)
  {
    RowsBuiltExtended(built, rows, recipe, recipeId, products, later);
    forall j | 0 <= j <= |built|
      ensures RowBuilt((built + [ing])[j], rows[j], recipe, recipeId, later)
    {
      if j < |built| {
        assert (built + [ing])[j] == built[j];
      }
    }
  }

  /** `recipe.getIngredients().addAll(ingredients)`. */
  method AppendIngredients(recipe: Recipe, ingredients: seq<Ingredient>)
    modifies recipe
    ensures recipe.Fields() == old(recipe.Fields()).(ingredients := old(recipe.ingredients) + ingredients)
  {
    recipe.ingredients := recipe.ingredients + ingredients;
  }

  /** The stored recipes without those with id `id`: what `deleteById` leaves. */
  function WithoutId(recipes: seq<Recipe>, id: int): (r: seq<Recipe>)
    reads recipes
    ensures forall i :: 0 <= i < |r| ==> r[i] in recipes && r[i].id != Some(id)
    ensures forall i :: 0 <= i < |recipes| && recipes[i].id != Some(id) ==> recipes[i] in r
  {
    if recipes == [] then []
    else if recipes[0].id == Some(id) then WithoutId(recipes[1..], id)
    else [recipes[0]] + WithoutId(recipes[1..], id)
  }

  /** After deleting id `id`, looking it up finds nothing. */
  lemma DeletedRecipeIsGone(recipes: seq<Recipe>, id: int)
    ensures FindRecipe(WithoutId(recipes, id), id) == null
  {
  }

  /** Deleting id `id` does not change what any other id finds. */
  lemma {:induction false} DeleteKeepsOtherLookups(recipes: seq<Recipe>, id: int, other: int)
    requires other != id
    ensures FindRecipe(WithoutId(recipes, id), other) == FindRecipe(recipes, other)
  {
    if recipes != [] {
      DeleteKeepsOtherLookups(recipes[1..], id, other);
      if recipes[0].id != Some(id) {
        assert ([recipes[0]] + WithoutId(recipes[1..], id))[1..] == WithoutId(recipes[1..], id);
      }
    }
  }

  /** `productRepo`: the stored products, and the id its next insert assigns. */
  class ProductRepository {
    var products: seq<Product>
    var nextId: int

    constructor (products: seq<Product>, nextId: int)
      ensures this.products == products && this.nextId == nextId
    {
      this.products := products;
      this.nextId := nextId;
    }

    /**
     * `findByNameIgnoreCase(name)`, or else a new product with that name,
     * saved under the next id.
     */
    method FindOrCreate(name: string) returns (product: Product)
      modifies this
      ensures FindProductByName(old(products), name) != null ==>
        product == FindProductByName(old(products), name) && products == old(products) && nextId == old(nextId)
      ensures FindProductByName(old(products), name) == null ==>
        fresh(product) && products == old(products) + [product]
        && product.id == Some(old(nextId)) && product.name == Some(name) && nextId == old(nextId) + 1
      ensures NamesUniqueIgnoringCase(old(products)) ==> NamesUniqueIgnoringCase(products)
    {
      var found := FindProductByName(products, name);
      if found != null {
        return found;
      }
      product := new Product(Some(nextId), Some(name));
      nextId := nextId + 1;
      products := products + [product];
      forall i | 0 <= i < |products| - 1 && products[i].name.Some?
        ensures !EqualsIgnoreCase(products[i].name.value, name)
      {
        assert products[i] in old(products);
      }
    }
  }

  /** `recipeRepo`: the stored recipes, and the id its next insert assigns. */
  class RecipeRepository {
    var recipes: seq<Recipe>
    var nextId: int

    constructor (recipes: seq<Recipe>, nextId: int)
      ensures this.recipes == recipes && this.nextId == nextId
    {
      this.recipes := recipes;
      this.nextId := nextId;
    }

    /**
     * `save(recipe)`: a recipe without an id is inserted under the next id,
     * its `@PrePersist` hook stamping it with the clock reading `now`; one
     * that has an id is written back, which changes nothing here.
     */
    method Save(recipe: Recipe, now: int)
      modifies this, recipe
      ensures old(recipe.id).None? ==>
        recipe.Fields() == old(recipe.Fields()).(id := Some(old(nextId)), status := PersistedStatus(old(recipe.status)),
                                                 createdAt := Some(now), updatedAt := Some(now))
        && recipes == old(recipes) + [recipe] && nextId == old(nextId) + 1
      ensures old(recipe.id).Some? ==>
        recipe.Fields() == old(recipe.Fields()) && recipes == old(recipes) && nextId == old(nextId)
    {
      if recipe.id.None? {
        recipe.OnCreate(now);
        recipe.id := Some(nextId);
        nextId := nextId + 1;
        recipes := recipes + [recipe];
      }
    }

    /** `deleteById(id)`: an id nothing is stored under is ignored. */
    method DeleteById(id: int)
      modifies this
      ensures recipes == WithoutId(old(recipes), id) && nextId == old(nextId)
    {
      recipes := WithoutId(recipes, id);
    }
  }

  // ----- the checks `create` and `update` make before changing anything -----

  /** What `create` has looked up once its checks pass: the author and the categories, in order. */
  datatype CreateInputs = CreateInputs(user: User, categories: seq<Category>)

  /**
   * The checks of `create`, in order: the author's id must be given, the
   * author must exist and have a role that may publish, then every category
   * entry must have an id that is stored.
   */
  function CheckCreate(dto: RecipeDto, users: seq<User>, categories: seq<Category>): (r: Result<CreateInputs, Exception>)
    reads users, categories
    ensures dto.userDto.None? || dto.userDto.value.id.None? ==> r == Err(Runtime(UserIdRequired))
    ensures dto.userDto.Some? && dto.userDto.value.id.Some? && FindUser(users, dto.userDto.value.id.value) == null ==>
      r == Err(Runtime(UserNotFoundWithId + LongToString(dto.userDto.value.id.value)))
    ensures r.Ok? ==> dto.userDto.Some? && dto.userDto.value.id.Some?
                      && r.value.user == FindUser(users, dto.userDto.value.id.value) && Role.CanCreateContent(r.value.user.role)
    ensures r.Ok? ==> Ok(r.value.categories) == ResolveCategories(dto.categoriesDto.GetOr([]), categories, Runtime(CategoryIdRequired))
  {
    if dto.userDto.None? || dto.userDto.value.id.None? then Err(Runtime(UserIdRequired))
    else
      var user := FindUser(users, dto.userDto.value.id.value);
      if user == null then Err(Runtime(UserNotFoundWithId + LongToString(dto.userDto.value.id.value)))
      else if !Role.CanCreateContent(user.role) then Err(Runtime(RoleNotAllowed))
      else
        var cats := ResolveCategories(dto.categoriesDto.GetOr([]), categories, Runtime(CategoryIdRequired));
        if cats.Err? then Err(cats.error) else Ok(CreateInputs(user, cats.value))
  }

  /**
   * `create` gets past its checks exactly when the author is stored under
   * the given id with a role that may publish and every category entry
   * names a stored category.
   */
  lemma CreateAllowedIff(dto: RecipeDto, users: seq<User>, categories: seq<Category>)
    ensures CheckCreate(dto, users, categories).Ok? <==>
      && dto.userDto.Some? && dto.userDto.value.id.Some?
      && FindUser(users, dto.userDto.value.id.value) != null
      && Role.CanCreateContent(FindUser(users, dto.userDto.value.id.value).role)
      && forall k :: 0 <= k < |dto.categoriesDto.GetOr([])| ==>
           CategoryFailure(dto.categoriesDto.GetOr([])[k], categories, Runtime(CategoryIdRequired)).None?
  {
    CategoriesResolveIffNoneFails(dto.categoriesDto.GetOr([]), categories, Runtime(CategoryIdRequired));
  }

  /** An author whose role may not publish is refused before any category is looked at. */
  lemma RoleCheckedBeforeCategories(dto: RecipeDto, users: seq<User>, categories: seq<Category>)
    requires dto.userDto.Some? && dto.userDto.value.id.Some?
    requires FindUser(users, dto.userDto.value.id.value) != null
    requires !Role.CanCreateContent(FindUser(users, dto.userDto.value.id.value).role)
    ensures CheckCreate(dto, users, categories) == Err(Runtime(RoleNotAllowed))
  {
  }

  /** What `update` has looked up once its checks pass: the stored recipe, the author and the categories. */
  datatype UpdateInputs = UpdateInputs(recipe: Recipe, user: User, categories: seq<Category>)

  /**
   * The checks of `update`, in order: the recipe must be stored, the author
   * given (a missing one is dereferenced), the author's id non-null (the
   * lookup rejects null) and stored, then every category entry must have a
   * stored id.  Unlike `create`, the author's role is not checked.
   */
  function CheckUpdate(id: int, dto: RecipeDto, recipes: seq<Recipe>, users: seq<User>, categories: seq<Category>): (r: Result<UpdateInputs, Exception>)
    reads recipes, users, categories
    ensures FindRecipe(recipes, id) == null ==> r == Err(Runtime(RecipeNotFound))
    ensures r.Ok? ==> r.value.recipe == FindRecipe(recipes, id) && r.value.recipe.id == Some(id)
    ensures r.Ok? ==> dto.userDto.Some? && dto.userDto.value.id.Some? && r.value.user == FindUser(users, dto.userDto.value.id.value)
    ensures r.Ok? ==> Ok(r.value.categories) == ResolveCategories(dto.categoriesDto.GetOr([]), categories, NullIdRejected)
  {
    var recipe := FindRecipe(recipes, id);
    if recipe == null then Err(Runtime(RecipeNotFound))
    else if dto.userDto.None? then Err(NullDereference)
    else if dto.userDto.value.id.None? then Err(NullIdRejected)
    else
      var user := FindUser(users, dto.userDto.value.id.value);
      if user == null then Err(Runtime(UserNotFound))
      else
        var cats := ResolveCategories(dto.categoriesDto.GetOr([]), categories, NullIdRejected);
        if cats.Err? then Err(cats.error) else Ok(UpdateInputs(recipe, user, cats.value))
  }

  /**
   * `update` gets past its checks exactly when the recipe and the author
   * are stored and every category entry names a stored category, whatever
   * the author's role.
   */
  lemma UpdateAllowedIff(id: int, dto: RecipeDto, recipes: seq<Recipe>, users: seq<User>, categories: seq<Category>)
    ensures CheckUpdate(id, dto, recipes, users, categories).Ok? <==>
      && FindRecipe(recipes, id) != null
      && dto.userDto.Some? && dto.userDto.value.id.Some?
      && FindUser(users, dto.userDto.value.id.value) != null
      && forall k :: 0 <= k < |dto.categoriesDto.GetOr([])| ==>
           CategoryFailure(dto.categoriesDto.GetOr([])[k], categories, NullIdRejected).None?
  {
    CategoriesResolveIffNoneFails(dto.categoriesDto.GetOr([]), categories, NullIdRejected);
  }

  /** The recipes `findAllByStatus` reads: every stored one, or those in one status. */
  function Listed(recipes: seq<Recipe>, status: Option<ContentStatus.Status>): (r: seq<Recipe>)
    reads recipes
    ensures forall x :: x in r ==> x in recipes
  {
    if status.None? then recipes else WithStatus(recipes, status.value)
  }

  /**
   * With no recipe stored twice, the listing (the join's rows with the
   * repeats removed) is exactly the stored recipes, or those in the
   * requested status, in store order.
   */
  lemma {:induction false} ListingIsStoreOrder(recipes: seq<Recipe>, status: Option<ContentStatus.Status>)
    requires Distinct.NoDuplicates(recipes)
    ensures Distinct.Distinct(JoinRows(Listed(recipes, status))) == Listed(recipes, status)
  {
    if status.Some? {
      WithStatusHasNoDuplicates(recipes, status.value);
    }
    DistinctUndoesJoin(Listed(recipes, status));
  }

  /** `RecipeService`: the repositories it works on. Users and categories are only read here. */
  class RecipeService {
    const users: seq<User>
    const categories: seq<Category>
    const productRepo: ProductRepository
    const recipeRepo: RecipeRepository

    constructor (users: seq<User>, categories: seq<Category>, productRepo: ProductRepository, recipeRepo: RecipeRepository)
      ensures this.users == users && this.categories == categories
      ensures this.productRepo == productRepo && this.recipeRepo == recipeRepo
    {
      this.users := users;
      this.categories := categories;
      this.productRepo := productRepo;
      this.recipeRepo := recipeRepo;
    }

    /** One row's ingredient for `recipe`, filled from `row`, with the given product. */
    static method NewIngredient(row: IngredientDto, recipe: Recipe, product: Product) returns (ingredient: Ingredient)
      requires product.id.Some?
      ensures fresh(ingredient) && fresh(ingredient.id)
      ensures ingredient.product == product && IngredientFor(ingredient, row, recipe, recipe.id)
    {
      var key := new RecipeIngredientKey.RecipeIngredientKey(recipe.id, product.id);
      ingredient := new Ingredient();
      ingredient.id := key;
      ingredient.recipe := recipe;
      ingredient.product := product;
      if row.quantity.Some? {
        ingredient.quantity := row.quantity;
      } else {
        ingredient.quantity := Some(0.0);
      }
      if !NullOrBlank(row.unit) {
        ingredient.unit := row.unit;
      }
    }

    /**
     * One pass of the loop in `createIngredientsForRecipe`: the row's error,
     * if it has one, or its ingredient, with the product found or created.
     * `before` are the products stored when the loop began.
     */
    method IngredientForRow(row: IngredientDto, recipe: Recipe, ghost before: seq<Product>) returns (r: Result<Ingredient, Exception>)
      requires before <= productRepo.products
      requires forall i :: |before| <= i < |productRepo.products| ==> productRepo.products[i].id.Some?
      modifies productRepo
      ensures old(productRepo.products) <= productRepo.products
      ensures forall i :: |old(productRepo.products)| <= i < |productRepo.products| ==>
        fresh(productRepo.products[i]) && productRepo.products[i].id.Some?
      ensures r.Err? <==> RowError(before, row).Some?
      ensures r.Err? ==> Some(r.error) == RowError(before, row)
      ensures r.Ok? ==> fresh(r.value) && fresh(r.value.id) && RowBuilt(r.value, row, recipe, recipe.id, productRepo.products)
      ensures |productRepo.products| == |old(productRepo.products)| + (if RowCreates(old(productRepo.products), row) then 1 else 0)
      ensures StoredUnder(productRepo.products, |old(productRepo.products)|,
                          NewNames(old(productRepo.products), NamesOf([row])), old(productRepo.nextId))
      ensures productRepo.nextId == old(productRepo.nextId) + (|productRepo.products| - |old(productRepo.products)|)
      ensures NamesUniqueIgnoringCase(old(productRepo.products)) ==> NamesUniqueIgnoringCase(productRepo.products)
    {
      assert [row][..0] == [];
      if NullOrBlank(row.productName) {
        return Err(Runtime(ProductNameRequired));
      }
      var name := LookupName(row);
      ghost var stored := productRepo.products;
      var product := productRepo.FindOrCreate(name);
      StoredUnderLookup(stored, productRepo.products, name, product, old(productRepo.nextId));
      if FindProductByName(stored, name) == null {
        FindProductByNameAppended(stored, product, name);
      }
      if FindProductByName(before, name) != null {
        FindProductByNameExtended(before, stored[|before|..], name);
        assert before + stored[|before|..] == stored;
      } else {
        var found := FindProductByName(stored, name);
        if found != null {
          assert found in stored[|before|..] by {
            assert stored == before + stored[|before|..];
          }
        }
      }
      if product.id.None? {
        return Err(Runtime(ProductIdNull + row.productName.value));
      }
      var ingredient := NewIngredient(row, recipe, product);
      return Ok(ingredient);
    }

    /** One pass of the loop of `createIngredientsForRecipe`: row `k`'s ingredient added to `built`, or the row's error. */
    method BuildStep(rows: seq<IngredientDto>, k: nat, recipe: Recipe, recipeId: Option<int>,
                     ghost before: seq<Product>, ghost firstId: int, built: seq<Ingredient>) returns (r: Result<seq<Ingredient>, Exception>)
      requires k < |rows| && |built| == k && recipe.id == recipeId
      requires before <= productRepo.products
      requires forall i :: |before| <= i < |productRepo.products| ==> productRepo.products[i].id.Some?
      requires AllBuilt(built, rows, recipe, recipeId, productRepo.products)
      requires RowsStored(before, firstId, productRepo.products, productRepo.nextId, rows, k)
      modifies productRepo
      ensures old(productRepo.products) <= productRepo.products
      ensures forall i :: |old(productRepo.products)| <= i < |productRepo.products| ==>
        fresh(productRepo.products[i]) && productRepo.products[i].id.Some?
      ensures r.Err? <==> RowError(before, rows[k]).Some?
      ensures r.Err? ==> Some(r.error) == RowError(before, rows[k])
      ensures r.Ok? ==> |r.value| == k + 1 && r.value[..k] == built && fresh(r.value[k])
      ensures r.Ok? ==> AllBuilt(r.value, rows, recipe, recipeId, productRepo.products)
      ensures r.Ok? ==> RowsStored(before, firstId, productRepo.products, productRepo.nextId, rows, k + 1)
      ensures r.Err? ==> Some(r.error) == FirstRowError(before, rows)
      ensures r.Err? ==> StoreGrown(before, firstId, productRepo.products, productRepo.nextId, rows)
    {
      ghost var stored, storedId := productRepo.products, productRepo.nextId;
      var step := IngredientForRow(rows[k], recipe, before);
      RowsStoredStep(before, firstId, stored, storedId, productRepo.products, productRepo.nextId, rows, k);
      if step.Err? {
        return Err(step.error);
      }
      var extended := built + [step.value];
      RowsBuiltAppended(built, step.value, rows, recipe, recipeId, stored, productRepo.products);
      return Ok(extended);
    }

    /** The loop of `createIngredientsForRecipe`, over the rows of a recipe that has an id. */
    method BuildIngredients(rows: seq<IngredientDto>, recipe: Recipe) returns (r: Result<seq<Ingredient>, Exception>)
      modifies productRepo
      ensures old(productRepo.products) <= productRepo.products
      ensures forall i :: |old(productRepo.products)| <= i < |productRepo.products| ==>
        fresh(productRepo.products[i]) && productRepo.products[i].id.Some?
      ensures r.Err? <==> FirstRowError(old(productRepo.products), rows).Some?
      ensures r.Err? ==> Some(r.error) == FirstRowError(old(productRepo.products), rows)
      ensures r.Ok? ==> |r.value| == |rows|
      ensures r.Ok? ==> forall k :: 0 <= k < |rows| ==>
        RowBuilt(r.value[k], rows[k], recipe, recipe.id, productRepo.products)
      ensures StoreGrown(old(productRepo.products), old(productRepo.nextId), productRepo.products, productRepo.nextId, rows)
    {
      var before := productRepo.products;
      ghost var firstId := productRepo.nextId;
      var recipeId := recipe.id;
      var built: seq<Ingredient> := [];
      for k := 0 to |rows|
        invariant recipe.id == recipeId && |built| == k
        invariant RowsStored(before, firstId, productRepo.products, productRepo.nextId, rows, k)
        invariant forall i :: |before| <= i < |productRepo.products| ==>
          fresh(productRepo.products[i]) && productRepo.products[i].id.Some?
        invariant AllBuilt(built, rows, recipe, recipeId, productRepo.products)
      {
        var step := BuildStep(rows, k, recipe, recipeId, before, firstId, built);
        if step.Err? {
          return Err(step.error);
        }
        built := step.value;
      }
      RowsStoredAll(before, firstId, productRepo.products, productRepo.nextId, rows);
      assert rows[..|rows|] == rows;
      return Ok(built);
    }

    /**
     * `createIngredientsForRecipe`: no rows give no ingredients; otherwise the
     * recipe must have an id, and each row in turn must name a product, which
     * is found by name or created, giving one ingredient per row, in order.
     */
    method CreateIngredientsForRecipe(dto: RecipeDto, recipe: Recipe) returns (r: Result<seq<Ingredient>, Exception>)
      modifies productRepo
      ensures old(productRepo.products) <= productRepo.products
      ensures forall i :: |old(productRepo.products)| <= i < |productRepo.products| ==>
        fresh(productRepo.products[i]) && productRepo.products[i].id.Some?
      ensures dto.ingredientsDto.None? || dto.ingredientsDto.value == [] ==>
        r == Ok([]) && productRepo.products == old(productRepo.products) && productRepo.nextId == old(productRepo.nextId)
      ensures dto.ingredientsDto.Some? && dto.ingredientsDto.value != [] && recipe.id.None? ==>
        r == Err(Runtime(RecipeNotSaved)) && productRepo.products == old(productRepo.products)
        && productRepo.nextId == old(productRepo.nextId)
      ensures recipe.id.Some? ==>
        StoreGrown(old(productRepo.products), old(productRepo.nextId), productRepo.products, productRepo.nextId, dto.ingredientsDto.GetOr([]))
      ensures NamesUniqueIgnoringCase(old(productRepo.products)) ==> NamesUniqueIgnoringCase(productRepo.products)
      ensures dto.ingredientsDto.Some? && dto.ingredientsDto.value != [] && recipe.id.Some? ==>
        (r.Err? <==> FirstRowError(old(productRepo.products), dto.ingredientsDto.value).Some?)
        && (r.Err? ==> Some(r.error) == FirstRowError(old(productRepo.products), dto.ingredientsDto.value))
      ensures r.Ok? ==> |r.value| == |dto.ingredientsDto.GetOr([])|
      ensures r.Ok? ==> forall k :: 0 <= k < |r.value| ==>
        RowBuilt(r.value[k], dto.ingredientsDto.GetOr([])[k], recipe, recipe.id, productRepo.products)
    {
      if dto.ingredientsDto.None? || dto.ingredientsDto.value == [] {
        return Ok([]);
      }
      if recipe.id.None? {
        return Err(Runtime(RecipeNotSaved));
      }
      ghost var before, firstId := productRepo.products, productRepo.nextId;
      r := BuildIngredients(dto.ingredientsDto.value, recipe);
      StoreGrownKeepsUnique(before, firstId, productRepo.products, productRepo.nextId, dto.ingredientsDto.value);
    }

    /** Adding built ingredients to a stored recipe and saving it, which writes the recipe back. */
    method AddAndSave(recipe: Recipe, ingredients: seq<Ingredient>, now: int)
      requires recipe.id.Some? && recipe.ingredients == []
      modifies recipeRepo, recipe
      ensures recipe.Fields() == old(recipe.Fields()).(ingredients := ingredients)
      ensures recipe.ingredients == ingredients && recipe.id == old(recipe.id)
      ensures recipeRepo.recipes == old(recipeRepo.recipes) && recipeRepo.nextId == old(recipeRepo.nextId)
      ensures forall k :: 0 <= k < |ingredients| ==> unchanged(ingredients[k], ingredients[k].id)
    {
      AppendIngredients(recipe, ingredients);
      recipeRepo.Save(recipe, now);
    }

    /** `RecipeMapper.toDto`, seen through the fields it reports. */
    static method ToDto(recipe: Recipe) returns (dto: RecipeDto)
      requires forall i :: i in recipe.ingredients ==> i.product != null
      ensures RecipeMapper.DescribesFields(dto, recipe.Fields()) && dto.id == recipe.id
    {
      dto := RecipeMapper.ToDto(recipe);
    }

    /**
     * The last steps of `create` and `update`, on a stored recipe whose
     * ingredient list is empty: build the rows' ingredients, add them and
     * save, then convert.  A failing row leaves the recipe as it was.
     */
    method AttachIngredients(dto: RecipeDto, recipe: Recipe, now: int) returns (r: Result<RecipeDto, Exception>)
      requires recipe.id.Some? && recipe.ingredients == []
      modifies productRepo, recipeRepo, recipe
      ensures old(productRepo.products) <= productRepo.products
      ensures forall i :: |old(productRepo.products)| <= i < |productRepo.products| ==>
        fresh(productRepo.products[i]) && productRepo.products[i].id.Some?
      ensures recipeRepo.recipes == old(recipeRepo.recipes) && recipeRepo.nextId == old(recipeRepo.nextId)
      ensures recipe.Fields() == old(recipe.Fields()).(ingredients := recipe.ingredients)
      ensures r.Err? <==> FirstRowError(old(productRepo.products), dto.ingredientsDto.GetOr([])).Some?
      ensures r.Err? ==> Some(r.error) == FirstRowError(old(productRepo.products), dto.ingredientsDto.GetOr([]))
                         && recipe.ingredients == []
      ensures r.Ok? ==> |recipe.ingredients| == |dto.ingredientsDto.GetOr([])|
      ensures r.Ok? ==> forall k :: 0 <= k < |recipe.ingredients| ==>
        RowBuilt(recipe.ingredients[k], dto.ingredientsDto.GetOr([])[k], recipe, recipe.id, productRepo.products)
      ensures r.Ok? ==> RecipeMapper.DescribesFields(r.value, recipe.Fields()) && r.value.id == recipe.id
      ensures StoreGrown(old(productRepo.products), old(productRepo.nextId), productRepo.products, productRepo.nextId, dto.ingredientsDto.GetOr([]))
      ensures NamesUniqueIgnoringCase(old(productRepo.products)) ==> NamesUniqueIgnoringCase(productRepo.products)
    {
      var ingredients := CreateIngredientsForRecipe(dto, recipe);
      if ingredients.Err? {
        return Err(ingredients.error);
      }
      var out := SaveBuilt(dto.ingredientsDto.GetOr([]), recipe, ingredients.value, now);
      return Ok(out);
    }

    /** Adding the built ingredients, if there are any, and saving; then converting. */
    method SaveBuilt(ghost rows: seq<IngredientDto>, recipe: Recipe, built: seq<Ingredient>, now: int) returns (dto: RecipeDto)
      requires recipe.id.Some? && recipe.ingredients == [] && |built| == |rows|
      requires forall k :: 0 <= k < |built| ==> RowBuilt(built[k], rows[k], recipe, recipe.id, productRepo.products)
      modifies recipeRepo, recipe
      ensures recipeRepo.recipes == old(recipeRepo.recipes) && recipeRepo.nextId == old(recipeRepo.nextId)
      ensures recipe.Fields() == old(recipe.Fields()).(ingredients := built)
      ensures recipe.ingredients == built && recipe.id == old(recipe.id)
      ensures forall k :: 0 <= k < |built| ==> RowBuilt(built[k], rows[k], recipe, recipe.id, productRepo.products)
      ensures RecipeMapper.DescribesFields(dto, recipe.Fields()) && dto.id == recipe.id
    {
      ghost var id := recipe.id;
      ghost var products := productRepo.products;
      if built != [] {
        AddAndSave(recipe, built, now);
      }
      forall k | 0 <= k < |built|
        ensures RowBuilt(built[k], rows[k], recipe, id, products)
      {
        assert old(RowBuilt(built[k], rows[k], recipe, id, products));
      }
      assert recipe.id == id && productRepo.products == products;
      dto := ToDto(recipe);
    }

    /**
     * `create`: after its checks, a new recipe is filled from the transfer
     * object and saved, which gives it the next id and stamps it with the
     * clock reading `now`; then the ingredient rows
     * are built, and if there are any they are added and the recipe saved
     * again.  Nothing is rolled back: when a row fails, the recipe stays
     * stored without ingredients, and products created for earlier rows stay.
     */
    method Create(dto: RecipeDto, now: int) returns (r: Result<RecipeDto, Exception>)
      modifies productRepo, recipeRepo
      ensures old(productRepo.products) <= productRepo.products
      ensures forall i :: |old(productRepo.products)| <= i < |productRepo.products| ==>
        fresh(productRepo.products[i]) && productRepo.products[i].id.Some?
      ensures CheckCreate(dto, users, categories).Err? ==>
        r == Err(CheckCreate(dto, users, categories).error)
      ensures CheckCreate(dto, users, categories).Ok? && RecipeMapper.CheckTitleAndText(dto).Some? ==>
        r == Err(RecipeMapper.CheckTitleAndText(dto).value)
      ensures CheckCreate(dto, users, categories).Err? || RecipeMapper.CheckTitleAndText(dto).Some? ==>
        && recipeRepo.recipes == old(recipeRepo.recipes) && recipeRepo.nextId == old(recipeRepo.nextId)
        && productRepo.products == old(productRepo.products) && productRepo.nextId == old(productRepo.nextId)
      ensures CheckCreate(dto, users, categories).Ok? && RecipeMapper.CheckTitleAndText(dto).None? ==>
        var inputs := CheckCreate(dto, users, categories).value;
        var rows := dto.ingredientsDto.GetOr([]);
        && |recipeRepo.recipes| == |old(recipeRepo.recipes)| + 1
        && recipeRepo.recipes[..|old(recipeRepo.recipes)|] == old(recipeRepo.recipes)
        && recipeRepo.nextId == old(recipeRepo.nextId) + 1
        && var saved := recipeRepo.recipes[|old(recipeRepo.recipes)|];
        && fresh(saved)
        && saved.Fields() == RecipeMapper.Applied(NewRecipeFields, dto, inputs.user, inputs.categories, saved.ingredients)
                               .(id := Some(old(recipeRepo.nextId)), createdAt := Some(now), updatedAt := Some(now))
        && (r.Err? <==> FirstRowError(old(productRepo.products), rows).Some?)
        && (r.Err? ==> Some(r.error) == FirstRowError(old(productRepo.products), rows) && saved.ingredients == [])
        && (r.Ok? ==> |saved.ingredients| == |rows|)
        && (r.Ok? ==> forall k :: 0 <= k < |rows| ==>
              RowBuilt(saved.ingredients[k], rows[k], saved, saved.id, productRepo.products))
        && (r.Ok? ==> RecipeMapper.DescribesFields(r.value, saved.Fields()) && r.value.id == saved.id)
        && StoreGrown(old(productRepo.products), old(productRepo.nextId), productRepo.products, productRepo.nextId, rows)
      ensures NamesUniqueIgnoringCase(old(productRepo.products)) ==> NamesUniqueIgnoringCase(productRepo.products)
    {
      var checked := CheckCreate(dto, users, categories);
      if checked.Err? {
        return Err(checked.error);
      }
      var recipe, thrown := StoreNew(dto, checked.value.user, checked.value.categories, now);
      if thrown.Some? {
        return Err(thrown.value);
      }
      r := AttachIngredients(dto, recipe, now);
    }

    /** The first steps of `create` after its checks: a new recipe filled from `dto` and saved, unless the mapper throws. */
    method StoreNew(dto: RecipeDto, user: User?, categories: seq<Category>, now: int) returns (recipe: Recipe, thrown: Option<Exception>)
      modifies recipeRepo
      ensures thrown == RecipeMapper.CheckTitleAndText(dto)
      ensures thrown.Some? ==> recipeRepo.recipes == old(recipeRepo.recipes) && recipeRepo.nextId == old(recipeRepo.nextId)
      ensures thrown.None? ==>
        && fresh(recipe)
        && recipeRepo.recipes == old(recipeRepo.recipes) + [recipe] && recipeRepo.nextId == old(recipeRepo.nextId) + 1
        && recipe.Fields() == RecipeMapper.Applied(NewRecipeFields, dto, user, categories, [])
                                .(id := Some(old(recipeRepo.nextId)), createdAt := Some(now), updatedAt := Some(now))
        && recipe.id == Some(old(recipeRepo.nextId)) && recipe.ingredients == []
    {
      recipe := new Recipe();
      thrown := RecipeMapper.UpdateEntity(recipe, dto, user, categories, []);
      if thrown.None? {
        recipeRepo.Save(recipe, now);
      }
    }

    /**
     * `update`: after its checks, the stored recipe is overwritten from the
     * transfer object with an empty ingredient list and saved at the clock
     * reading `now`; then the
     * rows' ingredients are built, added and saved.  Nothing is rolled back:
     * when a row fails, the recipe stays updated without ingredients.
     */
    method Update(id: int, dto: RecipeDto, now: int) returns (r: Result<RecipeDto, Exception>)
      modifies productRepo, recipeRepo, recipeRepo.recipes
      ensures old(productRepo.products) <= productRepo.products
      ensures forall i :: |old(productRepo.products)| <= i < |productRepo.products| ==>
        fresh(productRepo.products[i]) && productRepo.products[i].id.Some?
      ensures recipeRepo.recipes == old(recipeRepo.recipes) && recipeRepo.nextId == old(recipeRepo.nextId)
      ensures forall q :: q in old(recipeRepo.recipes) && q != old(FindRecipe(recipeRepo.recipes, id)) ==> unchanged(q)
      ensures old(CheckUpdate(id, dto, recipeRepo.recipes, users, categories)).Err? ==>
        r == Err(old(CheckUpdate(id, dto, recipeRepo.recipes, users, categories)).error)
        && productRepo.products == old(productRepo.products) && productRepo.nextId == old(productRepo.nextId)
        && forall q :: q in old(recipeRepo.recipes) ==> unchanged(q)
      ensures old(CheckUpdate(id, dto, recipeRepo.recipes, users, categories)).Ok? && RecipeMapper.CheckTitleAndText(dto).Some? ==>
        r == Err(RecipeMapper.CheckTitleAndText(dto).value)
        && productRepo.products == old(productRepo.products) && productRepo.nextId == old(productRepo.nextId)
        && forall q :: q in old(recipeRepo.recipes) ==> unchanged(q)
      ensures old(CheckUpdate(id, dto, recipeRepo.recipes, users, categories)).Ok? && RecipeMapper.CheckTitleAndText(dto).None? ==>
        var inputs := old(CheckUpdate(id, dto, recipeRepo.recipes, users, categories)).value;
        var target := inputs.recipe;
        var rows := dto.ingredientsDto.GetOr([]);
        && target.Fields() == RecipeMapper.Applied(old(target.Fields()), dto, inputs.user, inputs.categories, target.ingredients)
        && (r.Err? <==> FirstRowError(old(productRepo.products), rows).Some?)
        && (r.Err? ==> Some(r.error) == FirstRowError(old(productRepo.products), rows) && target.ingredients == [])
        && (r.Ok? ==> |target.ingredients| == |rows|)
        && (r.Ok? ==> forall k :: 0 <= k < |rows| ==>
              RowBuilt(target.ingredients[k], rows[k], target, Some(id), productRepo.products))
        && (r.Ok? ==> RecipeMapper.DescribesFields(r.value, target.Fields()) && r.value.id == Some(id))
        && StoreGrown(old(productRepo.products), old(productRepo.nextId), productRepo.products, productRepo.nextId, rows)
      ensures NamesUniqueIgnoringCase(old(productRepo.products)) ==> NamesUniqueIgnoringCase(productRepo.products)
    {
      var checked := CheckUpdate(id, dto, recipeRepo.recipes, users, categories);
      if checked.Err? {
        return Err(checked.error);
      }
      var recipe := checked.value.recipe;
      var thrown := RecipeMapper.UpdateEntity(recipe, dto, checked.value.user, checked.value.categories, []);
      if thrown.Some? {
        return Err(thrown.value);
      }
      recipeRepo.Save(recipe, now);
      // Deleting and clearing the ingredient list here acts on the list
      // `updateEntity` has just emptied, so it changes nothing.
      r := AttachIngredients(dto, recipe, now);
    }

    /**
     * `findAllByStatus`, and `findAll` with no status: the query's rows with
     * repeats removed in first-occurrence order, each converted.  Stored
     * ingredients always have a product.
     */
    method FindAllByStatus(status: Option<ContentStatus.Status>) returns (dtos: seq<RecipeDto>)
      requires forall q :: q in recipeRepo.recipes ==> forall i :: i in q.ingredients ==> i.product != null
      ensures var listed := Distinct.Distinct(JoinRows(Listed(recipeRepo.recipes, status)));
        && |dtos| == |listed|
        && forall k :: 0 <= k < |listed| ==>
             RecipeMapper.DescribesFields(dtos[k], listed[k].Fields()) && dtos[k].id == listed[k].id
    {
      var rows := JoinRows(Listed(recipeRepo.recipes, status));
      var unique := DropRepeats(rows);
      dtos := ToDtos(unique);
    }

    /** Copying the rows into a `LinkedHashSet`: each recipe once, where it first occurs. */
    static method DropRepeats(rows: seq<Recipe>) returns (unique: seq<Recipe>)
      ensures unique == Distinct.Distinct(rows)
    {
      unique := [];
      for k := 0 to |rows|
        invariant unique == Distinct.Distinct(rows[..k])
      {
        assert rows[..k + 1][..k] == rows[..k];
        if rows[k] !in unique {
          unique := unique + [rows[k]];
        }
      }
      assert rows[..|rows|] == rows;
    }

    /** Converting each recipe in turn. */
    static method ToDtos(recipes: seq<Recipe>) returns (dtos: seq<RecipeDto>)
      requires forall q :: q in recipes ==> forall i :: i in q.ingredients ==> i.product != null
      ensures |dtos| == |recipes|
      ensures forall k :: 0 <= k < |recipes| ==>
        RecipeMapper.DescribesFields(dtos[k], recipes[k].Fields()) && dtos[k].id == recipes[k].id
    {
      dtos := [];
      for k := 0 to |recipes|
        invariant |dtos| == k
        invariant forall j :: 0 <= j < k ==>
          RecipeMapper.DescribesFields(dtos[j], recipes[j].Fields()) && dtos[j].id == recipes[j].id
      {
        var dto := ToDto(recipes[k]);
        dtos := dtos + [dto];
      }
    }

    /** `findById`: the stored recipe with that id, converted, or nothing. */
    method FindById(id: int) returns (r: Option<RecipeDto>)
      requires forall q :: q in recipeRepo.recipes ==> forall i :: i in q.ingredients ==> i.product != null
      ensures r.Some? <==> FindRecipe(recipeRepo.recipes, id) != null
      ensures r.Some? ==> RecipeMapper.DescribesFields(r.value, FindRecipe(recipeRepo.recipes, id).Fields())
                          && r.value.id == Some(id)
    {
      var recipe := FindRecipe(recipeRepo.recipes, id);
      if recipe == null {
        return None;
      }
      var dto := ToDto(recipe);
      return Some(dto);
    }

    /** `deleteById`: every recipe stored under `id` is removed, the others kept in order. */
    method DeleteById(id: int)
      modifies recipeRepo
      ensures recipeRepo.recipes == WithoutId(old(recipeRepo.recipes), id)
      ensures recipeRepo.nextId == old(recipeRepo.nextId)
    {
      recipeRepo.DeleteById(id);
    }
  }
}
