/**
 * The recipe listing page: text, category and cook-time filters, the sort
 * orders, six recipes per page, the page-number window, and the related
 * recipes shown beside a single recipe.
 */
module RecipesPage {
  import opened Wrappers
  import opened Text
  import opened RecipeApi
  import ListView

  const RecipesPerPage := 6
  const MaxRelated := 12

  /** `recipe.cookTime || recipe.cookingTime || 0`. */
  function EffectiveCookTime(r: RecipeDto): int {
    NumOr(NumOr(r.cookTime, r.cookingTime), Some(0)).value
  }

  /** The cook-time filter named by the select's value; any other value keeps everything. */
  predicate MatchesTime(filter: string, time: int) {
    if filter == "quick" then time <= 30
    else if filter == "medium" then time > 30 && time <= 60
    else if filter == "long" then time > 60
    else true
  }

  /** The effective cook time is the first non-zero of cookTime and cookingTime, else 0. */
  lemma EffectiveCookTimeChoice(r: RecipeDto)
    ensures NumTruthy(r.cookTime) ==> EffectiveCookTime(r) == r.cookTime.value
    ensures !NumTruthy(r.cookTime) && NumTruthy(r.cookingTime) ==> EffectiveCookTime(r) == r.cookingTime.value
    ensures !NumTruthy(r.cookTime) && !NumTruthy(r.cookingTime) ==> EffectiveCookTime(r) == 0
  {
  }

  /** Quick, medium and long partition the cook times: each time passes exactly one. */
  lemma TimeFiltersPartition(time: int)
    ensures MatchesTime("quick", time) || MatchesTime("medium", time) || MatchesTime("long", time)
    ensures !(MatchesTime("quick", time) && MatchesTime("medium", time))
    ensures !(MatchesTime("quick", time) && MatchesTime("long", time))
    ensures !(MatchesTime("medium", time) && MatchesTime("long", time))
  {
  }

  /** The search box: the lower-cased query in the lower-cased title or description. */
  predicate MatchesSearch(r: RecipeDto, query: string) {
    Contains(ToLower(r.title), ToLower(query))
    || (r.description.Some? && Contains(ToLower(r.description.value), ToLower(query)))
  }

  predicate HasCategory(r: RecipeDto, categoryId: int) {
    r.categoryDtos.Some? && exists c | c in r.categoryDtos.value :: c.id == categoryId
  }

  /** `!selectedCategory || recipe has a category with that id`; a selected id of 0 is falsy. */
  predicate MatchesCategory(r: RecipeDto, selected: Option<int>) {
    !NumTruthy(selected) || HasCategory(r, selected.value)
  }

  predicate Keep(r: RecipeDto, query: string, selected: Option<int>, timeFilter: string) {
    MatchesSearch(r, query) && MatchesCategory(r, selected) && MatchesTime(timeFilter, EffectiveCookTime(r))
  }

  function KeepFn(query: string, selected: Option<int>, timeFilter: string): RecipeDto -> bool {
    r => Keep(r, query, selected, timeFilter)
  }

  /**
   * The comparator as a sort key: newest is descending creation time, oldest
   * ascending, time-asc / time-desc by effective cook time; any other value
   * compares everything equal.
   */
  function SortKey(sortBy: string): RecipeDto -> int {
    if sortBy == "newest" then (r: RecipeDto) => -r.createdAt
    else if sortBy == "oldest" then (r: RecipeDto) => r.createdAt
    else if sortBy == "time-asc" then (r: RecipeDto) => EffectiveCookTime(r)
    else if sortBy == "time-desc" then (r: RecipeDto) => -EffectiveCookTime(r)
    else (r: RecipeDto) => 0
  }

  /** `filteredRecipes`. */
  function FilteredRecipes(all: seq<RecipeDto>, query: string, selected: Option<int>,
                           timeFilter: string, sortBy: string): seq<RecipeDto>
  {
    ListView.SortBy(ListView.Filter(all, KeepFn(query, selected, timeFilter)), SortKey(sortBy))
  }

  /** Every displayed recipe passes the search, the category and the cook-time filter. */
  lemma KeptRecipesMatch(all: seq<RecipeDto>, query: string, selected: Option<int>, timeFilter: string, sortBy: string)
    ensures var shown := FilteredRecipes(all, query, selected, timeFilter, sortBy);
      forall r :: r in shown ==> Keep(r, query, selected, timeFilter)
  {
    var kept := ListView.Filter(all, KeepFn(query, selected, timeFilter));
    ListView.SortByFacts(kept, SortKey(sortBy));
    forall r | r in FilteredRecipes(all, query, selected, timeFilter, sortBy)
      ensures Keep(r, query, selected, timeFilter)
    {
      assert r in multiset(kept);
    }
  }

  /** The displayed list is a reordering of a subsequence of the loaded recipes: nothing invented or duplicated. */
  lemma FilteredIsPermutedSubsequence(all: seq<RecipeDto>, query: string, selected: Option<int>, timeFilter: string, sortBy: string)
    ensures var shown := FilteredRecipes(all, query, selected, timeFilter, sortBy);
      exists sub :: ListView.IsSubsequence(sub, all) && multiset(sub) == multiset(shown)
  {
    var kept := ListView.Filter(all, KeepFn(query, selected, timeFilter));
    ListView.FilterIsSubsequence(all, KeepFn(query, selected, timeFilter));
    ListView.SortByFacts(kept, SortKey(sortBy));
    assert ListView.IsSubsequence(kept, all) && multiset(kept) == multiset(FilteredRecipes(all, query, selected, timeFilter, sortBy));
  }

  /** No query, no category and the "all" filter keep every recipe (only the order may change). */
  lemma NoFiltersKeepAll(all: seq<RecipeDto>, sortBy: string)
    ensures multiset(FilteredRecipes(all, "", None, "all", sortBy)) == multiset(all)
  {
    forall r | r in all
      ensures Keep(r, "", None, "all")
    {
      ContainsEmpty(ToLower(r.title));
    }
    ListView.FilterAll(all, KeepFn("", None, "all"));
    ListView.SortByFacts(all, SortKey(sortBy));
  }

  /** An unrecognised sort value leaves the filtered list in loaded order. */
  lemma UnknownSortKeepsOrder(all: seq<RecipeDto>, query: string, selected: Option<int>, timeFilter: string, sortBy: string)
    requires sortBy !in {"newest", "oldest", "time-asc", "time-desc"}
    ensures FilteredRecipes(all, query, selected, timeFilter, sortBy)
         == ListView.Filter(all, KeepFn(query, selected, timeFilter))
  {
    ListView.SortByConstantKey(ListView.Filter(all, KeepFn(query, selected, timeFilter)), SortKey(sortBy));
  }

  /** "time-asc" orders by non-decreasing and "time-desc" by non-increasing effective cook time. */
  lemma TimeSortsOrdered(all: seq<RecipeDto>, query: string, selected: Option<int>, timeFilter: string)
    ensures var up := FilteredRecipes(all, query, selected, timeFilter, "time-asc");
      forall i, j :: 0 <= i < j < |up| ==> EffectiveCookTime(up[i]) <= EffectiveCookTime(up[j])
    ensures var down := FilteredRecipes(all, query, selected, timeFilter, "time-desc");
      forall i, j :: 0 <= i < j < |down| ==> EffectiveCookTime(down[i]) >= EffectiveCookTime(down[j])
  {
    var kept := ListView.Filter(all, KeepFn(query, selected, timeFilter));
    ListView.SortByFacts(kept, SortKey("time-asc"));
    ListView.SortByFacts(kept, SortKey("time-desc"));
  }

  /** "newest" puts later creation times first. */
  lemma NewestFirst(all: seq<RecipeDto>, query: string, selected: Option<int>, timeFilter: string)
    ensures var shown := FilteredRecipes(all, query, selected, timeFilter, "newest");
      forall i, j :: 0 <= i < j < |shown| ==> shown[i].createdAt >= shown[j].createdAt
  {
    var kept := ListView.Filter(all, KeepFn(query, selected, timeFilter));
    ListView.SortByFacts(kept, SortKey("newest"));
  }

  /** `currentRecipes`: the slice for the current page. */
  function CurrentRecipes(filtered: seq<RecipeDto>, currentPage: int): seq<RecipeDto> {
    ListView.PageSlice(filtered, currentPage, RecipesPerPage)
  }

  /** Pages hold at most six recipes and, taken in order, give back the filtered list. */
  lemma RecipePagesPartition(filtered: seq<RecipeDto>, currentPage: int)
    ensures |CurrentRecipes(filtered, currentPage)| <= RecipesPerPage
    ensures ListView.Flatten(ListView.PagesUpTo(filtered, RecipesPerPage,
              ListView.TotalPages(|filtered|, RecipesPerPage))) == filtered
  {
    ListView.PageSliceBounded(filtered, currentPage, RecipesPerPage);
    ListView.PagesCoverList(filtered, RecipesPerPage);
  }

  /** The related recipes beside a single recipe: up to twelve others, in loaded order. */
  function RelatedRecipes(all: seq<RecipeDto>, viewedId: int): (related: seq<RecipeDto>)
    ensures |related| <= MaxRelated
    ensures forall r :: r in related ==> r.id != viewedId && r in all
    ensures ListView.IsSubsequence(related, all)
  {
    var others := ListView.Filter(all, (r: RecipeDto) => r.id != viewedId);
    ListView.FilterIsSubsequence(all, (r: RecipeDto) => r.id != viewedId);
    ListView.JsSlicePrefix(others, MaxRelated);
    ListView.PrefixIsSubsequence(others, all, if MaxRelated < |others| then MaxRelated else |others|);
    ListView.JsSlice(others, 0, MaxRelated)
  }

  /**
   * The list state of the page: the loaded recipes and the filter controls.
   * Changing any filter or the sort order sends the page back to 1.
   */
  class RecipesListing {
    var allRecipes: seq<RecipeDto>
    var searchQuery: string
    var selectedCategory: Option<int>
    var cookingTimeFilter: string
    var sortBy: string
    var currentPage: int

    /** The initial state; the category comes from the `category` URL parameter. */
    constructor (categoryParam: Option<int>)
      ensures allRecipes == [] && searchQuery == "" && selectedCategory == categoryParam
      ensures cookingTimeFilter == "all" && sortBy == "newest" && currentPage == 1
    {
      allRecipes := [];
      searchQuery := "";
      selectedCategory := categoryParam;
      cookingTimeFilter := "all";
      sortBy := "newest";
      currentPage := 1;
    }

    function Displayed(): seq<RecipeDto>
      reads this
    {
      FilteredRecipes(allRecipes, searchQuery, selectedCategory, cookingTimeFilter, sortBy)
    }

    function TotalPages(): nat
      reads this
    {
      ListView.TotalPages(|Displayed()|, RecipesPerPage)
    }

    method Load(recipes: seq<RecipeDto>)
      modifies this
      ensures allRecipes == recipes
      ensures searchQuery == old(searchQuery) && selectedCategory == old(selectedCategory)
      ensures cookingTimeFilter == old(cookingTimeFilter) && sortBy == old(sortBy)
      ensures currentPage == old(currentPage)
    {
      allRecipes := recipes;
    }

    method SetSearchQuery(q: string)
      modifies this
      ensures searchQuery == q && currentPage == 1
      ensures allRecipes == old(allRecipes) && selectedCategory == old(selectedCategory)
      ensures cookingTimeFilter == old(cookingTimeFilter) && sortBy == old(sortBy)
    {
      searchQuery := q;
      currentPage := 1;
    }

    method SelectCategory(c: Option<int>)
      modifies this
      ensures selectedCategory == c && currentPage == 1
      ensures allRecipes == old(allRecipes) && searchQuery == old(searchQuery)
      ensures cookingTimeFilter == old(cookingTimeFilter) && sortBy == old(sortBy)
    {
      selectedCategory := c;
      currentPage := 1;
    }

    method SetTimeFilter(f: string)
      modifies this
      ensures cookingTimeFilter == f && currentPage == 1
      ensures allRecipes == old(allRecipes) && searchQuery == old(searchQuery)
      ensures selectedCategory == old(selectedCategory) && sortBy == old(sortBy)
    {
      cookingTimeFilter := f;
      currentPage := 1;
    }

    method SetSortBy(s: string)
      modifies this
      ensures sortBy == s && currentPage == 1
      ensures allRecipes == old(allRecipes) && searchQuery == old(searchQuery)
      ensures selectedCategory == old(selectedCategory) && cookingTimeFilter == old(cookingTimeFilter)
    {
      sortBy := s;
      currentPage := 1;
    }

    method GoToPage(page: int)
      modifies this
      ensures currentPage == page
      ensures allRecipes == old(allRecipes) && searchQuery == old(searchQuery)
      ensures selectedCategory == old(selectedCategory)
      ensures cookingTimeFilter == old(cookingTimeFilter) && sortBy == old(sortBy)
    {
      currentPage := page;
    }

    /** The pager's entries for the current state. */
    method PageNumbers() returns (pages: seq<ListView.PageEntry>)
      ensures pages == ListView.PageWindow(TotalPages(), currentPage)
    {
      pages := ListView.GetPageNumbers(TotalPages(), currentPage);
    }
  }
}
