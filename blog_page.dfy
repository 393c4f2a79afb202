/**
 * The blog listing page: search over title and description, the sort
 * orders, six posts per page, the page-number window, and the three-recipe
 * sidebar.
 */
module BlogPage {
  import opened Wrappers
  import opened Text
  import opened RecipeApi
  import opened BlogApi
  import ListView

  const PostsPerPage := 6
  const SidebarRecipes := 3

  /** `blog.cookingTime || 0`. */
  function BlogCookTime(b: BlogDto): int {
    NumOr(b.cookingTime, Some(0)).value
  }

  predicate MatchesSearch(b: BlogDto, query: string) {
    Contains(ToLower(b.title), ToLower(query)) || Contains(ToLower(b.description), ToLower(query))
  }

  function MatchesFn(query: string): BlogDto -> bool {
    b => MatchesSearch(b, query)
  }

  function SortKey(sortBy: string): BlogDto -> int {
    if sortBy == "newest" then (b: BlogDto) => -b.createdAt
    else if sortBy == "oldest" then (b: BlogDto) => b.createdAt
    else if sortBy == "time-asc" then (b: BlogDto) => BlogCookTime(b)
    else if sortBy == "time-desc" then (b: BlogDto) => -BlogCookTime(b)
    else (b: BlogDto) => 0
  }

  /** `filteredBlogs`. */
  function FilteredBlogs(blogs: seq<BlogDto>, query: string, sortBy: string): seq<BlogDto> {
    ListView.SortBy(ListView.Filter(blogs, MatchesFn(query)), SortKey(sortBy))
  }

  /** Every shown post has the query, ignoring case, in its title or its description. */
  lemma KeptBlogsMatch(blogs: seq<BlogDto>, query: string, sortBy: string)
    ensures forall b :: b in FilteredBlogs(blogs, query, sortBy) ==> MatchesSearch(b, query)
  {
    var kept := ListView.Filter(blogs, MatchesFn(query));
    ListView.SortByFacts(kept, SortKey(sortBy));
    forall b | b in FilteredBlogs(blogs, query, sortBy)
      ensures MatchesSearch(b, query)
    {
      assert b in multiset(kept);
    }
  }

  /** An empty search keeps every post. */
  lemma EmptyQueryKeepsAll(blogs: seq<BlogDto>, sortBy: string)
    ensures multiset(FilteredBlogs(blogs, "", sortBy)) == multiset(blogs)
  {
    forall b | b in blogs
      ensures MatchesSearch(b, "")
    {
      ContainsEmpty(ToLower(b.title));
    }
    ListView.FilterAll(blogs, MatchesFn(""));
    ListView.SortByFacts(blogs, SortKey(sortBy));
  }

  /** The shown list is a reordering of a subsequence of the loaded posts. */
  lemma FilteredIsPermutedSubsequence(blogs: seq<BlogDto>, query: string, sortBy: string)
    ensures exists sub :: ListView.IsSubsequence(sub, blogs) && multiset(sub) == multiset(FilteredBlogs(blogs, query, sortBy))
  {
    var kept := ListView.Filter(blogs, MatchesFn(query));
    ListView.FilterIsSubsequence(blogs, MatchesFn(query));
    ListView.SortByFacts(kept, SortKey(sortBy));
    assert ListView.IsSubsequence(kept, blogs) && multiset(kept) == multiset(FilteredBlogs(blogs, query, sortBy));
  }

  /** The cook-time sorts order by `cookingTime`, a missing value counting as 0. */
  lemma TimeSortsOrdered(blogs: seq<BlogDto>, query: string)
    ensures var up := FilteredBlogs(blogs, query, "time-asc");
      forall i, j :: 0 <= i < j < |up| ==> BlogCookTime(up[i]) <= BlogCookTime(up[j])
    ensures var down := FilteredBlogs(blogs, query, "time-desc");
      forall i, j :: 0 <= i < j < |down| ==> BlogCookTime(down[i]) >= BlogCookTime(down[j])
    ensures forall b: BlogDto :: b.cookingTime.None? ==> BlogCookTime(b) == 0
  {
    var kept := ListView.Filter(blogs, MatchesFn(query));
    ListView.SortByFacts(kept, SortKey("time-asc"));
    ListView.SortByFacts(kept, SortKey("time-desc"));
  }

  /** `currentBlogs`. */
  function CurrentBlogs(filtered: seq<BlogDto>, currentPage: int): seq<BlogDto> {
    ListView.PageSlice(filtered, currentPage, PostsPerPage)
  }

  /** Pages hold at most six posts and together give back the filtered list, each post once. */
  lemma BlogPagesPartition(filtered: seq<BlogDto>, currentPage: int)
    ensures |CurrentBlogs(filtered, currentPage)| <= PostsPerPage
    ensures ListView.Flatten(ListView.PagesUpTo(filtered, PostsPerPage,
              ListView.TotalPages(|filtered|, PostsPerPage))) == filtered
  {
    ListView.PageSliceBounded(filtered, currentPage, PostsPerPage);
    ListView.PagesCoverList(filtered, PostsPerPage);
  }

  /** The sidebar: the first three loaded recipes. */
  function Sidebar(recipes: seq<RecipeDto>): (side: seq<RecipeDto>)
    ensures side == recipes[..ListView.Min(SidebarRecipes, |recipes|)]
  {
    ListView.JsSlice(recipes, 0, SidebarRecipes)
  }

  /** What the two requests of `loadData` gave: both lists, or a rejection with an `Error`'s message, or one with another value. */
  datatype LoadOutcome = Loaded(blogs: seq<BlogDto>, recipes: seq<RecipeDto>) | LoadThrew(message: string) | LoadThrewNonError

  const LoadErrorText := "Error loading data"

  /** The list state of the page; a new query or sort order returns to page 1. */
  class BlogListing {
    var blogs: seq<BlogDto>
    var recipes: seq<RecipeDto>
    var loading: bool
    var error: Option<string>
    var searchQuery: string
    var sortBy: string
    var currentPage: int

    constructor ()
      ensures blogs == [] && recipes == [] && loading && error == None
      ensures searchQuery == "" && sortBy == "newest" && currentPage == 1
    {
      blogs := [];
      recipes := [];
      loading := true;
      error := None;
      searchQuery := "";
      sortBy := "newest";
      currentPage := 1;
    }

    function Displayed(): seq<BlogDto>
      reads this
    {
      FilteredBlogs(blogs, searchQuery, sortBy)
    }

    function TotalPages(): nat
      reads this
    {
      ListView.TotalPages(|Displayed()|, PostsPerPage)
    }

    /**
     * `loadData`: on success stores the posts, keeps three recipes for the
     * sidebar and clears the error; a failure keeps both lists and shows
     * the error's message, or "Error loading data"; either way loading ends.
     */
    method Load(outcome: LoadOutcome)
      modifies this
      ensures !loading
      ensures outcome.Loaded? ==> blogs == outcome.blogs && recipes == Sidebar(outcome.recipes) && error == None
      ensures outcome.LoadThrew? ==> blogs == old(blogs) && recipes == old(recipes) && error == Some(outcome.message)
      ensures outcome.LoadThrewNonError? ==> blogs == old(blogs) && recipes == old(recipes) && error == Some(LoadErrorText)
      ensures searchQuery == old(searchQuery) && sortBy == old(sortBy) && currentPage == old(currentPage)
    {
      loading := true;
      match outcome {
        case Loaded(loadedBlogs, loadedRecipes) =>
          blogs := loadedBlogs;
          recipes := Sidebar(loadedRecipes);
          error := None;
        case LoadThrew(message) =>
          error := Some(message);
        case LoadThrewNonError =>
          error := Some(LoadErrorText);
      }
      loading := false;
    }

    method SetSearchQuery(q: string)
      modifies this
      ensures searchQuery == q && currentPage == 1
      ensures blogs == old(blogs) && recipes == old(recipes) && sortBy == old(sortBy)
      ensures loading == old(loading) && error == old(error)
    {
      searchQuery := q;
      currentPage := 1;
    }

    method SetSortBy(s: string)
      modifies this
      ensures sortBy == s && currentPage == 1
      ensures blogs == old(blogs) && recipes == old(recipes) && searchQuery == old(searchQuery)
      ensures loading == old(loading) && error == old(error)
    {
      sortBy := s;
      currentPage := 1;
    }

    method GoToPage(page: int)
      modifies this
      ensures currentPage == page
      ensures blogs == old(blogs) && recipes == old(recipes) && loading == old(loading) && error == old(error)
      ensures searchQuery == old(searchQuery) && sortBy == old(sortBy)
    {
      currentPage := page;
    }

    method PageNumbers() returns (pages: seq<ListView.PageEntry>)
      ensures pages == ListView.PageWindow(TotalPages(), currentPage)
    {
      pages := ListView.GetPageNumbers(TotalPages(), currentPage);
    }
  }
}
