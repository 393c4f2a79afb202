# Cookbook and blog: a Dafny model

This project models the core of a recipe and blog site. The site has three parts:

- a React storefront (`frontend/`) where visitors browse, filter, sort and page through recipes and posts, keep a wishlist, sign up, log in, edit their profile and submit recipes and posts;
- an admin panel (`cb_admin/`) where staff moderate recipes and posts by status, edit categories, and fill in recipe and post forms, including the ingredient-row editor;
- a Spring backend (`CB_Backend/`). It holds the entities and their transfer objects, the mappers between them, the role and status enums with their parsers, the recipe, blog and login services, and the application-wide exception handler.

How the model is built:

- **Pure code becomes functions and lemmas.** Validation chains, payload builders, filters, sorting, paging, mappers and enum parsers are functions. Each function's contract states what it means, and lemmas relate the functions to each other.
- **Stateful code becomes classes.** A page's `useState` hooks, an entity's fields and a repository's contents become class fields, and the handlers and service operations that change them become methods. Each method's `ensures` states the whole new state in terms of the old one.
- **Repositories are in-memory sequences.** Each keeps the next id its insert assigns.
- **Outside effects are parameters.**
  - The outcome of each HTTP request is passed in, as the body returned or the error thrown.
  - The BCrypt verdict on a password, the BCrypt salt and hash, and the random avatar index are parameters.
  - `LocalDateTime.now()` in the entities' `@PrePersist` hooks is a `now` parameter of the services' `create` and `update`, with timestamps as integers.
  - The browser's `localStorage`, `alert` and navigation are fields that the methods set.
- **Nullable values are explicit.** A nullable Java or JavaScript value is an `Option`. A thrown exception is the `Err` side of a `Result`.
- **Character handling is simplified.** Case mapping covers ASCII letters only. JavaScript `trim`, Java `trim` and Java `isBlank` each use their own whitespace set.

## Model

| member | source | states |
|---|---|---|
| ListView.Filter | frontend/src/pages/Recipes/RecipesPage.tsx:119-144 | `Array.filter`: the result is no longer than the input, keeps exactly the elements satisfying the test, and invents nothing (a sub-multiset of the input) |
| ListView.FilterIsSubsequence | frontend/src/pages/Recipes/RecipesPage.tsx:119-144 | the filtered list is a subsequence of the input: the kept elements stay in their original order |
| ListView.FilterAll | frontend/src/pages/Recipes/RecipesPage.tsx:119-144 | a test that every element passes keeps the whole list unchanged |
| ListView.DisjointCountsBounded | frontend/src/pages/AdminPage/AdminRecipesPage.tsx:57-62 | three mutually exclusive tests together count at most the length of the list |
| ListView.FindIndex | frontend/src/components/Card/Card.tsx:40 | `findIndex`/`indexOf`: -1 exactly when no element matches, otherwise the first matching position |
| ListView.SortByFacts | frontend/src/pages/Recipes/RecipesPage.tsx:145-165 | the comparator sort yields a list ordered by the key that is a permutation of its input |
| ListView.SortByConstantKey | frontend/src/pages/Recipes/RecipesPage.tsx:164 | a comparator that always answers 0 leaves the order as it was (the sort is stable) |
| ListView.JsSlice | frontend/src/pages/Recipes/RecipesPage.tsx:171 | `slice(start, end)` with non-negative bounds is the clamped contiguous run, never longer than the input and made of its elements |
| ListView.JsSlicePrefix | frontend/src/pages/BlogPage/BlogPage.tsx:37 | `slice(0, k)` is the first `min(k, n)` elements |
| ListView.TotalPagesIsCeiling | frontend/src/pages/Recipes/RecipesPage.tsx:168 | `Math.ceil(n / perPage)` is the least number of pages that holds all n items |
| ListView.PageSliceBounded | frontend/src/pages/Recipes/RecipesPage.tsx:169-171 | a page never holds more than `perPage` items |
| ListView.PagesUpToPrefix | frontend/src/pages/Recipes/RecipesPage.tsx:169-171 | pages 1..k laid end to end are the first `min(k * perPage, n)` items |
| ListView.PagesCoverList | frontend/src/pages/Recipes/RecipesPage.tsx:168-171 | pages 1..totalPages laid end to end give back the whole list, each item exactly once |
| ListView.GetPageNumbers | frontend/src/pages/Recipes/RecipesPage.tsx:174-212 | the loops that push page entries build exactly the window `PageWindow(totalPages, currentPage)` |
| ListView.WindowSmall | frontend/src/pages/Recipes/RecipesPage.tsx:178-182 | with at most five pages the window is exactly 1..totalPages |
| ListView.WindowLarge | frontend/src/pages/Recipes/RecipesPage.tsx:183-209 | with more than five pages the window has 6 or 7 entries, starts with 1, ends with totalPages, and a "..." stands only second or second to last |
| ListView.WindowIncreasing | frontend/src/pages/Recipes/RecipesPage.tsx:174-212 | the numeric entries are strictly increasing and all lie in 1..totalPages |
| ListView.WindowHasCurrent | frontend/src/pages/Recipes/RecipesPage.tsx:174-212 | every current page between 1 and totalPages is shown |
| RecipesPage.EffectiveCookTimeChoice | frontend/src/pages/Recipes/RecipesPage.tsx:133 | the effective cook time is `cookTime` when truthy, else `cookingTime` when truthy, else 0 |
| RecipesPage.TimeFiltersPartition | frontend/src/pages/Recipes/RecipesPage.tsx:134-141 | the quick, medium and long filters partition the cook times: every time passes exactly one |
| RecipesPage.KeptRecipesMatch | frontend/src/pages/Recipes/RecipesPage.tsx:119-144 | every shown recipe has the lower-cased query in its lower-cased title or description, the selected category if any, and passes the time filter |
| RecipesPage.FilteredIsPermutedSubsequence | frontend/src/pages/Recipes/RecipesPage.tsx:119-165 | the shown list is a reordering of a subsequence of the loaded recipes: nothing invented or duplicated |
| RecipesPage.NoFiltersKeepAll | frontend/src/pages/Recipes/RecipesPage.tsx:122-143 | an empty query, no category and the "all" filter keep every recipe (as a multiset) |
| RecipesPage.UnknownSortKeepsOrder | frontend/src/pages/Recipes/RecipesPage.tsx:164 | an unrecognised sort value keeps the filtered recipes in loaded order |
| RecipesPage.TimeSortsOrdered | frontend/src/pages/Recipes/RecipesPage.tsx:155-162 | "time-asc" yields non-decreasing and "time-desc" non-increasing effective cook times |
| RecipesPage.NewestFirst | frontend/src/pages/Recipes/RecipesPage.tsx:147-150 | "newest" puts later creation times first |
| RecipesPage.RecipePagesPartition | frontend/src/pages/Recipes/RecipesPage.tsx:168-171 | a page holds at most six recipes and pages 1..totalPages together give back the filtered list |
| RecipesPage.RelatedRecipes | frontend/src/pages/Recipes/RecipesPage.tsx:77-79 | at most twelve related recipes, none with the viewed recipe's id, a subsequence of the loaded ones in loaded order |
| RecipesPage.RecipesListing.constructor | frontend/src/pages/Recipes/RecipesPage.tsx:24-38 | the initial state: no recipes, empty query, the category from the URL, "all" times, "newest" first, page 1 |
| RecipesPage.RecipesListing.Load | frontend/src/pages/Recipes/RecipesPage.tsx:82-87 | loading replaces the recipes and leaves the filter controls alone |
| RecipesPage.RecipesListing.SetSearchQuery | frontend/src/pages/Recipes/RecipesPage.tsx:103-107 | a new query sends the page back to 1 and changes nothing else |
| RecipesPage.RecipesListing.SelectCategory | frontend/src/pages/Recipes/RecipesPage.tsx:103-107 | a new category sends the page back to 1 and changes nothing else |
| RecipesPage.RecipesListing.SetTimeFilter | frontend/src/pages/Recipes/RecipesPage.tsx:103-107 | a new time filter sends the page back to 1 and changes nothing else |
| RecipesPage.RecipesListing.SetSortBy | frontend/src/pages/Recipes/RecipesPage.tsx:103-107 | a new sort order sends the page back to 1 and changes nothing else |
| RecipesPage.RecipesListing.GoToPage | frontend/src/pages/Recipes/RecipesPage.tsx:214-217 | choosing a page changes only the current page |
| RecipesPage.RecipesListing.PageNumbers | frontend/src/pages/Recipes/RecipesPage.tsx:174-212 | the pager shows the window for the displayed list's page count and the current page |
| BlogPage.KeptBlogsMatch | frontend/src/pages/BlogPage/BlogPage.tsx:47-52 | every shown post has the lower-cased query in its lower-cased title or description |
| BlogPage.EmptyQueryKeepsAll | frontend/src/pages/BlogPage/BlogPage.tsx:47-52 | an empty query keeps every post (as a multiset) |
| BlogPage.FilteredIsPermutedSubsequence | frontend/src/pages/BlogPage/BlogPage.tsx:47-73 | the shown list is a reordering of a subsequence of the loaded posts |
| BlogPage.TimeSortsOrdered | frontend/src/pages/BlogPage/BlogPage.tsx:63-71 | the cook-time sorts order by `cookingTime` up or down, a missing value counting as 0 |
| BlogPage.BlogPagesPartition | frontend/src/pages/BlogPage/BlogPage.tsx:81-84 | a page holds at most six posts and the pages together give back the filtered list |
| BlogPage.Sidebar | frontend/src/pages/BlogPage/BlogPage.tsx:37 | the sidebar is the first three loaded recipes, or all of them when fewer |
| BlogPage.BlogListing.constructor | frontend/src/pages/BlogPage/BlogPage.tsx:17-23 | the initial state: no posts, no recipes, empty query, "newest" first, page 1, loading, no error |
| BlogPage.BlogListing.Load | frontend/src/pages/BlogPage/BlogPage.tsx:29-45 | a successful load stores the posts and the sidebar recipes and clears the error; a failed one keeps both lists and shows the thrown message, or "Error loading data" for a non-`Error` value; either way loading ends and the controls are left alone |
| BlogPage.BlogListing.SetSearchQuery | frontend/src/pages/BlogPage/BlogPage.tsx:75-78 | a new query sends the page back to 1 and changes nothing else |
| BlogPage.BlogListing.SetSortBy | frontend/src/pages/BlogPage/BlogPage.tsx:75-78 | a new sort order sends the page back to 1 and changes nothing else |
| BlogPage.BlogListing.GoToPage | frontend/src/pages/BlogPage/BlogPage.tsx:127-130 | choosing a page changes only the current page |
| BlogPage.BlogListing.PageNumbers | frontend/src/pages/BlogPage/BlogPage.tsx:87-125 | the pager shows the window for the displayed list's page count and the current page |
| RecipesSlider.Configure | frontend/src/components/RecipesSlider/RecipesSlider.tsx:33-36 | the visible count is `min(slidesPerView, n)`, so it is at most both; the carousel can slide exactly when n > slidesPerView; loop and autoplay hold exactly when requested and it can slide |
| RecipesSlider.SlidesFor | frontend/src/components/RecipesSlider/RecipesSlider.tsx:39-44 | enough recipes are passed on unchanged; otherwise the list is followed by its first `min(n, max(1, slidesPerView - n))` items |
| RecipesSlider.SlidesExtendInput | frontend/src/components/RecipesSlider/RecipesSlider.tsx:39-44 | the input is always a prefix of the slides, no recipes give no slides, padding adds at least one recipe, and the slides are at most twice the input |
| Card.WishlistStorage.constructor | frontend/src/components/Card/Card.tsx:28-31 | the storage holds the given list or nothing |
| Card.ReadWishlist | frontend/src/components/Card/Card.tsx:28-31 | missing storage reads as the empty list, stored content as itself |
| Card.IndexOf | frontend/src/components/Card/Card.tsx:40 | -1 exactly when the id is absent, otherwise the position of its first occurrence |
| Card.ToggleAbsentAppends | frontend/src/components/Card/Card.tsx:44-45 | an absent id is pushed at the end and every other entry keeps its position |
| Card.TogglePresentRemovesFirst | frontend/src/components/Card/Card.tsx:40-43 | a present id loses only its first occurrence; the entries before and after keep their order |
| Card.ToggleFlipsMembership | frontend/src/components/Card/Card.tsx:39-46 | on a duplicate-free list a toggle flips the membership of the id, keeps every other id's membership and keeps the list duplicate-free |
| Card.DoubleToggleRestoresSet | frontend/src/components/Card/Card.tsx:39-46 | two toggles in a row restore the set of wishlisted ids |
| Card.RecipeCard.constructor | frontend/src/components/Card/Card.tsx:19-26 | the heart starts as the membership of the recipe id in the stored list when a user and a truthy id are present, else empty |
| Card.RecipeCard.Toggle | frontend/src/components/Card/Card.tsx:33-50 | without a user or with a falsy id nothing changes; otherwise the stored list becomes the toggled list and the heart flips |
| Card.HeartTracksMembership | frontend/src/components/Card/Card.tsx:39-49 | a heart that agreed with a duplicate-free stored list still agrees with it after a toggle |
| CreateRecipePage.WithIngredientAdded | frontend/src/pages/CreateRecipePage/CreateRecipePage.tsx:104-114 | exactly one row is appended, the blank one with unit "g", and the earlier rows are kept |
| CreateRecipePage.WithoutIngredient | frontend/src/pages/CreateRecipePage/CreateRecipePage.tsx:116-121 | a valid index removes exactly that row and the rest keep their order; any other index changes nothing |
| CreateRecipePage.ApplyEditChangesOneField | frontend/src/pages/CreateRecipePage/CreateRecipePage.tsx:126 | editing a row changes exactly the edited field |
| CreateRecipePage.WithIngredientUpdated | frontend/src/pages/CreateRecipePage/CreateRecipePage.tsx:123-129 | only the row at the index changes, and it changes by the edit |
| CreateRecipePage.WithCategoryToggled | frontend/src/pages/CreateRecipePage/CreateRecipePage.tsx:391-402 | checking appends the category; unchecking removes every entry with its id and keeps every other entry |
| CreateRecipePage.UncheckKeepsOrder | frontend/src/pages/CreateRecipePage/CreateRecipePage.tsx:398-401 | unchecking leaves the remaining categories in their order |
| CreateRecipePage.CheckSubmission | frontend/src/pages/CreateRecipePage/CreateRecipePage.tsx:138-166 | the submission fails exactly when the title or the text is missing or blank, or the author id is missing or 0 |
| CreateRecipePage.FirstFailureWins | frontend/src/pages/CreateRecipePage/CreateRecipePage.tsx:138-154 | a blank title is reported first, then a blank text, then a missing author |
| CreateRecipePage.SubmissionNormalised | frontend/src/pages/CreateRecipePage/CreateRecipePage.tsx:156-166 | what is submitted has the trimmed, non-empty title and text and exactly the named ingredient rows; every other field is as entered |
| CreateRecipePage.CreateRecipeForm.constructor | frontend/src/pages/CreateRecipePage/CreateRecipePage.tsx:21-33 | the initial form, no error, not loading |
| CreateRecipePage.CreateRecipeForm.AddIngredient | frontend/src/pages/CreateRecipePage/CreateRecipePage.tsx:104-114 | the form's rows become the rows with one blank row added; nothing else changes |
| CreateRecipePage.CreateRecipeForm.RemoveIngredient | frontend/src/pages/CreateRecipePage/CreateRecipePage.tsx:116-121 | the form's rows lose the row at the index; nothing else changes |
| CreateRecipePage.CreateRecipeForm.UpdateIngredient | frontend/src/pages/CreateRecipePage/CreateRecipePage.tsx:123-129 | the form's row at the index is edited; nothing else changes |
| CreateRecipePage.CreateRecipeForm.ToggleCategory | frontend/src/pages/CreateRecipePage/CreateRecipePage.tsx:391-402 | the form's categories are toggled; nothing else changes |
| CreateRecipePage.CreateRecipeForm.HandleSubmit | frontend/src/pages/CreateRecipePage/CreateRecipePage.tsx:131-178 | a failed check shows its message and sends nothing; otherwise exactly the create payload built from the checked, normalised draft is sent (trimmed title and text, named ingredient rows, the other fields passed through), and success navigates to /recipes while a failure shows its message or "Error creating recipe"; loading ends false |
| RecipeApi.CategoryIds | frontend/src/api/recipeApi.ts:120 | the categories reduced to their ids, in order |
| RecipeApi.BuildCreatePayload | frontend/src/api/recipeApi.ts:99-126 | the payload is the one `IsCreatePayload` describes: title and text always; description, photoUrl and cookingTime only when truthy; the author's id only when truthy; category ids only for a non-empty list; ingredients only for a non-empty list, filtered to named rows; no other field exists |
| RecipeApi.CreatePayloadUnique | frontend/src/api/recipeApi.ts:99-126 | that description fixes every field, so a draft has exactly one create payload |
| RecipeApi.PayloadIngredientsAreNamedRows | frontend/src/api/recipeApi.ts:122-126 | the ingredients sent are a subsequence of the rows, all with non-blank names, and include every row with a non-blank name |
| RecipeApi.GetRecipeErrorMessage | frontend/src/api/recipeApi.ts:53-71 | the error thrown for a failed load always has a non-empty message |
| RecipeApi.JsonErrorPrecedence | frontend/src/api/recipeApi.ts:58-60 | a JSON body's `error` wins over its `message`, and both over the default |
| RecipeApi.NonJsonBodyVerbatim | frontend/src/api/recipeApi.ts:61-63 | a non-empty body that is not JSON becomes the message verbatim |
| RecipeApi.EmptyBodyServerError | frontend/src/api/recipeApi.ts:64-69 | an empty or unreadable body yields exactly "Server error: ", the status in decimal, a space and the status text |
| CreateBlogPage.CheckPost | frontend/src/pages/CreateBlogPage/CreateBlogPage.tsx:118-135 | no problem is reported exactly when the title, text and description are non-blank and a non-zero user id is set |
| CreateBlogPage.ChecksInOrder | frontend/src/pages/CreateBlogPage/CreateBlogPage.tsx:118-126 | a blank title is reported first, then a blank text, then a blank description |
| CreateBlogPage.CreateBlogForm.constructor | frontend/src/pages/CreateBlogPage/CreateBlogPage.tsx:15-29 | the initial form, no error, not loading, no selection |
| CreateBlogPage.CreateBlogForm.HandleImageInsert | frontend/src/pages/CreateBlogPage/CreateBlogPage.tsx:86-110 | without a textarea nothing changes; otherwise the text becomes the spliced text and the cursor is placed after the inserted block |
| CreateBlogPage.CreateBlogForm.HandleSubmit | frontend/src/pages/CreateBlogPage/CreateBlogPage.tsx:112-147 | a failed check shows its message and sends nothing; otherwise the form is sent unchanged, success navigates to /blog/<id>, a failure shows its message; loading ends false |
| ImageTag.ClampToLength | frontend/src/pages/CreateBlogPage/CreateBlogPage.tsx:96-100 | an index clamped into the text, unchanged when already inside |
| ImageTag.Substring | frontend/src/pages/CreateBlogPage/CreateBlogPage.tsx:96-100 | `substring` on in-range, ordered bounds is the slice between them |
| ImageTag.InsertTagSplices | frontend/src/pages/CreateBlogPage/CreateBlogPage.tsx:95-107 | the new text is text[..start] + "\n" + tag + "\n" + text[end..]; its length is the old length minus the selection plus the tag plus 2; the cursor start + tag + 2 falls right after the block and before the text that followed the selection |
| ImageTag.InsertAtEndAppends | frontend/src/pages/CreateBlogPage/CreateBlogPage.tsx:95-100 | with the cursor at the end of the text the block is appended |
| SignUpPage.CheckSignUp | frontend/src/pages/SignUpPage/SignUpPage.tsx:36-56 | an accepted sign-up always asks for the role "USER" |
| SignUpPage.SignUpAcceptsIff | frontend/src/pages/SignUpPage/SignUpPage.tsx:35-47 | an account is requested exactly when the username and email are non-blank, the password has at least 6 characters and equals the confirmation |
| SignUpPage.SignUpCheckOrder | frontend/src/pages/SignUpPage/SignUpPage.tsx:36-47 | the first failure is reported: username, then email, then password length, then "Passwords do not match" |
| SignUpPage.NewUserFromForm | frontend/src/pages/SignUpPage/SignUpPage.tsx:49-56 | the account asked for carries exactly the entered username, names, email and password, and no confirmation field |
| SignUpPage.SignUpPageState.constructor | frontend/src/pages/SignUpPage/SignUpPage.tsx:11-20 | an empty form, no error, not loading |
| SignUpPage.SignUpPageState.HandleChange | frontend/src/pages/SignUpPage/SignUpPage.tsx:22-28 | editing sets exactly one field and clears the error |
| SignUpPage.SignUpPageState.HandleSubmit | frontend/src/pages/SignUpPage/SignUpPage.tsx:30-69 | a failed check shows its message and sends nothing; otherwise the account is requested, success signs the new user in and navigates to /, a failure shows its message or "Registration error"; loading ends false |
| LoginPage.CheckLogin | frontend/src/pages/LoginPage/LoginPage.tsx:32-37 | the login is sent exactly when the username is not whitespace only and the password is not empty; a blank username is reported first |
| LoginPage.PasswordNotTrimmed | frontend/src/pages/LoginPage/LoginPage.tsx:35-37 | a password of spaces passes: only the username is trimmed |
| LoginPage.ReadResponse | frontend/src/pages/LoginPage/LoginPage.tsx:41-46 | only a successful answer with a user logs in, as that user; otherwise the answer's message is shown, or "Login error" |
| LoginPage.ShownErrorNonEmpty | frontend/src/pages/LoginPage/LoginPage.tsx:44-46 | the error shown after a refused login is never empty |
| LoginPage.LoginPageState.constructor | frontend/src/pages/LoginPage/LoginPage.tsx:11-16 | empty username and password, no error, not loading |
| LoginPage.LoginPageState.HandleChange | frontend/src/pages/LoginPage/LoginPage.tsx:18-24 | editing sets exactly one field and clears the error |
| LoginPage.LoginPageState.HandleSubmit | frontend/src/pages/LoginPage/LoginPage.tsx:26-53 | a failed check shows its message and sends nothing; otherwise the form is sent and the answer is read as above, a thrown error showing its message or "Login error"; loading ends false |
| ProfilePage.FormFromUser | frontend/src/pages/ProfilePage/ProfilePage.tsx:19-27 | the form shows the account's fields, "" for a missing one, and both password fields empty; no account gives an empty form |
| ProfilePage.CheckProfile | frontend/src/pages/ProfilePage/ProfilePage.tsx:102-115 | no message exactly when username and email are not blank and a typed password has at least 6 characters and equals the confirmation; a message is always one of the four the page shows |
| ProfilePage.ProfileCheckOrder | frontend/src/pages/ProfilePage/ProfilePage.tsx:102-107 | a blank username is reported first, then a blank email |
| ProfilePage.PasswordCheckedOnlyWhenTyped | frontend/src/pages/ProfilePage/ProfilePage.tsx:108-115 | an empty new password skips the password checks; a typed one passes exactly when it has at least 6 characters and equals the confirmation |
| ProfilePage.BuildUpdate | frontend/src/pages/ProfilePage/ProfilePage.tsx:117-131 | the update carries the account's own role and the entered names and email; the password only when typed and the photo only when non-empty |
| ProfilePage.UpdateIsValid | frontend/src/pages/ProfilePage/ProfilePage.tsx:102-131 | an update that passed the checks never sends a blank username or email, nor a short or unconfirmed password |
| ProfilePage.UserRecipes | frontend/src/pages/ProfilePage/ProfilePage.tsx:48 | the statistics count exactly the recipes whose author id is the account's, in listing order |
| ProfilePage.UserBlogs | frontend/src/pages/ProfilePage/ProfilePage.tsx:49 | the statistics count exactly the posts whose author id is the account's, in listing order |
| ProfilePage.CanCreateContent | frontend/src/pages/ProfilePage/ProfilePage.tsx:179 | the "create" links are shown exactly for the name of a role the server lets publish (AUTHOR, ADMIN, MODERATOR) |
| ProfilePage.ProfilePageState.constructor | frontend/src/pages/ProfilePage/ProfilePage.tsx:14-30 | the form is filled from the account, not editing, no banners, no statistics yet and the statistics loading |
| ProfilePage.ProfilePageState.LoadStats | frontend/src/pages/ProfilePage/ProfilePage.tsx:39-58 | on success the statistics become the account's recipes and posts; a failure, which is only logged, keeps both lists; either way the statistics stop loading and nothing else changes |
| ProfilePage.ProfilePageState.HandleChange | frontend/src/pages/ProfilePage/ProfilePage.tsx:76-83 | editing sets exactly one field and clears both banners |
| ProfilePage.ProfilePageState.HandleImageUpload | frontend/src/pages/ProfilePage/ProfilePage.tsx:85-91 | the uploaded path becomes the form's photo and the "click save" notice is shown |
| ProfilePage.ProfilePageState.HandleSubmit | frontend/src/pages/ProfilePage/ProfilePage.tsx:93-153 | without an account nothing happens; a failed check shows its message and sends nothing; otherwise the update is sent, success leaves edit mode and refills the form from the updated account, a failure shows its message or "Error updating profile" |
| ProfilePage.ProfilePageState.HandleCancel | frontend/src/pages/ProfilePage/ProfilePage.tsx:155-168 | cancel leaves edit mode, clears the banners and refills the form from the account with empty password fields |
| ContentModeration.ByStatus | frontend/src/pages/AdminPage/AdminRecipesPage.tsx:53-55 | "all" lists everything unchanged; any other filter lists exactly the records in that status, as a subsequence of the list |
| ContentModeration.CountStatuses | frontend/src/pages/AdminPage/AdminRecipesPage.tsx:57-62 | `all` is the list length and the three status counts sum to at most it |
| ContentModeration.FilterMatchesCount | frontend/src/pages/AdminPage/AdminRecipesPage.tsx:53-62 | for each status the filtered list is exactly as long as its count |
| ContentModeration.FindById | frontend/src/pages/AdminPage/AdminRecipesPage.tsx:32 | `find`: nothing exactly when no record has the id, else the first record that has it |
| AdminRecipesPage.WithStatus | frontend/src/pages/AdminPage/AdminRecipesPage.tsx:35 | the record sent has the new status and differs from the stored one in nothing else |
| AdminRecipesPage.AdminRecipesList.constructor | frontend/src/pages/AdminPage/AdminRecipesPage.tsx:9-12 | mounting starts loading, with no recipes, no error and the "all" filter |
| AdminRecipesPage.AdminRecipesList.SetStatusFilter | frontend/src/pages/AdminPage/AdminRecipesPage.tsx:12 | choosing a filter changes only the filter |
| AdminRecipesPage.AdminRecipesList.Load | frontend/src/pages/AdminPage/AdminRecipesPage.tsx:18-28 | a successful load replaces the list; a failure keeps it and shows the message or "Error loading recipes"; loading ends false |
| AdminRecipesPage.AdminRecipesList.HandleStatusChange | frontend/src/pages/AdminPage/AdminRecipesPage.tsx:30-40 | an unknown id sends nothing and changes nothing; otherwise the stored record with only its status replaced is sent; a success reloads, ending with the new list and the banner kept, or the list kept and the reload's message or "Error loading recipes"; a failed update keeps list and loading and shows its message or "Error updating recipe status" |
| AdminBlogsPage.WithStatus | frontend/src/pages/AdminPage/AdminBlogsPage.tsx:35 | the post sent has the new status and differs from the stored one in nothing else |
| AdminBlogsPage.AdminBlogsList.constructor | frontend/src/pages/AdminPage/AdminBlogsPage.tsx:9-12 | mounting starts loading, with no posts, no error and the "all" filter |
| AdminBlogsPage.AdminBlogsList.SetStatusFilter | frontend/src/pages/AdminPage/AdminBlogsPage.tsx:12 | choosing a filter changes only the filter |
| AdminBlogsPage.AdminBlogsList.Load | frontend/src/pages/AdminPage/AdminBlogsPage.tsx:18-28 | a successful load replaces the list; a failure keeps it and shows the message or the default; loading ends false |
| AdminBlogsPage.AdminBlogsList.HandleStatusChange | frontend/src/pages/AdminPage/AdminBlogsPage.tsx:30-40 | an unknown id sends nothing and changes nothing; otherwise the stored post with only its status replaced is sent; a success reloads, ending with the new list and the banner kept, or the list kept and the reload's message or "Error loading blogs"; a failed update keeps list and loading and shows its message or the default |
| AdminCategoriesPage.FormFor | frontend/src/pages/AdminPage/AdminCategoriesPage.tsx:48-52 | the edit form holds the category's name, and its description and photo or "" when missing |
| AdminCategoriesPage.CategoryEditor.CurrentMode | frontend/src/pages/AdminPage/AdminCategoriesPage.tsx:13-14 | the two flags encode exactly one of idle, creating, and editing the category with `editingId` |
| AdminCategoriesPage.CategoryEditor.constructor | frontend/src/pages/AdminPage/AdminCategoriesPage.tsx:10-19 | the editor starts idle, loading, with an empty form and no banners |
| AdminCategoriesPage.CategoryEditor.StartCreate | frontend/src/pages/AdminPage/AdminCategoriesPage.tsx:37-43 | creating mode with `editingId` null, an empty form and no banners; the mode invariant holds |
| AdminCategoriesPage.CategoryEditor.StartEdit | frontend/src/pages/AdminPage/AdminCategoriesPage.tsx:45-55 | editing the category's id, not creating, the form filled from the category; the mode invariant holds |
| AdminCategoriesPage.CategoryEditor.CancelEdit | frontend/src/pages/AdminPage/AdminCategoriesPage.tsx:57-63 | back to idle with an empty form and no banners; the mode invariant holds |
| AdminCategoriesPage.CategoryEditor.Load | frontend/src/pages/AdminPage/AdminCategoriesPage.tsx:25-35 | a successful load replaces the list; a failure keeps it and shows the message or "Error loading categories" |
| AdminCategoriesPage.CategoryEditor.HandleSubmit | frontend/src/pages/AdminPage/AdminCategoriesPage.tsx:65-88 | a blank name fails with neither create nor update; creating mode sends a create, edit mode an update of `editingId`; a save that succeeds (or nothing to send) reloads and ends idle, a failed save keeps the mode and shows its message; the mode invariant is kept |
| AdminCategoriesPage.FormOrCreateButton | frontend/src/pages/AdminPage/AdminCategoriesPage.tsx:121-133 | exactly one of the form and the "create" button is on screen |
| AdminCategoriesPage.ShownByMode | frontend/src/pages/AdminPage/AdminCategoriesPage.tsx:121-133 | in a consistent state the form is shown while creating or editing and the "create" button exactly while idle |
| AdminRoute.Decide | frontend/src/components/AdminRoute/AdminRoute.tsx:12-25 | while loading the placeholder shows whoever the user is; loaded without a user redirects to /login; a user who is neither ADMIN nor MODERATOR is redirected to / |
| AdminRoute.ChildrenOnlyForStaff | frontend/src/components/AdminRoute/AdminRoute.tsx:12-25 | the admin pages render exactly for a loaded ADMIN or MODERATOR user |
| AdminRecipeForm.InitialRecipe | cb_admin/src/pages/recipe/RecipeForm.jsx:22 | the first state has every default key and every key of the edited record, the record's value winning |
| AdminRecipeForm.CheckOrder | cb_admin/src/pages/recipe/RecipeForm.jsx:52-71 | a blank title is alerted first, then a blank text, then a missing author id; the save goes ahead exactly when title and text are non-blank and the author id is truthy and not an object |
| AdminRecipeForm.CheckRecipe | cb_admin/src/pages/recipe/RecipeForm.jsx:52-71 | no alert exactly when title and text are not blank and the author and its id are truthy with an id that is not an object; an alert is one of the four messages |
| AdminRecipeForm.IdsOnly | cb_admin/src/pages/recipe/RecipeForm.jsx:76-78 | each category becomes an object holding only its id, one for one |
| AdminRecipeForm.SentRow | cb_admin/src/pages/recipe/RecipeForm.jsx:81-85 | a sent row has exactly a name, the quantity or 0.0 when falsy, and the unit or "g" when falsy |
| AdminRecipeForm.SentRows | cb_admin/src/pages/recipe/RecipeForm.jsx:79-85 | the rows are mapped one for one in order |
| AdminRecipeForm.SavedRecipePassThrough | cb_admin/src/pages/recipe/RecipeForm.jsx:73-75 | the record sent keeps every field of the form except author, categories and ingredients, and the author becomes `{id}` |
| AdminRecipeForm.RecipeToSave | cb_admin/src/pages/recipe/RecipeForm.jsx:73-86 | the record sent has the form's keys plus author, categories and ingredients, keeps every other field, and reduces the author to `{id}` |
| AdminRecipeForm.SavedCategoriesAreIds | cb_admin/src/pages/recipe/RecipeForm.jsx:76-78 | the categories sent are as many as the form's, each an object with only an `id` key |
| AdminRecipeForm.SavedIngredientsFilled | cb_admin/src/pages/recipe/RecipeForm.jsx:79-85 | every ingredient sent has a non-blank name, a truthy quantity or 0.0, and a truthy unit |
| AdminRecipeForm.SavedIngredientsAreNamedRows | cb_admin/src/pages/recipe/RecipeForm.jsx:79-85 | the ingredients sent are the named rows, in order, one for one |
| AdminRecipeForm.ChosenAuthor | cb_admin/src/pages/recipe/RecipeForm.jsx:261-266 | the chosen author id is the picked user's id when the pick is a truthy object with a truthy id, and null otherwise |
| AdminRecipeForm.RecipeFormState.constructor | cb_admin/src/pages/recipe/RecipeForm.jsx:22 | the form starts as the defaults overridden by the edited record |
| AdminRecipeForm.RecipeFormState.ChooseAuthor | cb_admin/src/pages/recipe/RecipeForm.jsx:261-266 | the author becomes `{id: chosen id or null}` and nothing else changes |
| AdminRecipeForm.RecipeFormState.SetList | cb_admin/src/pages/recipe/RecipeForm.jsx:268-276 | the category or ingredient editor's list replaces that field and nothing else changes |
| AdminRecipeForm.RecipeFormState.HandleSave | cb_admin/src/pages/recipe/RecipeForm.jsx:50-96 | a failed check alerts its message and sends nothing; otherwise the normalised record is handed to `onSave`, success navigates to /recipes, a failure alerts its message or "Error saving recipe" |
| AdminRecipeForm.UnusableAuthorBlocksSave | cb_admin/src/pages/recipe/RecipeForm.jsx:261-266 | picking an author without a usable id leaves a record that cannot be saved |
| IngredientsEditor.SpliceStart | cb_admin/src/components/IngredientsEditor.jsx:33 | where `splice` starts: an index inside the list is itself, beyond it is the end, a negative one counts from the end |
| IngredientsEditor.RemovedRows | cb_admin/src/components/IngredientsEditor.jsx:31-35 | an index inside the list removes exactly that row and keeps the rest in order; an index past the end removes nothing; -1 drops the last row |
| IngredientsEditor.WithField | cb_admin/src/components/IngredientsEditor.jsx:16 | the row copy has the new field value and every other field of the row |
| IngredientsEditor.Update | cb_admin/src/components/IngredientsEditor.jsx:14-18 | a new array that equals the incoming rows except the edited row, which has only the one field changed; the incoming array is not written |
| IngredientsEditor.Add | cb_admin/src/components/IngredientsEditor.jsx:20-29 | a new array holding the incoming rows followed by one blank row; the incoming array is not written |
| IngredientsEditor.Remove | cb_admin/src/components/IngredientsEditor.jsx:31-35 | a new array holding the incoming rows without the row `splice` removes; the incoming array is not written |
| AdminBlogForm.CheckBlog | cb_admin/src/pages/blog/BlogForm.jsx:58-71 | the save goes ahead exactly when title and text are non-blank and the author has a truthy id; a blank title is alerted first, then a blank text, then a missing author id |
| AdminBlogForm.BlogFormState.constructor | cb_admin/src/pages/blog/BlogForm.jsx:15 | the form starts as the defaults overridden by the edited post |
| AdminBlogForm.BlogFormState.SetText | cb_admin/src/pages/blog/BlogForm.jsx:29-31 | typing replaces only the text |
| AdminBlogForm.BlogFormState.HandleImageInsert | cb_admin/src/pages/blog/BlogForm.jsx:33-56 | without a textarea nothing changes; otherwise the text becomes the spliced text and the cursor is placed after the inserted block |
| AdminBlogForm.BlogFormState.HandleSave | cb_admin/src/pages/blog/BlogForm.jsx:58-76 | a failed check alerts its message and sends nothing; a valid post is handed to `onSave` unchanged and a settled save navigates to /blogs |
| ContentStatus.Name | CB_Backend/src/main/java/com/cb/backend/model/ContentStatus.java:3-6 | each status's name is an upper-case constant name |
| ContentStatus.ValueOf | CB_Backend/src/main/java/com/cb/backend/model/ContentStatus.java:13 | `valueOf` finds a status exactly when the key is its name |
| ContentStatus.FromString | CB_Backend/src/main/java/com/cb/backend/model/ContentStatus.java:8-17 | a null value gives PENDING, and a status other than PENDING comes only from text that trims and upper-cases to its name; parsing never fails |
| ContentStatus.FromStringName | CB_Backend/src/main/java/com/cb/backend/model/ContentStatus.java:8-17 | every status parses back from its own name |
| ContentStatus.FromStringLenient | CB_Backend/src/main/java/com/cb/backend/model/ContentStatus.java:13 | any letter case of a status name, padded with characters `trim` removes, parses to that status |
| ContentStatus.UnknownIsPending | CB_Backend/src/main/java/com/cb/backend/model/ContentStatus.java:14-16 | text naming no status falls back to PENDING |
| Role.Name | CB_Backend/src/main/java/com/cb/backend/model/Role.java:19-23 | each role's name is an upper-case constant name |
| Role.ToString | CB_Backend/src/main/java/com/cb/backend/model/Role.java:50-53 | `toString` is the role's name |
| Role.ValueOf | CB_Backend/src/main/java/com/cb/backend/model/Role.java:41 | `valueOf` finds a role exactly when the key is its name |
| Role.FromString | CB_Backend/src/main/java/com/cb/backend/model/Role.java:36-45 | null gives null; text that trims and upper-cases to a role's name gives that role; any other text throws an IllegalArgumentException whose message quotes the original text |
| Role.FromStringName | CB_Backend/src/main/java/com/cb/backend/model/Role.java:36-53 | a role parses back from `name()` and from `toString()` |
| Role.FromStringLenient | CB_Backend/src/main/java/com/cb/backend/model/Role.java:36-45 | any letter case of a role name, padded with characters `trim` removes, parses to that role |
| RoleConverter.ConvertToDatabaseColumn | CB_Backend/src/main/java/com/cb/backend/converter/RoleConverter.java:32-35 | the column holds the role's name, or null for no role |
| RoleConverter.ConvertToEntityAttribute | CB_Backend/src/main/java/com/cb/backend/converter/RoleConverter.java:48-52 | a null column reads as no role, anything else as `Role.fromString` reads it |
| RoleConverter.RoundTrip | CB_Backend/src/main/java/com/cb/backend/converter/RoleConverter.java:32-52 | a role written to the column and read back is the same role, null included |
| RoleConverter.UnknownColumnFails | CB_Backend/src/main/java/com/cb/backend/converter/RoleConverter.java:46-52 | a column holding text that names no role fails to load, with the message naming the text |
| RecipeIngredientKey.RecipeIngredientKey.Empty | CB_Backend/src/main/java/com/cb/backend/model/RecipeIngredientKey.java:43 | the no-argument constructor leaves both ids null |
| RecipeIngredientKey.RecipeIngredientKey.constructor | CB_Backend/src/main/java/com/cb/backend/model/RecipeIngredientKey.java:51-54 | the key holds the given recipe and product ids |
| RecipeIngredientKey.RecipeIngredientKey.HashCode | CB_Backend/src/main/java/com/cb/backend/model/RecipeIngredientKey.java:78-81 | the hash is `Objects.hash(recipeId, productId)`, always a 32-bit value |
| RecipeIngredientKey.RecipeIngredientKey.SetRecipeId | CB_Backend/src/main/java/com/cb/backend/model/RecipeIngredientKey.java:85 | only the recipe id changes |
| RecipeIngredientKey.RecipeIngredientKey.SetProductId | CB_Backend/src/main/java/com/cb/backend/model/RecipeIngredientKey.java:88 | only the product id changes |
| RecipeIngredientKey.EqualsIffSameIds | CB_Backend/src/main/java/com/cb/backend/model/RecipeIngredientKey.java:69-76 | two keys are equal exactly when both ids agree, null matching null |
| RecipeIngredientKey.EqualsIsEquivalence | CB_Backend/src/main/java/com/cb/backend/model/RecipeIngredientKey.java:69-76 | `equals` is reflexive, symmetric and transitive |
| RecipeIngredientKey.EqualKeysHashAlike | CB_Backend/src/main/java/com/cb/backend/model/RecipeIngredientKey.java:69-81 | equal keys have equal hash codes, as the `equals`/`hashCode` contract demands |
| RecipeIngredientKey.SmallIdsHash | CB_Backend/src/main/java/com/cb/backend/model/RecipeIngredientKey.java:78-81 | for ids below 2^31 the hash is `31 * (31 + recipeId) + productId`, wrapped to 32 bits |
| Distinct.Distinct | CB_Backend/src/main/java/com/cb/backend/service/RecipeService.java:84 | the `LinkedHashSet` copy keeps exactly one copy of each element |
| Distinct.DistinctHasNoDuplicates | CB_Backend/src/main/java/com/cb/backend/service/RecipeService.java:84 | the copy holds no element twice |
| Distinct.DistinctKeepsFirstOccurrenceOrder | CB_Backend/src/main/java/com/cb/backend/service/RecipeService.java:83-84 | the copy keeps the elements in the order of their first occurrences |
| Distinct.DistinctOfDistinct | CB_Backend/src/main/java/com/cb/backend/service/RecipeService.java:84 | a list without repeats is copied as it is |
| Entities.User.constructor | CB_Backend/src/main/java/com/cb/backend/model/User.java:25 | a new user has every field null |
| Entities.Category.constructor | CB_Backend/src/main/java/com/cb/backend/model/Category.java:26 | a new category has every field null |
| Entities.Product.constructor | CB_Backend/src/main/java/com/cb/backend/model/Product.java:25 | a product holds the id and name it was saved with |
| Entities.Ingredient.constructor | CB_Backend/src/main/java/com/cb/backend/model/Ingredient.java:31-66 | a new row has an empty key of its own, unit "g", and no quantity, recipe or product |
| Entities.Recipe.constructor | CB_Backend/src/main/java/com/cb/backend/model/Recipe.java:100-150 | a new recipe is PENDING with empty category and ingredient lists and every other field null |
| Entities.Blog.constructor | CB_Backend/src/main/java/com/cb/backend/model/Blog.java:79 | a new post is PENDING with every other field null |
| Entities.PersistedStatus | CB_Backend/src/main/java/com/cb/backend/model/Recipe.java:164-166 | the status after `onCreate` is always set, and a status already set is kept |
| Entities.Recipe.OnCreate | CB_Backend/src/main/java/com/cb/backend/model/Recipe.java:160-167 | both timestamps become the clock reading, a null status becomes PENDING, and no other field changes |
| Entities.Blog.OnCreate | CB_Backend/src/main/java/com/cb/backend/model/Blog.java:115-121 | both timestamps become the clock reading, a null status becomes PENDING, and no other field changes |
| UserMapper.DefaultAvatarNames | CB_Backend/src/main/java/com/cb/backend/mapper/UserMapper.java:76-78 | the stock avatars are the five files `avatars/default_avatar_00.jpg` to `_04.jpg` |
| UserMapper.DtoOf | CB_Backend/src/main/java/com/cb/backend/mapper/UserMapper.java:33-42 | id, names, photo and creation date are copied; a null username or email becomes ""; the role travels as its name; no password leaves the server |
| UserMapper.ToDto | CB_Backend/src/main/java/com/cb/backend/mapper/UserMapper.java:29-43 | null maps to null, any user to the transfer form of its fields |
| UserMapper.Finish | CB_Backend/src/main/java/com/cb/backend/mapper/UserMapper.java:75-91 | the photo and password steps leave the id, names, email and role alone |
| UserMapper.UpdateEntity | CB_Backend/src/main/java/com/cb/backend/mapper/UserMapper.java:56-92 | the user's new fields and the exception thrown, if any, are those of the update rule (see the lemmas below) |
| UserMapper.NamesOverwritten | CB_Backend/src/main/java/com/cb/backend/mapper/UserMapper.java:57-60 | username, names and email are always overwritten from the transfer object; the id never changes |
| UserMapper.NewUserIsUser | CB_Backend/src/main/java/com/cb/backend/mapper/UserMapper.java:62-66 | a user without an id always becomes USER, whatever role is asked for, and nothing throws |
| UserMapper.ExistingUserRole | CB_Backend/src/main/java/com/cb/backend/mapper/UserMapper.java:67-73 | an existing user keeps the role unless a non-empty one is supplied; a supplied role is parsed; a role name that is unknown throws after the names and email were set and before anything else changes |
| UserMapper.PhotoAndPassword | CB_Backend/src/main/java/com/cb/backend/mapper/UserMapper.java:75-91 | the photo is the supplied one or a stock avatar, the creation date is copied, and salt and hash change exactly when a non-empty password is supplied |
| UserMapper.UpdateWithOwnDtoIsIdentity | CB_Backend/src/main/java/com/cb/backend/mapper/UserMapper.java:29-92 | applying a stored user's own transfer form changes nothing, given an id, a username, an email and a photo |
| RecipeMapper.StatusName | CB_Backend/src/main/java/com/cb/backend/mapper/RecipeMapper.java:52 | the status is reported by name, a null status as PENDING |
| RecipeMapper.StatusAfterUpdate | CB_Backend/src/main/java/com/cb/backend/mapper/RecipeMapper.java:124-128 | a non-empty status is parsed leniently; otherwise a null status becomes PENDING and a set one is kept; the result is never null |
| RecipeMapper.StatusRoundTrip | CB_Backend/src/main/java/com/cb/backend/mapper/RecipeMapper.java:124-128 | sending back the reported status restores it, a null one as PENDING |
| RecipeMapper.ToDto | CB_Backend/src/main/java/com/cb/backend/mapper/RecipeMapper.java:36-82 | every scalar is copied, the status named, the author mapped when present, and both lists mapped one for one in order |
| RecipeMapper.CheckTitleAndText | CB_Backend/src/main/java/com/cb/backend/mapper/RecipeMapper.java:104-109 | the update is refused exactly when the title or the text is null or blank, the title being reported first |
| RecipeMapper.CopyText | CB_Backend/src/main/java/com/cb/backend/mapper/RecipeMapper.java:111-117 | the descriptive fields and times take the transfer object's values and nothing else changes |
| RecipeMapper.CopyNutrition | CB_Backend/src/main/java/com/cb/backend/mapper/RecipeMapper.java:118-123 | the five nutrition facts take the transfer object's values and nothing else changes |
| RecipeMapper.SetStatus | CB_Backend/src/main/java/com/cb/backend/mapper/RecipeMapper.java:124-128 | only the status changes, by the status rule |
| RecipeMapper.SetLinks | CB_Backend/src/main/java/com/cb/backend/mapper/RecipeMapper.java:129-137 | only the update time, author and both lists change |
| RecipeMapper.UpdateEntity | CB_Backend/src/main/java/com/cb/backend/mapper/RecipeMapper.java:98-138 | a null or blank title or text throws before any change; otherwise the scalars, status, author and both lists are replaced and the id and creation time stay |
| RecipeMapper.AcceptedUpdateIsComplete | CB_Backend/src/main/java/com/cb/backend/mapper/RecipeMapper.java:104-128 | an accepted update leaves a non-blank title and text and a status, with the id and creation time kept |
| RecipeMapper.OwnDtoRoundTrip | CB_Backend/src/main/java/com/cb/backend/mapper/RecipeMapper.java:36-138 | sending a recipe's own transfer object back with its own author and lists changes nothing but a null status, which becomes PENDING |
| BlogMapper.ToDto | CB_Backend/src/main/java/com/cb/backend/mapper/BlogMapper.java:26-39 | the author is mapped when present, the status named (null as PENDING) and every other field copied |
| BlogMapper.UpdateEntity | CB_Backend/src/main/java/com/cb/backend/mapper/BlogMapper.java:48-61 | the fields are copied without any check, the author set, the status rule applied, and the id and creation time kept |
| IngredientMapper.ToDto | CB_Backend/src/main/java/com/cb/backend/mapper/IngredientMapper.java:31-42 | the ids come from the key, the name from the product, and quantity and unit are copied |
| IngredientMapper.ToEntity | CB_Backend/src/main/java/com/cb/backend/mapper/IngredientMapper.java:52-85 | `toEntity` and `fromDto` make a new row keyed (recipe id, product id), linked to both, with the given quantity and unit (a null unit replaces "g") |
| IngredientMapper.ProductsOf | CB_Backend/src/main/java/com/cb/backend/mapper/IngredientMapper.java:88-89 | one product per row, in order |
| IngredientMapper.FirstWithId | CB_Backend/src/main/java/com/cb/backend/mapper/IngredientMapper.java:88-92 | the product found has the requested id; none found means every product has another id; a null product or id met first throws a NullPointerException |
| IngredientMapper.FirstWithIdIsFirst | CB_Backend/src/main/java/com/cb/backend/mapper/IngredientMapper.java:91 | the product chosen is the first with that id |
| IngredientMapper.FromDtoWithRecipe | CB_Backend/src/main/java/com/cb/backend/mapper/IngredientMapper.java:87-107 | a new row for the recipe, with the first matching product (or null), keyed (recipe id, requested product id), with the given quantity and unit; the search's exception is passed on |
| IngredientMapper.UpdateEntity | CB_Backend/src/main/java/com/cb/backend/mapper/IngredientMapper.java:116-121 | quantity, unit and product are replaced and the row's own key object now names the new product, its recipe half unchanged |
| UserRepository.FindUser | CB_Backend/src/main/java/com/cb/backend/service/AuthService.java:128 | the user found has the id; none found means no user has it |
| AuthService.FindByUsername | CB_Backend/src/main/java/com/cb/backend/service/AuthService.java:79-81 | the result sits at some index of the stored users, matches ignoring case, and no earlier user matches (findFirst); none when no user matches |
| AuthService.Login | CB_Backend/src/main/java/com/cb/backend/service/AuthService.java:69-110 | a response carries a user exactly when it succeeds, and then its message is the success message |
| AuthService.Authenticate | CB_Backend/src/main/java/com/cb/backend/service/AuthService.java:83-105 | after the lookup, success needs an existing user with a non-empty hash that the password matches; an unknown user and a wrong password get the same refusal |
| AuthService.LoginSucceedsIff | CB_Backend/src/main/java/com/cb/backend/service/AuthService.java:69-110 | a login succeeds exactly when the username is non-blank, the password non-empty, the user found, the hash set and the password matches, and then it carries that user's transfer form |
| AuthService.UsernameCheckedFirst | CB_Backend/src/main/java/com/cb/backend/service/AuthService.java:71-73 | a blank username is refused before the password is looked at |
| AuthService.UnknownUserLooksLikeWrongPassword | CB_Backend/src/main/java/com/cb/backend/service/AuthService.java:83-98 | an unknown username and a wrong password give the same response, so it does not reveal which usernames exist |
| AuthService.GetCurrentUser | CB_Backend/src/main/java/com/cb/backend/service/AuthService.java:123-135 | nothing for a null or unknown id, else the transfer form of the user with that id |
| RecipeService.FindCategory | CB_Backend/src/main/java/com/cb/backend/service/RecipeService.java:145-146 | the category found has the id; none found means no stored category has it |
| RecipeService.FindRecipe | CB_Backend/src/main/java/com/cb/backend/service/RecipeService.java:207-208 | the recipe found has the id; none found means no stored recipe has it |
| RecipeService.FindProductByName | CB_Backend/src/main/java/com/cb/backend/repository/ProductRepository.java:32 | the product found has the name in some letter case; none found means no stored product has it |
| RecipeService.FindProductByNameIsFirst | CB_Backend/src/main/java/com/cb/backend/repository/ProductRepository.java:32 | the product found is the first stored one with the name: no earlier stored product has it |
| RecipeService.FindProductByNameOnlyMatch | CB_Backend/src/main/java/com/cb/backend/repository/ProductRepository.java:32 | when no two stored names are equal ignoring case, any stored product with the name is the one found, so the single-result query has one row to return |
| RecipeService.FindProductByNameExtended | CB_Backend/src/main/java/com/cb/backend/service/RecipeService.java:275-283 | storing more products does not change what a name already finds |
| RecipeService.FindProductByNameAppended | CB_Backend/src/main/java/com/cb/backend/service/RecipeService.java:275-283 | a name found nowhere finds the product stored after the others |
| RecipeService.ResolveCategories | CB_Backend/src/main/java/com/cb/backend/service/RecipeService.java:138-148 | the categories resolved are one per entry, in order, each the stored category with the entry's id; an error is the failure of some entry |
| RecipeService.CategoryFailure | CB_Backend/src/main/java/com/cb/backend/service/RecipeService.java:142-146 | an entry resolves exactly when it has an id under which a category is stored |
| RecipeService.CategoriesResolveIffNoneFails | CB_Backend/src/main/java/com/cb/backend/service/RecipeService.java:138-148 | all entries resolve exactly when none fails |
| RecipeService.FirstCategoryFailureWins | CB_Backend/src/main/java/com/cb/backend/service/RecipeService.java:140-148 | the first failing entry decides the error |
| RecipeService.JoinRows | CB_Backend/src/main/java/com/cb/backend/repository/RecipeRepository.java:28-35 | the join's rows hold exactly the stored recipes, each once per category or once without any |
| RecipeService.WithStatus | CB_Backend/src/main/java/com/cb/backend/repository/RecipeRepository.java:34-35 | the query returns exactly the stored recipes in that status |
| RecipeService.DistinctUndoesJoin | CB_Backend/src/main/java/com/cb/backend/service/RecipeService.java:82-84 | with no recipe stored twice, removing the join's repeats gives back the stored recipes once each, in store order |
| RecipeService.WithStatusHasNoDuplicates | CB_Backend/src/main/java/com/cb/backend/repository/RecipeRepository.java:34-35 | selecting one status keeps a list free of repeats |
| RecipeService.FirstRowErrorNoneIff | CB_Backend/src/main/java/com/cb/backend/service/RecipeService.java:270-288 | the rows build without error exactly when no row fails |
| RecipeService.FirstFailingRow | CB_Backend/src/main/java/com/cb/backend/service/RecipeService.java:270-288 | the first failing row decides the error |
| RecipeService.FirstRowErrorStep | CB_Backend/src/main/java/com/cb/backend/service/RecipeService.java:270 | one more row reports the earlier rows' error or else its own |
| RecipeService.FirstRowErrorOfPrefix | CB_Backend/src/main/java/com/cb/backend/service/RecipeService.java:270-288 | once a row has failed, later rows do not change the error |
| RecipeService.RowErrorAfterStore | CB_Backend/src/main/java/com/cb/backend/service/RecipeService.java:277-287 | a product the loop creates, having an id, never makes a later row fail |
| RecipeService.RowsBuiltExtended | CB_Backend/src/main/java/com/cb/backend/service/RecipeService.java:275-283 | products created later do not change the product an earlier row was built with |
| RecipeService.NamesOf | CB_Backend/src/main/java/com/cb/backend/service/RecipeService.java:270-276 | the names the rows look up: one trimmed name per row that names a product, in row order, so never more names than rows |
| RecipeService.RowsTried | CB_Backend/src/main/java/com/cb/backend/service/RecipeService.java:270-288 | the rows the loop reaches: a prefix of the rows, ending with the first failing one |
| RecipeService.RowsTriedUpToFailure | CB_Backend/src/main/java/com/cb/backend/service/RecipeService.java:270-288 | when row k is the first to fail, the loop reaches exactly the rows up to and including it |
| RecipeService.NamesOfStep | CB_Backend/src/main/java/com/cb/backend/service/RecipeService.java:270-276 | the names of one more row are the earlier rows' names followed by that row's |
| RecipeService.HasIgnoringCaseAt | CB_Backend/src/main/java/com/cb/backend/repository/ProductRepository.java:32 | a list holds a name in some letter case exactly when some position holds it |
| RecipeService.NewNamesAreNew | CB_Backend/src/main/java/com/cb/backend/service/RecipeService.java:275-283 | the names the loop stores products for come from the rows, none is found among the products stored before, and no two are equal ignoring case |
| RecipeService.NewNamesCover | CB_Backend/src/main/java/com/cb/backend/service/RecipeService.java:275-283 | every name the rows look up is found before or is among the names the loop stores, in some letter case |
| RecipeService.NewNamesStep | CB_Backend/src/main/java/com/cb/backend/service/RecipeService.java:275-283 | one more name is stored exactly when neither the products stored before nor the earlier new names have it |
| RecipeService.FindAfterStored | CB_Backend/src/main/java/com/cb/backend/service/RecipeService.java:275-283 | once products are stored under new names, a lookup finds nothing exactly when it found nothing before and no new name matches |
| RecipeService.StoredUnderKeepsUnique | CB_Backend/src/main/java/com/cb/backend/service/RecipeService.java:275-283 | storing products under the new names keeps the stored names unique ignoring case |
| RecipeService.StoredUnderLookup | CB_Backend/src/main/java/com/cb/backend/service/RecipeService.java:275-283 | a lookup that finds a product stores nothing, and one that finds none stores one product under the name and the next id: the new names of that one name |
| RecipeService.NewNamesOneMore | CB_Backend/src/main/java/com/cb/backend/service/RecipeService.java:275-283 | the new names of one more name are the earlier new names followed by those it has against the products stored so far |
| RecipeService.StoredUnderConcat | CB_Backend/src/main/java/com/cb/backend/service/RecipeService.java:275-283 | products stored under some names and then, under the following ids, under more names are stored under both lists in order |
| RecipeService.StoredUnderOneMore | CB_Backend/src/main/java/com/cb/backend/service/RecipeService.java:275-283 | the products stored for one more name extend, under the following ids, those stored for the names before it |
| RecipeService.StoredUnderNextRow | CB_Backend/src/main/java/com/cb/backend/service/RecipeService.java:270-283 | the products one more row stores extend, under the following ids, those stored for the rows before it |
| RecipeService.StoreGrownAdds | CB_Backend/src/main/java/com/cb/backend/service/RecipeService.java:270-283 | each product the loop adds has the name of a row tried that no product had before and the next id in turn, no two added products share a name ignoring case, and afterwards every row tried finds a stored product |
| RecipeService.StoreGrownAll | CB_Backend/src/main/java/com/cb/backend/service/RecipeService.java:270-283 | when no row fails, the store is grown for the names of all the rows |
| RecipeService.StoreGrownKeepsUnique | CB_Backend/src/main/java/com/cb/backend/service/RecipeService.java:270-283 | the loop keeps the product names unique ignoring case |
| RecipeService.RowsStoredStep | CB_Backend/src/main/java/com/cb/backend/service/RecipeService.java:270-310 | a passing row keeps the store in step with one more row; a failing row, after passing ones, is the first failure and leaves the store grown for the rows tried |
| RecipeService.RowsStoredAll | CB_Backend/src/main/java/com/cb/backend/service/RecipeService.java:270-310 | when every row has passed, none fails and the store is grown for all of them |
| RecipeService.RowsBuiltAppended | CB_Backend/src/main/java/com/cb/backend/service/RecipeService.java:270-310 | appending the next row's ingredient, after more products are stored, keeps every row's ingredient built from its row |
| RecipeService.AppendIngredients | CB_Backend/src/main/java/com/cb/backend/service/RecipeService.java:162-164 | the ingredients are appended to the recipe's list and nothing else changes |
| RecipeService.WithoutId | CB_Backend/src/main/java/com/cb/backend/service/RecipeService.java:239-242 | deleting keeps exactly the recipes with another id, in order |
| RecipeService.DeletedRecipeIsGone | CB_Backend/src/main/java/com/cb/backend/service/RecipeService.java:239-242 | after deleting an id, looking it up finds nothing |
| RecipeService.DeleteKeepsOtherLookups | CB_Backend/src/main/java/com/cb/backend/service/RecipeService.java:239-242 | deleting an id does not change what any other id finds |
| RecipeService.ProductRepository.constructor | CB_Backend/src/main/java/com/cb/backend/service/RecipeService.java:275-283 | the repository holds the given products and next id |
| RecipeService.ProductRepository.FindOrCreate | CB_Backend/src/main/java/com/cb/backend/service/RecipeService.java:275-283 | a name already stored gives that product and stores nothing; an unknown one stores a new product with that name under the next id; names that were unique ignoring case stay so |
| RecipeService.RecipeRepository.constructor | CB_Backend/src/main/java/com/cb/backend/service/RecipeService.java:153 | the repository holds the given recipes and next id |
| RecipeService.RecipeRepository.Save | CB_Backend/src/main/java/com/cb/backend/service/RecipeService.java:153 | a recipe without an id is stored under the next id, stamped by `onCreate` with the clock reading; one with an id is written back and nothing changes |
| RecipeService.RecipeRepository.DeleteById | CB_Backend/src/main/java/com/cb/backend/service/RecipeService.java:241 | the recipes with that id are removed; an unknown id is ignored |
| RecipeService.CheckCreate | CB_Backend/src/main/java/com/cb/backend/service/RecipeService.java:123-148 | a missing author id is refused first, then an unknown author, then a role that may not publish, then the first bad category; passing yields the author and the resolved categories |
| RecipeService.CreateAllowedIff | CB_Backend/src/main/java/com/cb/backend/service/RecipeService.java:123-148 | `create` passes its checks exactly when the author is stored with a role that may publish and every category entry names a stored category |
| RecipeService.RoleCheckedBeforeCategories | CB_Backend/src/main/java/com/cb/backend/service/RecipeService.java:131-136 | an author whose role may not publish is refused before any category is looked up |
| RecipeService.CheckUpdate | CB_Backend/src/main/java/com/cb/backend/service/RecipeService.java:207-218 | an unknown recipe is refused first; passing yields the stored recipe, the author under the given id and the resolved categories |
| RecipeService.UpdateAllowedIff | CB_Backend/src/main/java/com/cb/backend/service/RecipeService.java:207-218 | `update` passes its checks exactly when recipe and author are stored and every category entry names a stored category, whatever the author's role |
| RecipeService.Listed | CB_Backend/src/main/java/com/cb/backend/service/RecipeService.java:75-81 | the recipes read are stored ones: all of them, or those in the status |
| RecipeService.ListingIsStoreOrder | CB_Backend/src/main/java/com/cb/backend/service/RecipeService.java:74-92 | with no recipe stored twice, the listing is exactly the stored recipes (or those in the status) in store order |
| RecipeService.RecipeService.constructor | CB_Backend/src/main/java/com/cb/backend/service/RecipeService.java:50-61 | the service holds the given repositories |
| RecipeService.RecipeService.NewIngredient | CB_Backend/src/main/java/com/cb/backend/service/RecipeService.java:289-309 | a new row keyed by the recipe's and product's ids, quantity 0.0 when absent, unit "g" unless a non-blank one is given |
| RecipeService.RecipeService.IngredientForRow | CB_Backend/src/main/java/com/cb/backend/service/RecipeService.java:270-309 | one row fails exactly as the row rule says; otherwise its new ingredient carries the product stored under the row's trimmed name; the store grows by one product exactly when the row names a product not found before (by at most one otherwise), that product has the trimmed name and the next id, and names unique ignoring case stay unique |
| RecipeService.RecipeService.BuildStep | CB_Backend/src/main/java/com/cb/backend/service/RecipeService.java:270-310 | one loop pass appends row k's ingredient to those built so far, keeping the store grown for the rows so far, or reports row k's error, which is then the first failing row's, with the store grown for the rows tried |
| RecipeService.RecipeService.BuildIngredients | CB_Backend/src/main/java/com/cb/backend/service/RecipeService.java:270-310 | the loop fails exactly with the first failing row's error; otherwise it gives one ingredient per row, in order, each built from its row; either way the store is the old one followed by one new product per distinct new name of the rows tried (`StoreGrown`), with consecutive ids |
| RecipeService.RecipeService.CreateIngredientsForRecipe | CB_Backend/src/main/java/com/cb/backend/service/RecipeService.java:261-314 | no rows give no ingredients and store nothing; rows for a recipe without an id fail and store nothing; otherwise the loop's result and store (`StoreGrown`); names unique ignoring case stay unique |
| RecipeService.RecipeService.AddAndSave | CB_Backend/src/main/java/com/cb/backend/service/RecipeService.java:162-166 | the built ingredients become the recipe's list and the save stores nothing new |
| RecipeService.RecipeService.ToDto | CB_Backend/src/main/java/com/cb/backend/service/RecipeService.java:185 | the transfer form reports the recipe's fields and id |
| RecipeService.RecipeService.AttachIngredients | CB_Backend/src/main/java/com/cb/backend/service/RecipeService.java:156-185 | a failing row leaves the recipe without ingredients and reports the first failing row; otherwise the recipe holds one built ingredient per row and is converted; the product store grows as the loop grows it (`StoreGrown`) and names unique ignoring case stay unique |
| RecipeService.RecipeService.SaveBuilt | CB_Backend/src/main/java/com/cb/backend/service/RecipeService.java:157-185 | built ingredients, if any, are added and saved; then the recipe is converted |
| RecipeService.RecipeService.Create | CB_Backend/src/main/java/com/cb/backend/service/RecipeService.java:118-195 | a failed check or a blank title or text stores nothing; otherwise exactly one new recipe is stored under the next id, filled from the transfer object and with both timestamps the clock reading, a failing row leaves it stored without ingredients, and the product store grows by one product per distinct new name of the rows tried (`StoreGrown`); names unique ignoring case stay unique |
| RecipeService.RecipeService.StoreNew | CB_Backend/src/main/java/com/cb/backend/service/RecipeService.java:150-153 | a blank title or text stores nothing; otherwise a new recipe filled from the transfer object is stored under the next id with no ingredients, both timestamps the clock reading |
| RecipeService.RecipeService.Update | CB_Backend/src/main/java/com/cb/backend/service/RecipeService.java:205-232 | a failed check or a blank title or text changes no recipe and stores no product; otherwise only the stored recipe is overwritten, its ingredients rebuilt from the rows, no recipe is added, and the product store grows by one product per distinct new name of the rows tried (`StoreGrown`); names unique ignoring case stay unique |
| RecipeService.RecipeService.FindAllByStatus | CB_Backend/src/main/java/com/cb/backend/service/RecipeService.java:70-92 | one transfer form per recipe of the query's rows with repeats removed, in first-occurrence order |
| RecipeService.RecipeService.DropRepeats | CB_Backend/src/main/java/com/cb/backend/service/RecipeService.java:84 | the `LinkedHashSet` copy is the rows without repeats, in first-occurrence order |
| RecipeService.RecipeService.ToDtos | CB_Backend/src/main/java/com/cb/backend/service/RecipeService.java:89-91 | one transfer form per recipe, in order |
| RecipeService.RecipeService.FindById | CB_Backend/src/main/java/com/cb/backend/service/RecipeService.java:100-109 | a transfer form exactly when a recipe is stored under the id, reporting that recipe |
| RecipeService.RecipeService.DeleteById | CB_Backend/src/main/java/com/cb/backend/service/RecipeService.java:239-242 | every recipe stored under the id is removed, the others kept in order |
| BlogService.FindBlog | CB_Backend/src/main/java/com/cb/backend/service/BlogService.java:75 | the post found has the id; none found means no stored post has it |
| BlogService.WithStatus | CB_Backend/src/main/java/com/cb/backend/repository/BlogRepository.java:27-28 | the query returns exactly the stored posts in that status |
| BlogService.WithStatusKeepsOrder | CB_Backend/src/main/java/com/cb/backend/repository/BlogRepository.java:27-28 | selecting one status keeps the posts in store order |
| BlogService.FindAuthor | CB_Backend/src/main/java/com/cb/backend/service/BlogService.java:94-95 | the author is found exactly when the transfer object names a stored user by a non-null id, and is that user |
| BlogService.CreateAllowedIff | CB_Backend/src/main/java/com/cb/backend/service/BlogService.java:94-103 | `create` passes its checks exactly when the author is found and has a role that may publish; a found author with another role or none is refused with the role message |
| BlogService.CheckCreate | CB_Backend/src/main/java/com/cb/backend/service/BlogService.java:94-103 | the checks pass exactly when the author id names a stored user whose role may publish, and then give that user |
| BlogService.CheckUpdate | CB_Backend/src/main/java/com/cb/backend/service/BlogService.java:125-129 | `update` checks the author first and the post second, failing with the first missing one; passing yields both |
| BlogService.BlogRepository.constructor | CB_Backend/src/main/java/com/cb/backend/service/BlogService.java:34-37 | the repository holds the given posts and next id |
| BlogService.BlogRepository.Save | CB_Backend/src/main/java/com/cb/backend/service/BlogService.java:107 | a post without an id is stored under the next id, stamped by `onCreate` with the clock reading; one with an id is written back unchanged; no other field changes |
| BlogService.BlogService.constructor | CB_Backend/src/main/java/com/cb/backend/service/BlogService.java:34-37 | the service holds the given users and repository |
| BlogService.BlogService.FindAllByStatus | CB_Backend/src/main/java/com/cb/backend/service/BlogService.java:45-65 | one transfer form per post, in order: every stored post for no status, else only those in the status, each reporting it |
| BlogService.BlogService.FindById | CB_Backend/src/main/java/com/cb/backend/service/BlogService.java:74-78 | a transfer form exactly when a post is stored under the id, and it is that post's |
| BlogService.BlogService.Create | CB_Backend/src/main/java/com/cb/backend/service/BlogService.java:92-108 | a failed check stores nothing; otherwise exactly one new post is stored under the next id, with the author, the transfer object's fields unchecked, the status rule applied to PENDING, and both timestamps the clock reading |
| BlogService.BlogService.Update | CB_Backend/src/main/java/com/cb/backend/service/BlogService.java:123-132 | a failed check changes nothing; otherwise only the stored post is overwritten (author, fields, status rule), its id and creation time kept, and no post is added |
| ExceptionHandler.Distance | CB_Backend/src/main/java/com/cb/backend/GlobalExceptionHandler.java:34-104 | a class is zero steps from itself and only from itself |
| ExceptionHandler.HandlerFor | CB_Backend/src/main/java/com/cb/backend/GlobalExceptionHandler.java:34-104 | only checked exceptions reach the general handler and only a missing entity reaches the not-found handler |
| ExceptionHandler.HandlerForIsNearest | CB_Backend/src/main/java/com/cb/backend/GlobalExceptionHandler.java:34-104 | the handler chosen for each exception handles one of its superclasses, nearer than any other handler that does |
| ExceptionHandler.DataIntegrity | CB_Backend/src/main/java/com/cb/backend/GlobalExceptionHandler.java:34-50 | always 400; it throws exactly when the cause has no message; without a cause the message is empty; with one, the message is non-empty exactly when the cause mentions ORA-00001 |
| ExceptionHandler.NotReadable | CB_Backend/src/main/java/com/cb/backend/GlobalExceptionHandler.java:53-62 | 400 with the cause's message when there is one, else the fixed message |
| ExceptionHandler.RuntimeFailure | CB_Backend/src/main/java/com/cb/backend/GlobalExceptionHandler.java:65-78 | 400 with the message when it is non-empty, else a non-empty fixed message |
| ExceptionHandler.EntityMissing | CB_Backend/src/main/java/com/cb/backend/GlobalExceptionHandler.java:86-91 | 404 with the message; a null message makes the handler throw |
| ExceptionHandler.General | CB_Backend/src/main/java/com/cb/backend/GlobalExceptionHandler.java:99-104 | 500 with the message, or the fixed message when it is null |
| ExceptionHandler.StatusByKind | CB_Backend/src/main/java/com/cb/backend/GlobalExceptionHandler.java:34-104 | a checked exception alone gets 500, a missing entity alone 404, and every other exception 400 |
| ExceptionHandler.HandlerThrowsIff | CB_Backend/src/main/java/com/cb/backend/GlobalExceptionHandler.java:37-90 | the handler itself throws exactly for a data-integrity cause without a message or a missing entity without one |
| ExceptionHandler.Handle | CB_Backend/src/main/java/com/cb/backend/GlobalExceptionHandler.java:34-104 | every answer is 400, 404 or 500, and the handler itself throws only for a data-integrity violation or a missing entity |
| ExceptionHandler.RuntimeMessagePassedOn | CB_Backend/src/main/java/com/cb/backend/GlobalExceptionHandler.java:65-78 | a runtime, illegal-argument or null-pointer exception's non-empty message reaches the client with 400 |
| ExceptionHandler.ContainsLower | CB_Backend/src/main/java/com/cb/backend/GlobalExceptionHandler.java:38 | a text containing a word still contains it once both are lower-cased |
| ExceptionHandler.LowerOfLower | CB_Backend/src/main/java/com/cb/backend/GlobalExceptionHandler.java:38-40 | lower-casing a lower-case word leaves it as it is |
| ExceptionHandler.MentionIgnoringCase | CB_Backend/src/main/java/com/cb/backend/GlobalExceptionHandler.java:38-40 | a text containing any spelling of a lower-case word contains the word once lower-cased |
| ExceptionHandler.EmailReportedFirst | CB_Backend/src/main/java/com/cb/backend/GlobalExceptionHandler.java:37-39 | a unique-constraint violation mentioning an email column in any letter case is reported as a taken email, even when it also mentions a username |
| ExceptionHandler.UsernameReportedSecond | CB_Backend/src/main/java/com/cb/backend/GlobalExceptionHandler.java:40-41 | without an email mention, a username mention in any letter case is reported as a taken username |

## Left out

- Rendering, styling, routing components, the Quill editors, the file and image uploaders and `parseDirections` are not modelled: they only display data or call libraries.
- Network requests, `console` output, logging and `printStackTrace` are left out. Each request appears only as its outcome, passed in as a parameter.
- Dates are abstract integers, and quantities and nutrition facts are Dafny reals. Floating-point rounding is not modelled.
- Transactions are not modelled, and nothing is rolled back. A failing ingredient row leaves the recipe stored, as the service code does without a transaction manager.
- RecipeService.RecipeService.Update: the `@PreUpdate` hook `onUpdate` (Recipe.java:175-178) is not modelled, so `updatedAt` keeps the value the mapper copied from the transfer object. Whether and when that hook runs depends on Hibernate flushing a dirty entity, and the model has no session or flush.
- BlogService.BlogService.Update: the `@PreUpdate` hook `onUpdate` (Blog.java:130-133) is not modelled, for the same reason; `updatedAt` keeps the value copied from the transfer object.
- RecipeService.RecipeService.Create: the second save, after the ingredients are added, does not run `onUpdate` either. The recipe keeps the timestamps `onCreate` gave it.
- RecipeService.RecipeService.Create: the second save, after the ingredients are added, never fails in the model, so its failure path (RecipeService.java:175-181), which rethrows a `RuntimeException` whose message is "Ошибка при сохранении ингредиентов: " followed by the cause's message (or the exception's own), is not modelled. In particular two rows naming the same product (equal ignoring case) give two ingredients with the same key, which that save can refuse; the model keeps both.
- RecipeService.FindProductByName: returns the first stored product with the name ignoring case. Spring Data's single-result query instead throws `IncorrectResultSizeDataAccessException` when two stored names differ only in case, which the case-sensitive unique constraint on the name allows, and `create`/`update` then fail. The two agree whenever `NamesUniqueIgnoringCase` holds (`FindProductByNameOnlyMatch`), and `FindOrCreate` keeps that property, as do the ingredient loop, `create` and `update` (`StoreGrownKeepsUnique`).
- Js.BlankText: a truthy value that is not a string counts as not blank. In JavaScript `.trim()` on such a value throws a `TypeError`; the forms only ever hold strings or empty values there.
- Js.ItemsOf: a value that is not an array gives no items. In JavaScript `.map` or `.filter` on such a value throws a `TypeError`; the forms only ever hold arrays or empty values there.
- Hibernate's session is not modelled. That covers dirty checking, orphan removal and lazy loading. `update`'s `deleteAll` and `clear` on the list `updateEntity` has just emptied change nothing here.
- `Product` is immutable: no core operation changes a stored product.
- RecipeService.RecipeRepository.Save: writing back a recipe with an id never stored is not modelled as JPA's merge-insert. The recipe is left as it is.
- RecipeService.RecipeService.FindAllByStatus: requires every stored ingredient row to have its product loaded, where Java would throw a NullPointerException.
- RecipeService.RecipeService.FindById: requires every stored ingredient row to have its product loaded, where Java would throw a NullPointerException.
- RecipeService.RecipeService.BuildIngredients: does not state that the ingredients built are newly allocated, only what each one holds.
- RecipeService.RecipeService.CreateIngredientsForRecipe: does not state that the ingredients built are newly allocated, only what each one holds.
- RecipeService.RecipeService.AttachIngredients: does not state that the ingredients built are newly allocated, only what each one holds.
- RecipeService.RecipeService.Create: does not state that the ingredients built are newly allocated, only what each one holds.
- RecipeService.RecipeService.Update: does not state that the ingredients built are newly allocated, only what each one holds.
- RecipeService.RecipeService.FindAllByStatus: the duplicate rows are the join's rows as modelled by `JoinRows` (one per category). Hibernate's actual row order is not modelled.
- AuthService.Login: the catch-all `catch (Exception e)` is modelled only for the password check, the one step that can throw here. A null request is not modelled.
- AuthService.GetCurrentUser: its catch-all is not modelled, because the lookup cannot throw here.
- What Spring does when an exception handler itself throws is not modelled. `ExceptionHandler.Handle` answers `Err` with the exception the handler throws.
- Case mapping is ASCII only. Java's `toUpperCase`/`toLowerCase`/`equalsIgnoreCase` and JavaScript's `toLowerCase` also map non-ASCII letters.
- Password and text lengths are counted in characters, not UTF-16 code units.
- ProfilePage.ProfilePageState.HandleSubmit: the `refreshUser` call of the auth context after a save is not modelled, so the signed-in user record stays as it was.
- The admin pages' `handleDelete` handlers and the `loadData` effects are not modelled beyond the state a load leaves: they only call the API and reload.
- IngredientsEditor.Update: requires the edited index to be within the list. The editor only offers indices of existing rows.
- Clients use two JSON keys for a recipe's categories. The backend's getter carries `@JsonProperty("categoryDtos")` (RecipeDto.java:109-110), and the storefront reads that same key (recipeApi.ts:36, RecipesPage.tsx:129). The storefront's create payload sends them under `categoriesDto` (recipeApi.ts:120), and so does the admin panel, which also reads that key (RecipeForm.jsx:76, RecipeViewPage.jsx:44). `categoriesDto` is not the backend's JSON name for the getter. The model keeps each client's own key and does not model how the backend reads an incoming body.
- The blog integration test expects a USER-role author to be able to create a post. `BlogService.create` refuses that role. The service code is modelled.
