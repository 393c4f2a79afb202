/** The admin panel's list of recipes: loading, the status filter and counts, and status changes. */
module AdminRecipesPage {
  import opened Wrappers
  import opened RecipeApi
  import opened ContentModeration

  const LoadFailed := "Error loading recipes"
  const UpdateFailed := "Error updating recipe status"

  function RecipeStatus(): RecipeDto -> Option<string> {
    (x: RecipeDto) => x.status
  }

  function RecipeId(): RecipeDto -> int {
    (x: RecipeDto) => x.id
  }

  /** The outcome of a listing request. */
  datatype LoadOutcome = Loaded(items: seq<RecipeDto>) | LoadThrew(message: string) | LoadThrewNonError

  /** The outcome of the update request. */
  datatype UpdateOutcome = UpdateOk | UpdateThrew(message: string) | UpdateThrewNonError

  /** The record a status change sends: the stored one with only its status replaced. */
  function WithStatus(recipe: RecipeDto, newStatus: string): (sent: RecipeDto)
    ensures sent.status == Some(newStatus)
    ensures sent.(status := recipe.status) == recipe
  {
    recipe.(status := Some(newStatus))
  }

  class AdminRecipesList {
    var recipes: seq<RecipeDto>
    var loading: bool
    var error: Option<string>
    var statusFilter: string

    /** Mounting starts in the loading state with the "all" filter. */
    constructor ()
      ensures recipes == [] && loading && error == None && statusFilter == AllStatuses
    {
      recipes := [];
      loading := true;
      error := None;
      statusFilter := AllStatuses;
    }

    function Filtered(): seq<RecipeDto>
      reads this
    {
      ByStatus(recipes, RecipeStatus(), statusFilter)
    }

    function Counts(): StatusCounts
      reads this
    {
      CountStatuses(recipes, RecipeStatus())
    }

    method SetStatusFilter(filter: string)
      modifies this
      ensures statusFilter == filter
      ensures recipes == old(recipes) && loading == old(loading) && error == old(error)
    {
      statusFilter := filter;
    }

    /** The listing request's effect: the new list, or the error banner with the list kept. */
    method Load(outcome: LoadOutcome)
      modifies this
      ensures !loading && statusFilter == old(statusFilter)
      ensures outcome.Loaded? ==> recipes == outcome.items && error == old(error)
      ensures outcome.LoadThrew? ==> recipes == old(recipes) && error == Some(outcome.message)
      ensures outcome.LoadThrewNonError? ==> recipes == old(recipes) && error == Some(LoadFailed)
    {
      loading := true;
      match outcome {
        case Loaded(items) =>
          recipes := items;
        case LoadThrew(message) =>
          error := Some(message);
        case LoadThrewNonError =>
          error := Some(LoadFailed);
      }
      loading := false;
    }

    /**
     * `handleStatusChange`: `update` is the update request's outcome and
     * `reload` the outcome of the listing request that follows a success.
     */
    method HandleStatusChange(id: int, newStatus: string, update: UpdateOutcome, reload: LoadOutcome)
      returns (sent: Option<RecipeDto>)
      modifies this
      ensures var found := FindById(old(recipes), RecipeId(), id);
        && (found.None? ==> sent == None)
        && (found.Some? ==> sent == Some(WithStatus(found.value, newStatus)))
      ensures statusFilter == old(statusFilter)
      ensures FindById(old(recipes), RecipeId(), id).None? ==>
        recipes == old(recipes) && error == old(error) && loading == old(loading)
      ensures FindById(old(recipes), RecipeId(), id).Some? && update.UpdateOk? ==>
        && !loading
        && (reload.Loaded? ==> recipes == reload.items && error == old(error))
        && (reload.LoadThrew? ==> recipes == old(recipes) && error == Some(reload.message))
        && (reload.LoadThrewNonError? ==> recipes == old(recipes) && error == Some(LoadFailed))
      ensures FindById(old(recipes), RecipeId(), id).Some? && !update.UpdateOk? ==>
        recipes == old(recipes) && loading == old(loading)
        && error == Some(if update.UpdateThrew? then update.message else UpdateFailed)
    {
      var found := FindById(recipes, RecipeId(), id);
      if found.None? {
        return None;
      }
      sent := Some(WithStatus(found.value, newStatus));
      match update {
        case UpdateOk =>
          Load(reload);
        case UpdateThrew(message) =>
          error := Some(message);
        case UpdateThrewNonError =>
          error := Some(UpdateFailed);
      }
    }
  }
}
