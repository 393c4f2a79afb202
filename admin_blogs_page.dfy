/** The admin panel's list of blog posts: loading, the status filter and counts, and status changes. */
module AdminBlogsPage {
  import opened Wrappers
  import opened BlogApi
  import opened ContentModeration

  const LoadFailed := "Error loading blogs"
  const UpdateFailed := "Error updating blog status"

  function BlogStatus(): BlogDto -> Option<string> {
    (x: BlogDto) => x.status
  }

  function BlogId(): BlogDto -> int {
    (x: BlogDto) => x.id
  }

  /** The outcome of a listing request. */
  datatype LoadOutcome = Loaded(items: seq<BlogDto>) | LoadThrew(message: string) | LoadThrewNonError

  /** The outcome of the update request. */
  datatype UpdateOutcome = UpdateOk | UpdateThrew(message: string) | UpdateThrewNonError

  /** The record a status change sends: the stored one with only its status replaced. */
  function WithStatus(blog: BlogDto, newStatus: string): (sent: BlogDto)
    ensures sent.status == Some(newStatus)
    ensures sent.(status := blog.status) == blog
  {
    blog.(status := Some(newStatus))
  }

  class AdminBlogsList {
    var blogs: seq<BlogDto>
    var loading: bool
    var error: Option<string>
    var statusFilter: string

    /** Mounting starts in the loading state with the "all" filter. */
    constructor ()
      ensures blogs == [] && loading && error == None && statusFilter == AllStatuses
    {
      blogs := [];
      loading := true;
      error := None;
      statusFilter := AllStatuses;
    }

    function Filtered(): seq<BlogDto>
      reads this
    {
      ByStatus(blogs, BlogStatus(), statusFilter)
    }

    function Counts(): StatusCounts
      reads this
    {
      CountStatuses(blogs, BlogStatus())
    }

    method SetStatusFilter(filter: string)
      modifies this
      ensures statusFilter == filter
      ensures blogs == old(blogs) && loading == old(loading) && error == old(error)
    {
      statusFilter := filter;
    }

    /** The listing request's effect: the new list, or the error banner with the list kept. */
    method Load(outcome: LoadOutcome)
      modifies this
      ensures !loading && statusFilter == old(statusFilter)
      ensures outcome.Loaded? ==> blogs == outcome.items && error == old(error)
      ensures outcome.LoadThrew? ==> blogs == old(blogs) && error == Some(outcome.message)
      ensures outcome.LoadThrewNonError? ==> blogs == old(blogs) && error == Some(LoadFailed)
    {
      loading := true;
      match outcome {
        case Loaded(items) =>
          blogs := items;
        case LoadThrew(message) =>
          error := Some(message);
        case LoadThrewNonError =>
          error := Some(LoadFailed);
      }
      loading := false;
    }

    /**
     * `handleStatusChange`: `update` is the update request's outcome and
     * `reload` the outcome of the listing request that follows a success.
     */
    method HandleStatusChange(id: int, newStatus: string, update: UpdateOutcome, reload: LoadOutcome)
      returns (sent: Option<BlogDto>)
      modifies this
      ensures var found := FindById(old(blogs), BlogId(), id);
        && (found.None? ==> sent == None)
        && (found.Some? ==> sent == Some(WithStatus(found.value, newStatus)))
      ensures statusFilter == old(statusFilter)
      ensures FindById(old(blogs), BlogId(), id).None? ==>
        blogs == old(blogs) && error == old(error) && loading == old(loading)
      ensures FindById(old(blogs), BlogId(), id).Some? && update.UpdateOk? ==>
        && !loading
        && (reload.Loaded? ==> blogs == reload.items && error == old(error))
        && (reload.LoadThrew? ==> blogs == old(blogs) && error == Some(reload.message))
        && (reload.LoadThrewNonError? ==> blogs == old(blogs) && error == Some(LoadFailed))
      ensures FindById(old(blogs), BlogId(), id).Some? && !update.UpdateOk? ==>
        blogs == old(blogs) && loading == old(loading)
        && error == Some(if update.UpdateThrew? then update.message else UpdateFailed)
    {
      var found := FindById(blogs, BlogId(), id);
      if found.None? {
        return None;
      }
      sent := Some(WithStatus(found.value, newStatus));
      match update {
        case UpdateOk =>
          Load(reload);
        case UpdateThrew(message) =>
          error := Some(message);
        case UpdateThrewNonError =>
          error := Some(UpdateFailed);
      }
    }
  }
}
