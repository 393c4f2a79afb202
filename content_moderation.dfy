/**
 * The moderation lists of the admin panel (recipes and blog posts): the
 * status filter, the per-status counts and the record a status change sends.
 * Both pages apply the same rules to their own record type, so the rules are
 * stated once, for any record with an optional status.
 */
module ContentModeration {
  import opened Wrappers
  import ListView

  const AllStatuses := "all"
  const Pending := "PENDING"
  const Published := "PUBLISHED"
  const Rejected := "REJECTED"

  /** `x.status === status`: a record without a status matches no filter. */
  function HasStatus<T>(statusOf: T -> Option<string>, status: string): T -> bool {
    (x: T) => statusOf(x) == Some(status)
  }

  /** The listed records: everything for "all", else exactly the records in that status, in order. */
  function ByStatus<T(==)>(items: seq<T>, statusOf: T -> Option<string>, filter: string): (r: seq<T>)
    ensures filter == AllStatuses ==> r == items
    ensures filter != AllStatuses ==>
      (forall x :: x in r ==> x in items && statusOf(x) == Some(filter))
      && (forall x :: x in items && statusOf(x) == Some(filter) ==> x in r)
      && ListView.IsSubsequence(r, items)
  {
    if filter == AllStatuses then items
    else
      ListView.FilterIsSubsequence(items, HasStatus(statusOf, filter));
      ListView.Filter(items, HasStatus(statusOf, filter))
  }

  datatype StatusCounts = StatusCounts(all: nat, pending: nat, published: nat, rejected: nat)

  /** `statusCounts`: the list length and the number of records in each moderation status. */
  function CountStatuses<T>(items: seq<T>, statusOf: T -> Option<string>): (c: StatusCounts)
    ensures c.all == |items|
    ensures c.pending + c.published + c.rejected <= c.all
  {
    ListView.DisjointCountsBounded(items, HasStatus(statusOf, Pending),
                                   HasStatus(statusOf, Published), HasStatus(statusOf, Rejected));
    StatusCounts(|items|,
                 ListView.Count(items, HasStatus(statusOf, Pending)),
                 ListView.Count(items, HasStatus(statusOf, Published)),
                 ListView.Count(items, HasStatus(statusOf, Rejected)))
  }

  /** Choosing a status in the filter lists exactly as many records as its count says. */
  lemma FilterMatchesCount<T>(items: seq<T>, statusOf: T -> Option<string>)
    ensures |ByStatus(items, statusOf, Pending)| == CountStatuses(items, statusOf).pending
    ensures |ByStatus(items, statusOf, Published)| == CountStatuses(items, statusOf).published
    ensures |ByStatus(items, statusOf, Rejected)| == CountStatuses(items, statusOf).rejected
  {
  }

  function HasId<T>(idOf: T -> int, id: int): T -> bool {
    (x: T) => idOf(x) == id
  }

  /** `items.find(x => x.id === id)`. */
  function FindById<T>(items: seq<T>, idOf: T -> int, id: int): (r: Option<T>)
    ensures r.None? <==> forall x :: x in items ==> idOf(x) != id
    ensures r.Some? ==> exists i :: 0 <= i < |items| && items[i] == r.value && idOf(r.value) == id
                                    && forall j :: 0 <= j < i ==> idOf(items[j]) != id
  {
    var i := ListView.FindIndex(items, HasId(idOf, id));
    if i == -1 then None else Some(items[i])
  }
}
