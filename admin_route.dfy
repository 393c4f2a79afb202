/** The gate in front of every admin page. */
module AdminRoute {
  import opened Wrappers
  import opened UserApi

  datatype Gate = Placeholder | RedirectTo(path: string) | RenderChildren

  predicate IsStaff(role: string) {
    role == "ADMIN" || role == "MODERATOR"
  }

  /** What the route renders for the authentication state. */
  function Decide(loading: bool, user: Option<UserDto>): (g: Gate)
    ensures loading ==> g == Placeholder
    ensures !loading && user.None? ==> g == RedirectTo("/login")
    ensures !loading && user.Some? && !IsStaff(user.value.role) ==> g == RedirectTo("/")
  {
    if loading then Placeholder
    else if user.None? then RedirectTo("/login")
    else if !IsStaff(user.value.role) then RedirectTo("/")
    else RenderChildren
  }

  /** The admin pages render only for a loaded administrator or moderator. */
  lemma ChildrenOnlyForStaff(loading: bool, user: Option<UserDto>)
    ensures Decide(loading, user) == RenderChildren <==>
      !loading && user.Some? && (user.value.role == "ADMIN" || user.value.role == "MODERATOR")
  {
  }
}
