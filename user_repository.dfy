/** The user lookups the services share. */
module UserRepository {
  import opened Wrappers
  import opened Entities

  /** `userRepo.findById(id)`. */
  function FindUser(users: seq<User>, id: int): (u: User?)
    reads users
    ensures u != null ==> u in users && u.id == Some(id)
    ensures u == null ==> forall v :: v in users ==> v.id != Some(id)
  {
    if users == [] then null
    else if users[0].id == Some(id) then users[0]
    else FindUser(users[1..], id)
  }
}
