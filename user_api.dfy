/** The shape of a user account as the frontend receives it. */
module UserApi {
  import opened Wrappers

  datatype UserDto = UserDto(
    id: int, username: string, firstName: Option<string>, lastName: Option<string>,
    email: string, role: string, photoUrl: Option<string>)
}
