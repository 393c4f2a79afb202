/** How a role is stored in its database column and read back. */
module RoleConverter {
  import opened Wrappers
  import opened JavaLang
  import Role

  /** `convertToDatabaseColumn`: the role's name, or null. */
  function ConvertToDatabaseColumn(role: Option<Role.Role>): (column: Option<string>)
    ensures column.None? <==> role.None?
    ensures role.Some? ==> column == Some(Role.Name(role.value))
  {
    if role.Some? then Some(Role.Name(role.value)) else None
  }

  /** `convertToEntityAttribute`: null reads as null, anything else goes through `Role.fromString`. */
  function ConvertToEntityAttribute(column: Option<string>): (r: Result<Option<Role.Role>, Exception>)
    ensures column.None? ==> r == Ok(None)
    ensures column.Some? ==> r == Role.FromString(column)
  {
    if column.None? then Ok(None) else Role.FromString(column)
  }

  /** Writing a role and reading it back gives the same role, null included. */
  lemma RoundTrip(role: Option<Role.Role>)
    ensures ConvertToEntityAttribute(ConvertToDatabaseColumn(role)) == Ok(role)
  {
    if role.Some? {
      Role.FromStringName(role.value);
    }
  }

  /** A column holding anything but a role name fails to load, with the message naming the text. */
  lemma UnknownColumnFails(column: string)
    requires forall x :: ParseKey(column) != Role.Name(x)
    ensures ConvertToEntityAttribute(Some(column)) == Err(Role.UnknownRole(column))
  {
  }
}
