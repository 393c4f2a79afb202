/** User roles, their strict parser and their text form. */
module Role {
  import opened Wrappers
  import opened Text
  import opened JavaLang

  datatype Role = USER | AUTHOR | MODERATOR | ADMIN

  /** `name()`, which `toString()` also returns. */
  function Name(r: Role): (n: string)
    ensures IsConstantName(n)
  {
    match r
    case USER => "USER"
    case AUTHOR => "AUTHOR"
    case MODERATOR => "MODERATOR"
    case ADMIN => "ADMIN"
  }

  /** `toString()`. */
  function ToString(r: Role): (s: string)
    ensures s == Name(r)
  {
    Name(r)
  }

  /** `Role.valueOf`: the constant with exactly this name, if any. */
  function ValueOf(key: string): (r: Option<Role>)
    ensures r.None? ==> forall x :: Name(x) != key
    ensures r.Some? ==> Name(r.value) == key
  {
    if key == "USER" then Some(USER)
    else if key == "AUTHOR" then Some(AUTHOR)
    else if key == "MODERATOR" then Some(MODERATOR)
    else if key == "ADMIN" then Some(ADMIN)
    else None
  }

  function UnknownRole(value: string): Exception {
    Exception(IllegalArgument, Some("Unknown role: " + value), None)
  }

  /**
   * `fromString`: null gives null, a role name (trimmed, any case) gives
   * that role, and anything else throws an IllegalArgumentException that
   * quotes the original text.
   */
  function FromString(value: Option<string>): (r: Result<Option<Role>, Exception>)
    ensures value.None? <==> r == Ok(None)
    ensures r.Ok? && r.value.Some? ==> value.Some? && ParseKey(value.value) == Name(r.value.value)
    ensures r.Err? <==> value.Some? && forall x :: ParseKey(value.value) != Name(x)
    ensures r.Err? ==> r.error == UnknownRole(value.value)
  {
    if value.None? then Ok(None)
    else
      match ValueOf(ParseKey(value.value))
      case Some(role) => Ok(Some(role))
      case None => Err(UnknownRole(value.value))
  }

  /** `fromString(r.name())` and `fromString(r.toString())` give `r` back. */
  lemma FromStringName(r: Role)
    ensures FromString(Some(Name(r))) == Ok(Some(r))
    ensures FromString(Some(ToString(r))) == Ok(Some(r))
  {
    ParseKeyOfName(Name(r));
  }

  /** Parsing ignores letter case and the padding `trim` removes. */
  lemma FromStringLenient(pre: string, v: string, post: string, r: Role)
    requires EqualsIgnoreCase(v, Name(r))
    requires AllSpace(pre, JavaSpaces) && AllSpace(post, JavaSpaces)
    ensures FromString(Some(pre + v + post)) == Ok(Some(r))
  {
    ParseKeyOfVariant(pre, v, post, Name(r));
  }

  /** The roles allowed to publish recipes and posts. */
  predicate CanCreateContent(r: Option<Role>) {
    r == Some(AUTHOR) || r == Some(ADMIN) || r == Some(MODERATOR)
  }
}
