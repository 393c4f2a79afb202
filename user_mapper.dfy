/**
 * Converting users to their transfer form and applying a transfer object to
 * a user: new users always become USER, an existing user's role changes only
 * when one is supplied, a missing photo gets one of five stock avatars, and
 * the password hash changes only when a password is supplied.  BCrypt's salt
 * and hash and the random avatar index are parameters.
 */
module UserMapper {
  import opened Wrappers
  import opened Text
  import opened JavaLang
  import Role
  import opened Entities
  import opened Dto

  /** The stock avatar for index `n`. */
  function DefaultAvatar(n: nat): string
    requires n < 5
  {
    "avatars/default_avatar_0" + NatToString(n) + ".jpg"
  }

  /** The stock avatars are the five files 00 to 04. */
  lemma DefaultAvatarNames(n: nat)
    requires n < 5
    ensures DefaultAvatar(n) in {"avatars/default_avatar_00.jpg", "avatars/default_avatar_01.jpg",
      "avatars/default_avatar_02.jpg", "avatars/default_avatar_03.jpg", "avatars/default_avatar_04.jpg"}
  {
    assert NatToString(n) == ["0123456789"[n]];
    if n == 0 {
      assert DefaultAvatar(n) == "avatars/default_avatar_00.jpg";
    } else if n == 1 {
      assert DefaultAvatar(n) == "avatars/default_avatar_01.jpg";
    } else if n == 2 {
      assert DefaultAvatar(n) == "avatars/default_avatar_02.jpg";
    } else if n == 3 {
      assert DefaultAvatar(n) == "avatars/default_avatar_03.jpg";
    } else {
      assert DefaultAvatar(n) == "avatars/default_avatar_04.jpg";
    }
  }

  /** `toDto` on a user's fields. */
  function DtoOf(f: UserFields): (dto: UserDto)
    ensures dto.id == f.id && dto.firstName == f.firstName && dto.lastName == f.lastName
    ensures dto.username == Some(f.username.GetOr("")) && dto.email == Some(f.email.GetOr(""))
    ensures dto.role.None? <==> f.role.None?
    ensures f.role.Some? ==> dto.role == Some(Role.Name(f.role.value))
    ensures dto.photoUrl == f.photoUrl && dto.createdAt == f.createdAt
    ensures dto.password.None?
  {
    UserDto(
      f.id, Some(f.username.GetOr("")), f.firstName, f.lastName, Some(f.email.GetOr("")),
      if f.role.Some? then Some(Role.Name(f.role.value)) else None,
      f.photoUrl, None, f.createdAt)
  }

  /**
   * `toDto`: null for null; otherwise username and email are never null
   * (a null becomes ""), the role travels as its name, and neither the
   * password nor its hash leaves the server.
   */
  function ToDto(user: User?): (dto: Option<UserDto>)
    reads user
    ensures dto.None? <==> user == null
    ensures dto.Some? ==> dto.value == DtoOf(user.Fields())
  {
    if user == null then None else Some(DtoOf(user.Fields()))
  }

  /** The user's fields after `updateEntity`, and the exception it threw, if any. */
  datatype Update = Update(fields: UserFields, thrown: Option<Exception>)

  /** The photo, creation date and password steps that follow the role step. */
  function Finish(f: UserFields, dto: UserDto, avatar: nat, salt: string, hashpw: (string, string) -> string): (r: UserFields)
    requires avatar < 5
    ensures r.id == f.id && r.username == f.username && r.firstName == f.firstName
    ensures r.lastName == f.lastName && r.email == f.email && r.role == f.role
  {
    var withPhoto := f.(
      photoUrl := if NonEmpty(dto.photoUrl) then dto.photoUrl else Some(DefaultAvatar(avatar)),
      createdAt := dto.createdAt);
    if NonEmpty(dto.password) then
      withPhoto.(passwordSalt := Some(salt), passwordHash := Some(hashpw(dto.password.value, salt)))
    else withPhoto
  }

  /** `updateEntity` on a user's fields; an unknown role name throws after the names and email were already set. */
  function Updated(f: UserFields, dto: UserDto, avatar: nat, salt: string, hashpw: (string, string) -> string): Update
    requires avatar < 5
  {
    var named := f.(username := dto.username, firstName := dto.firstName, lastName := dto.lastName, email := dto.email);
    if f.id.None? then
      Update(Finish(named.(role := Some(Role.USER)), dto, avatar, salt, hashpw), None)
    else if !NonEmpty(dto.role) then
      Update(Finish(named, dto, avatar, salt, hashpw), None)
    else
      match Role.FromString(dto.role)
      case Ok(r) => Update(Finish(named.(role := r), dto, avatar, salt, hashpw), None)
      case Err(e) => Update(named, Some(e))
  }

  /**
   * `updateEntity(user, dto)`.  `avatar` is the random index in 0..4, `salt`
   * what `BCrypt.gensalt()` returns and `hashpw` stands for `BCrypt.hashpw`.
   */
  method UpdateEntity(user: User, dto: UserDto, avatar: nat, salt: string, hashpw: (string, string) -> string)
    returns (thrown: Option<Exception>)
    requires avatar < 5
    modifies user
    ensures Update(user.Fields(), thrown) == Updated(old(user.Fields()), dto, avatar, salt, hashpw)
  {
    user.username := dto.username;
    user.firstName := dto.firstName;
    user.lastName := dto.lastName;
    user.email := dto.email;
    if user.id.None? {
      user.role := Some(Role.USER);
    } else if NonEmpty(dto.role) {
      var parsed := Role.FromString(dto.role);
      if parsed.Err? {
        return Some(parsed.error);
      }
      user.role := parsed.value;
    }
    if !NonEmpty(dto.photoUrl) {
      user.photoUrl := Some(DefaultAvatar(avatar));
    } else {
      user.photoUrl := dto.photoUrl;
    }
    user.createdAt := dto.createdAt;
    if NonEmpty(dto.password) {
      user.passwordSalt := Some(salt);
      user.passwordHash := Some(hashpw(dto.password.value, salt));
    }
    return None;
  }

  /** Username, names and email are always overwritten from the transfer object; the id never changes. */
  lemma NamesOverwritten(f: UserFields, dto: UserDto, avatar: nat, salt: string, hashpw: (string, string) -> string)
    requires avatar < 5
    ensures var u := Updated(f, dto, avatar, salt, hashpw).fields;
      && u.id == f.id && u.username == dto.username && u.firstName == dto.firstName
      && u.lastName == dto.lastName && u.email == dto.email
  {
  }

  /** A user without an id is new and always becomes USER, whatever role the transfer object asks for. */
  lemma NewUserIsUser(f: UserFields, dto: UserDto, avatar: nat, salt: string, hashpw: (string, string) -> string)
    requires avatar < 5
    requires f.id.None?
    ensures Updated(f, dto, avatar, salt, hashpw).fields.role == Some(Role.USER)
    ensures Updated(f, dto, avatar, salt, hashpw).thrown.None?
  {
  }

  /**
   * An existing user keeps the stored role unless a non-empty role is
   * supplied; a supplied role is parsed, and a name that is no role throws.
   */
  lemma ExistingUserRole(f: UserFields, dto: UserDto, avatar: nat, salt: string, hashpw: (string, string) -> string)
    requires avatar < 5
    requires f.id.Some?
    ensures var u := Updated(f, dto, avatar, salt, hashpw);
      && (!NonEmpty(dto.role) ==> u.fields.role == f.role && u.thrown.None?)
      && (NonEmpty(dto.role) && Role.FromString(dto.role).Ok? ==>
            u.fields.role == Role.FromString(dto.role).value && u.fields.role.Some? && u.thrown.None?)
      && (NonEmpty(dto.role) && Role.FromString(dto.role).Err? ==>
            u.thrown == Some(Role.FromString(dto.role).error)
            && u.fields == f.(username := dto.username, firstName := dto.firstName,
                               lastName := dto.lastName, email := dto.email))
  {
  }

  /** Without an exception: the photo is the supplied one or a stock avatar, the creation date is copied, and the password hash changes exactly when a password is supplied. */
  lemma PhotoAndPassword(f: UserFields, dto: UserDto, avatar: nat, salt: string, hashpw: (string, string) -> string)
    requires avatar < 5
    requires Updated(f, dto, avatar, salt, hashpw).thrown.None?
    ensures var u := Updated(f, dto, avatar, salt, hashpw).fields;
      && u.photoUrl == (if NonEmpty(dto.photoUrl) then dto.photoUrl else Some(DefaultAvatar(avatar)))
      && u.createdAt == dto.createdAt
      && (NonEmpty(dto.password) ==>
            u.passwordSalt == Some(salt) && u.passwordHash == Some(hashpw(dto.password.value, salt)))
      && (!NonEmpty(dto.password) ==> u.passwordSalt == f.passwordSalt && u.passwordHash == f.passwordHash)
  {
  }

  /**
   * Applying a stored user's own transfer form changes nothing, provided the
   * user has an id, a username, an email and a photo: the role name parses
   * back to the role, and no password travels.
   */
  lemma {:induction false} UpdateWithOwnDtoIsIdentity(f: UserFields, avatar: nat, salt: string, hashpw: (string, string) -> string)
    requires avatar < 5
    requires f.id.Some? && f.username.Some? && f.email.Some? && NonEmpty(f.photoUrl)
    ensures Updated(f, DtoOf(f), avatar, salt, hashpw) == Update(f, None)
  {
    if f.role.Some? {
      Role.FromStringName(f.role.value);
    }
  }
}
