/**
 * Logging in and reading the current user.  BCrypt's password check is a
 * parameter: what it answers for the request's password against the
 * matched user's stored hash, consulted only once the login gets that far.
 */
module AuthService {
  import opened Wrappers
  import opened Text
  import opened JavaLang
  import opened Entities
  import opened Dto
  import opened UserRepository
  import UserMapper

  const UsernameRequired := "Имя пользователя обязательно"
  const PasswordRequired := "Пароль обязателен"
  const BadCredentials := "Неверное имя пользователя или пароль"
  const NoPasswordSet := "Пароль не установлен для этого пользователя"
  const HashUnreadable := "Ошибка проверки пароля"
  const LoggedIn := "Успешный вход"
  const ServerError := "Ошибка сервера: "

  /**
   * What `BCrypt.checkpw` does with a password and a stored hash: it
   * matches, it does not, the hash is malformed (it throws
   * `IllegalArgumentException`), or it throws some other exception with
   * the given message.
   */
  datatype PasswordCheck = Matches | Mismatch | MalformedHash | Fails(message: Option<string>)

  /** Whether `user`'s username is set and equal to `name` ignoring case. */
  predicate NamedAs(user: User, name: string)
    reads user
  {
    user.username.Some? && EqualsIgnoreCase(user.username.value, name)
  }

  /**
   * The first user whose username is set and equal to `name` ignoring case:
   * the stream's `findFirst`, so of two accounts whose names differ only in
   * case the earlier one is the one logged into.
   */
  function FindByUsername(users: seq<User>, name: string): (u: User?)
    reads users
    ensures u != null ==>
      exists i :: 0 <= i < |users| && users[i] == u && NamedAs(u, name) && (forall j :: 0 <= j < i ==> !NamedAs(users[j], name))
    ensures u == null ==> forall v :: v in users ==> !NamedAs(v, name)
  {
    if users == [] then null
    else if NamedAs(users[0], name) then users[0]
    else
      var u := FindByUsername(users[1..], name);
      if u == null then null
      else
        ghost var i :| 0 <= i < |users[1..]| && users[1..][i] == u && NamedAs(u, name) &&
          (forall j :: 0 <= j < i ==> !NamedAs(users[1..][j], name));
        assert users[i + 1] == u && forall j :: 0 <= j < i + 1 ==> !NamedAs(users[j], name);
        u
  }

  /** A failed login: no user. */
  function Refused(message: string): LoginResponse {
    LoginResponse(false, message, None)
  }

  /**
   * `login`: the username must not trim to nothing, the password must not be
   * empty, the user must exist with a stored hash, and the password must
   * match it.  An exception from the check other than a malformed hash is
   * caught and reported as a server error.
   */
  function Login(request: LoginRequest, users: seq<User>, verdict: PasswordCheck): (r: LoginResponse)
    reads users
    ensures r.success <==> r.user.Some?
    ensures r.success ==> r.message == LoggedIn
  {
    if request.username.None? || JavaTrim(request.username.value) == "" then Refused(UsernameRequired)
    else if request.password.None? || request.password.value == "" then Refused(PasswordRequired)
    else Authenticate(FindByUsername(users, request.username.value), verdict)
  }

  /** The part of `login` after the lookup: the user must exist with a stored hash the password matches. */
  function Authenticate(user: User?, verdict: PasswordCheck): (r: LoginResponse)
    reads user
    ensures r.success <==> user != null && user.passwordHash.Some? && user.passwordHash.value != "" && verdict == Matches
    ensures r.success ==> r.message == LoggedIn && r.user == UserMapper.ToDto(user) && r.user.Some?
    ensures !r.success ==> r.user.None?
    ensures user == null || (user.passwordHash.Some? && user.passwordHash.value != "" && verdict == Mismatch) ==>
      r == Refused(BadCredentials)
  {
    if user == null then Refused(BadCredentials)
    else if user.passwordHash.None? || user.passwordHash.value == "" then Refused(NoPasswordSet)
    else match verdict
      case Mismatch => Refused(BadCredentials)
      case MalformedHash => Refused(HashUnreadable)
      case Fails(message) => Refused(ServerError + NullableText(message))
      case Matches => LoginResponse(true, LoggedIn, UserMapper.ToDto(user))
  }

  /**
   * A login succeeds exactly when every check passes, and then it carries
   * the matched user's transfer form.
   */
  lemma LoginSucceedsIff(request: LoginRequest, users: seq<User>, verdict: PasswordCheck)
    ensures Login(request, users, verdict).success <==>
      && request.username.Some? && JavaTrim(request.username.value) != ""
      && request.password.Some? && request.password.value != ""
      && FindByUsername(users, request.username.value) != null
      && FindByUsername(users, request.username.value).passwordHash.Some?
      && FindByUsername(users, request.username.value).passwordHash.value != ""
      && verdict == Matches
    ensures Login(request, users, verdict).success ==>
      Login(request, users, verdict).user == UserMapper.ToDto(FindByUsername(users, request.username.value))
  {
    if request.username.None? || JavaTrim(request.username.value) == "" {
      assert Login(request, users, verdict) == Refused(UsernameRequired);
    } else if request.password.None? || request.password.value == "" {
      assert Login(request, users, verdict) == Refused(PasswordRequired);
    } else {
      assert Login(request, users, verdict) == Authenticate(FindByUsername(users, request.username.value), verdict);
    }
  }

  /** The username is checked before the password, whatever the password is. */
  lemma UsernameCheckedFirst(request: LoginRequest, users: seq<User>, verdict: PasswordCheck)
    requires request.username.None? || JavaTrim(request.username.value) == ""
    ensures Login(request, users, verdict) == Refused(UsernameRequired)
  {
  }

  /**
   * An unknown username and a wrong password for a known one give the same
   * answer, so the response does not reveal which usernames exist.
   */
  lemma UnknownUserLooksLikeWrongPassword(
    unknown: LoginRequest, wrong: LoginRequest, users: seq<User>, verdict: PasswordCheck)
    requires unknown.username.Some? && JavaTrim(unknown.username.value) != ""
    requires unknown.password.Some? && unknown.password.value != ""
    requires FindByUsername(users, unknown.username.value) == null
    requires wrong.username.Some? && JavaTrim(wrong.username.value) != ""
    requires wrong.password.Some? && wrong.password.value != ""
    requires FindByUsername(users, wrong.username.value) != null
    requires FindByUsername(users, wrong.username.value).passwordHash.Some?
    requires FindByUsername(users, wrong.username.value).passwordHash.value != ""
    requires verdict == Mismatch
    ensures Login(unknown, users, verdict) == Login(wrong, users, verdict) == Refused(BadCredentials)
  {
    assert Login(unknown, users, verdict) == Authenticate(null, verdict);
    assert Login(wrong, users, verdict) == Authenticate(FindByUsername(users, wrong.username.value), verdict);
  }

  /** `getCurrentUser`: nothing for a null or unknown id, else the user's transfer form. */
  function GetCurrentUser(userId: Option<int>, users: seq<User>): (r: Option<UserDto>)
    reads users
    ensures r.None? <==> userId.None? || FindUser(users, userId.value) == null
    ensures r.Some? ==> r == UserMapper.ToDto(FindUser(users, userId.value)) && r.value.id == userId
  {
    if userId.None? then None
    else UserMapper.ToDto(FindUser(users, userId.value))
  }
}
