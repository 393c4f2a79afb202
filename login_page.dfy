/** The login page: its two checks and how it reads the server's answer. */
module LoginPage {
  import opened Wrappers
  import opened Text
  import opened UserApi

  const UsernameRequired := "Username is required"
  const PasswordRequired := "Password is required"
  const LoginError := "Login error"

  datatype LoginRequest = LoginRequest(username: string, password: string)

  datatype LoginResponse = LoginResponse(success: bool, message: string, user: Option<UserDto>)

  /** The answer to the login request, or the message of the error it throws. */
  datatype LoginReply = Replied(response: LoginResponse) | Threw(message: string) | ThrewNonError

  /** The first failing check: a whitespace-only username, then an empty password (never trimmed). */
  function CheckLogin(form: LoginRequest): (r: Option<string>)
    ensures r.None? <==> !IsJsBlank(form.username) && form.password != ""
    ensures IsJsBlank(form.username) ==> r == Some(UsernameRequired)
  {
    if IsJsBlank(form.username) then Some(UsernameRequired)
    else if form.password == "" then Some(PasswordRequired)
    else None
  }

  /** A password of spaces passes: only the username is trimmed. */
  lemma PasswordNotTrimmed(username: string)
    requires !IsJsBlank(username)
    ensures CheckLogin(LoginRequest(username, " ")).None?
  {
  }

  /** Only a successful answer that carries a user logs in; the page shows `message`, or the default. */
  datatype Outcome = LoggedIn(user: UserDto) | Shown(error: string)

  function ReadResponse(response: LoginResponse): (o: Outcome)
    ensures o.LoggedIn? <==> response.success && response.user.Some?
    ensures o.LoggedIn? ==> o.user == response.user.value
    ensures o.Shown? ==> o.error == (if response.message != "" then response.message else LoginError)
  {
    if response.success && response.user.Some? then LoggedIn(response.user.value)
    else Shown(if response.message != "" then response.message else LoginError)
  }

  /** The error shown after a failed login is never empty. */
  lemma ShownErrorNonEmpty(response: LoginResponse)
    ensures ReadResponse(response).Shown? ==> ReadResponse(response).error != ""
  {
  }

  datatype Field = Username | Password

  class LoginPageState {
    var formData: LoginRequest
    var error: Option<string>
    var loading: bool
    var signedIn: Option<UserDto>
    var navigatedTo: Option<string>

    constructor ()
      ensures formData == LoginRequest("", "") && error == None && !loading
      ensures signedIn == None && navigatedTo == None
    {
      formData := LoginRequest("", "");
      error := None;
      loading := false;
      signedIn := None;
      navigatedTo := None;
    }

    /** `handleChange`: sets one field and clears the error. */
    method HandleChange(field: Field, value: string)
      modifies this
      ensures formData == (if field == Username then old(formData).(username := value)
                           else old(formData).(password := value))
      ensures error == None
      ensures loading == old(loading) && signedIn == old(signedIn) && navigatedTo == old(navigatedTo)
    {
      if field == Username {
        formData := formData.(username := value);
      } else {
        formData := formData.(password := value);
      }
      error := None;
    }

    /** `handleSubmit`; `reply` is the request's outcome, used only when the checks pass. */
    method HandleSubmit(reply: LoginReply) returns (sent: Option<LoginRequest>)
      modifies this
      ensures formData == old(formData) && !loading
      ensures CheckLogin(old(formData)).Some? ==>
        sent == None && error == CheckLogin(old(formData))
        && signedIn == old(signedIn) && navigatedTo == old(navigatedTo)
      ensures CheckLogin(old(formData)).None? ==> sent == Some(old(formData))
      ensures CheckLogin(old(formData)).None? && reply.Replied? ==>
        match ReadResponse(reply.response)
        case LoggedIn(u) => error == None && signedIn == Some(u) && navigatedTo == Some("/")
        case Shown(e) => error == Some(e) && signedIn == old(signedIn) && navigatedTo == old(navigatedTo)
      ensures CheckLogin(old(formData)).None? && !reply.Replied? ==>
        error == Some(if reply.Threw? then reply.message else LoginError)
        && signedIn == old(signedIn) && navigatedTo == old(navigatedTo)
    {
      error := None;
      loading := true;
      var problem := CheckLogin(formData);
      if problem.Some? {
        error := problem;
        loading := false;
        return None;
      }
      sent := Some(formData);
      match reply {
        case Replied(response) =>
          var outcome := ReadResponse(response);
          match outcome {
            case LoggedIn(u) =>
              signedIn := Some(u);
              navigatedTo := Some("/");
            case Shown(e) =>
              error := Some(e);
          }
        case Threw(message) =>
          error := Some(message);
        case ThrewNonError =>
          error := Some(LoginError);
      }
      loading := false;
    }
  }
}
