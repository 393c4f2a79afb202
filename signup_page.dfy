/** The sign-up page: its ordered checks, the account it asks to create, and its form state. */
module SignUpPage {
  import opened Wrappers
  import opened Text
  import opened UserApi

  const UsernameRequired := "Username is required"
  const EmailRequired := "Email is required"
  const PasswordTooShort := "Password must be at least 6 characters"
  const PasswordsDiffer := "Passwords do not match"
  const MinPasswordLength := 6

  datatype SignUpForm = SignUpForm(
    username: Option<string>, firstName: Option<string>, lastName: Option<string>,
    email: Option<string>, password: Option<string>, confirmPassword: Option<string>)

  const EmptyForm := SignUpForm(Some(""), Some(""), Some(""), Some(""), Some(""), Some(""))

  /** `userToCreate`: no confirmation field, and the role fixed to "USER". */
  datatype NewUser = NewUser(
    username: string, firstName: Option<string>, lastName: Option<string>,
    email: string, password: string, role: string)

  /** `!s || !s.trim()`. */
  predicate MissingText(s: Option<string>) {
    s.None? || IsJsBlank(s.value)
  }

  /** The account to create, or the first failing check's message. */
  function CheckSignUp(form: SignUpForm): (r: Result<NewUser, string>)
    ensures r.Ok? ==> r.value.role == "USER"
  {
    if MissingText(form.username) then Err(UsernameRequired)
    else if MissingText(form.email) then Err(EmailRequired)
    else if form.password.None? || |form.password.value| < MinPasswordLength then Err(PasswordTooShort)
    else if form.password != form.confirmPassword then Err(PasswordsDiffer)
    else Ok(NewUser(form.username.value, form.firstName, form.lastName,
                    form.email.value, form.password.value, "USER"))
  }

  /** An account is requested exactly when every check passes. */
  lemma SignUpAcceptsIff(form: SignUpForm)
    ensures CheckSignUp(form).Ok? <==>
      (!MissingText(form.username) && !MissingText(form.email)
       && form.password.Some? && |form.password.value| >= MinPasswordLength
       && form.password == form.confirmPassword)
  {
  }

  /** The checks' order: username, email, password length, confirmation. */
  lemma SignUpCheckOrder(form: SignUpForm)
    ensures MissingText(form.username) ==> CheckSignUp(form) == Err(UsernameRequired)
    ensures !MissingText(form.username) && MissingText(form.email) ==> CheckSignUp(form) == Err(EmailRequired)
    ensures (!MissingText(form.username) && !MissingText(form.email)
             && (form.password.None? || |form.password.value| < MinPasswordLength))
            ==> CheckSignUp(form) == Err(PasswordTooShort)
    ensures (!MissingText(form.username) && !MissingText(form.email)
             && form.password.Some? && |form.password.value| >= MinPasswordLength
             && form.password != form.confirmPassword)
            ==> CheckSignUp(form) == Err(PasswordsDiffer)
  {
  }

  /** A created account carries exactly the entered fields. */
  lemma NewUserFromForm(form: SignUpForm)
    requires CheckSignUp(form).Ok?
    ensures var u := CheckSignUp(form).value;
      && Some(u.username) == form.username && Some(u.email) == form.email
      && u.firstName == form.firstName && u.lastName == form.lastName
      && Some(u.password) == form.password && Some(u.password) == form.confirmPassword
  {
  }

  datatype Field = Username | FirstName | LastName | Email | Password | ConfirmPassword

  function WithField(form: SignUpForm, field: Field, value: string): SignUpForm {
    match field
    case Username => form.(username := Some(value))
    case FirstName => form.(firstName := Some(value))
    case LastName => form.(lastName := Some(value))
    case Email => form.(email := Some(value))
    case Password => form.(password := Some(value))
    case ConfirmPassword => form.(confirmPassword := Some(value))
  }

  /** The outcome of `createUser`: the created account, or the message of the error it throws. */
  datatype CreateReply = Created(user: UserDto) | Threw(message: string) | ThrewNonError

  const RegistrationError := "Registration error"

  class SignUpPageState {
    var formData: SignUpForm
    var error: Option<string>
    var loading: bool
    var signedIn: Option<UserDto>
    var navigatedTo: Option<string>

    constructor ()
      ensures formData == EmptyForm && error == None && !loading && signedIn == None && navigatedTo == None
    {
      formData := EmptyForm;
      error := None;
      loading := false;
      signedIn := None;
      navigatedTo := None;
    }

    /** `handleChange`: sets one field and clears the error. */
    method HandleChange(field: Field, value: string)
      modifies this
      ensures formData == WithField(old(formData), field, value) && error == None
      ensures loading == old(loading) && signedIn == old(signedIn) && navigatedTo == old(navigatedTo)
    {
      formData := WithField(formData, field, value);
      error := None;
    }

    /** `handleSubmit`; `reply` is the request's outcome, used only when the checks pass. */
    method HandleSubmit(reply: CreateReply) returns (sent: Option<NewUser>)
      modifies this
      ensures formData == old(formData) && !loading
      ensures CheckSignUp(old(formData)).Err? ==>
        sent == None && error == Some(CheckSignUp(old(formData)).error)
        && signedIn == old(signedIn) && navigatedTo == old(navigatedTo)
      ensures CheckSignUp(old(formData)).Ok? ==> sent == Some(CheckSignUp(old(formData)).value)
      ensures CheckSignUp(old(formData)).Ok? && reply.Created? ==>
        error == None && signedIn == Some(reply.user) && navigatedTo == Some("/")
      ensures CheckSignUp(old(formData)).Ok? && !reply.Created? ==>
        error == Some(if reply.Threw? then reply.message else RegistrationError)
        && signedIn == old(signedIn) && navigatedTo == old(navigatedTo)
    {
      error := None;
      loading := true;
      var checked := CheckSignUp(formData);
      if checked.Err? {
        error := Some(checked.error);
        loading := false;
        return None;
      }
      sent := Some(checked.value);
      match reply {
        case Created(user) =>
          signedIn := Some(user);
          navigatedTo := Some("/");
        case Threw(message) =>
          error := Some(message);
        case ThrewNonError =>
          error := Some(RegistrationError);
      }
      loading := false;
    }
  }
}
