/** The profile page: the edit form, its checks, the update it sends, and the author's statistics. */
module ProfilePage {
  import opened Wrappers
  import opened Text
  import opened UserApi
  import opened RecipeApi
  import opened BlogApi
  import ListView
  import Role

  const UsernameRequired := "Username is required"
  const EmailRequired := "Email is required"
  const PasswordTooShort := "Password must be at least 6 characters"
  const PasswordsDiffer := "Passwords do not match"
  const UpdateFailed := "Error updating profile"
  const Updated := "Profile updated successfully"
  const PhotoUploaded := "Photo uploaded! Click 'Save changes' to apply."
  const MinPasswordLength := 6

  datatype ProfileForm = ProfileForm(
    username: string, firstName: string, lastName: string, email: string,
    photoUrl: string, password: string, confirmPassword: string)

  /** The form filled from an account: `user.x || ""`, with both password fields empty. */
  function FormFromUser(user: Option<UserDto>): (f: ProfileForm)
    ensures f.password == "" && f.confirmPassword == ""
    ensures user.None? ==> f == ProfileForm("", "", "", "", "", "", "")
    ensures user.Some? ==> f.username == user.value.username && f.email == user.value.email
                           && f.firstName == user.value.firstName.GetOr("")
                           && f.lastName == user.value.lastName.GetOr("")
                           && f.photoUrl == user.value.photoUrl.GetOr("")
  {
    match user
    case None => ProfileForm("", "", "", "", "", "", "")
    case Some(u) => ProfileForm(u.username, u.firstName.GetOr(""), u.lastName.GetOr(""), u.email,
                                u.photoUrl.GetOr(""), "", "")
  }

  /** The first failing check: blank username, blank email, then, only if a new password was typed, its length and confirmation. */
  function CheckProfile(form: ProfileForm): (failure: Option<string>)
    ensures failure.None? <==>
      && !IsJsBlank(form.username) && !IsJsBlank(form.email)
      && (form.password != "" ==> |form.password| >= MinPasswordLength && form.password == form.confirmPassword)
    ensures failure.Some? ==> failure.value in {UsernameRequired, EmailRequired, PasswordTooShort, PasswordsDiffer}
  {
    if IsJsBlank(form.username) then Some(UsernameRequired)
    else if IsJsBlank(form.email) then Some(EmailRequired)
    else if form.password != "" && |form.password| < MinPasswordLength then Some(PasswordTooShort)
    else if form.password != "" && form.password != form.confirmPassword then Some(PasswordsDiffer)
    else None
  }

  /** Username first, then email. */
  lemma ProfileCheckOrder(form: ProfileForm)
    ensures IsJsBlank(form.username) ==> CheckProfile(form) == Some(UsernameRequired)
    ensures !IsJsBlank(form.username) && IsJsBlank(form.email) ==> CheckProfile(form) == Some(EmailRequired)
  {
  }

  /** An empty password leaves the password unchecked; a typed one must be long enough and confirmed. */
  lemma PasswordCheckedOnlyWhenTyped(form: ProfileForm)
    requires !IsJsBlank(form.username) && !IsJsBlank(form.email)
    ensures form.password == "" ==> CheckProfile(form).None?
    ensures form.password != "" ==>
      (CheckProfile(form).None? <==>
        |form.password| >= MinPasswordLength && form.password == form.confirmPassword)
  {
  }

  /** `userToUpdate`: the role is the account's own; password and photo only when filled in. */
  datatype UserUpdate = UserUpdate(
    username: string, firstName: string, lastName: string, email: string, role: string,
    password: Option<string>, photoUrl: Option<string>)

  function BuildUpdate(form: ProfileForm, user: UserDto): (u: UserUpdate)
    ensures u.role == user.role
    ensures u.username == form.username && u.email == form.email
    ensures u.firstName == form.firstName && u.lastName == form.lastName
    ensures u.password.Some? <==> form.password != ""
    ensures u.password.Some? ==> u.password.value == form.password
    ensures u.photoUrl.Some? <==> form.photoUrl != ""
    ensures u.photoUrl.Some? ==> u.photoUrl.value == form.photoUrl
  {
    UserUpdate(form.username, form.firstName, form.lastName, form.email, user.role,
               if form.password != "" then Some(form.password) else None,
               if form.photoUrl != "" then Some(form.photoUrl) else None)
  }

  /** An update never sends a blank username or email, nor a short or unconfirmed password. */
  lemma UpdateIsValid(form: ProfileForm, user: UserDto)
    requires CheckProfile(form).None?
    ensures var u := BuildUpdate(form, user);
      && !IsJsBlank(u.username) && !IsJsBlank(u.email)
      && (u.password.Some? ==> |u.password.value| >= MinPasswordLength
                               && u.password.value == form.confirmPassword)
  {
  }

  /**
   * Only authors, administrators and moderators get the "create" links:
   * exactly the role names whose role the server lets publish.
   */
  predicate CanCreateContent(role: string): (shown: bool)
    ensures shown <==> Role.ValueOf(role).Some? && Role.CanCreateContent(Role.ValueOf(role))
  {
    role == "AUTHOR" || role == "ADMIN" || role == "MODERATOR"
  }

  function OwnedRecipe(userId: int): RecipeDto -> bool {
    (r: RecipeDto) => r.userDto.Some? && r.userDto.value.id == userId
  }

  function OwnedBlog(userId: int): BlogDto -> bool {
    (b: BlogDto) => b.userDto.Some? && b.userDto.value.id == userId
  }

  /** The account's recipes: exactly those whose author has its id, in the listing's order. */
  function UserRecipes(all: seq<RecipeDto>, userId: int): (mine: seq<RecipeDto>)
    ensures forall r :: r in mine <==> r in all && r.userDto.Some? && r.userDto.value.id == userId
    ensures ListView.IsSubsequence(mine, all)
  {
    ListView.FilterIsSubsequence(all, OwnedRecipe(userId));
    ListView.Filter(all, OwnedRecipe(userId))
  }

  /** The account's posts, chosen the same way. */
  function UserBlogs(all: seq<BlogDto>, userId: int): (mine: seq<BlogDto>)
    ensures forall b :: b in mine <==> b in all && b.userDto.Some? && b.userDto.value.id == userId
    ensures ListView.IsSubsequence(mine, all)
  {
    ListView.FilterIsSubsequence(all, OwnedBlog(userId));
    ListView.Filter(all, OwnedBlog(userId))
  }

  /** The outcome of `updateUser`: the updated account, or a thrown error with or without a message. */
  datatype UpdateReply = UpdatedTo(user: UserDto) | Threw(message: string) | ThrewNonError

  /** What the two listing requests of `loadUserStats` gave: both lists, or a rejection, which is only logged. */
  datatype StatsOutcome = StatsLoaded(allRecipes: seq<RecipeDto>, allBlogs: seq<BlogDto>) | StatsFailed

  datatype Field = Username | FirstName | LastName | Email | PhotoUrl | Password | ConfirmPassword

  function WithField(form: ProfileForm, field: Field, value: string): ProfileForm {
    match field
    case Username => form.(username := value)
    case FirstName => form.(firstName := value)
    case LastName => form.(lastName := value)
    case Email => form.(email := value)
    case PhotoUrl => form.(photoUrl := value)
    case Password => form.(password := value)
    case ConfirmPassword => form.(confirmPassword := value)
  }

  class ProfilePageState {
    /** The signed-in account, as the authentication context holds it. */
    var user: Option<UserDto>
    var isEditing: bool
    var formData: ProfileForm
    var error: Option<string>
    var success: Option<string>
    var loading: bool
    var recipes: seq<RecipeDto>
    var blogs: seq<BlogDto>
    var statsLoading: bool

    constructor (user: Option<UserDto>)
      ensures this.user == user && formData == FormFromUser(user)
      ensures !isEditing && error == None && success == None && !loading
      ensures recipes == [] && blogs == [] && statsLoading
    {
      this.user := user;
      isEditing := false;
      formData := FormFromUser(user);
      error := None;
      success := None;
      loading := false;
      recipes := [];
      blogs := [];
      statsLoading := true;
    }

    /**
     * `loadUserStats`, given what the two listings returned: on success the
     * account's own recipes and posts, on failure both lists as they were;
     * either way the statistics stop loading.
     */
    method LoadStats(outcome: StatsOutcome)
      requires user.Some?
      modifies this
      ensures user == old(user) && !statsLoading
      ensures outcome.StatsLoaded? ==>
        recipes == UserRecipes(outcome.allRecipes, user.value.id) && blogs == UserBlogs(outcome.allBlogs, user.value.id)
      ensures outcome.StatsFailed? ==> recipes == old(recipes) && blogs == old(blogs)
      ensures formData == old(formData) && isEditing == old(isEditing)
      ensures error == old(error) && success == old(success) && loading == old(loading)
    {
      statsLoading := true;
      if outcome.StatsLoaded? {
        var userId := user.value.id;
        recipes, blogs := UserRecipes(outcome.allRecipes, userId), UserBlogs(outcome.allBlogs, userId);
      }
      statsLoading := false;
    }

    /** `handleChange`: sets one field and clears both banners. */
    method HandleChange(field: Field, value: string)
      modifies this
      ensures formData == WithField(old(formData), field, value)
      ensures error == None && success == None
      ensures user == old(user) && isEditing == old(isEditing) && loading == old(loading)
      ensures recipes == old(recipes) && blogs == old(blogs) && statsLoading == old(statsLoading)
    {
      formData := WithField(formData, field, value);
      error := None;
      success := None;
    }

    /** `handleImageUpload`: the uploaded path becomes the photo, pending a save. */
    method HandleImageUpload(imagePath: string)
      modifies this
      ensures formData == old(formData).(photoUrl := imagePath) && success == Some(PhotoUploaded)
      ensures error == old(error) && user == old(user) && isEditing == old(isEditing) && loading == old(loading)
      ensures recipes == old(recipes) && blogs == old(blogs) && statsLoading == old(statsLoading)
    {
      formData := formData.(photoUrl := imagePath);
      success := Some(PhotoUploaded);
    }

    /** `handleSubmit`; `reply` is the request's outcome, used only when the checks pass. */
    method HandleSubmit(reply: UpdateReply) returns (sent: Option<UserUpdate>)
      modifies this
      ensures user == old(user) && recipes == old(recipes) && blogs == old(blogs) && statsLoading == old(statsLoading)
      ensures old(user).None? ==>
        sent == None && formData == old(formData) && error == old(error) && success == old(success)
        && isEditing == old(isEditing) && loading == old(loading)
      ensures old(user).Some? && CheckProfile(old(formData)).Some? ==>
        sent == None && error == CheckProfile(old(formData)) && success == None
        && formData == old(formData) && isEditing == old(isEditing) && !loading
      ensures old(user).Some? && CheckProfile(old(formData)).None? ==>
        sent == Some(BuildUpdate(old(formData), old(user).value)) && !loading
      ensures old(user).Some? && CheckProfile(old(formData)).None? && reply.UpdatedTo? ==>
        error == None && success == Some(Updated) && !isEditing
        && formData == FormFromUser(Some(reply.user))
      ensures old(user).Some? && CheckProfile(old(formData)).None? && !reply.UpdatedTo? ==>
        error == Some(if reply.Threw? then reply.message else UpdateFailed) && success == None
        && formData == old(formData) && isEditing == old(isEditing)
    {
      if user.None? {
        return None;
      }
      error := None;
      success := None;
      loading := true;
      var problem := CheckProfile(formData);
      if problem.Some? {
        error := problem;
        loading := false;
        return None;
      }
      sent := Some(BuildUpdate(formData, user.value));
      match reply {
        case UpdatedTo(updated) =>
          success := Some(Updated);
          isEditing := false;
          formData := FormFromUser(Some(updated));
        case Threw(message) =>
          error := Some(message);
        case ThrewNonError =>
          error := Some(UpdateFailed);
      }
      loading := false;
    }

    /** `handleCancel`: leaves edit mode and refills the form from the account. */
    method HandleCancel()
      modifies this
      ensures !isEditing && error == None && success == None && formData == FormFromUser(user)
      ensures user == old(user) && loading == old(loading) && recipes == old(recipes) && blogs == old(blogs)
      ensures statsLoading == old(statsLoading)
    {
      isEditing := false;
      error := None;
      success := None;
      formData := FormFromUser(user);
    }
  }
}
