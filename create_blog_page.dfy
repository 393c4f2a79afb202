/**
 * The "create post" page: inserting an image tag at the cursor, and the
 * submit handler's ordered checks.
 */
module CreateBlogPage {
  import opened Wrappers
  import opened Text
  import opened RecipeApi
  import ImageTag

  const TitleRequired := "Title is required"
  const TextRequired := "Post text is required"
  const DescriptionRequired := "Description is required"
  const UserRequired := "User not selected. Make sure there is at least one user in the database."

  /** `Partial<BlogDto>`: the form's state. */
  datatype BlogDraft = BlogDraft(
    title: Option<string>, description: Option<string>, text: Option<string>,
    photoUrl: Option<string>, cookingTime: Option<int>, userDto: Option<UserRef>)

  const InitialForm := BlogDraft(Some(""), Some(""), Some(""), Some(""), Some(0), Some(UserRef(0, "")))

  /** `!s || !s.trim()`. */
  predicate MissingText(s: Option<string>) {
    s.None? || IsJsBlank(s.value)
  }

  /** The first failing check's message, if any. */
  function CheckPost(form: BlogDraft): (r: Option<string>)
    ensures r.None? <==> !MissingText(form.title) && !MissingText(form.text)
                         && !MissingText(form.description) && form.userDto.Some? && form.userDto.value.id != 0
  {
    if MissingText(form.title) then Some(TitleRequired)
    else if MissingText(form.text) then Some(TextRequired)
    else if MissingText(form.description) then Some(DescriptionRequired)
    else if form.userDto.None? || form.userDto.value.id == 0 then Some(UserRequired)
    else None
  }

  /** Title, then text, then description, then the user: the first failure is the one reported. */
  lemma ChecksInOrder(form: BlogDraft)
    ensures MissingText(form.title) ==> CheckPost(form) == Some(TitleRequired)
    ensures !MissingText(form.title) && MissingText(form.text) ==> CheckPost(form) == Some(TextRequired)
    ensures (!MissingText(form.title) && !MissingText(form.text) && MissingText(form.description))
            ==> CheckPost(form) == Some(DescriptionRequired)
  {
  }

  /** The outcome of `createBlog`: the new post's id, or the message of the error it throws. */
  datatype CreateResult = Created(id: nat) | Failed(message: string)

  class CreateBlogForm {
    var formData: BlogDraft
    var error: Option<string>
    var loading: bool
    var navigatedTo: Option<string>
    /** The textarea's selection, once the insert handler has placed the cursor. */
    var selection: Option<(int, int)>

    constructor ()
      ensures formData == InitialForm && error == None && !loading && navigatedTo == None && selection == None
    {
      formData := InitialForm;
      error := None;
      loading := false;
      navigatedTo := None;
      selection := None;
    }

    /**
     * `handleImageInsert`: `hasTextarea` says whether the textarea is mounted;
     * `start` and `end` are its selection.
     */
    method HandleImageInsert(hasTextarea: bool, start: int, end: int, tag: string)
      modifies this
      ensures !hasTextarea ==> formData == old(formData) && selection == old(selection)
      ensures hasTextarea ==>
        formData == old(formData).(text := Some(ImageTag.InsertTag(old(formData).text.GetOr(""), start, end, tag)))
        && selection == Some((ImageTag.CursorAfter(start, tag), ImageTag.CursorAfter(start, tag)))
      ensures error == old(error) && loading == old(loading) && navigatedTo == old(navigatedTo)
    {
      if !hasTextarea {
        return;
      }
      var currentText := formData.text.GetOr("");
      var newText := ImageTag.InsertTag(currentText, start, end, tag);
      formData := formData.(text := Some(newText));
      var cursor := ImageTag.CursorAfter(start, tag);
      selection := Some((cursor, cursor));
    }

    /** `handleSubmit`; `result` is what the request would answer, used only when the checks pass. */
    method HandleSubmit(result: CreateResult) returns (sent: Option<BlogDraft>)
      modifies this
      ensures formData == old(formData) && selection == old(selection) && !loading
      ensures CheckPost(old(formData)).Some? ==>
        sent == None && error == CheckPost(old(formData)) && navigatedTo == old(navigatedTo)
      ensures CheckPost(old(formData)).None? ==> sent == Some(old(formData))
      ensures CheckPost(old(formData)).None? && result.Created? ==>
        error == None && navigatedTo == Some("/blog/" + NatToString(result.id))
      ensures CheckPost(old(formData)).None? && result.Failed? ==>
        error == Some(result.message) && navigatedTo == old(navigatedTo)
    {
      error := None;
      loading := true;
      var problem := CheckPost(formData);
      if problem.Some? {
        error := problem;
        loading := false;
        return None;
      }
      sent := Some(formData);
      match result {
        case Created(id) =>
          navigatedTo := Some("/blog/" + NatToString(id));
        case Failed(message) =>
          error := Some(message);
      }
      loading := false;
    }
  }
}
