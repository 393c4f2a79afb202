/** The admin panel's blog form: image-tag insertion into the text and the checks `handleSave` runs. */
module AdminBlogForm {
  import opened Wrappers
  import opened Js
  import ImageTag

  const TitleRequired := "Title is required"
  const TextRequired := "Text is required"
  const AuthorRequired := "Author is required"

  /** The post defaults; the author default copies a user template that is not part of this model. */
  const BlogDefaults: map<string, Value> := map[
    "id" := Null, "title" := Str(""), "description" := Str(""), "text" := Str(""),
    "photoUrl" := Str(""), "cookingTime" := Null, "createdAt" := Null, "updatedAt" := Null,
    "userDto" := Obj(map[])]

  function Field(blog: map<string, Value>, key: string): Value {
    Get(Obj(blog), key)
  }

  /** The alert `handleSave` raises, if any: title, then text, then a missing author id. */
  function CheckBlog(blog: map<string, Value>): (r: Option<string>)
    ensures r.None? <==>
      !BlankText(Field(blog, "title")) && !BlankText(Field(blog, "text"))
      && Truthy(Field(blog, "userDto")) && Truthy(Get(Field(blog, "userDto"), "id"))
    ensures BlankText(Field(blog, "title")) ==> r == Some(TitleRequired)
    ensures !BlankText(Field(blog, "title")) && BlankText(Field(blog, "text")) ==> r == Some(TextRequired)
  {
    if BlankText(Field(blog, "title")) then Some(TitleRequired)
    else if BlankText(Field(blog, "text")) then Some(TextRequired)
    else if !Truthy(Field(blog, "userDto")) || !Truthy(Get(Field(blog, "userDto"), "id")) then Some(AuthorRequired)
    else None
  }

  /** Whether `onSave` settles or throws; a throw is not caught, so nothing follows it. */
  datatype SaveOutcome = Saved | SaveThrew

  class BlogFormState {
    var blog: map<string, Value>
    var alerted: Option<string>
    var navigatedTo: Option<string>
    var selection: Option<(int, int)>

    constructor (blogData: map<string, Value>)
      ensures blog == Spread(BlogDefaults, blogData)
      ensures alerted == None && navigatedTo == None && selection == None
    {
      blog := Spread(BlogDefaults, blogData);
      alerted := None;
      navigatedTo := None;
      selection := None;
    }

    /** `handleTextChange`. */
    method SetText(text: string)
      modifies this
      ensures blog == old(blog)["text" := Str(text)]
      ensures alerted == old(alerted) && navigatedTo == old(navigatedTo) && selection == old(selection)
    {
      blog := blog["text" := Str(text)];
    }

    /** `handleImageInsert`: `hasTextarea` says whether the textarea is mounted, `start` and `end` are its selection. */
    method HandleImageInsert(hasTextarea: bool, start: int, end: int, tag: string)
      modifies this
      ensures !hasTextarea ==> blog == old(blog) && selection == old(selection)
      ensures hasTextarea ==>
        blog == old(blog)["text" := Str(ImageTag.InsertTag(TextOr(Field(old(blog), "text")), start, end, tag))]
        && selection == Some((ImageTag.CursorAfter(start, tag), ImageTag.CursorAfter(start, tag)))
      ensures alerted == old(alerted) && navigatedTo == old(navigatedTo)
    {
      if !hasTextarea {
        return;
      }
      var currentText := TextOr(Field(blog, "text"));
      blog := blog["text" := Str(ImageTag.InsertTag(currentText, start, end, tag))];
      var cursor := ImageTag.CursorAfter(start, tag);
      selection := Some((cursor, cursor));
    }

    /** `handleSave`: a valid post is handed over exactly as the form holds it. */
    method HandleSave(outcome: SaveOutcome) returns (sent: Option<map<string, Value>>)
      modifies this
      ensures blog == old(blog) && selection == old(selection)
      ensures CheckBlog(old(blog)).Some? ==>
        sent == None && alerted == CheckBlog(old(blog)) && navigatedTo == old(navigatedTo)
      ensures CheckBlog(old(blog)).None? ==> sent == Some(old(blog)) && alerted == old(alerted)
      ensures CheckBlog(old(blog)).None? ==>
        navigatedTo == (if outcome.Saved? then Some("/blogs") else old(navigatedTo))
    {
      var problem := CheckBlog(blog);
      if problem.Some? {
        alerted := problem;
        return None;
      }
      sent := Some(blog);
      if outcome.Saved? {
        navigatedTo := Some("/blogs");
      }
    }
  }
}
