/**
 * The admin panel's category editor: a three-mode machine (idle, creating,
 * editing one category) over one shared form, and its submit handler.
 */
module AdminCategoriesPage {
  import opened Wrappers
  import opened Text
  import opened RecipeApi

  const NameRequired := "Category name is required"
  const Created := "Category created successfully"
  const Updated := "Category updated successfully"
  const SaveFailed := "Error saving category"
  const LoadFailed := "Error loading categories"

  datatype CategoryForm = CategoryForm(name: Option<string>, description: string, photoUrl: string)

  const EmptyForm := CategoryForm(Some(""), "", "")

  /** `startEdit`'s form: the category's fields, with "" for a missing description or photo. */
  function FormFor(category: CategoryRef): (f: CategoryForm)
    ensures f.name == Some(category.name)
    ensures f.description == category.description.GetOr("")
    ensures f.photoUrl == category.photoUrl.GetOr("")
  {
    CategoryForm(Some(category.name), category.description.GetOr(""), category.photoUrl.GetOr(""))
  }

  /** `!name || name.trim() === ""`. */
  predicate MissingName(form: CategoryForm) {
    form.name.None? || IsJsBlank(form.name.value)
  }

  /** The request a submit sends. */
  datatype CategoryRequest = CreateCategory(form: CategoryForm) | UpdateCategory(id: int, form: CategoryForm)

  datatype SaveOutcome = Saved | SaveThrew(message: string) | SaveThrewNonError

  datatype LoadOutcome = Loaded(items: seq<CategoryRef>) | LoadThrew(message: string) | LoadThrewNonError

  datatype Mode = Idle | Creating | Editing(id: int)

  class CategoryEditor {
    var categories: seq<CategoryRef>
    var loading: bool
    var error: Option<string>
    var success: Option<string>
    var isCreating: bool
    var editingId: Option<int>
    var formData: CategoryForm

    /** Creating and editing never hold together. */
    predicate Valid()
      reads this
    {
      !(isCreating && editingId.Some?)
    }

    /** The mode the two flags encode. */
    function CurrentMode(): (m: Mode)
      reads this
      requires Valid()
      ensures m == Idle <==> !isCreating && editingId.None?
      ensures m == Creating <==> isCreating
      ensures m.Editing? <==> editingId.Some?
      ensures m.Editing? ==> m.id == editingId.value
    {
      if isCreating then Creating
      else if editingId.Some? then Editing(editingId.value)
      else Idle
    }

    /** The form is shown while creating or editing. */
    predicate FormShown()
      reads this
    {
      isCreating || editingId.Some?
    }

    /** The "create" button is shown only when idle. */
    predicate CreateButtonShown()
      reads this
    {
      !isCreating && editingId.None?
    }

    constructor ()
      ensures Valid() && CurrentMode() == Idle && formData == EmptyForm
      ensures categories == [] && loading && error == None && success == None
    {
      categories := [];
      loading := true;
      error := None;
      success := None;
      isCreating := false;
      editingId := None;
      formData := EmptyForm;
    }

    method StartCreate()
      modifies this
      ensures Valid() && CurrentMode() == Creating && formData == EmptyForm
      ensures error == None && success == None
      ensures categories == old(categories) && loading == old(loading)
    {
      isCreating := true;
      editingId := None;
      formData := EmptyForm;
      error := None;
      success := None;
    }

    method StartEdit(category: CategoryRef)
      modifies this
      ensures Valid() && CurrentMode() == Editing(category.id) && formData == FormFor(category)
      ensures error == None && success == None
      ensures categories == old(categories) && loading == old(loading)
    {
      isCreating := false;
      editingId := Some(category.id);
      formData := FormFor(category);
      error := None;
      success := None;
    }

    method CancelEdit()
      modifies this
      ensures Valid() && CurrentMode() == Idle && formData == EmptyForm
      ensures error == None && success == None
      ensures categories == old(categories) && loading == old(loading)
    {
      isCreating := false;
      editingId := None;
      formData := EmptyForm;
      error := None;
      success := None;
    }

    /** `loadCategories`; a failure keeps the list and sets the banner. */
    method Load(outcome: LoadOutcome)
      modifies this
      ensures !loading && isCreating == old(isCreating) && editingId == old(editingId)
      ensures formData == old(formData) && success == old(success)
      ensures outcome.Loaded? ==> categories == outcome.items && error == old(error)
      ensures outcome.LoadThrew? ==> categories == old(categories) && error == Some(outcome.message)
      ensures outcome.LoadThrewNonError? ==> categories == old(categories) && error == Some(LoadFailed)
    {
      loading := true;
      match outcome {
        case Loaded(items) =>
          categories := items;
        case LoadThrew(message) =>
          error := Some(message);
        case LoadThrewNonError =>
          error := Some(LoadFailed);
      }
      loading := false;
    }

    /**
     * `handleSubmit`.  `save` is the outcome of the create or update request
     * and `reload` that of the listing request that follows.  A submit that
     * gets past the checks ends with the list reloaded and the editor back to
     * idle, its banners cleared by `cancelEdit`.
     */
    method HandleSubmit(save: SaveOutcome, reload: LoadOutcome) returns (sent: Option<CategoryRequest>)
      requires Valid()
      modifies this
      ensures Valid()
      ensures MissingName(old(formData)) ==>
        sent == None && error == Some(NameRequired) && success == None
        && isCreating == old(isCreating) && editingId == old(editingId) && formData == old(formData)
        && categories == old(categories) && loading == old(loading)
      ensures !MissingName(old(formData)) && old(isCreating) ==> sent == Some(CreateCategory(old(formData)))
      ensures !MissingName(old(formData)) && !old(isCreating) && old(editingId).Some? && old(editingId).value != 0 ==>
        sent == Some(UpdateCategory(old(editingId).value, old(formData)))
      ensures !MissingName(old(formData)) && !old(isCreating) && (old(editingId).None? || old(editingId).value == 0) ==>
        sent == None
      ensures !MissingName(old(formData)) && (sent.None? || save.Saved?) ==>
        CurrentMode() == Idle && formData == EmptyForm && error == None && success == None && !loading
        && categories == (if reload.Loaded? then reload.items else old(categories))
      ensures !MissingName(old(formData)) && sent.Some? && !save.Saved? ==>
        error == Some(if save.SaveThrew? then save.message else SaveFailed) && success == None
        && isCreating == old(isCreating) && editingId == old(editingId) && formData == old(formData)
        && categories == old(categories) && loading == old(loading)
    {
      error := None;
      success := None;
      if MissingName(formData) {
        error := Some(NameRequired);
        return None;
      }
      sent := None;
      if isCreating {
        sent := Some(CreateCategory(formData));
      } else if editingId.Some? && editingId.value != 0 {
        sent := Some(UpdateCategory(editingId.value, formData));
      }
      if sent.Some? {
        match save {
          case Saved =>
            success := Some(if sent.value.CreateCategory? then Created else Updated);
          case SaveThrew(message) =>
            error := Some(message);
            return;
          case SaveThrewNonError =>
            error := Some(SaveFailed);
            return;
        }
      }
      Load(reload);
      CancelEdit();
    }
  }

  /** Whatever the state, exactly one of the form and the "create" button is on screen. */
  lemma FormOrCreateButton(e: CategoryEditor)
    ensures e.FormShown() <==> !e.CreateButtonShown()
  {
  }

  /** The form is on screen while creating or editing, the "create" button while idle. */
  lemma ShownByMode(e: CategoryEditor)
    requires e.Valid()
    ensures e.FormShown() <==> e.CurrentMode() == Creating || e.CurrentMode().Editing?
    ensures e.CreateButtonShown() <==> e.CurrentMode() == Idle
  {
  }
}
