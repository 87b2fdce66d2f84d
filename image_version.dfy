/** hooks/use-image-version.ts: the image-versioning store. Three reducers
    (image history, UI flags, prompts), the derived comparison view, and the
    store object whose actions dispatch to the reducers. */
module ImageVersion {
  import opened Wrappers
  import opened ImageUtils

  /** Three image slots and whether an edit was applied since the last reset or clear. */
  datatype ImageState = ImageState(current: Option<ImageData>, previous: Option<ImageData>, original: Option<ImageData>, hasBeenEdited: bool)

  datatype UIState = UIState(isLoading: bool, error: Option<string>, isEditMode: bool, showComparison: bool)

  datatype Prompts = Prompts(generate: string, edit: string)

  datatype ImageAction =
    | SetCurrent(payload: ImageData)
    | SetPrevious(payload: ImageData)
    | SetOriginal(payload: ImageData)
    | AddEdit(payload: ImageData)
    | ResetToOriginal
    | ClearImages

  datatype UIAction =
    | SetLoading(loading: bool)
    | SetError(message: Option<string>)
    | SetEditMode(editMode: bool)
    | SetShowComparison(show: bool)
    | ResetUI

  datatype PromptAction =
    | SetGeneratePrompt(text: string)
    | SetEditPrompt(text: string)
    | ClearPrompts

  const InitialImageState := ImageState(None, None, None, false)
  const InitialUIState := UIState(false, None, false, false)
  const InitialGeneratePrompt := "A cyberpunk street scene with neon lights, holograms, rain-slicked pavement, dramatic shadows, Blade Runner aesthetic, cinematic composition, moody atmosphere, steam rising from manholes, flying cars overhead, neon signs in Japanese and English, high contrast lighting, sci-fi movie still quality"
  const InitialPrompts := Prompts(InitialGeneratePrompt, "")

  /** `imageReducer`. The source's `default` branch cannot be reached with a typed action. */
  function ImageReducer(s: ImageState, a: ImageAction): (r: ImageState)
    ensures a.SetCurrent? ==> r.current == Some(a.payload) && r.previous == s.previous && r.original == s.original && r.hasBeenEdited == s.hasBeenEdited
    ensures a.SetPrevious? ==> r.previous == Some(a.payload) && r.current == s.current && r.original == s.original && r.hasBeenEdited == s.hasBeenEdited
    ensures a.SetOriginal? ==> r.original == Some(a.payload) && r.current == s.current && r.previous == s.previous && r.hasBeenEdited == s.hasBeenEdited
    ensures a.AddEdit? ==> r.current == Some(a.payload) && r.previous == s.current && r.original == s.original && r.hasBeenEdited
    ensures a.ResetToOriginal? ==> r.current == s.original && r.previous.None? && r.original == s.original && !r.hasBeenEdited
    ensures a.ClearImages? ==> r == InitialImageState
  {
    match a
    case SetCurrent(p) => s.(current := Some(p))
    case SetPrevious(p) => s.(previous := Some(p))
    case SetOriginal(p) => s.(original := Some(p))
    case AddEdit(p) => s.(previous := s.current, current := Some(p), hasBeenEdited := true)
    case ResetToOriginal => s.(current := s.original, previous := None, hasBeenEdited := false)
    case ClearImages => s.(current := None, previous := None, original := None, hasBeenEdited := false)
  }

  /** `uiReducer`: turning edit mode on also turns the comparison on; turning it off leaves the comparison alone. */
  function UIReducer(s: UIState, a: UIAction): (r: UIState)
    ensures a.SetLoading? ==> r == s.(isLoading := a.loading)
    ensures a.SetError? ==> r == s.(error := a.message)
    ensures a.SetEditMode? ==> r.isEditMode == a.editMode && r.isLoading == s.isLoading && r.error == s.error
    ensures a.SetEditMode? && a.editMode ==> r.showComparison
    ensures a.SetEditMode? && !a.editMode ==> r.showComparison == s.showComparison
    ensures a.SetShowComparison? ==> r == s.(showComparison := a.show)
    ensures a.ResetUI? ==> r == InitialUIState
  {
    match a
    case SetLoading(b) => s.(isLoading := b)
    case SetError(e) => s.(error := e)
    case SetEditMode(b) => s.(isEditMode := b, showComparison := if b then true else s.showComparison)
    case SetShowComparison(b) => s.(showComparison := b)
    case ResetUI => UIState(false, None, false, false)
  }

  /** `promptReducer`. */
  function PromptReducer(s: Prompts, a: PromptAction): (r: Prompts)
    ensures a.SetGeneratePrompt? ==> r.generate == a.text && r.edit == s.edit
    ensures a.SetEditPrompt? ==> r.edit == a.text && r.generate == s.generate
    ensures a.ClearPrompts? ==> r.generate == "" && r.edit == ""
  {
    match a
    case SetGeneratePrompt(t) => s.(generate := t)
    case SetEditPrompt(t) => s.(edit := t)
    case ClearPrompts => Prompts("", "")
  }

  /** Resetting to the original twice is the same as resetting once. */
  lemma ResetToOriginalIdempotent(s: ImageState)
    ensures ImageReducer(ImageReducer(s, ResetToOriginal), ResetToOriginal) == ImageReducer(s, ResetToOriginal)
  {
  }

  /** The reducer itself has no guard: with no original, a reset empties the current slot. */
  lemma ResetWithoutOriginalDropsCurrent(s: ImageState)
    requires s.original.None?
    ensures ImageReducer(s, ResetToOriginal).current.None?
  {
  }

  /** Every reset or clear leaves the edited flag false, and only an edit sets it. */
  lemma EditedFlagOnlyFromEdit(s: ImageState, a: ImageAction)
    ensures !s.hasBeenEdited && ImageReducer(s, a).hasBeenEdited ==> a.AddEdit?
  {
  }

  /** "`previous` is only filled by an edit since the last reset or clear":
      every action but SET_PREVIOUS keeps it. */
  predicate PreviousFromEdit(s: ImageState) {
    s.previous.Some? ==> s.hasBeenEdited
  }

  lemma PreviousFromEditPreserved(s: ImageState, a: ImageAction)
    requires PreviousFromEdit(s) && !a.SetPrevious?
    ensures PreviousFromEdit(ImageReducer(s, a))
  {
  }

  /** SET_PREVIOUS, which the store exposes as `setPrevious`, fills `previous` with no edit. */
  lemma SetPreviousBypassesEdit(p: ImageData)
    ensures !PreviousFromEdit(ImageReducer(InitialImageState, SetPrevious(p)))
  {
  }

  /** `toggleComparison`: dispatches SET_SHOW_COMPARISON with the negation of the current flag. */
  function ToggleComparisonState(s: UIState): (r: UIState)
    ensures r.showComparison != s.showComparison
    ensures r.isLoading == s.isLoading && r.error == s.error && r.isEditMode == s.isEditMode
  {
    UIReducer(s, SetShowComparison(!s.showComparison))
  }

  /** Toggling the comparison twice restores it. */
  lemma ToggleComparisonTwice(s: UIState)
    ensures ToggleComparisonState(ToggleComparisonState(s)) == s
  {
  }

  /** The pair of images shown side by side, with their labels. */
  datatype ComparisonImages = ComparisonImages(left: Option<ImageData>, right: Option<ImageData>, leftLabel: string, rightLabel: string, isLoading: bool)

  const NoComparison := ComparisonImages(None, None, "", "", false)

  /** `getComparisonImages`: the right image, when there is one, is always the
      current one; the view is loading exactly while an edit is in flight. */
  function GetComparisonImages(img: ImageState, ui: UIState): (c: ComparisonImages)
    ensures c.isLoading <==> ui.isEditMode && ui.isLoading
    ensures c.right.Some? ==> c.right == img.current
    ensures c.right.Some? <==> !c.isLoading && img.current.Some? && (img.previous.Some? || img.original.Some?)
    ensures c.left == img.current || c.left == img.previous || c.left == img.original || c == NoComparison
  {
    if ui.isEditMode && ui.isLoading then ComparisonImages(img.current, None, "Current", "Editing...", true)
    else if img.previous.Some? && img.current.Some? then ComparisonImages(img.previous, img.current, "Previous", "Current", false)
    else if img.original.Some? && img.current.Some? then ComparisonImages(img.original, img.current, "Original", "Current", false)
    else NoComparison
  }

  /** The rules apply in priority order, first match wins. */
  lemma ComparisonPriority(img: ImageState, ui: UIState)
    ensures var c := GetComparisonImages(img, ui);
      && (ui.isEditMode && ui.isLoading ==> c == ComparisonImages(img.current, None, "Current", "Editing...", true))
      && (!(ui.isEditMode && ui.isLoading) && img.previous.Some? && img.current.Some? ==>
            c == ComparisonImages(img.previous, img.current, "Previous", "Current", false))
      && (!(ui.isEditMode && ui.isLoading) && img.previous.None? && img.original.Some? && img.current.Some? ==>
            c == ComparisonImages(img.original, img.current, "Original", "Current", false))
      && (!(ui.isEditMode && ui.isLoading) && (img.current.None? || (img.previous.None? && img.original.None?)) ==>
            c == NoComparison)
  {
  }

  /** The whole state of one session, as one value. */
  datatype Session = Session(images: ImageState, ui: UIState, prompts: Prompts)

  /** The session store: the three pieces of state and the actions on them.
      `editsSinceReset` counts the edits applied since the last reset or clear. */
  class ImageVersioning {
    var imageState: ImageState
    var uiState: UIState
    var prompts: Prompts
    ghost var editsSinceReset: nat

    ghost predicate Valid()
      reads this
    {
      imageState.hasBeenEdited <==> editsSinceReset > 0
    }

    function Snapshot(): Session
      reads this
    {
      Session(imageState, uiState, prompts)
    }

    constructor ()
      ensures Valid() && editsSinceReset == 0
      ensures imageState == InitialImageState && uiState == InitialUIState && prompts == InitialPrompts
    {
      imageState, uiState, prompts := InitialImageState, InitialUIState, InitialPrompts;
      editsSinceReset := 0;
    }

    method AddEdit(data: ImageData)
      requires Valid()
      modifies this
      ensures Valid() && editsSinceReset == old(editsSinceReset) + 1
      ensures imageState == ImageReducer(old(imageState), ImageAction.AddEdit(data))
      ensures imageState.current == Some(data) && imageState.previous == old(imageState.current)
      ensures imageState.original == old(imageState.original) && imageState.hasBeenEdited
      ensures uiState == old(uiState) && prompts == old(prompts)
    {
      imageState := ImageReducer(imageState, ImageAction.AddEdit(data));
      editsSinceReset := editsSinceReset + 1;
    }

    method ResetToOriginal()
      requires Valid()
      modifies this
      ensures Valid() && editsSinceReset == 0
      ensures imageState == ImageReducer(old(imageState), ImageAction.ResetToOriginal)
      ensures imageState.current == old(imageState.original) && imageState.previous.None?
      ensures imageState.original == old(imageState.original) && !imageState.hasBeenEdited
      ensures uiState == old(uiState) && prompts == old(prompts)
    {
      imageState := ImageReducer(imageState, ImageAction.ResetToOriginal);
      editsSinceReset := 0;
    }

    method SetCurrent(data: ImageData)
      requires Valid()
      modifies this
      ensures Valid() && editsSinceReset == old(editsSinceReset)
      ensures imageState == old(imageState).(current := Some(data))
      ensures uiState == old(uiState) && prompts == old(prompts)
    {
      imageState := ImageReducer(imageState, ImageAction.SetCurrent(data));
    }

    method SetPrevious(data: ImageData)
      requires Valid()
      modifies this
      ensures Valid() && editsSinceReset == old(editsSinceReset)
      ensures imageState == old(imageState).(previous := Some(data))
      ensures uiState == old(uiState) && prompts == old(prompts)
    {
      imageState := ImageReducer(imageState, ImageAction.SetPrevious(data));
    }

    method SetOriginal(data: ImageData)
      requires Valid()
      modifies this
      ensures Valid() && editsSinceReset == old(editsSinceReset)
      ensures imageState == old(imageState).(original := Some(data))
      ensures uiState == old(uiState) && prompts == old(prompts)
    {
      imageState := ImageReducer(imageState, ImageAction.SetOriginal(data));
    }

    method ClearImages()
      requires Valid()
      modifies this
      ensures Valid() && editsSinceReset == 0
      ensures imageState == InitialImageState
      ensures uiState == old(uiState) && prompts == old(prompts)
    {
      imageState := ImageReducer(imageState, ImageAction.ClearImages);
      editsSinceReset := 0;
    }

    method SetLoading(loading: bool)
      requires Valid()
      modifies this
      ensures Valid() && editsSinceReset == old(editsSinceReset)
      ensures uiState == old(uiState).(isLoading := loading)
      ensures imageState == old(imageState) && prompts == old(prompts)
    {
      uiState := UIReducer(uiState, UIAction.SetLoading(loading));
    }

    method SetError(error: Option<string>)
      requires Valid()
      modifies this
      ensures Valid() && editsSinceReset == old(editsSinceReset)
      ensures uiState == old(uiState).(error := error)
      ensures imageState == old(imageState) && prompts == old(prompts)
    {
      uiState := UIReducer(uiState, UIAction.SetError(error));
    }

    method EnterEditMode()
      requires Valid()
      modifies this
      ensures Valid() && editsSinceReset == old(editsSinceReset)
      ensures uiState == old(uiState).(isEditMode := true, showComparison := true)
      ensures imageState == old(imageState) && prompts == old(prompts)
    {
      uiState := UIReducer(uiState, UIAction.SetEditMode(true));
    }

    method ExitEditMode()
      requires Valid()
      modifies this
      ensures Valid() && editsSinceReset == old(editsSinceReset)
      ensures uiState == old(uiState).(isEditMode := false)
      ensures imageState == old(imageState) && prompts == old(prompts)
    {
      uiState := UIReducer(uiState, UIAction.SetEditMode(false));
    }

    method ToggleComparison()
      requires Valid()
      modifies this
      ensures Valid() && editsSinceReset == old(editsSinceReset)
      ensures uiState == ToggleComparisonState(old(uiState))
      ensures uiState.showComparison == !old(uiState).showComparison
      ensures imageState == old(imageState) && prompts == old(prompts)
    {
      uiState := ToggleComparisonState(uiState);
    }

    method ResetUI()
      requires Valid()
      modifies this
      ensures Valid() && editsSinceReset == old(editsSinceReset)
      ensures uiState == InitialUIState
      ensures imageState == old(imageState) && prompts == old(prompts)
    {
      uiState := UIReducer(uiState, UIAction.ResetUI);
    }

    method SetGeneratePrompt(text: string)
      requires Valid()
      modifies this
      ensures Valid() && editsSinceReset == old(editsSinceReset)
      ensures prompts == old(prompts).(generate := text)
      ensures imageState == old(imageState) && uiState == old(uiState)
    {
      prompts := PromptReducer(prompts, PromptAction.SetGeneratePrompt(text));
    }

    method SetEditPrompt(text: string)
      requires Valid()
      modifies this
      ensures Valid() && editsSinceReset == old(editsSinceReset)
      ensures prompts == old(prompts).(edit := text)
      ensures imageState == old(imageState) && uiState == old(uiState)
    {
      prompts := PromptReducer(prompts, PromptAction.SetEditPrompt(text));
    }

    method ClearPrompts()
      requires Valid()
      modifies this
      ensures Valid() && editsSinceReset == old(editsSinceReset)
      ensures prompts == Prompts("", "")
      ensures imageState == old(imageState) && uiState == old(uiState)
    {
      prompts := PromptReducer(prompts, PromptAction.ClearPrompts);
    }
  }

  /** The scenario of a generation followed by an edit and a reset:
      original A and current A compare as Original/Current; after an edit to
      B they compare as Previous/Current (A, B); the reset brings back A with
      no previous; an edit in flight shows A against the loading pane. */
  lemma GenerateEditResetScenario(a: ImageData, b: ImageData)
    ensures var s1 := ImageReducer(ImageReducer(InitialImageState, SetOriginal(a)), SetCurrent(a));
      var s2 := ImageReducer(s1, AddEdit(b));
      var s3 := ImageReducer(s2, ResetToOriginal);
      var busy := UIReducer(UIReducer(InitialUIState, SetEditMode(true)), SetLoading(true));
      && GetComparisonImages(s1, InitialUIState) == ComparisonImages(Some(a), Some(a), "Original", "Current", false)
      && s2 == ImageState(Some(b), Some(a), Some(a), true)
      && GetComparisonImages(s2, InitialUIState) == ComparisonImages(Some(a), Some(b), "Previous", "Current", false)
      && s3 == ImageState(Some(a), None, Some(a), false)
      && GetComparisonImages(s3, busy) == ComparisonImages(Some(a), None, "Current", "Editing...", true)
  {
  }
}
