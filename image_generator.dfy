/** components/image-generator.tsx: the handlers that drive the store around
    the two server actions, and the top-level display conditions. The awaited
    action result is an input of each handler; the FileReader result is an
    input of the upload handler. */
module ImageGenerator {
  import opened Wrappers
  import opened Text
  import opened ImageUtils
  import opened ImageVersion

  /** What an awaited server action did: returned a result, or threw. */
  datatype ServiceOutcome = Returned(result: ImageResult) | Threw

  const PromptRequiredError := "Please enter a prompt"
  const GenerateFailedDefault := "Failed to generate image"
  const GenerateThrewError := "Failed to generate image. Please try again."
  const EditFailedDefault := "Failed to edit image"
  const EditThrewError := "Failed to edit image. Please try again."
  const NoImageToEditError := "No image available to edit"
  const UploadBlockedError := "File upload is only available when no image exists. Please generate an image first or reset to upload a new one."
  const UnsupportedFileError := "Please upload only PNG or JPG image files."
  const UploadFailedError := "Failed to process uploaded image. Please try again."
  const EnhancePrompt := "Enhance the image with better lighting, colors, and creative effects"

  /** `result.success && result.data`. */
  predicate Succeeded(o: ServiceOutcome) {
    o.Returned? && o.result.success && o.result.data.Some?
  }

  /** The message a failed call leaves: the result's error, or a default when
      that is empty, or the fixed text for a call that threw. Never empty. */
  function FailureMessage(o: ServiceOutcome, default: string, threw: string): (m: string)
    requires default != "" && threw != ""
    ensures m != ""
    ensures o.Threw? ==> m == threw
    ensures o.Returned? && Truthy(o.result.error) ==> m == o.result.error.value
    ensures o.Returned? && !Truthy(o.result.error) ==> m == default
  {
    if o.Threw? then threw else OrElse(o.result.error, default)
  }

  /** The dispatches of `handleCreateImage` once the service has answered. */
  function CreateImageEffect(s: Session, o: ServiceOutcome): (r: Session)
    ensures !r.ui.isLoading
    ensures Succeeded(o) ==>
      && r.images.current == o.result.data && r.images.original == o.result.data
      && r.images.previous == s.images.previous && r.images.hasBeenEdited == s.images.hasBeenEdited
      && r.ui.isEditMode && r.ui.showComparison && r.ui.error.None?
      && r.prompts.generate == "" && r.prompts.edit == s.prompts.edit
    ensures !Succeeded(o) ==>
      && r.images == s.images && r.prompts == s.prompts
      && r.ui == s.ui.(isLoading := false, error := Some(FailureMessage(o, GenerateFailedDefault, GenerateThrewError)))
  {
    var ui := UIReducer(UIReducer(s.ui, SetLoading(true)), SetError(None));
    if Succeeded(o) then
      var d := o.result.data.value;
      Session(ImageReducer(ImageReducer(s.images, SetCurrent(d)), SetOriginal(d)),
              UIReducer(UIReducer(ui, SetEditMode(true)), SetLoading(false)),
              PromptReducer(s.prompts, SetGeneratePrompt("")))
    else
      Session(s.images,
              UIReducer(UIReducer(ui, SetError(Some(FailureMessage(o, GenerateFailedDefault, GenerateThrewError)))), SetLoading(false)),
              s.prompts)
  }

  /** The dispatches of `handleEditImage`: with no current image only the
      error is set; otherwise an edit is applied on success. */
  function EditImageEffect(s: Session, o: ServiceOutcome): (r: Session)
    ensures s.images.current.None? ==> r == Session(s.images, s.ui.(error := Some(NoImageToEditError)), s.prompts)
    ensures s.images.current.Some? ==> !r.ui.isLoading && r.ui.isEditMode == s.ui.isEditMode
    ensures s.images.current.Some? && Succeeded(o) ==>
      && r.images == ImageReducer(s.images, AddEdit(o.result.data.value))
      && r.ui.error.None? && r.ui.showComparison == s.ui.showComparison
      && r.prompts == s.prompts.(edit := "")
    ensures s.images.current.Some? && !Succeeded(o) ==>
      && r.images == s.images && r.prompts == s.prompts
      && r.ui == s.ui.(isLoading := false, error := Some(FailureMessage(o, EditFailedDefault, EditThrewError)))
  {
    if s.images.current.None? then Session(s.images, UIReducer(s.ui, SetError(Some(NoImageToEditError))), s.prompts)
    else
      var ui := UIReducer(UIReducer(s.ui, SetLoading(true)), SetError(None));
      if Succeeded(o) then
        Session(ImageReducer(s.images, AddEdit(o.result.data.value)),
                UIReducer(ui, SetLoading(false)),
                PromptReducer(s.prompts, SetEditPrompt("")))
      else
        Session(s.images,
                UIReducer(UIReducer(ui, SetError(Some(FailureMessage(o, EditFailedDefault, EditThrewError)))), SetLoading(false)),
                s.prompts)
  }

  /** The argument of `generateImage`. */
  datatype GenerateRequest = GenerateRequest(prompt: string)

  /** `handleCreateImage`: asks the service to generate from `promptText`
      and applies its answer. Returns the request sent. */
  method HandleCreateImage(store: ImageVersioning, promptText: string, outcome: ServiceOutcome) returns (request: GenerateRequest)
    requires store.Valid()
    modifies store
    ensures store.Valid() && store.editsSinceReset == old(store.editsSinceReset)
    ensures request.prompt == promptText
    ensures store.Snapshot() == CreateImageEffect(old(store.Snapshot()), outcome)
  {
    store.SetLoading(true);
    store.SetError(None);
    request := GenerateRequest(promptText);
    if Succeeded(outcome) {
      var data := outcome.result.data.value;
      store.SetCurrent(data);
      store.SetOriginal(data);
      store.EnterEditMode();
      store.SetGeneratePrompt("");
    } else {
      store.SetError(Some(FailureMessage(outcome, GenerateFailedDefault, GenerateThrewError)));
    }
    store.SetLoading(false);
  }

  /** What `editImage` is called with. */
  datatype EditRequest = EditRequest(prompt: string, imageData: ImageData)

  method HandleEditImage(store: ImageVersioning, editPromptText: string, outcome: ServiceOutcome) returns (request: Option<EditRequest>)
    requires store.Valid()
    modifies store
    ensures store.Valid()
    ensures store.Snapshot() == EditImageEffect(old(store.Snapshot()), outcome)
    ensures request.None? <==> old(store.imageState).current.None?
    ensures request.Some? ==> request.value == EditRequest(editPromptText, old(store.imageState).current.value)
  {
    if store.imageState.current.None? {
      store.SetError(Some(NoImageToEditError));
      return None;
    }
    request := Some(EditRequest(editPromptText, store.imageState.current.value));
    store.SetLoading(true);
    store.SetError(None);
    if Succeeded(outcome) {
      store.AddEdit(outcome.result.data.value);
      store.SetEditPrompt("");
    } else {
      store.SetError(Some(FailureMessage(outcome, EditFailedDefault, EditThrewError)));
    }
    store.SetLoading(false);
  }

  /** `message.text?.trim() || ""`: the text with white space cut from both
      ends, empty exactly when there is no text or nothing but white space. */
  function SubmittedPrompt(text: Option<string>): (r: string)
    ensures text.None? ==> r == ""
    ensures text.Some? ==> exists lead :: StrippedBy(text.value, r, lead)
    ensures r == "" <==> text.None? || forall i :: 0 <= i < |text.value| ==> IsWhiteSpace(text.value[i])
  {
    if text.Some? then Trim(text.value) else ""
  }

  /** `handleCreateSubmit`: a blank prompt sets an error and calls nothing;
      otherwise the trimmed prompt goes to the generation handler. Returns the
      request sent, if any. */
  method HandleCreateSubmit(store: ImageVersioning, text: Option<string>, outcome: ServiceOutcome) returns (sent: Option<GenerateRequest>)
    requires store.Valid()
    modifies store
    ensures store.Valid()
    ensures sent.None? <==> SubmittedPrompt(text) == ""
    ensures sent.None? ==> store.Snapshot() == old(store.Snapshot()).(ui := old(store.uiState).(error := Some(PromptRequiredError)))
    ensures sent.Some? ==> sent.value.prompt == SubmittedPrompt(text) && store.Snapshot() == CreateImageEffect(old(store.Snapshot()), outcome)
  {
    var promptText := SubmittedPrompt(text);
    if promptText == "" {
      store.SetError(Some(PromptRequiredError));
      return None;
    }
    var request := HandleCreateImage(store, promptText, outcome);
    sent := Some(request);
  }

  /** `handleEditSubmit`: the same guard in front of the edit handler. */
  method HandleEditSubmit(store: ImageVersioning, text: Option<string>, outcome: ServiceOutcome) returns (request: Option<EditRequest>)
    requires store.Valid()
    modifies store
    ensures store.Valid()
    ensures SubmittedPrompt(text) == "" ==>
      request.None? && store.Snapshot() == old(store.Snapshot()).(ui := old(store.uiState).(error := Some(PromptRequiredError)))
    ensures SubmittedPrompt(text) != "" ==> store.Snapshot() == EditImageEffect(old(store.Snapshot()), outcome)
    ensures request.Some? <==> SubmittedPrompt(text) != "" && old(store.imageState).current.Some?
    ensures request.Some? ==> request.value == EditRequest(SubmittedPrompt(text), old(store.imageState).current.value)
  {
    var promptText := SubmittedPrompt(text);
    if promptText == "" {
      store.SetError(Some(PromptRequiredError));
      return None;
    }
    request := HandleEditImage(store, promptText, outcome);
  }

  /** A dropped file: only its MIME type matters before it is read. */
  datatype UploadFile = UploadFile(fileType: string)

  /** What the FileReader produced for the chosen file. */
  datatype ReadOutcome = DataUrl(text: string) | NotText | ReadError

  predicate IsAcceptedType(f: UploadFile) {
    f.fileType == "image/png" || f.fileType == "image/jpeg" || f.fileType == "image/jpg"
  }

  /** The PNG/JPEG files, in their original order. */
  function AcceptedFiles(files: seq<UploadFile>): (r: seq<UploadFile>)
    ensures forall f :: f in r <==> f in files && IsAcceptedType(f)
    ensures r != [] ==> exists i :: 0 <= i < |files| && files[i] == r[0] && forall j :: 0 <= j < i ==> !IsAcceptedType(files[j])
  {
    if files == [] then []
    else
      var rest := AcceptedFiles(files[1..]);
      assert forall f :: f in files <==> f == files[0] || f in files[1..];
      if IsAcceptedType(files[0]) then [files[0]] + rest
      else
        assert rest != [] ==> exists i :: 1 <= i < |files| && files[i] == rest[0] && forall j :: 0 <= j < i ==> !IsAcceptedType(files[j]) by {
          if rest != [] {
            var k :| 0 <= k < |files[1..]| && files[1..][k] == rest[0] && forall j :: 0 <= j < k ==> !IsAcceptedType(files[1..][j]);
            assert files[k + 1] == rest[0];
            assert forall j :: 0 <= j < k + 1 ==> !IsAcceptedType(files[j]) by {
              forall j | 0 <= j < k + 1 ensures !IsAcceptedType(files[j]) {
                if j > 0 { assert files[j] == files[1..][j - 1]; }
              }
            }
          }
        }
        rest
  }

  /** `convertFileToImageData` once the reader has finished: the text after
      the data URL's first comma (missing when there is none) and the file's
      MIME type. */
  function ConvertedImageData(file: UploadFile, read: ReadOutcome): (r: Option<ImageData>)
    ensures r.Some? <==> read.DataUrl?
    ensures r.Some? ==> r.value.base64 == Segment(read.text, ',', 1) && r.value.mediaType == Some(file.fileType)
  {
    if read.DataUrl? then Some(ImageData(Segment(read.text, ',', 1), None, Some(file.fileType))) else None
  }

  /** A file read back as `data:<type>;base64,<payload>` yields that payload. */
  lemma ConvertedPayload(file: UploadFile, payload: string)
    requires ',' !in file.fileType && ',' !in payload
    ensures ConvertedImageData(file, DataUrl(CreateDataUrl(ProcessedImageData(payload, file.fileType))))
         == Some(ImageData(Some(payload), None, Some(file.fileType)))
  {
    DataUrlPayloadSegment(payload, file.fileType);
  }

  /** The dispatches of `handleFileUpload`. */
  function FileUploadEffect(s: Session, files: Option<seq<UploadFile>>, read: ReadOutcome): (r: Session)
    ensures s.images.current.Some? ==> r == s.(ui := s.ui.(error := Some(UploadBlockedError)))
    ensures s.images.current.None? && (files.None? || files.value == []) ==> r == s
    ensures s.images.current.None? && files.Some? && files.value != [] && AcceptedFiles(files.value) == [] ==>
      r == s.(ui := s.ui.(error := Some(UnsupportedFileError)))
    ensures s.images.current.None? && files.Some? && AcceptedFiles(files.value) != [] ==>
      var d := ConvertedImageData(AcceptedFiles(files.value)[0], read);
      && !r.ui.isLoading
      && (d.Some? ==>
            && r.images == s.images.(original := d, current := d)
            && r.ui == s.ui.(isLoading := false, error := None, isEditMode := true, showComparison := true)
            && r.prompts == s.prompts.(edit := EnhancePrompt))
      && (d.None? ==> r == s.(ui := s.ui.(isLoading := false, error := Some(UploadFailedError))))
  {
    if s.images.current.Some? then s.(ui := UIReducer(s.ui, SetError(Some(UploadBlockedError))))
    else if files.None? || files.value == [] then s
    else
      var accepted := AcceptedFiles(files.value);
      if accepted == [] then s.(ui := UIReducer(s.ui, SetError(Some(UnsupportedFileError))))
      else
        var ui := UIReducer(UIReducer(s.ui, SetLoading(true)), SetError(None));
        match ConvertedImageData(accepted[0], read)
        case Some(d) =>
          Session(ImageReducer(ImageReducer(s.images, SetOriginal(d)), SetCurrent(d)),
                  UIReducer(UIReducer(ui, SetEditMode(true)), SetLoading(false)),
                  PromptReducer(s.prompts, SetEditPrompt(EnhancePrompt)))
        case None =>
          Session(s.images, UIReducer(UIReducer(ui, SetError(Some(UploadFailedError))), SetLoading(false)), s.prompts)
  }

  /** `handleFileUpload`; returns the file handed to the reader, if any. */
  method HandleFileUpload(store: ImageVersioning, files: Option<seq<UploadFile>>, read: ReadOutcome) returns (readFile: Option<UploadFile>)
    requires store.Valid()
    modifies store
    ensures store.Valid()
    ensures store.Snapshot() == FileUploadEffect(old(store.Snapshot()), files, read)
    ensures readFile.Some? <==> old(store.imageState).current.None? && files.Some? && AcceptedFiles(files.value) != []
    ensures readFile.Some? ==> readFile.value == AcceptedFiles(files.value)[0]
  {
    if store.imageState.current.Some? {
      store.SetError(Some(UploadBlockedError));
      return None;
    }
    if files.None? || files.value == [] {
      return None;
    }
    var accepted := AcceptedFiles(files.value);
    if accepted == [] {
      store.SetError(Some(UnsupportedFileError));
      return None;
    }
    store.SetLoading(true);
    store.SetError(None);
    readFile := Some(accepted[0]);
    var data := ConvertedImageData(accepted[0], read);
    if data.Some? {
      store.SetOriginal(data.value);
      store.SetCurrent(data.value);
      store.EnterEditMode();
      store.SetEditPrompt(EnhancePrompt);
    } else {
      store.SetError(Some(UploadFailedError));
    }
    store.SetLoading(false);
  }

  /** Which input the bottom of the page offers. */
  datatype InputSection = EditInput | CreateInput | UploadOrCreate

  /** The top-level display conditions of the page. `comparisonGrid` is the
      grid inside the main content (the single-image view otherwise). */
  datatype PageView = PageView(mainContent: bool, comparisonGrid: bool, loadingState: bool, errorState: bool, input: InputSection)

  function Page(s: Session): (v: PageView)
    ensures !(v.mainContent && v.errorState)
    ensures v.mainContent <==> s.images.current.Some? && !Truthy(s.ui.error)
    ensures v.comparisonGrid <==> v.mainContent && s.ui.showComparison
    ensures v.loadingState <==> s.ui.isLoading && !s.ui.isEditMode
    ensures v.errorState <==> Truthy(s.ui.error)
    ensures v.input == UploadOrCreate <==> s.images.current.None? && !s.ui.isLoading
    ensures v.input == EditInput <==> (s.images.current.Some? || s.ui.isLoading) && s.ui.isEditMode
  {
    var main := s.images.current.Some? && !Truthy(s.ui.error);
    PageView(
      main,
      main && s.ui.showComparison,
      s.ui.isLoading && !s.ui.isEditMode,
      Truthy(s.ui.error),
      if s.images.current.Some? || s.ui.isLoading then (if s.ui.isEditMode then EditInput else CreateInput) else UploadOrCreate)
  }

  /** After a successful generation the page shows the comparison grid and
      the edit input; after any failed call it shows the error instead of the
      image. */
  lemma PageAfterCreate(s: Session, o: ServiceOutcome)
    ensures Succeeded(o) ==>
      var v := Page(CreateImageEffect(s, o));
      v.mainContent && v.comparisonGrid && !v.loadingState && !v.errorState && v.input == EditInput
    ensures !Succeeded(o) ==>
      var v := Page(CreateImageEffect(s, o));
      v.errorState && !v.mainContent && !v.loadingState
  {
  }
}
