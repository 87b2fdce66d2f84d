/** components/image-display.tsx: what the comparison grid, the action
    buttons and the loading panel show, and the guarded reset handler.
    Rendering, the fullscreen dialog and the browser download are not part of
    this model. */
module ImageDisplay {
  import opened Wrappers
  import opened Text
  import opened ImageUtils
  import opened ImageVersion

  const PlaceholderPrefixLength := 100

  /** `s.slice(0, n)`. */
  function Prefix(s: string, n: nat): (r: string)
    ensures |r| == (if |s| < n then |s| else n) && r == s[..|r|]
  {
    s[..if |s| < n then |s| else n]
  }

  /** `a` and `b` agree on their first `n` characters in the sense of
      `a.slice(0, n) === b.slice(0, n)`: if either is shorter than `n` they
      are the same length, and every position below `n` holds the same character. */
  predicate AgreeOnFirst(a: string, b: string, n: nat) {
    && ((|a| < n || |b| < n) ==> |a| == |b|)
    && forall i :: 0 <= i < n && i < |a| ==> i < |b| && a[i] == b[i]
  }

  lemma PrefixesEqual(a: string, b: string, n: nat)
    ensures Prefix(a, n) == Prefix(b, n) <==> AgreeOnFirst(a, b, n)
  {
    var pa, pb := Prefix(a, n), Prefix(b, n);
    if pa == pb {
      forall i | 0 <= i < n && i < |a| ensures i < |b| && a[i] == b[i] {
        assert pa[i] == a[i] && pb[i] == b[i];
      }
    }
    if AgreeOnFirst(a, b, n) {
      assert |pa| == |pb|;
      forall i | 0 <= i < |pa| ensures pa[i] == pb[i] {
        assert pa[i] == a[i] && pb[i] == b[i];
      }
    }
  }

  /** `showPlaceholder` of ComparisonGrid: both sides carry a non-empty
      payload and the first 100 characters agree. Short payloads must then be
      identical; long ones need only agree on that prefix. */
  function ShowPlaceholder(left: Option<ImageData>, right: Option<ImageData>): (r: bool)
    ensures r <==>
      && left.Some? && right.Some? && Truthy(left.value.base64) && Truthy(right.value.base64)
      && AgreeOnFirst(left.value.base64.value, right.value.base64.value, PlaceholderPrefixLength)
    ensures left.Some? && right.Some? && Truthy(left.value.base64) && left.value.base64 == right.value.base64 ==> r
  {
    if !(left.Some? && right.Some? && Truthy(left.value.base64) && Truthy(right.value.base64)) then false
    else
      var a, b := left.value.base64.value, right.value.base64.value;
      PrefixesEqual(a, b, PlaceholderPrefixLength);
      Prefix(a, PlaceholderPrefixLength) == Prefix(b, PlaceholderPrefixLength)
  }

  /** Two different payloads that share their first 100 characters are still
      shown as "no change yet", whatever else the two images carry. */
  lemma PlaceholderForSharedPrefix(left: ImageData, right: ImageData, shared: string, x: string, y: string)
    requires |shared| == PlaceholderPrefixLength
    requires left.base64 == Some(shared + x) && right.base64 == Some(shared + y)
    ensures ShowPlaceholder(Some(left), Some(right))
  {
    assert Prefix(shared + x, PlaceholderPrefixLength) == shared;
    assert Prefix(shared + y, PlaceholderPrefixLength) == shared;
  }

  /** What the right half of the comparison grid shows. */
  datatype RightPane = LoadingPane(isEditMode: bool) | PlaceholderPane | ImagePane(image: ImageData)

  /** `RightComparisonContent`: loading first, then the placeholder, then the image. */
  function RightComparisonContent(isLoading: bool, rightImage: Option<ImageData>, isEditMode: bool, showPlaceholder: bool): (r: RightPane)
    ensures r.LoadingPane? <==> isLoading
    ensures r.PlaceholderPane? <==> !isLoading && (showPlaceholder || rightImage.None?)
    ensures r.ImagePane? ==> rightImage == Some(r.image)
  {
    if isLoading then LoadingPane(isEditMode)
    else if showPlaceholder then PlaceholderPane
    else if rightImage.Some? then ImagePane(rightImage.value)
    else PlaceholderPane
  }

  /** The right pane of ComparisonGrid for a store state. */
  function ComparisonRightPane(img: ImageState, ui: UIState): (r: RightPane)
    ensures r.LoadingPane? <==> ui.isEditMode && ui.isLoading
    ensures r.LoadingPane? ==> r.isEditMode
    ensures r.ImagePane? ==> img.current == Some(r.image)
  {
    var c := GetComparisonImages(img, ui);
    RightComparisonContent(c.isLoading, c.right, ui.isEditMode, ShowPlaceholder(c.left, c.right))
  }

  /** While an edit is in flight the right pane is the loading panel. */
  lemma EditInFlightShowsLoading(img: ImageState, ui: UIState)
    requires ui.isEditMode && ui.isLoading
    ensures ComparisonRightPane(img, ui) == LoadingPane(true)
  {
  }

  /** Right after a generation or upload (original and current the same
      image, no previous), the right pane shows the placeholder rather than a
      copy of the left image. */
  lemma FreshImageShowsPlaceholder(img: ImageState, ui: UIState)
    requires !(ui.isEditMode && ui.isLoading)
    requires img.current.Some? && img.original == img.current && img.previous.None?
    requires Truthy(img.current.value.base64)
    ensures ComparisonRightPane(img, ui) == PlaceholderPane
  {
  }

  /** After an edit whose result differs from the previous image within the
      first 100 characters, the right pane shows the edited image. */
  lemma EditShowsNewImage(img: ImageState, ui: UIState, i: nat)
    requires !(ui.isEditMode && ui.isLoading)
    requires img.current.Some? && img.previous.Some?
    requires img.current.value.base64.Some? && img.previous.value.base64.Some?
    requires i < PlaceholderPrefixLength && i < |img.current.value.base64.value| && i < |img.previous.value.base64.value|
    requires img.current.value.base64.value[i] != img.previous.value.base64.value[i]
    ensures ComparisonRightPane(img, ui) == ImagePane(img.current.value)
  {
  }

  /** Which of the three action buttons are shown. */
  datatype ActionButtonSet = ActionButtonSet(editImage: bool, toggleComparison: bool, resetToOriginal: bool)

  /** `ActionButtons`: nothing without a current image; "Edit Image" outside
      edit mode; "Show/Hide Comparison" outside edit mode once there is a
      previous image; "Reset to Original" once there is a previous image. */
  function ActionButtons(img: ImageState, ui: UIState): (r: Option<ActionButtonSet>)
    ensures r.None? <==> img.current.None?
    ensures r.Some? ==> (r.value.editImage <==> !ui.isEditMode)
    ensures r.Some? ==> (r.value.toggleComparison <==> !ui.isEditMode && img.previous.Some?)
    ensures r.Some? ==> (r.value.resetToOriginal <==> img.previous.Some?)
  {
    if img.current.None? then None
    else Some(ActionButtonSet(!ui.isEditMode, !ui.isEditMode && img.previous.Some?, img.previous.Some?))
  }

  /** A reset takes away its own button, and the comparison toggle with it. */
  lemma ResetHidesResetButton(img: ImageState, ui: UIState)
    ensures var r := ActionButtons(ImageReducer(img, ResetToOriginal), ui);
      r.None? || (!r.value.resetToOriginal && !r.value.toggleComparison)
  {
  }

  /** `handleResetToOriginal`: resets only when there is an original, so the
      current image never disappears through this button. */
  method HandleResetToOriginal(store: ImageVersioning)
    requires store.Valid()
    modifies store
    ensures store.Valid()
    ensures old(store.imageState).original.Some? ==> store.imageState == ImageReducer(old(store.imageState), ResetToOriginal)
    ensures old(store.imageState).original.None? ==> store.imageState == old(store.imageState)
    ensures old(store.imageState).current.Some? ==> store.imageState.current.Some?
    ensures store.uiState == old(store.uiState) && store.prompts == old(store.prompts)
  {
    if store.imageState.original.Some? {
      store.ResetToOriginal();
    }
  }

  const DefaultDisplayMime := "image/png"

  /** `imageSrc` of ComparisonImage: a data URL that ends with the payload
      and declares the image's MIME type, PNG when it has none, or the empty
      string without a payload. */
  function ImageSrc(image: ImageData): (r: string)
    ensures r == "" <==> !Truthy(image.base64)
    ensures Truthy(image.base64) ==> |image.base64.value| <= |r| && r[|r| - |image.base64.value|..] == image.base64.value
    ensures Truthy(image.base64) && !Truthy(image.mediaType) ==> MimeOfDataUrl(r) == Some(DefaultDisplayMime)
    ensures Truthy(image.base64) && Truthy(image.mediaType) && ';' !in image.mediaType.value ==> MimeOfDataUrl(r) == image.mediaType
  {
    if Truthy(image.base64) then CreateDataUrl(ProcessedImageData(image.base64.value, OrElse(image.mediaType, DefaultDisplayMime)))
    else ""
  }

  /** The displayed URL carries the payload unchanged: feeding it back to
      ProcessImageData, with the MIME type the URL declares, recovers the
      payload and the MIME type shown. */
  lemma ImageSrcRoundTrip(image: ImageData)
    requires Truthy(image.base64) && IsImageMime(OrElse(image.mediaType, DefaultDisplayMime))
    ensures var url := ImageSrc(image);
      ProcessImageData(ImageData(Some(url), None, MimeOfDataUrl(url)))
        == Ok(ProcessedImageData(image.base64.value, OrElse(image.mediaType, DefaultDisplayMime)))
  {
    ProcessCreatedDataUrl(image.base64.value, OrElse(image.mediaType, DefaultDisplayMime));
  }

  /** The download file extension: what follows the first '/' of the media
      type up to the next one, or "png" when that is missing or empty. */
  function DownloadExtension(mediaType: Option<string>): (r: string)
    ensures r != "" && '/' !in r
    ensures mediaType.None? ==> r == "png"
    ensures mediaType.Some? && '/' !in mediaType.value ==> r == "png"
  {
    if mediaType.None? then "png" else OrElse(Segment(mediaType.value, '/', 1), "png")
  }

  /** For `kind/ext` followed by nothing or by another '/', the extension is
      `ext`, or "png" when `ext` is empty (as for "image/"). */
  lemma DownloadExtensionOfMime(kind: string, ext: string, rest: string)
    requires '/' !in kind && '/' !in ext && (rest == [] || rest[0] == '/')
    ensures DownloadExtension(Some(kind + "/" + ext + rest)) == if ext == "" then "png" else ext
  {
    var tail := ext + rest;
    assert kind + "/" + ext + rest == kind + ['/'] + tail;
    SecondPiece(kind, tail, '/');
    assert tail[..|ext|] == ext;
    FirstPiece(tail, |ext|, '/');
  }

  /** `LoadingState`: its heading and the estimated time in seconds. */
  datatype LoadingView = LoadingView(heading: string, estimatedSeconds: nat)

  function LoadingState(isEditMode: bool): (r: LoadingView)
    ensures isEditMode ==> r == LoadingView("Editing image...", 60)
    ensures !isEditMode ==> r == LoadingView("Generating image...", 12)
  {
    if isEditMode then LoadingView("Editing image...", 60) else LoadingView("Generating image...", 12)
  }
}
