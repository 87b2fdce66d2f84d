/** components/CarEditor.tsx: the page that uploads a car photo, picks a
    background style and shows the original, the cutout and the edited
    image. The action's remote stages are inputs of `Process`. */
module CarEditor {
  import opened Wrappers
  import opened Text
  import opened ImageUtils
  import Base64
  import opened EditCarBackground

  const DefaultStyle := "showroom"

  /** `data:<mediaType>;base64,<base64>` for an image the action returned:
      it declares the image's media type and its payload follows the first comma. */
  function ImageUrl(image: CarImage): (r: string)
    ensures ';' !in image.mediaType ==> MimeOfDataUrl(r) == Some(image.mediaType)
    ensures ',' !in image.mediaType && ',' !in image.base64 ==> Segment(r, ',', 1) == Some(image.base64)
  {
    assert ',' !in image.mediaType && ',' !in image.base64 ==>
      Segment(CreateDataUrl(ProcessedImageData(image.base64, image.mediaType)), ',', 1) == Some(image.base64) by {
      if ',' !in image.mediaType && ',' !in image.base64 {
        DataUrlPayloadSegment(image.base64, image.mediaType);
      }
    }
    CreateDataUrl(ProcessedImageData(image.base64, image.mediaType))
  }

  /** The argument of `editCarBackground`: the payload (None for `undefined`) and the style. */
  datatype ActionRequest = ActionRequest(imageBase64: Option<string>, backgroundStyle: string)

  class CarEditor {
    var original: Option<string>
    var backgroundRemoved: Option<string>
    var edited: Option<string>
    var loading: bool
    var style: string
    /** The remove.bg bytes behind `backgroundRemoved`. */
    ghost var cutout: seq<Base64.Byte>

    /** A shown cutout is always the PNG data URL of non-empty remove.bg output. */
    ghost predicate Valid()
      reads this
    {
      backgroundRemoved.Some? ==>
        cutout != [] && backgroundRemoved.value == ImageUrl(CarImage(Base64.Encode(cutout), CutoutMediaType))
    }

    constructor ()
      ensures Valid()
      ensures original.None? && backgroundRemoved.None? && edited.None?
      ensures !loading && style == DefaultStyle
    {
      original := None;
      backgroundRemoved := None;
      edited := None;
      loading := false;
      style := DefaultStyle;
      cutout := [];
    }

    /** `handleFile`: `read` is the data URL of the chosen file, None when
        no file was chosen. */
    method HandleFile(read: Option<string>)
      requires Valid()
      modifies this
      ensures Valid()
      ensures original == (if read.Some? then read else old(original))
      ensures backgroundRemoved == old(backgroundRemoved) && edited == old(edited)
      ensures loading == old(loading) && style == old(style)
    {
      if read.Some? {
        original := read;
      }
    }

    method SetStyle(s: string)
      requires Valid()
      modifies this
      ensures Valid()
      ensures style == s
      ensures original == old(original) && backgroundRemoved == old(backgroundRemoved)
      ensures edited == old(edited) && loading == old(loading)
    {
      style := s;
    }

    /** The process button is disabled with no original or while loading. */
    function ProcessDisabled(): (r: bool)
      reads this
      ensures r <==> original.None? || original.value == "" || loading
    {
      !Truthy(original) || loading
    }

    /** `process`: sends the payload of the original data URL and the style,
        then shows the edited image only on success and the cutout whenever
        the action returned a non-empty one. `rejected` says the call to the
        action itself rejected (a transport failure, or a request body over
        the action size limit): `process` has no handler for that, so
        `loading` stays set and the button stays disabled. Returns the
        request sent to the action, None when there was no original, and the
        action's result, None when there was no original or the call rejected. */
    method Process(rejected: bool, removeBg: Stage<seq<Base64.Byte>>, composeFailure: Option<string>, gemini: Stage<GeminiResponse>)
      returns (request: Option<ActionRequest>, result: Option<CarResult>)
      requires Valid()
      modifies this
      ensures Valid()
      ensures !Truthy(old(original)) ==> request.None? && result.None? && unchanged(this)
      // the payload sent is the text after the first comma of the original data URL
      ensures request.Some? <==> Truthy(old(original))
      ensures request.Some? ==> request.value == ActionRequest(Segment(old(original).value, ',', 1), old(style))
      // end to end: the action succeeds exactly when every stage worked, with the found image part
      ensures Truthy(old(original)) && !rejected ==>
        && result.Some?
        && (result.value.success <==>
              ',' in old(original).value && removeBg.Done? && composeFailure.None? && gemini.Done? && ExtractImagePart(gemini.value).Ok?)
        && (result.value.success ==>
              result.value.data == Some(CarImage(ExtractImagePart(gemini.value).value.data,
                                                 ExtractImagePart(gemini.value).value.mimeType.value)))
      ensures Truthy(old(original)) && !rejected ==>
        (edited.Some? <==>
           && ',' in old(original).value && removeBg.Done? && composeFailure.None? && gemini.Done?
           && ExtractImagePart(gemini.value).Ok? && ExtractImagePart(gemini.value).value.data != "")
      ensures Truthy(old(original)) && rejected ==>
        && result.None? && loading && ProcessDisabled()
        && edited.None? && backgroundRemoved.None?
        && original == old(original) && style == old(style)
      ensures Truthy(old(original)) && !rejected ==> !ProcessDisabled()
      ensures Truthy(old(original)) && !rejected ==>
        && result.Some?
        && original == old(original) && style == old(style)
        && edited == (if result.value.success && result.value.data.Some? && result.value.data.value.base64 != ""
                      then Some(ImageUrl(result.value.data.value)) else None)
        && backgroundRemoved == (if result.value.backgroundRemoved.Some? && result.value.backgroundRemoved.value.base64 != ""
                                 then Some(ImageUrl(result.value.backgroundRemoved.value)) else None)
      // end to end: the cutout shows exactly when remove.bg answered with bytes
      ensures Truthy(old(original)) && !rejected ==>
        (backgroundRemoved.Some? <==> ',' in old(original).value && removeBg.Done? && removeBg.value != [])
      ensures backgroundRemoved.Some? && Truthy(old(original)) ==>
        backgroundRemoved.value == ImageUrl(CarImage(Base64.Encode(removeBg.value), CutoutMediaType))
      ensures Truthy(old(original)) && edited.Some? ==>
        gemini.Done? && ExtractImagePart(gemini.value).Ok? &&
        edited.value == ImageUrl(CarImage(ExtractImagePart(gemini.value).value.data,
                                          ExtractImagePart(gemini.value).value.mimeType.value))
    {
      if !Truthy(original) {
        return None, None;
      }
      loading := true;
      edited := None;
      backgroundRemoved := None;
      var cleanBase64 := Segment(original.value, ',', 1);
      request := Some(ActionRequest(cleanBase64, style));
      if rejected {
        return request, None;
      }
      assert cleanBase64.Some? <==> ',' in original.value;
      var r, _ := EditCarBackground.EditCarBackground(cleanBase64, style, removeBg, composeFailure, gemini);
      result := Some(r);
      ShowResult(r, if removeBg.Done? then removeBg.value else []);
    }

    /** What `process` does with the action's answer: the edited image on
        success with a payload, the cutout whenever it has a payload, and the
        end of loading. `bytes` are the remove.bg bytes behind the cutout. */
    method ShowResult(r: CarResult, ghost bytes: seq<Base64.Byte>)
      requires r.backgroundRemoved.Some? ==> r.backgroundRemoved.value == CarImage(Base64.Encode(bytes), CutoutMediaType)
      modifies this
      ensures Valid()
      ensures original == old(original) && style == old(style) && !loading
      ensures edited == (if r.success && r.data.Some? && r.data.value.base64 != ""
                         then Some(ImageUrl(r.data.value)) else old(edited))
      ensures backgroundRemoved == (if r.backgroundRemoved.Some? && r.backgroundRemoved.value.base64 != ""
                                    then Some(ImageUrl(r.backgroundRemoved.value)) else None)
      ensures backgroundRemoved.Some? ==> cutout == bytes
    {
      if r.success {
        if r.data.Some? && r.data.value.base64 != "" {
          edited := Some(ImageUrl(r.data.value));
        }
      }
      backgroundRemoved := None;
      if r.backgroundRemoved.Some? && r.backgroundRemoved.value.base64 != "" {
        backgroundRemoved := Some(ImageUrl(r.backgroundRemoved.value));
        cutout := bytes;
      }
      loading := false;
    }
  }
}
