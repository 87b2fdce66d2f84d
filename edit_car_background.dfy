/** lib/actions/edit-car-background.ts: cut the car out with remove.bg, build
    a grey scene and a mask, ask Gemini for a new background, and answer with
    the edited image and the cutout; on failure still answer with the cutout
    when it was obtained. The three remote stages are inputs. */
module EditCarBackground {
  import opened Wrappers
  import opened Text
  import Base64

  /** What a remote stage did: delivered a value, or threw with a message. */
  datatype Stage<T> = Done(value: T) | Failed(message: string)

  const ShowroomPrompt := "Luxury indoor car showroom, glossy floor, soft lighting, photorealistic, 8k"
  const StreetPrompt := "Dubai clean highway street, golden hour, photorealistic, 8k"
  const DesertPrompt := "UAE desert dunes background, warm lighting, photorealistic, 8k"
  const StudioPrompt := "Professional photo studio background, grey tone, softbox lighting, 8k"

  const BackgroundPrompts: map<string, string> :=
    map["showroom" := ShowroomPrompt, "street" := StreetPrompt, "desert" := DesertPrompt, "studio" := StudioPrompt]

  /** The prompt for a background style; an unknown style gets the showroom. */
  function BackgroundPrompt(style: string): (r: string)
    ensures r in BackgroundPrompts.Values
    ensures style in BackgroundPrompts ==> r == BackgroundPrompts[style]
    ensures style !in BackgroundPrompts ==> r == ShowroomPrompt
  {
    if style in BackgroundPrompts then BackgroundPrompts[style]
    else
      assert BackgroundPrompts["showroom"] == ShowroomPrompt;
      ShowroomPrompt
  }

  /** The text part sent to Gemini next to the scene and the mask: fixed
      instructions around the background prompt. */
  const GeminiPromptHead := "I'm providing two images:\n1. First image: A car on a gray background that needs background replacement\n2. Second image: A mask image where WHITE areas indicate what should be REPLACED and BLACK areas indicate what should be KEPT\n\nPlease replace ONLY the background (white areas in the mask) with: "
  const GeminiPromptTail := ".\nKeep the car completely identical - do NOT redraw, modify, or change the vehicle in any way. Only replace the background areas."

  function GeminiPrompt(backgroundPrompt: string): (r: string)
    ensures |r| == |GeminiPromptHead| + |backgroundPrompt| + |GeminiPromptTail|
    ensures r[..|GeminiPromptHead|] == GeminiPromptHead
    ensures r[|GeminiPromptHead|..|GeminiPromptHead| + |backgroundPrompt|] == backgroundPrompt
    ensures r[|r| - |GeminiPromptTail|..] == GeminiPromptTail
  {
    GeminiPromptHead + backgroundPrompt + GeminiPromptTail
  }

  /** The parts of a Gemini response the action reads. A candidate without
      `content` is a candidate whose parts are missing. */
  datatype InlineData = InlineData(mimeType: Option<string>, data: string)
  datatype Part = Part(inlineData: Option<InlineData>)
  datatype Candidate = Candidate(parts: Option<seq<Part>>)
  datatype GeminiResponse = GeminiResponse(candidates: Option<seq<Candidate>>)

  const NoOutputError := "No output returned from Gemini."
  const NoPartsError := "No content parts in response."
  const NoImageError := "No image data in response."
  const DefaultError := "Failed to edit car background"
  const CutoutMediaType := "image/png"

  predicate StartsWith(s: string, prefix: string) {
    |prefix| <= |s| && s[..|prefix|] == prefix
  }

  /** `part.inlineData?.mimeType?.startsWith("image/")`. */
  predicate IsImagePart(p: Part) {
    p.inlineData.Some? && p.inlineData.value.mimeType.Some? && StartsWith(p.inlineData.value.mimeType.value, "image/")
  }

  /** The index `find` stops at: the first image part, or `|parts|` if none. */
  function FirstImagePart(parts: seq<Part>): (i: nat)
    ensures i <= |parts|
    ensures i < |parts| ==> IsImagePart(parts[i])
    ensures forall j :: 0 <= j < i ==> !IsImagePart(parts[j])
  {
    if parts == [] then 0
    else if IsImagePart(parts[0]) then 0
    else
      var k := FirstImagePart(parts[1..]);
      assert forall j :: 1 <= j < k + 1 ==> parts[j] == parts[1..][j - 1];
      k + 1
  }

  /** The image part of the first candidate, or the message the action throws. */
  function ExtractImagePart(resp: GeminiResponse): (r: Result<InlineData, string>)
    ensures resp.candidates.None? || resp.candidates.value == [] <==> r == Err(NoOutputError)
    ensures r.Err? ==> r.error in {NoOutputError, NoPartsError, NoImageError}
    ensures r == Err(NoPartsError) <==>
      && resp.candidates.Some? && resp.candidates.value != []
      && (resp.candidates.value[0].parts.None? || resp.candidates.value[0].parts.value == [])
    ensures r == Err(NoImageError) <==>
      && resp.candidates.Some? && resp.candidates.value != []
      && resp.candidates.value[0].parts.Some? && resp.candidates.value[0].parts.value != []
      && forall p :: p in resp.candidates.value[0].parts.value ==> !IsImagePart(p)
    ensures r.Ok? <==>
      && resp.candidates.Some? && resp.candidates.value != []
      && resp.candidates.value[0].parts.Some?
      && exists p :: p in resp.candidates.value[0].parts.value && IsImagePart(p)
    ensures r.Ok? ==>
      var parts := resp.candidates.value[0].parts.value;
      exists i :: 0 <= i < |parts| && IsImagePart(parts[i]) && r.value == parts[i].inlineData.value &&
        forall j :: 0 <= j < i ==> !IsImagePart(parts[j])
  {
    if resp.candidates.None? || resp.candidates.value == [] then Err(NoOutputError)
    else
      var parts := resp.candidates.value[0].parts;
      if parts.None? || parts.value == [] then Err(NoPartsError)
      else
        var i := FirstImagePart(parts.value);
        if i == |parts.value| then Err(NoImageError)
        else Ok(parts.value[i].inlineData.value)
  }

  /** `err.message || "Failed to edit car background"`. */
  function ErrorMessage(message: string): (m: string)
    ensures m != ""
    ensures message != "" ==> m == message
    ensures message == "" ==> m == DefaultError
  {
    if message == "" then DefaultError else message
  }

  /** Node's message when `Buffer.from` is handed `undefined`. */
  const UndefinedInputError := "The first argument must be of type string or an instance of Buffer, ArrayBuffer, or Array or an Array-like Object. Received undefined"

  datatype CarImage = CarImage(base64: string, mediaType: string)
  datatype CarResult = CarResult(success: bool, data: Option<CarImage>, error: Option<string>, backgroundRemoved: Option<CarImage>)

  /** `editCarBackground`. `imageBase64` is None when the client had no second
      data URL segment to send; `removeBg` is the cutout remove.bg returned,
      `composeFailure` the message of a failed sharp stage, and `gemini` the
      model's response. Returns the result and the prompt Gemini was sent. */
  method EditCarBackground(imageBase64: Option<string>, backgroundStyle: string,
                           removeBg: Stage<seq<Base64.Byte>>, composeFailure: Option<string>,
                           gemini: Stage<GeminiResponse>)
    returns (r: CarResult, sentPrompt: Option<string>)
    ensures r.success <==>
      imageBase64.Some? && removeBg.Done? && composeFailure.None? && gemini.Done? && ExtractImagePart(gemini.value).Ok?
    ensures r.success ==>
      var part := ExtractImagePart(gemini.value).value;
      r.data == Some(CarImage(part.data, part.mimeType.value)) && r.error.None?
    ensures !r.success ==> r.data.None? && r.error.Some? && r.error.value != ""
    ensures imageBase64.None? ==> r.error == Some(UndefinedInputError)
    ensures imageBase64.Some? && removeBg.Failed? ==> r.error == Some(ErrorMessage(removeBg.message))
    ensures imageBase64.Some? && removeBg.Done? && composeFailure.Some? ==> r.error == Some(ErrorMessage(composeFailure.value))
    ensures imageBase64.Some? && removeBg.Done? && composeFailure.None? && gemini.Failed? ==>
      r.error == Some(ErrorMessage(gemini.message))
    ensures imageBase64.Some? && removeBg.Done? && composeFailure.None? && gemini.Done? && ExtractImagePart(gemini.value).Err? ==>
      r.error == Some(ExtractImagePart(gemini.value).error)
    // the cutout is returned exactly when remove.bg answered, success or not
    ensures r.backgroundRemoved.Some? <==> imageBase64.Some? && removeBg.Done?
    ensures r.backgroundRemoved.Some? ==>
      && r.backgroundRemoved.value == CarImage(Base64.Encode(removeBg.value), CutoutMediaType)
      && Base64.Decode(r.backgroundRemoved.value.base64) == Some(removeBg.value)
    ensures sentPrompt.Some? <==> imageBase64.Some? && removeBg.Done? && composeFailure.None?
    ensures sentPrompt.Some? ==> sentPrompt.value == GeminiPrompt(BackgroundPrompt(backgroundStyle))
  {
    var carPng: Option<seq<Base64.Byte>> := None;
    var thrown: Option<string> := None;
    var edited: CarImage := CarImage("", "");
    sentPrompt := None;
    if imageBase64.None? {
      thrown := Some(UndefinedInputError);
    } else if removeBg.Failed? {
      thrown := Some(removeBg.message);
    } else {
      carPng := Some(removeBg.value);
      if composeFailure.Some? {
        thrown := composeFailure;
      } else {
        sentPrompt := Some(GeminiPrompt(BackgroundPrompt(backgroundStyle)));
        if gemini.Failed? {
          thrown := Some(gemini.message);
        } else {
          match ExtractImagePart(gemini.value) {
            case Err(m) => thrown := Some(m);
            case Ok(part) => edited := CarImage(part.data, part.mimeType.value);
          }
        }
      }
    }
    var cutout: Option<CarImage> := None;
    if carPng.Some? {
      Base64.DecodeEncode(carPng.value);
      cutout := Some(CarImage(Base64.Encode(carPng.value), CutoutMediaType));
    }
    if thrown.None? {
      r := CarResult(true, Some(edited), None, cutout);
    } else {
      r := CarResult(false, None, Some(ErrorMessage(thrown.value)), cutout);
    }
  }
}
