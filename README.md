# imagen — a Dafny model of the image-versioning core

This project models the client and server logic of *imagen*, a Next.js app that
generates an image from a prompt, edits it step by step, compares versions side by
side, and replaces the background of car photos.

The model covers these parts:

- **The image-versioning store** (`hooks/use-image-version.ts`).
  - It has three reducers: a three-slot image history (`current`, `previous`, `original`, `hasBeenEdited`), the UI flags, and the two prompts.
  - `getComparisonImages` picks the left and right images and their labels.
  - The store is the class `ImageVersioning`. Its methods apply the reducers. A ghost edit counter proves that `hasBeenEdited` means "an edit happened since the last reset or clear".
- **Image payload utilities** (`lib/utils/image-utils.ts`).
  - Stripping the data-URL prefix, and the JPEG default.
  - Base 64 as section 4 of RFC 4648 defines it, with a proved round trip.
  - Base-64 data URLs (`data:<mime>;base64,<payload>`, RFC 2397). The MIME type a built URL declares and its payload are proved to read back.
  - File-list validation and the result records.
- **Client identification and rate-limit headers** (`lib/utils/rate-limit.ts`).
- **The countdown** (`components/countdown.tsx`): a `Timer` class whose tick methods stand for the two interval timers, plus the zero-padded formatting.
- **The page controller** (`components/image-generator.tsx`).
  - The create, edit, upload and submit handlers are methods that drive the store.
  - The awaited server-action result and the FileReader result are inputs.
  - Each handler is proved equal to a specification function of the session state. The properties are proved about those functions.
- **View decisions** (`components/image-display.tsx`): the "no change yet" placeholder, the right pane's priority, the action buttons, the guarded reset handler, the image URL, the download extension and the loading estimate.
- **The car-background action** (`lib/actions/edit-car-background.ts`).
  - It is a method. The remove.bg answer, the sharp stage and the Gemini answer are inputs.
  - The local cutout is assigned mid-pipeline and read again on the failure path.
- **The car editor page** (`components/CarEditor.tsx`): a class whose `Process` method calls the action and updates `loading`, `edited` and `backgroundRemoved`. A call to the action that rejects leaves `loading` set, as the source has no handler for it.

Two behaviours of the store are kept exactly as written:

- `RESET_TO_ORIGINAL` has no guard. With no original it empties `current` (`ImageVersion.ResetWithoutOriginalDropsCurrent`). Only the button handler in `image-display.tsx` guards it (`ImageDisplay.HandleResetToOriginal`).
- `SET_PREVIOUS` fills `previous` without an edit. Every other action keeps "a previous image exists only after an edit" (`ImageVersion.PreviousFromEditPreserved`). `ImageVersion.SetPreviousBypassesEdit` shows the exception.

JavaScript truthiness is modelled explicitly:

- An optional string counts only when it is present and non-empty (`Text.Truthy`).
- `a || b` becomes `Text.OrElse`.
- Objects such as `ImageData` are always truthy.

Strings are sequences of Unicode scalar values (Dafny's `char`), not of UTF-16 code units as in JavaScript; the two agree on text without characters outside the Basic Multilingual Plane. `String.prototype.trim` is modelled with ECMAScript's white-space and line-terminator code points.

## Model

| member | source | states |
|---|---|---|
| Base64.Encode | lib/utils/image-utils.ts:55 | Bytes become base 64 of section 4 of RFC 4648, with 4 characters per started 3-byte group. |
| Base64.DecodeEncode | lib/utils/image-utils.ts:55 | Decoding the encoding gives back the original bytes, so no payload is lost. |
| Text.OrElse | components/image-generator.tsx:61 | `a \|\| fallback`: `a` when it is present and non-empty, the fallback otherwise. |
| Text.NatToString | lib/utils/rate-limit.ts:21-23 | `toString` of a whole number: non-empty, all digits, with a leading `0` only for zero. |
| Text.ParseNatToString | lib/utils/rate-limit.ts:21-23 | Reading the decimal rendering back gives the number. |
| Text.ParseLeadingZeros | components/countdown.tsx:189-192 | Leading zeros added by padding do not change the value read back. |
| Text.PadStart | components/countdown.tsx:189 | `padStart`: the length is at least the width, the string itself ends the result, and only pad characters are added in front. |
| Text.Split | lib/utils/rate-limit.ts:36 | `split`: no piece contains the separator; there is more than one piece iff the separator occurs; the first piece is the text before the first separator. |
| Text.JoinSplit | lib/utils/rate-limit.ts:36 | Joining the pieces with the separator restores the string. |
| Text.Segment | components/image-generator.tsx:109 | `split(sep)[k]`: piece 0 always exists and is a prefix; piece 1 exists iff the separator occurs. |
| Text.Trim | lib/utils/rate-limit.ts:36 | `trim`: only white space is removed, from both ends, and the result neither starts nor ends with white space. |
| ImageUtils.StripDataUrlPrefix | lib/utils/image-utils.ts:51 | The string is unchanged, or exactly one leading `data:image/<lowercase>;base64,` prefix is removed. |
| ImageUtils.StripMatchedPrefix | lib/utils/image-utils.ts:51 | A string that starts with such a prefix loses exactly that prefix. |
| ImageUtils.ProcessImageData | lib/utils/image-utils.ts:40-65 | It fails with "No image data provided for processing." iff there is neither a non-empty base64 nor bytes. A non-empty base64 wins and is prefix-stripped. Otherwise the bytes are base-64 encoded. The MIME type defaults to `image/jpeg`. |
| ImageUtils.CreateDataUrl | lib/utils/image-utils.ts:80-82 | The URL ends with the payload and declares the given MIME type (read back by `MimeOfDataUrl`, for a type without `;`). |
| ImageUtils.ProcessCreatedDataUrl | lib/utils/image-utils.ts:80-82 | For an `image/<lowercase>` type, the URL `createDataUrl(b, mime)` declares `mime`, and processing it with the MIME type it declares gives back `b` and `mime`. |
| ImageUtils.ImageMimeMakesPrefix | lib/utils/image-utils.ts:51 | `data:` + an image MIME type + `;base64,` is a prefix the pattern matches. |
| ImageUtils.DataUrlPayloadSegment | components/image-generator.tsx:109 | The text after the first comma of a created data URL is the payload. |
| ImageUtils.ValidateFiles | lib/utils/image-utils.ts:99-104 | A missing or empty list fails with "No image was generated. Please try again."; otherwise the result is the first file. |
| ImageUtils.ExtractImageData | lib/utils/image-utils.ts:112-118 | The three fields are copied; a missing file gives three missing fields. |
| ImageUtils.CreateSuccessResponse | lib/utils/image-utils.ts:126-130 | A successful, well-formed result carrying the data and no error. |
| ImageUtils.CreateErrorResponse | lib/utils/image-utils.ts:132-136 | A failed, well-formed result carrying the error and no data. |
| RateLimit.GetClientIP | lib/utils/rate-limit.ts:28-49 | The first non-empty header wins, in this order: the trimmed first entry of x-forwarded-for, then x-real-ip, then cf-connecting-ip, then "unknown". |
| RateLimit.ClientIPShape | lib/utils/rate-limit.ts:34-48 | An identifier from x-forwarded-for has no comma and no edge white space. The result is empty only when that header's first entry is blank. |
| RateLimit.HeaderPriority | lib/utils/rate-limit.ts:30-45 | Lower-priority headers cannot change the result while a higher one is non-empty. |
| RateLimit.RateLimitHeaders | lib/utils/rate-limit.ts:20-24 | Exactly the three X-RateLimit headers, each the decimal rendering of its number. |
| RateLimit.CheckRateLimit | lib/utils/rate-limit.ts:12-26 | The limiter's verdict is passed through, with those headers. |
| ImageVersion.ImageReducer | hooks/use-image-version.ts:45-78 | The SET actions change one slot only. ADD_EDIT moves current to previous and sets the flag. RESET_TO_ORIGINAL restores the original, drops previous and clears the flag. CLEAR_IMAGES gives the initial state. |
| ImageVersion.UIReducer | hooks/use-image-version.ts:80-104 | One flag per action. Entering edit mode forces the comparison on; leaving it keeps the comparison. RESET_UI gives the initial UI state. |
| ImageVersion.PromptReducer | hooks/use-image-version.ts:106-117 | Each setter changes only its prompt; CLEAR_PROMPTS empties both. |
| ImageVersion.ResetToOriginalIdempotent | hooks/use-image-version.ts:60-66 | Resetting twice equals resetting once. |
| ImageVersion.ResetWithoutOriginalDropsCurrent | hooks/use-image-version.ts:60-66 | With no original, the unguarded reset empties `current`. |
| ImageVersion.EditedFlagOnlyFromEdit | hooks/use-image-version.ts:53-74 | Only ADD_EDIT turns `hasBeenEdited` on. |
| ImageVersion.PreviousFromEditPreserved | hooks/use-image-version.ts:45-78 | Every action except SET_PREVIOUS keeps "previous implies edited". |
| ImageVersion.SetPreviousBypassesEdit | hooks/use-image-version.ts:49-50 | SET_PREVIOUS breaks that invariant from the initial state. |
| ImageVersion.ToggleComparisonState | hooks/use-image-version.ts:190-197 | The comparison flag flips and the other UI fields stay. |
| ImageVersion.ToggleComparisonTwice | hooks/use-image-version.ts:190-197 | Toggling twice restores the UI state. |
| ImageVersion.GetComparisonImages | hooks/use-image-version.ts:217-259 | It is loading iff in edit mode and loading. A right image, when there is one, is the current image, and there is one iff not loading, current exists and previous or original exists. The left image is one of the three slots. |
| ImageVersion.ComparisonPriority | hooks/use-image-version.ts:217-259 | The four rules apply in priority order: edit in flight, then Previous/Current, then Original/Current, then empty. |
| ImageVersion.GenerateEditResetScenario | hooks/use-image-version.ts:53-66 | Generate A, edit to B, then reset. The comparison goes Original/Current (A, A), then Previous/Current (A, B), then back to A with no previous. An edit in flight shows A against the loading pane. |
| ImageVersion.ImageVersioning.constructor | hooks/use-image-version.ts:122-140 | The initial states, including the initial generate prompt. |
| ImageVersion.ImageVersioning.AddEdit | hooks/use-image-version.ts:145-149 | The new image becomes current and the old current becomes previous. The original is kept, the flag is set, and the edit count grows. |
| ImageVersion.ImageVersioning.ResetToOriginal | hooks/use-image-version.ts:151-155 | The unguarded reset; the edit count returns to zero. |
| ImageVersion.ImageVersioning.SetCurrent | hooks/use-image-version.ts:157-159 | Only `current` changes. |
| ImageVersion.ImageVersioning.SetPrevious | hooks/use-image-version.ts:161-163 | Only `previous` changes. |
| ImageVersion.ImageVersioning.SetOriginal | hooks/use-image-version.ts:165-167 | Only `original` changes. |
| ImageVersion.ImageVersioning.ClearImages | hooks/use-image-version.ts:169-171 | The images return to the initial state; UI and prompts are kept. |
| ImageVersion.ImageVersioning.SetLoading | hooks/use-image-version.ts:174-176 | Only `isLoading` changes. |
| ImageVersion.ImageVersioning.SetError | hooks/use-image-version.ts:178-180 | Only `error` changes. |
| ImageVersion.ImageVersioning.EnterEditMode | hooks/use-image-version.ts:182-184 | Edit mode and the comparison turn on. |
| ImageVersion.ImageVersioning.ExitEditMode | hooks/use-image-version.ts:186-188 | Edit mode turns off and the comparison is kept. |
| ImageVersion.ImageVersioning.ToggleComparison | hooks/use-image-version.ts:190-197 | The comparison flag flips; nothing else changes. |
| ImageVersion.ImageVersioning.ResetUI | hooks/use-image-version.ts:199-201 | The UI returns to its initial state. |
| ImageVersion.ImageVersioning.SetGeneratePrompt | hooks/use-image-version.ts:204-206 | Only the generate prompt changes. |
| ImageVersion.ImageVersioning.SetEditPrompt | hooks/use-image-version.ts:208-210 | Only the edit prompt changes. |
| ImageVersion.ImageVersioning.ClearPrompts | hooks/use-image-version.ts:212-214 | Both prompts become empty. |
| Countdown.FormatSeconds | components/countdown.tsx:189 | Digits that read back as the elapsed seconds: exactly `0` and the digit below 10, and the plain decimal from 10 up. |
| Countdown.FormatMilliseconds | components/countdown.tsx:190-192 | Digits that read back as `floor(ms / 10)`, exactly two of them while ms < 1000. |
| Countdown.MillisecondTicksWrap | components/countdown.tsx:171-173 | After n ticks from ms the counter is `(ms + 10n) mod 1000`. |
| Countdown.Timer.constructor | components/countdown.tsx:132-134 | Zero counters, not running. |
| Countdown.Timer.Reset | components/countdown.tsx:136-139 | Both counters return to zero and the running flag is kept. |
| Countdown.Timer.Start | components/countdown.tsx:141-143 | Running; the counters are kept. |
| Countdown.Timer.Stop | components/countdown.tsx:145-147 | Stopped; the counters are kept. |
| Countdown.Timer.LoadingChanged | components/countdown.tsx:150-159 | Loading resets (when asked to) and starts. Not loading stops and keeps the counters. |
| Countdown.Timer.SecondTick | components/countdown.tsx:166-169 | While running, the seconds grow by one; otherwise nothing changes. |
| Countdown.Timer.MillisecondTick | components/countdown.tsx:171-173 | While running, the counter steps by 10 modulo 1000. It stays below 1000 and a multiple of 10. |
| Countdown.Timer.FormattedSeconds | components/countdown.tsx:189 | The seconds as digits that read back as them: `0` and the digit below 10, the plain decimal from 10 up. |
| Countdown.Timer.FormattedMilliseconds | components/countdown.tsx:190-192 | Always exactly two digits, reading back as the hundredths. |
| ImageGenerator.FailureMessage | components/image-generator.tsx:61-65 | The fixed text when the call threw. Otherwise the result's error when non-empty, and the default when it is missing or empty. Never empty. |
| ImageGenerator.CreateImageEffect | components/image-generator.tsx:47-69 | On success, current and original become the image, edit mode and the comparison turn on, the generate prompt is cleared, and the error is cleared. On failure, images and prompts are kept and the error is set. Loading always ends false. |
| ImageGenerator.EditImageEffect | components/image-generator.tsx:71-98 | With no current image, only the error "No image available to edit" is set, and loading is untouched. Otherwise a success applies ADD_EDIT and clears the edit prompt, and a failure keeps the images and sets the error. Loading ends false. |
| ImageGenerator.HandleCreateImage | components/image-generator.tsx:47-69 | The service is asked to generate from the given prompt, and the store after the handler equals `CreateImageEffect` of the store before it. |
| ImageGenerator.SubmittedPrompt | components/image-generator.tsx:192 | The text with white space cut from both ends only; empty iff there is no text or it is all white space. |
| ImageGenerator.HandleEditImage | components/image-generator.tsx:71-98 | The store equals `EditImageEffect`. The service is asked to edit the current image with the prompt iff a current image exists. |
| ImageGenerator.HandleCreateSubmit | components/image-generator.tsx:187-200 | A blank trimmed prompt sets "Please enter a prompt", calls nothing and changes nothing else. Otherwise the trimmed prompt is sent. |
| ImageGenerator.HandleEditSubmit | components/image-generator.tsx:202-215 | The same guard in front of the edit handler. |
| ImageGenerator.AcceptedFiles | components/image-generator.tsx:142-147 | Exactly the PNG and JPEG files are kept, and the first one kept is the first accepted file of the list. |
| ImageGenerator.ConvertedImageData | components/image-generator.tsx:101-125 | A read data URL gives its second comma segment as base64 and the file's type; a failed read gives nothing. |
| ImageGenerator.ConvertedPayload | components/image-generator.tsx:109 | A file read as `data:<type>;base64,<payload>` gives back that payload. |
| ImageGenerator.FileUploadEffect | components/image-generator.tsx:127-185 | With a current image, only the upload error is set. An empty list changes nothing. With no PNG or JPEG file, the type error is set. Otherwise a read sets original and current, enters edit mode and sets the enhancement prompt, and a failed read sets the upload error. Loading ends false. |
| ImageGenerator.HandleFileUpload | components/image-generator.tsx:127-185 | The store equals `FileUploadEffect`. The file read is the first accepted one, and one is read iff there is no current image and one was accepted. |
| ImageGenerator.Page | components/image-generator.tsx:225-275 | The main content shows iff there is a current image and no error, and the comparison grid iff the main content shows with comparison on. The loading panel shows iff loading outside edit mode, the error panel iff there is an error, so main content and error never show together. The edit input shows iff there is an image or a load in edit mode; upload is offered iff there is no image and nothing loads. |
| ImageGenerator.PageAfterCreate | components/image-generator.tsx:225-275 | After a successful generation the comparison grid and the edit input show. After a failure the error shows instead of the image. |
| ImageDisplay.Prefix | components/image-display.tsx:233-234 | `slice(0, n)`: the first n characters, or all of them. |
| ImageDisplay.ShowPlaceholder | components/image-display.tsx:228-236 | True iff both payloads are non-empty and agree on their first 100 characters (same length when either is shorter). Always true for identical payloads. |
| ImageDisplay.PlaceholderForSharedPrefix | components/image-display.tsx:228-236 | Any two images whose payloads share the first 100 characters show the placeholder, however they differ after that. |
| ImageDisplay.RightComparisonContent | components/image-display.tsx:196-220 | Loading first, then the placeholder, then the right image, otherwise the placeholder. |
| ImageDisplay.ComparisonRightPane | components/image-display.tsx:226-259 | The right pane is the loading panel iff an edit is in flight, and any image it shows is the current one. |
| ImageDisplay.EditInFlightShowsLoading | components/image-display.tsx:207-209 | While an edit is in flight the right pane is the loading panel. |
| ImageDisplay.FreshImageShowsPlaceholder | components/image-display.tsx:211-213 | Right after a generation or upload, the right pane is the placeholder. |
| ImageDisplay.EditShowsNewImage | components/image-display.tsx:215-217 | An edit that differs within the first 100 characters shows the new image. |
| ImageDisplay.ActionButtons | components/image-display.tsx:312-349 | Nothing without a current image. "Edit Image" shows iff not in edit mode. The comparison toggle shows iff not in edit mode and there is a previous image. "Reset to Original" shows iff there is a previous image. |
| ImageDisplay.ResetHidesResetButton | components/image-display.tsx:327-347 | After a reset, neither the reset button nor the toggle is shown. |
| ImageDisplay.HandleResetToOriginal | components/image-display.tsx:306-310 | It resets only when an original exists, so the current image never disappears through this button. |
| ImageDisplay.ImageSrc | components/image-display.tsx:70-72 | Empty iff there is no payload. Otherwise a data URL that ends with the payload and declares the image's MIME type, or `image/png` when it has none. |
| ImageDisplay.ImageSrcRoundTrip | components/image-display.tsx:70-72 | Processing the displayed URL with the MIME type it declares gives back the payload and the MIME type shown. |
| ImageDisplay.DownloadExtension | components/image-display.tsx:60 | Non-empty and free of `/`; "png" without a media type or with one that has no `/`. |
| ImageDisplay.DownloadExtensionOfMime | components/image-display.tsx:60 | For `kind/ext` followed by nothing or by `/`, the extension is `ext`, or "png" when `ext` is empty (as for `image/`). |
| ImageDisplay.LoadingState | components/image-display.tsx:133-142 | 60 s and "Editing image..." in edit mode; 12 s and "Generating image..." otherwise. |
| EditCarBackground.BackgroundPrompt | lib/actions/edit-car-background.ts:76-83 | The prompt for a known style; the showroom prompt for any other. |
| EditCarBackground.GeminiPrompt | lib/actions/edit-car-background.ts:92-97 | Starts with the fixed instructions, then the background prompt, then ends with the fixed closing instructions. |
| EditCarBackground.FirstImagePart | lib/actions/edit-car-background.ts:140 | The index `find` stops at: the first part whose MIME type starts with `image/`, or the end. |
| EditCarBackground.ExtractImagePart | lib/actions/edit-car-background.ts:124-144 | "No output returned from Gemini." iff no candidates; "No content parts in response." iff the first candidate's parts are missing or empty; "No image data in response." iff parts exist but none is an image. Otherwise the first image part of the first candidate. |
| EditCarBackground.ErrorMessage | lib/actions/edit-car-background.ts:177 | The error's message when non-empty, and exactly "Failed to edit car background" when it is empty. |
| EditCarBackground.EditCarBackground | lib/actions/edit-car-background.ts:14-181 | Success iff every stage worked and an image part was found. The data is that part, and the error of the first failing stage is reported. The cutout is returned as PNG base 64 exactly when remove.bg answered, whether or not the call succeeded, and it decodes back to remove.bg's bytes. Gemini gets the prompt for the style. |
| CarEditor.ImageUrl | components/CarEditor.tsx:37-43 | The URL declares the image's media type, and its payload is the text after the first comma. |
| CarEditor.CarEditor.constructor | components/CarEditor.tsx:7-11 | No images, not loading, showroom style. |
| CarEditor.CarEditor.HandleFile | components/CarEditor.tsx:13-19 | A chosen file's data URL becomes the original; no file changes nothing. |
| CarEditor.CarEditor.SetStyle | components/CarEditor.tsx:71-75 | Only the style changes. |
| CarEditor.CarEditor.ProcessDisabled | components/CarEditor.tsx:86 | The button is disabled iff there is no (non-empty) original or a call is loading. |
| CarEditor.CarEditor.Process | components/CarEditor.tsx:21-51 | Without an original, nothing happens and nothing is sent. Otherwise the action is sent the text after the first comma of the original and the style. If the call rejects, `loading` stays set, both results stay cleared, and the button stays disabled. Otherwise the action succeeds iff the original has a comma and every stage worked with an image part found; `edited` shows iff that part has a payload; the cutout shows exactly when remove.bg returned bytes, even on failure; loading ends false with the button enabled again. |
| CarEditor.CarEditor.ShowResult | components/CarEditor.tsx:35-49 | The edited image is shown only for a success with a payload, the cutout whenever the answer carries a non-empty one (a PNG data URL of remove.bg's bytes), and loading ends. |

## Left out

- The remote services are inputs: the text and image generation calls behind `generateImage` and `editImage`, the remove.bg HTTP call, and the Gemini SDK call. The action files that wrap the first two are not part of this model.
- The sharp composition, masking and thresholding (lib/actions/edit-car-background.ts:50-71) are pixel work in a foreign library. Only their failure (an input message) is modelled, and the scene and mask images sent to Gemini are not.
- The Upstash sliding-window limiter is a hosted store. Its verdict is an input of `RateLimit.CheckRateLimit`.
- The React context plumbing, rendering, styling and dialogs are left out. So are the SingleImageView hint, the header, the layout and page files, and the dropzone with its size and count limits.
- The constant suggestion lists are not used by the modelled logic.
- Browser APIs are left out: FileReader (its result is an input), `atob`, Blob, object URLs, the DOM download, and `Date.now()` file names.
- Timing is left out: `setInterval` becomes explicit tick calls, `startTransition` scheduling is not modelled, and the countdown's `onTick` callback is left out.
- Overlapping requests are not modelled. Each handler runs to completion before the next, and reads the store's current state rather than the values captured when the page last rendered. This also applies to `toggleComparison`, which negates the captured flag.
- ImageGenerator.FileUploadEffect: the "Failed to process uploaded image" branch (components/image-generator.tsx:176-178) is unreachable, because a converted image is always an object. It is not modelled.
- ImageUtils.ProcessImageData: the "Invalid image data format." throw (lib/utils/image-utils.ts:57-59) is unreachable and is not modelled. Neither are the reducers' `default` branches.
- EditCarBackground.BackgroundPrompt: a style that names an inherited property of a plain JavaScript object (such as `toString`) is treated like any unknown style.
- EditCarBackground.EditCarBackground: a missing payload fails with Node.js's own `Buffer.from` message (`UndefinedInputError`), which does not come from this repository. A failure to encode the cutout on the error path (lines 170-172) cannot happen for a byte buffer and is not modelled.
- Numbers are modelled as unbounded naturals. JavaScript's double-precision numbers, and the exponent notation `toString` uses from 10^21 up, are not modelled.
- Text: a Dafny `char` is a Unicode scalar value, while JavaScript strings count UTF-16 code units. So `slice(0, 100)` (`ImageDisplay.Prefix`), `padStart` and string lengths differ from the source on text with characters outside the Basic Multilingual Plane; base-64 payloads and MIME types never contain such characters.
