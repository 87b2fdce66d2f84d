/** lib/utils/image-utils.ts: normalising image payloads for the generation
    service, building data URLs, and the uniform success/error result record. */
module ImageUtils {
  import opened Wrappers
  import opened Text
  import Base64

  /** `ImageData`: every field may be missing. */
  datatype ImageData = ImageData(base64: Option<string>, uint8Array: Option<seq<Base64.Byte>>, mediaType: Option<string>)

  datatype ProcessedImageData = ProcessedImageData(base64Image: string, mimeType: string)

  const NoImageDataError := "No image data provided for processing."
  const NoFilesError := "No image was generated. Please try again."
  const DefaultMimeType := "image/jpeg"
  const DataImagePrefix := "data:image/"
  const Base64Marker := ";base64,"

  predicate IsLowerLetter(c: char) { 'a' <= c <= 'z' }

  /** `image/<lowercase letters>`, the media types the prefix pattern recognises. */
  predicate IsImageMime(m: string) {
    |m| > 6 && m[..6] == "image/" && forall i :: 6 <= i < |m| ==> IsLowerLetter(m[i])
  }

  /** `p` is a string `/^data:image\/[a-z]+;base64,/` matches in full. */
  predicate IsDataUrlPrefix(p: string) {
    && |p| > |DataImagePrefix| + |Base64Marker|
    && p[..|DataImagePrefix|] == DataImagePrefix
    && p[|p| - |Base64Marker|..] == Base64Marker
    && forall i :: |DataImagePrefix| <= i < |p| - |Base64Marker| ==> IsLowerLetter(p[i])
  }

  /** Length of the run of lowercase letters that starts `s`. */
  function LowerRun(s: string): (n: nat)
    ensures n <= |s|
    ensures forall i :: 0 <= i < n ==> IsLowerLetter(s[i])
    ensures n < |s| ==> !IsLowerLetter(s[n])
  {
    if s != [] && IsLowerLetter(s[0]) then 1 + LowerRun(s[1..]) else 0
  }

  /** `s.replace(/^data:image\/[a-z]+;base64,/, "")`: the result is `s` itself,
      or what follows a matching prefix. */
  function StripDataUrlPrefix(s: string): (r: string)
    ensures r == s || (|r| < |s| && IsDataUrlPrefix(s[..|s| - |r|]) && r == s[|s| - |r|..])
  {
    if |s| >= |DataImagePrefix| && s[..|DataImagePrefix|] == DataImagePrefix then
      var n := LowerRun(s[|DataImagePrefix|..]);
      var end := |DataImagePrefix| + n + |Base64Marker|;
      if n > 0 && end <= |s| && s[|DataImagePrefix| + n..end] == Base64Marker then
        assert s[..end][..|DataImagePrefix|] == DataImagePrefix;
        assert s[..end][end - |Base64Marker|..] == Base64Marker;
        s[end..]
      else s
    else s
  }

  /** Whenever the string does start with a matching prefix, exactly that prefix is removed. */
  lemma StripMatchedPrefix(p: string, rest: string)
    requires IsDataUrlPrefix(p)
    ensures StripDataUrlPrefix(p + rest) == rest
  {
    var s := p + rest;
    var k := |DataImagePrefix|;
    var n := |p| - k - |Base64Marker|;
    assert s[..k] == DataImagePrefix;
    assert forall i :: 0 <= i < n ==> s[k..][i] == p[k + i];
    assert s[k..][n] == ';';
    LowerRunOfLetters(s[k..], n);
    assert s[k + n..k + n + |Base64Marker|] == Base64Marker;
    assert s[k + n + |Base64Marker|..] == rest;
  }

  lemma {:induction false} LowerRunOfLetters(s: string, n: nat)
    requires n < |s| && !IsLowerLetter(s[n])
    requires forall i :: 0 <= i < n ==> IsLowerLetter(s[i])
    ensures LowerRun(s) == n
  {
    if n > 0 {
      LowerRunOfLetters(s[1..], n - 1);
    }
  }

  /** `processImageData`: a non-empty `base64` wins over `uint8Array`; an empty
      string counts as missing; the MIME type defaults to JPEG. The final
      `throw` of the source ("Invalid image data format.") cannot be reached. */
  function ProcessImageData(d: ImageData): (r: Result<ProcessedImageData, string>)
    ensures r.Err? <==> !Truthy(d.base64) && d.uint8Array.None?
    ensures r.Err? ==> r.error == NoImageDataError
    ensures r.Ok? ==> r.value.mimeType == OrElse(d.mediaType, DefaultMimeType)
    ensures r.Ok? && Truthy(d.base64) ==> r.value.base64Image == StripDataUrlPrefix(d.base64.value)
    ensures r.Ok? && !Truthy(d.base64) ==> r.value.base64Image == Base64.Encode(d.uint8Array.value)
  {
    if !(Truthy(d.base64) || d.uint8Array.Some?) then Err(NoImageDataError)
    else if Truthy(d.base64) then
      Ok(ProcessedImageData(StripDataUrlPrefix(d.base64.value), OrElse(d.mediaType, DefaultMimeType)))
    else
      Ok(ProcessedImageData(Base64.Encode(d.uint8Array.value), OrElse(d.mediaType, DefaultMimeType)))
  }

  /** The MIME type a data URL declares: what lies between `data:` and the
      first ';', or None for a string that is not a data URL. */
  function MimeOfDataUrl(url: string): Option<string>
  {
    if |url| >= 5 && url[..5] == "data:" then Segment(url[5..], ';', 0) else None
  }

  /** `createDataUrl`: a base-64 data URL in the form of RFC 2397 that
      declares the given MIME type and ends with the payload. */
  function CreateDataUrl(p: ProcessedImageData): (r: string)
    ensures |p.base64Image| <= |r| && r[|r| - |p.base64Image|..] == p.base64Image
    ensures ';' !in p.mimeType ==> MimeOfDataUrl(r) == Some(p.mimeType)
  {
    var r := "data:" + p.mimeType + Base64Marker + p.base64Image;
    assert r[..5] == "data:" && r[5..] == p.mimeType + Base64Marker + p.base64Image;
    assert ';' !in p.mimeType ==> Segment(r[5..], ';', 0) == Some(p.mimeType) by {
      if ';' !in p.mimeType {
        assert r[5..][..|p.mimeType|] == p.mimeType && r[5..][|p.mimeType|] == ';';
        FirstPiece(r[5..], |p.mimeType|, ';');
      }
    }
    r
  }

  /** Feeding a data URL built for an image MIME type back into
      ProcessImageData, with the MIME type the URL declares, recovers the
      payload and that MIME type. */
  lemma ProcessCreatedDataUrl(b: string, mime: string)
    requires IsImageMime(mime)
    ensures var url := CreateDataUrl(ProcessedImageData(b, mime));
      && MimeOfDataUrl(url) == Some(mime)
      && ProcessImageData(ImageData(Some(url), None, MimeOfDataUrl(url))) == Ok(ProcessedImageData(b, mime))
  {
    var p := "data:" + mime + Base64Marker;
    var url := CreateDataUrl(ProcessedImageData(b, mime));
    ImageMimeMakesPrefix(mime);
    assert url == p + b;
    StripMatchedPrefix(p, b);
    ImageMimeWithoutSemicolon(mime);
    assert MimeOfDataUrl(url) == Some(mime);
    assert OrElse(Some(mime), DefaultMimeType) == mime;
  }

  lemma ImageMimeWithoutSemicolon(mime: string)
    requires IsImageMime(mime)
    ensures ';' !in mime
  {
    forall i | 0 <= i < |mime| ensures mime[i] != ';' {
      if i < 6 { assert mime[i] == "image/"[i]; }
    }
  }

  lemma ImageMimeMakesPrefix(mime: string)
    requires IsImageMime(mime)
    ensures IsDataUrlPrefix("data:" + mime + Base64Marker)
  {
    var p := "data:" + mime + Base64Marker;
    assert p[..|DataImagePrefix|] == DataImagePrefix;
    assert p[|p| - |Base64Marker|..] == Base64Marker;
    forall i | |DataImagePrefix| <= i < |p| - |Base64Marker|
      ensures IsLowerLetter(p[i])
    {
      assert p[i] == mime[i - 5];
    }
  }

  /** The text after the first comma of such a data URL is the payload,
      as long as the payload itself has no comma (base 64 never does). */
  lemma DataUrlPayloadSegment(b: string, mime: string)
    requires ',' !in mime && ',' !in b
    ensures Segment(CreateDataUrl(ProcessedImageData(b, mime)), ',', 1) == Some(b)
  {
    var head := "data:" + mime + ";base64";
    var s := CreateDataUrl(ProcessedImageData(b, mime));
    assert s == head + [','] + b;
    assert ',' !in head;
    SplitAtFirst(head, b, ',');
  }

  /** Splitting `head + sep + tail`, with no separator in either part, gives the two parts. */
  lemma {:induction false} SplitAtFirst(head: string, tail: string, sep: char)
    requires sep !in head && sep !in tail
    ensures Split(head + [sep] + tail, sep) == [head, tail]
  {
    if head == [] {
      assert [] + [sep] + tail == [sep] + tail;
      assert ([sep] + tail)[1..] == tail;
      SplitWithout(tail, sep);
    } else {
      SplitAtFirst(head[1..], tail, sep);
      assert (head + [sep] + tail)[1..] == head[1..] + [sep] + tail;
      assert [head[0]] + head[1..] == head;
    }
  }

  lemma {:induction false} SplitWithout(s: string, sep: char)
    requires sep !in s
    ensures Split(s, sep) == [s]
  {
    if s != [] {
      SplitWithout(s[1..], sep);
      assert [s[0]] + s[1..] == s;
    }
  }

  /** `validateFiles`: the first file, or the "nothing generated" error for a missing or empty list. */
  function ValidateFiles<T>(files: Option<seq<T>>): (r: Result<T, string>)
    ensures r.Ok? <==> files.Some? && |files.value| > 0
    ensures r.Ok? ==> r.value == files.value[0]
    ensures r.Err? ==> r.error == NoFilesError
  {
    if files.None? || |files.value| == 0 then Err(NoFilesError) else Ok(files.value[0])
  }

  /** `extractImageData`: copies the three fields of a file object that may be missing. */
  function ExtractImageData(file: Option<ImageData>): (r: ImageData)
    ensures file.Some? ==> r == file.value
    ensures file.None? ==> r.base64.None? && r.uint8Array.None? && r.mediaType.None?
  {
    match file
    case Some(f) => ImageData(f.base64, f.uint8Array, f.mediaType)
    case None => ImageData(None, None, None)
  }

  /** `ImageResult`. */
  datatype ImageResult = ImageResult(success: bool, data: Option<ImageData>, error: Option<string>)

  /** Exactly one of payload and error, as `success` says. */
  predicate WellFormedResult(r: ImageResult) {
    if r.success then r.data.Some? && r.error.None? else r.data.None? && r.error.Some?
  }

  function CreateSuccessResponse(data: ImageData): (r: ImageResult)
    ensures WellFormedResult(r) && r.success && r.data == Some(data)
  {
    ImageResult(true, Some(data), None)
  }

  function CreateErrorResponse(error: string): (r: ImageResult)
    ensures WellFormedResult(r) && !r.success && r.error == Some(error)
  {
    ImageResult(false, None, Some(error))
  }
}
