/** The album-art picker: which selected images are accepted, and what
    happens to the current art. Reading the image into a data URL is I/O; its
    result is passed in as `dataUrl`. */
module AlbumArt {
  import opened Types

  /** A selected file as far as the picker looks at it: MIME type and size in bytes. */
  datatype ImageFile = ImageFile(mimeType: string, size: nat)

  /** 5 MiB, the largest image accepted. */
  const MaxImageBytes: nat := 5 * 1024 * 1024

  const NotAnImage := "Please select an image file"
  const TooLarge := "Image size must be less than 5MB"

  /** What the change handler does: nothing, an alert, or hand the image on. */
  datatype ArtAction = Ignore | Reject(alert: string) | Accept(url: string)

  predicate StartsWith(s: string, prefix: string)
  {
    |prefix| <= |s| && s[..|prefix|] == prefix
  }

  /** `handleFileChange`: no file, then the type guard, then the size guard. */
  function HandleFileChange(file: Option<ImageFile>, dataUrl: string): (r: ArtAction)
    ensures file.None? ==> r == Ignore
    ensures r.Accept? <==> file.Some? && StartsWith(file.value.mimeType, "image/") && file.value.size <= MaxImageBytes
    ensures r.Accept? ==> r.url == dataUrl
    ensures r.Reject? ==> r.alert == NotAnImage || r.alert == TooLarge
    ensures file.Some? && !StartsWith(file.value.mimeType, "image/") ==> r == Reject(NotAnImage)
    ensures file.Some? && StartsWith(file.value.mimeType, "image/") && file.value.size > MaxImageBytes ==> r == Reject(TooLarge)
  {
    match file
    case None => Ignore
    case Some(f) =>
      if !StartsWith(f.mimeType, "image/") then Reject(NotAnImage)
      else if f.size > MaxImageBytes then Reject(TooLarge)
      else Accept(dataUrl)
  }

  /** The art after an action: only an accepted image replaces it. */
  function NextArt(current: Option<string>, a: ArtAction): (r: Option<string>)
    ensures a.Accept? ==> r == Some(a.url)
    ensures !a.Accept? ==> r == current
  {
    if a.Accept? then Some(a.url) else current
  }

  /** The limit is inclusive: exactly 5242880 bytes passes, one byte more does not. */
  lemma SizeLimitInclusive(mimeType: string, dataUrl: string)
    requires StartsWith(mimeType, "image/")
    ensures HandleFileChange(Some(ImageFile(mimeType, 5242880)), dataUrl) == Accept(dataUrl)
    ensures HandleFileChange(Some(ImageFile(mimeType, 5242881)), dataUrl) == Reject(TooLarge)
  {
  }

  /** The type is checked first: an oversized file that is not an image is
      reported as not an image. */
  lemma TypeCheckedBeforeSize(f: ImageFile, dataUrl: string)
    requires !StartsWith(f.mimeType, "image/") && f.size > MaxImageBytes
    ensures HandleFileChange(Some(f), dataUrl) == Reject(NotAnImage)
  {
  }

  /** The prefix test is case-sensitive and needs the slash. */
  lemma MimePrefixExamples(dataUrl: string)
    ensures HandleFileChange(Some(ImageFile("image/png", 1000)), dataUrl) == Accept(dataUrl)
    ensures HandleFileChange(Some(ImageFile("IMAGE/PNG", 1000)), dataUrl) == Reject(NotAnImage)
    ensures HandleFileChange(Some(ImageFile("image", 1000)), dataUrl) == Reject(NotAnImage)
  {
    assert "image/png"[..6] == "image/";
    assert "IMAGE/PNG"[..6][0] == 'I';
  }

  /** A rejected or ignored selection leaves the current art as it was. */
  lemma RejectionKeepsArt(current: Option<string>, file: Option<ImageFile>, dataUrl: string)
    requires file.None? || !StartsWith(file.value.mimeType, "image/") || file.value.size > MaxImageBytes
    ensures NextArt(current, HandleFileChange(file, dataUrl)) == current
  {
  }
}
