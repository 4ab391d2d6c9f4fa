/** The shared shapes of the editor: the tag record, the synchronised-lyrics
    frame and its entries, and the uploaded audio file. */
module Types {

  datatype Option<+T> = None | Some(value: T)

  /** One synchronised-lyrics entry, the `[string, number]` pair of the source. */
  datatype Entry = Entry(text: string, time: int)

  /** The eight optional tag fields the editor offers. */
  datatype Tags = Tags(
    title: Option<string>,
    artist: Option<string>,
    album: Option<string>,
    albumArtist: Option<string>,
    year: Option<string>,
    genre: Option<string>,
    track: Option<string>,
    comment: Option<string>)

  datatype TagField = Title | Artist | Album | AlbumArtist | Year | Genre | Track | Comment

  const EmptyTags := Tags(None, None, None, None, None, None, None, None)

  /** The synchronised-lyrics frame being edited; `contentType` is the source's `type`. */
  datatype SyltFrame = SyltFrame(
    contentType: int,
    text: seq<Entry>,
    timestampFormat: int,
    language: string,
    description: string)

  /** The two SYLT metadata fields the editor lets the user change. */
  datatype MetaField = Language | Description

  /** Content type "lyrics" and timestamp format "absolute milliseconds" of
      the Synchronised lyrics/text (SYLT) frame of the ID3v2.3.0 informal standard. */
  const LyricsContentType := 1
  const MillisecondsFormat := 2

  /** The frame an editor session starts with. */
  const InitialSylt := SyltFrame(LyricsContentType, [], MillisecondsFormat, "eng", "Lyrics")

  /** An uploaded file as far as the editor looks at it. */
  datatype AudioFile = AudioFile(name: string, mimeType: string)

  /** The upload handler's accepted type and its two messages, the same in
      both versions of the app. */
  const MpegType := "audio/mpeg"
  const LoadedMessage := "File loaded successfully! Ready to edit tags."
  const InvalidFileMessage := "Please upload a valid MP3 file"

  /** JavaScript truthiness of an optional string: present and non-empty. */
  predicate Truthy(s: Option<string>)
  {
    s.Some? && s.value != ""
  }

  function GetTag(t: Tags, f: TagField): Option<string>
  {
    match f
    case Title => t.title
    case Artist => t.artist
    case Album => t.album
    case AlbumArtist => t.albumArtist
    case Year => t.year
    case Genre => t.genre
    case Track => t.track
    case Comment => t.comment
  }

  /** `{ ...prev, [field]: value }`: the named field becomes `value`, every other field is kept. */
  function SetTag(t: Tags, f: TagField, value: string): (r: Tags)
    ensures GetTag(r, f) == Some(value)
    ensures forall g :: g != f ==> GetTag(r, g) == GetTag(t, g)
  {
    match f
    case Title => t.(title := Some(value))
    case Artist => t.(artist := Some(value))
    case Album => t.(album := Some(value))
    case AlbumArtist => t.(albumArtist := Some(value))
    case Year => t.(year := Some(value))
    case Genre => t.(genre := Some(value))
    case Track => t.(track := Some(value))
    case Comment => t.(comment := Some(value))
  }

  /** `{ ...prev, [field]: value }` on the SYLT frame's language or description. */
  function SetMeta(s: SyltFrame, f: MetaField, value: string): (r: SyltFrame)
    ensures f == Language ==> r.language == value && r.description == s.description
    ensures f == Description ==> r.description == value && r.language == s.language
    ensures r.text == s.text && r.contentType == s.contentType && r.timestampFormat == s.timestampFormat
  {
    match f
    case Language => s.(language := value)
    case Description => s.(description := value)
  }
}
