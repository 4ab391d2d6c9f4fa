/** `useID3Processor`: which ID3 frames are requested from the tag writer, in
    what order and with what values; the name the tagged file is saved under;
    and the result the hook reports.

    The writer itself (frame bytes, tag header, splicing the tag onto the
    audio) is a foreign library: here it only records the frames requested of
    it and whether the tag was added. */
module FramePlan {
  import opened Types

  /** One `setFrame` call on the writer. */
  datatype FrameRequest =
    | TIT2(title: string)
    | TPE1(artists: seq<string>)
    | TALB(album: string)
    | SYLT(contentType: int, entries: seq<Entry>, timestampFormat: int, language: string, description: string)

  /** Position of each kind of request in the order the hook issues them. */
  function Rank(f: FrameRequest): nat
  {
    match f
    case TIT2(_) => 0
    case TPE1(_) => 1
    case TALB(_) => 2
    case SYLT(_, _, _, _, _) => 3
  }

  /** `s || fallback`: an empty string falls back. */
  function OrDefault(s: string, fallback: string): (r: string)
    ensures s != "" ==> r == s
    ensures s == "" ==> r == fallback
  {
    if s == "" then fallback else s
  }

  /** The SYLT request made from the edited frame. The entries are passed as
      they are: `String(text || '')` and `Math.floor(Number(timestamp || 0))`
      leave a string and an integer unchanged. */
  function SyltRequest(frame: SyltFrame): (r: FrameRequest)
    ensures r.SYLT? && r.entries == frame.text
    ensures r.contentType == LyricsContentType && r.timestampFormat == MillisecondsFormat
    ensures r.language != "" && r.description != ""
    ensures frame.language != "" ==> r.language == frame.language
    ensures frame.description != "" ==> r.description == frame.description
    ensures frame.language == "" ==> r.language == "eng"
    ensures frame.description == "" ==> r.description == "Synced Lyrics"
  {
    SYLT(LyricsContentType, frame.text, MillisecondsFormat,
         OrDefault(frame.language, "eng"), OrDefault(frame.description, "Synced Lyrics"))
  }

  /** A request made only when its condition holds. */
  function When(c: bool, f: FrameRequest): (r: seq<FrameRequest>)
    ensures |r| <= 1
    ensures forall g :: g in r <==> c && g == f
  {
    if c then [f] else []
  }

  /** Every request in `r` ranks strictly below every later one. */
  predicate Ranked(r: seq<FrameRequest>)
  {
    forall i, j :: 0 <= i < j < |r| ==> Rank(r[i]) < Rank(r[j])
  }

  /** The value of a tag field that is present, `""` otherwise. */
  function TextOf(s: Option<string>): (r: string)
    ensures s.Some? ==> r == s.value
  {
    if s.Some? then s.value else ""
  }

  /** The four conditional requests, one `if` of the hook each. */
  function TitleRequest(tags: Tags): seq<FrameRequest>
  {
    When(Truthy(tags.title), TIT2(TextOf(tags.title)))
  }

  function ArtistRequest(tags: Tags): seq<FrameRequest>
  {
    When(Truthy(tags.artist), TPE1([TextOf(tags.artist)]))
  }

  function AlbumRequest(tags: Tags): seq<FrameRequest>
  {
    When(Truthy(tags.album), TALB(TextOf(tags.album)))
  }

  function LyricsRequest(frame: SyltFrame): seq<FrameRequest>
  {
    When(|frame.text| > 0, SyltRequest(frame))
  }

  /** The frames requested for a tag record and a lyrics frame, in request order. */
  function Plan(tags: Tags, frame: SyltFrame): (r: seq<FrameRequest>)
    ensures Ranked(r) && |r| <= 4
  {
    var title := TitleRequest(tags);
    var artist := ArtistRequest(tags);
    var album := AlbumRequest(tags);
    var sylt := LyricsRequest(frame);
    PrependRanked(album, sylt, 2);
    PrependRanked(artist, album + sylt, 1);
    PrependRanked(title, artist + (album + sylt), 0);
    title + (artist + (album + sylt))
  }

  /** A request of rank `k` in front of requests of higher rank keeps the order. */
  lemma PrependRanked(head: seq<FrameRequest>, tail: seq<FrameRequest>, k: nat)
    requires |head| <= 1 && forall f :: f in head ==> Rank(f) == k
    requires Ranked(tail) && forall f :: f in tail ==> Rank(f) > k
    ensures Ranked(head + tail)
    ensures forall f :: f in head + tail ==> Rank(f) >= k
  {
    var r := head + tail;
    forall i, j | 0 <= i < j < |r|
      ensures Rank(r[i]) < Rank(r[j])
    {
      if i < |head| {
        assert r[i] in head && r[j] == tail[j - |head|];
      } else {
        assert r[i] == tail[i - |head|] && r[j] == tail[j - |head|];
      }
    }
  }

  /** A title frame is requested exactly when the title is non-empty, with that title. */
  lemma PlanTitle(tags: Tags, frame: SyltFrame, s: string)
    ensures TIT2(s) in Plan(tags, frame) <==> tags.title == Some(s) && s != ""
  {
  }

  /** An artist frame is requested exactly when the artist is non-empty, as a one-name list. */
  lemma PlanArtist(tags: Tags, frame: SyltFrame, a: seq<string>)
    ensures TPE1(a) in Plan(tags, frame) <==> Truthy(tags.artist) && a == [tags.artist.value]
  {
  }

  /** An album frame is requested exactly when the album is non-empty, with that album. */
  lemma PlanAlbum(tags: Tags, frame: SyltFrame, s: string)
    ensures TALB(s) in Plan(tags, frame) <==> tags.album == Some(s) && s != ""
  {
  }

  /** A SYLT frame is requested exactly when there is at least one entry, and it
      is the one built from the edited frame. */
  lemma PlanLyrics(tags: Tags, frame: SyltFrame, f: FrameRequest)
    requires f.SYLT?
    ensures f in Plan(tags, frame) <==> |frame.text| > 0 && f == SyltRequest(frame)
  {
  }

  /** Album artist, year, genre, track and comment never reach the writer:
      only title, artist and album do. */
  lemma PlanReadsOnlyThreeFields(t1: Tags, t2: Tags, frame: SyltFrame)
    requires t1.title == t2.title && t1.artist == t2.artist && t1.album == t2.album
    ensures Plan(t1, frame) == Plan(t2, frame)
  {
  }

  /** The writer as the hook uses it: the frames requested so far, the frames
      `addTag` wrote into the audio buffer, and whether it has run. A frame
      set after `addTag` is requested but never written. */
  class Id3Writer {
    var frames: seq<FrameRequest>
    var written: seq<FrameRequest>
    var tagAdded: bool

    constructor ()
      ensures frames == [] && written == [] && !tagAdded
    {
      frames := [];
      written := [];
      tagAdded := false;
    }

    method SetFrame(f: FrameRequest)
      modifies this
      ensures frames == old(frames) + [f]
      ensures written == old(written) && tagAdded == old(tagAdded)
    {
      frames := frames + [f];
    }

    /** Writes the frames set so far into the buffer. */
    method AddTag()
      modifies this
      ensures tagAdded && written == frames
      ensures frames == old(frames)
    {
      written := frames;
      tagAdded := true;
    }
  }

  /** The conditional `setFrame` calls: title, artist, album, then the
      synchronised lyrics when there is at least one entry. */
  method WriteFrames(w: Id3Writer, tags: Tags, frame: SyltFrame)
    modifies w
    ensures w.frames == old(w.frames) + Plan(tags, frame)
    ensures w.written == old(w.written) && w.tagAdded == old(w.tagAdded)
  {
    ghost var title, artist, album, sylt := TitleRequest(tags), ArtistRequest(tags), AlbumRequest(tags), LyricsRequest(frame);
    ghost var start := w.frames;
    if Truthy(tags.title) {
      w.SetFrame(TIT2(tags.title.value));
    }
    assert w.frames == start + title;
    if Truthy(tags.artist) {
      w.SetFrame(TPE1([tags.artist.value]));
    }
    assert w.frames == start + title + artist;
    if Truthy(tags.album) {
      w.SetFrame(TALB(tags.album.value));
    }
    assert w.frames == start + title + artist + album;
    if |frame.text| > 0 {
      w.SetFrame(SyltRequest(frame));
    }
    AppendFour(start, title, artist, album, sylt);
  }

  lemma AppendFour(s: seq<FrameRequest>, a: seq<FrameRequest>, b: seq<FrameRequest>, c: seq<FrameRequest>, d: seq<FrameRequest>)
    ensures s + a + b + c + d == s + (a + (b + (c + d)))
  {
  }

  // ---------------------------------------------------------------- file name

  predicate OccursAt(s: string, pat: string, k: int)
  {
    0 <= k && k + |pat| <= |s| && s[k..k + |pat|] == pat
  }

  /** The first position at or after `from` where `pat` occurs in `s`. */
  function IndexOfFrom(s: string, pat: string, from: nat): (r: Option<nat>)
    ensures r.Some? ==> from <= r.value && OccursAt(s, pat, r.value)
    ensures r.Some? ==> forall k :: from <= k < r.value ==> !OccursAt(s, pat, k)
    ensures r.None? ==> forall k :: from <= k ==> !OccursAt(s, pat, k)
    decreases |s| - from
  {
    if from + |pat| > |s| then None
    else if s[from..from + |pat|] == pat then Some(from)
    else IndexOfFrom(s, pat, from + 1)
  }

  /** `s.replace(pat, '')` with a string pattern: only the first occurrence goes. */
  function RemoveFirst(s: string, pat: string): (r: string)
    ensures (forall k :: !OccursAt(s, pat, k)) ==> r == s
    ensures forall i :: (OccursAt(s, pat, i) && (forall k :: 0 <= k < i ==> !OccursAt(s, pat, k)))
                        ==> r == s[..i] + s[i + |pat|..]
  {
    match IndexOfFrom(s, pat, 0)
    case None => s
    case Some(i) => s[..i] + s[i + |pat|..]
  }

  /** `${tags.title || file.name.replace('.mp3', '')}_tagged.mp3` */
  function DownloadName(title: Option<string>, fileName: string): (r: string)
    ensures Truthy(title) ==> r == title.value + "_tagged.mp3"
    ensures !Truthy(title) ==> r == RemoveFirst(fileName, ".mp3") + "_tagged.mp3"
    ensures |r| >= |"_tagged.mp3"| && r[|r| - |"_tagged.mp3"|..] == "_tagged.mp3"
  {
    (if Truthy(title) then title.value else RemoveFirst(fileName, ".mp3")) + "_tagged.mp3"
  }

  /** Without a title, the usual `name.mp3` is saved as `name_tagged.mp3`. */
  lemma UntitledKeepsBaseName(base: string)
    requires forall k :: !OccursAt(base, ".mp3", k)
    ensures DownloadName(None, base + ".mp3") == base + "_tagged.mp3"
  {
    var name := base + ".mp3";
    forall k | 0 <= k < |base|
      ensures !OccursAt(name, ".mp3", k)
    {
      NotBeforeExtension(base, k);
    }
    ExtensionAtEnd(base);
  }

  /** `base + ".mp3"` has ".mp3" at `|base|`, and cutting it out leaves `base`. */
  lemma ExtensionAtEnd(base: string)
    ensures OccursAt(base + ".mp3", ".mp3", |base|)
    ensures (base + ".mp3")[..|base|] + (base + ".mp3")[|base| + 4..] == base
  {
    var name := base + ".mp3";
    assert name[|base|..|base| + 4] == ".mp3";
    assert name[..|base|] == base;
    assert name[|base| + 4..] == [];
  }

  /** No ".mp3" of `base + ".mp3"` starts inside `base` when `base` has none. */
  lemma NotBeforeExtension(base: string, k: int)
    requires forall j :: !OccursAt(base, ".mp3", j)
    requires 0 <= k < |base|
    ensures !OccursAt(base + ".mp3", ".mp3", k)
  {
    var name := base + ".mp3";
    if k + 4 <= |base| {
      assert name[k..k + 4] == base[k..k + 4];
      assert !OccursAt(base, ".mp3", k);
    } else {
      // the only '.' of ".mp3" would have to sit both at k and at |base|
      assert name[|base|] == '.';
      assert k + 4 <= |name| ==> name[k..k + 4][|base| - k] == name[|base|];
    }
  }

  /** The first ".mp3" is removed wherever it is, not only as the extension. */
  lemma FirstOccurrenceIsRemoved()
    ensures DownloadName(None, "a.mp3b.mp3") == "ab.mp3" + "_tagged.mp3"
  {
    RemoveInnerExtension();
  }

  lemma RemoveInnerExtension()
    ensures RemoveFirst("a.mp3b.mp3", ".mp3") == "ab.mp3"
  {
    var n := "a.mp3b.mp3";
    assert IndexOfFrom(n, ".mp3", 0) == Some(1) by {
      assert n[0..4][0] == 'a';
      assert n[1..5] == ".mp3";
    }
    assert n[..1] + n[5..] == "ab.mp3";
  }

  /** The match is case-sensitive: an upper-case extension stays in the name. */
  lemma UpperCaseExtensionKept()
    ensures DownloadName(Some(""), "song.MP3") == "song.MP3" + "_tagged.mp3"
  {
    NoLowerCaseExtension();
  }

  lemma NoLowerCaseExtension()
    ensures forall k :: !OccursAt("song.MP3", ".mp3", k)
  {
    var m := "song.MP3";
    forall k | 0 <= k && k + 4 <= |m|
      ensures !OccursAt(m, ".mp3", k)
    {
      // no lower-case 'm' follows any position of "song.MP3"
      assert m[k..k + 4][1] == m[k + 1];
    }
  }

  // ---------------------------------------------------------------- result

  /** What a failed step throws: an `Error` with a message, or anything else. */
  datatype Fault = ErrorThrown(message: string) | OtherThrown

  datatype ProcessResult = ProcessResult(success: bool, message: string)

  /** The file offered for download: its name, the frames `addTag` wrote
      into it, and whether `addTag` ran. */
  datatype Download = Download(fileName: string, frames: seq<FrameRequest>, tagged: bool)

  const SuccessMessage := "File processed and downloaded successfully!"

  const FailurePrefix := "Failed to process file: "

  /** The failure message: the fixed prefix, then the error's own message or
      "Unknown error" for anything that is not an `Error`. */
  function FailureMessage(f: Fault): (m: string)
    ensures |m| >= |FailurePrefix| && m[..|FailurePrefix|] == FailurePrefix
    ensures f.ErrorThrown? ==> m[|FailurePrefix|..] == f.message
    ensures f.OtherThrown? ==> m[|FailurePrefix|..] == "Unknown error"
  {
    var detail := match f
      case ErrorThrown(msg) => msg
      case OtherThrown => "Unknown error";
    assert (FailurePrefix + detail)[..|FailurePrefix|] == FailurePrefix;
    assert (FailurePrefix + detail)[|FailurePrefix|..] == detail;
    FailurePrefix + detail
  }

  /** The hook's state: whether a file is being processed. */
  class Processor {
    var isProcessing: bool

    constructor ()
      ensures !isProcessing
    {
      isProcessing := false;
    }

    /** `processFile`, as one step. `fault` is the exception a step of the
        reading, writing or download threw, if any. */
    method ProcessFile(file: AudioFile, tags: Tags, frame: SyltFrame, fault: Option<Fault>)
      returns (result: ProcessResult, download: Option<Download>)
      modifies this
      ensures !isProcessing
      ensures fault.None? ==> result == ProcessResult(true, SuccessMessage)
      ensures fault.None? ==> download == Some(Download(DownloadName(tags.title, file.name), Plan(tags, frame), true))
      ensures fault.Some? ==> result == ProcessResult(false, FailureMessage(fault.value)) && download.None?
    {
      isProcessing := true;
      var writer := new Id3Writer();
      WriteFrames(writer, tags, frame);
      writer.AddTag();
      assert writer.written == Plan(tags, frame);
      match fault {
        case None =>
          download := Some(Download(DownloadName(tags.title, file.name), writer.written, writer.tagAdded));
          result := ProcessResult(true, SuccessMessage);
        case Some(f) =>
          download := None;
          result := ProcessResult(false, FailureMessage(f));
      }
      isProcessing := false;
    }
  }
}
