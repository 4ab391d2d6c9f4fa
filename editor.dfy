/** The editor session of the component-based app: the uploaded file, the
    tags, the album art, the synchronised-lyrics frame, the LRC input box and
    the two status messages, with the handlers that change them. */
module Editor {
  import opened Types
  import LrcParser
  import EntryList
  import AlbumArt
  import opened FramePlan

  const ImportedMessage := "LRC format lyrics imported successfully!"

  class Session {
    var file: Option<AudioFile>
    var tags: Tags
    var albumArtUrl: Option<string>
    var sylt: SyltFrame
    var lrcText: string
    var error: Option<string>
    var success: Option<string>
    /** The `useID3Processor` hook the session owns. */
    const processor: Processor

    /** No handler changes the frame's content type or timestamp format, so
        they are the values the written SYLT frame carries. */
    predicate Valid()
      reads this
    {
      sylt.contentType == LyricsContentType && sylt.timestampFormat == MillisecondsFormat
    }

    constructor ()
      ensures Valid()
      ensures file == None && tags == EmptyTags && albumArtUrl == None
      ensures sylt == InitialSylt && sylt.text == [] && sylt.language == "eng" && sylt.description == "Lyrics"
      ensures lrcText == "" && error == None && success == None
      ensures fresh(processor) && !processor.isProcessing
    {
      file := None;
      tags := EmptyTags;
      albumArtUrl := None;
      sylt := InitialSylt;
      lrcText := "";
      error := None;
      success := None;
      processor := new Processor();
    }

    /** `handleFileUpload`: only a present file of type exactly `audio/mpeg`
        is taken; a rejected one leaves the loaded file and the success
        message as they were. */
    method HandleFileUpload(uploaded: Option<AudioFile>)
      requires Valid()
      modifies this
      ensures Valid()
      ensures uploaded.Some? && uploaded.value.mimeType == MpegType ==>
        file == uploaded && error == None && success == Some(LoadedMessage)
      ensures !(uploaded.Some? && uploaded.value.mimeType == MpegType) ==>
        file == old(file) && error == Some(InvalidFileMessage) && success == old(success)
      ensures tags == old(tags) && albumArtUrl == old(albumArtUrl) && sylt == old(sylt) && lrcText == old(lrcText)
    {
      if uploaded.Some? && uploaded.value.mimeType == MpegType {
        file := uploaded;
        error := None;
        success := Some(LoadedMessage);
      } else {
        error := Some(InvalidFileMessage);
      }
    }

    /** `handleTagChange`: exactly the named field changes. */
    method HandleTagChange(field: TagField, value: string)
      requires Valid()
      modifies this
      ensures Valid()
      ensures tags == SetTag(old(tags), field, value)
      ensures file == old(file) && albumArtUrl == old(albumArtUrl) && sylt == old(sylt)
      ensures lrcText == old(lrcText) && error == old(error) && success == old(success)
    {
      tags := SetTag(tags, field, value);
    }

    /** Typing in the LRC box. */
    method SetLrcText(text: string)
      requires Valid()
      modifies this
      ensures Valid()
      ensures lrcText == text
      ensures file == old(file) && tags == old(tags) && albumArtUrl == old(albumArtUrl)
      ensures sylt == old(sylt) && error == old(error) && success == old(success)
    {
      lrcText := text;
    }

    /** `handleLRCImport`: nothing unless the box holds more than whitespace;
        then the entries are replaced by the parsed ones, the rest of the
        frame is kept and the box is cleared. */
    method HandleLrcImport()
      requires Valid()
      modifies this
      ensures Valid()
      ensures LrcParser.Imported(old(lrcText)).None? ==>
        sylt == old(sylt) && lrcText == old(lrcText) && success == old(success)
      ensures LrcParser.Imported(old(lrcText)).Some? ==>
        sylt == old(sylt).(text := LrcParser.Imported(old(lrcText)).value) && lrcText == "" && success == Some(ImportedMessage)
      ensures file == old(file) && tags == old(tags) && albumArtUrl == old(albumArtUrl) && error == old(error)
    {
      var imported := ImportEntries(lrcText);
      ApplyImport(imported);
    }

    /** The state change of an import whose outcome is `imported`. */
    method ApplyImport(imported: Option<seq<Entry>>)
      requires Valid()
      modifies this
      ensures Valid()
      ensures imported.None? ==> sylt == old(sylt) && lrcText == old(lrcText) && success == old(success)
      ensures imported.Some? ==>
        sylt == old(sylt).(text := imported.value) && lrcText == "" && success == Some(ImportedMessage)
      ensures file == old(file) && tags == old(tags) && albumArtUrl == old(albumArtUrl) && error == old(error)
    {
      if imported.Some? {
        sylt := sylt.(text := imported.value);
        lrcText := "";
        success := Some(ImportedMessage);
      }
    }

    /** `handleSYLTChange`: only the entry list changes. */
    method HandleSyltChange(updated: seq<Entry>)
      requires Valid()
      modifies this
      ensures Valid()
      ensures sylt == old(sylt).(text := updated)
      ensures file == old(file) && tags == old(tags) && albumArtUrl == old(albumArtUrl)
      ensures lrcText == old(lrcText) && error == old(error) && success == old(success)
    {
      sylt := sylt.(text := updated);
    }

    /** `handleSYLTMetadataChange`: only the named field of the frame changes. */
    method HandleSyltMetadataChange(field: MetaField, value: string)
      requires Valid()
      modifies this
      ensures Valid()
      ensures sylt == SetMeta(old(sylt), field, value)
      ensures file == old(file) && tags == old(tags) && albumArtUrl == old(albumArtUrl)
      ensures lrcText == old(lrcText) && error == old(error) && success == old(success)
    {
      sylt := SetMeta(sylt, field, value);
    }

    /** The lyrics list's "Add Entry" button, through `onTextChange`. */
    method AddEntry()
      requires Valid()
      modifies this
      ensures Valid()
      ensures sylt == old(sylt).(text := EntryList.AddEntry(old(sylt.text)))
      ensures file == old(file) && tags == old(tags) && lrcText == old(lrcText)
      ensures albumArtUrl == old(albumArtUrl) && error == old(error) && success == old(success)
    {
      HandleSyltChange(EntryList.AddEntry(sylt.text));
    }

    /** An entry's text box, through `onTextChange`. */
    method EditEntryText(index: nat, value: string)
      requires Valid() && index < |sylt.text|
      modifies this
      ensures Valid()
      ensures sylt == old(sylt).(text := EntryList.EditText(old(sylt.text), index, value))
      ensures file == old(file) && tags == old(tags) && lrcText == old(lrcText)
      ensures albumArtUrl == old(albumArtUrl) && error == old(error) && success == old(success)
    {
      HandleSyltChange(EntryList.EditText(sylt.text, index, value));
    }

    /** An entry's timestamp box, through `onTextChange`; `None` is input
        that does not parse as a number. */
    method EditEntryTime(index: nat, input: Option<int>)
      requires Valid() && index < |sylt.text|
      modifies this
      ensures Valid()
      ensures sylt == old(sylt).(text := EntryList.EditTime(old(sylt.text), index, input))
      ensures file == old(file) && tags == old(tags) && lrcText == old(lrcText)
      ensures albumArtUrl == old(albumArtUrl) && error == old(error) && success == old(success)
    {
      HandleSyltChange(EntryList.EditTime(sylt.text, index, input));
    }

    /** An entry's delete button, through `onTextChange`. */
    method DeleteEntry(index: int)
      requires Valid()
      modifies this
      ensures Valid()
      ensures sylt == old(sylt).(text := EntryList.DeleteEntry(old(sylt.text), index))
      ensures file == old(file) && tags == old(tags) && lrcText == old(lrcText)
      ensures albumArtUrl == old(albumArtUrl) && error == old(error) && success == old(success)
    {
      HandleSyltChange(EntryList.DeleteEntry(sylt.text, index));
    }

    /** The album-art picker; `dataUrl` is what reading the chosen image yields. */
    method ChooseAlbumArt(chosen: Option<AlbumArt.ImageFile>, dataUrl: string)
      requires Valid()
      modifies this
      ensures Valid()
      ensures albumArtUrl == AlbumArt.NextArt(old(albumArtUrl), AlbumArt.HandleFileChange(chosen, dataUrl))
      ensures file == old(file) && tags == old(tags) && sylt == old(sylt)
      ensures lrcText == old(lrcText) && error == old(error) && success == old(success)
    {
      albumArtUrl := AlbumArt.NextArt(albumArtUrl, AlbumArt.HandleFileChange(chosen, dataUrl));
    }

    /** The album-art "Remove" button. */
    method RemoveAlbumArt()
      requires Valid()
      modifies this
      ensures Valid()
      ensures albumArtUrl == None
      ensures file == old(file) && tags == old(tags) && sylt == old(sylt)
      ensures lrcText == old(lrcText) && error == old(error) && success == old(success)
    {
      albumArtUrl := None;
    }

    /** `handleProcess`: nothing without a file; otherwise both messages are
        cleared and exactly one is set from the hook's result. The album art
        is handed to the hook, which takes no such argument and drops it. */
    method HandleProcess(fault: Option<Fault>) returns (download: Option<Download>)
      requires Valid()
      modifies this, processor
      ensures Valid()
      ensures old(file).None? ==> download == None && error == old(error) && success == old(success)
      ensures old(file).None? ==> processor.isProcessing == old(processor.isProcessing)
      ensures SyltRequest(sylt).contentType == sylt.contentType && SyltRequest(sylt).timestampFormat == sylt.timestampFormat
      ensures old(file).Some? && fault.None? ==>
        download == Some(Download(DownloadName(tags.title, old(file).value.name), Plan(tags, sylt), true))
        && success == Some(SuccessMessage) && error == None
      ensures old(file).Some? && fault.Some? ==>
        download == None && error == Some(FailureMessage(fault.value)) && success == None
      ensures !processor.isProcessing || old(file).None?
      ensures file == old(file) && tags == old(tags) && albumArtUrl == old(albumArtUrl)
      ensures sylt == old(sylt) && lrcText == old(lrcText)
    {
      if file.None? {
        return None;
      }
      error := None;
      success := None;
      var result;
      result, download := processor.ProcessFile(file.value, tags, sylt, fault);
      if result.success {
        success := Some(result.message);
      } else {
        error := Some(result.message);
      }
    }
  }

  /** `LrcParser.Imported`, computing the parse with the parser's loop. */
  method ImportEntries(content: string) returns (entries: Option<seq<Entry>>)
    ensures entries == LrcParser.Imported(content)
  {
    if LrcParser.Trim(content) == "" {
      return None;
    }
    var parsed := LrcParser.ParseEntries(content);
    return Some(parsed);
  }

  /** After an import, the file written carries a lyrics frame exactly when
      some line of the imported text holds a timestamp marker. */
  lemma {:induction false} ImportedLyricsAreWritten(tags: Tags, frame: SyltFrame, content: string)
    ensures (exists f :: f in Plan(tags, frame.(text := LrcParser.ParseLrc(content))) && f.SYLT?)
        <==> (exists e :: LrcParser.FromSomeLine(LrcParser.SplitLines(content), e))
  {
    var imported := frame.(text := LrcParser.ParseLrc(content));
    var plan := Plan(tags, imported);
    var lines := LrcParser.SplitLines(content);
    if exists e :: LrcParser.FromSomeLine(lines, e) {
      var e :| LrcParser.FromSomeLine(lines, e);
      LrcParser.ParseLrcFromLines(content, e);
      PlanLyrics(tags, imported, SyltRequest(imported));
    }
    if exists f :: f in plan && f.SYLT? {
      var f :| f in plan && f.SYLT?;
      PlanLyrics(tags, imported, f);
      var e := imported.text[0];
      LrcParser.ParseLrcFromLines(content, e);
    }
  }
}
