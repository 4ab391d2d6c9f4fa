/** The single-component editor: the same session as `Editor`, with the LRC
    parser, the entry editing and the tag writing written inline, and its own
    `isProcessing` flag and messages. Its tag record has no album artist. */
module LegacyEditor {
  import opened Types
  import LrcParser
  import EntryList
  import opened FramePlan
  import StableSort

  const ImportedMessage := "LRC format lyrics imported successfully! Check the synced lyrics section to see the parsed entries."
  const ProcessedMessage := "File processed successfully!"

  /** The entries of the "Add Sample" button. */
  const SampleEntries := [Entry("Hello world", 1000), Entry("This is a test", 2000), Entry("SYLT lyrics working", 3000)]

  class Session {
    var file: Option<AudioFile>
    var isProcessing: bool
    var error: Option<string>
    var success: Option<string>
    var tags: Tags
    var sylt: SyltFrame
    var lrcText: string

    predicate Valid()
      reads this
    {
      sylt.contentType == LyricsContentType && sylt.timestampFormat == MillisecondsFormat
      && tags.albumArtist == None && !isProcessing
    }

    constructor ()
      ensures Valid()
      ensures file == None && error == None && success == None && tags == EmptyTags
      ensures sylt == InitialSylt && lrcText == ""
    {
      file := None;
      isProcessing := false;
      error := None;
      success := None;
      tags := EmptyTags;
      sylt := InitialSylt;
      lrcText := "";
    }

    /** `handleFileUpload`: only a present file of type exactly `audio/mpeg`
        is taken; a rejected one leaves the loaded file and the success
        message as they were. */
    method HandleFileUpload(uploaded: Option<AudioFile>)
      requires Valid()
      modifies this
      ensures Valid()
      ensures uploaded.Some? && uploaded.value.mimeType == MpegType ==>
        file == uploaded && error == None && success == Some(LoadedMessage)
      ensures !(uploaded.Some? && uploaded.value.mimeType == MpegType) ==>
        file == old(file) && error == Some(InvalidFileMessage) && success == old(success)
      ensures tags == old(tags) && sylt == old(sylt) && lrcText == old(lrcText)
    {
      if uploaded.Some? && uploaded.value.mimeType == MpegType {
        file := uploaded;
        error := None;
        success := None;
        success := Some(LoadedMessage);
      } else {
        error := Some(InvalidFileMessage);
      }
    }

    /** `handleTagChange` over this editor's seven fields. */
    method HandleTagChange(field: TagField, value: string)
      requires Valid() && field != AlbumArtist
      modifies this
      ensures Valid()
      ensures tags == SetTag(old(tags), field, value)
      ensures file == old(file) && sylt == old(sylt) && lrcText == old(lrcText)
      ensures error == old(error) && success == old(success)
    {
      tags := SetTag(tags, field, value);
    }

    /** The LRC text box. */
    method SetLrcText(text: string)
      requires Valid()
      modifies this
      ensures Valid()
      ensures lrcText == text
      ensures file == old(file) && tags == old(tags) && sylt == old(sylt)
      ensures error == old(error) && success == old(success)
    {
      lrcText := text;
    }

    /** `parseLRCFormat`: the entries become the parse of `content`. */
    method ParseLrcFormat(content: string)
      requires Valid()
      modifies this
      ensures Valid()
      ensures sylt == old(sylt).(text := LrcParser.ParseLrc(content))
      ensures file == old(file) && tags == old(tags) && lrcText == old(lrcText)
      ensures error == old(error) && success == old(success)
    {
      var entries := LrcParser.ParseEntries(content);
      sylt := sylt.(text := entries);
    }

    /** `handleLRCImport`: nothing unless the box holds more than whitespace. */
    method HandleLrcImport()
      requires Valid()
      modifies this
      ensures Valid()
      ensures LrcParser.Imported(old(lrcText)).None? ==>
        sylt == old(sylt) && lrcText == old(lrcText) && success == old(success)
      ensures LrcParser.Imported(old(lrcText)).Some? ==>
        sylt == old(sylt).(text := LrcParser.Imported(old(lrcText)).value) && lrcText == "" && success == Some(ImportedMessage)
      ensures file == old(file) && tags == old(tags) && error == old(error)
    {
      if LrcParser.Trim(lrcText) == "" {
        return;
      }
      ParseAndClear();
    }

    /** The import past its guard: parse the box, then clear it and report. */
    method ParseAndClear()
      requires Valid()
      modifies this
      ensures Valid()
      ensures sylt == old(sylt).(text := LrcParser.ParseLrc(old(lrcText)))
      ensures lrcText == "" && success == Some(ImportedMessage)
      ensures file == old(file) && tags == old(tags) && error == old(error)
    {
      ParseLrcFormat(lrcText);
      lrcText := "";
      success := Some(ImportedMessage);
    }

    /** `addSampleSYLT`: the entries become the three sample entries. */
    method AddSampleSylt()
      requires Valid()
      modifies this
      ensures Valid()
      ensures sylt == old(sylt).(text := SampleEntries)
      ensures file == old(file) && tags == old(tags) && lrcText == old(lrcText)
      ensures error == old(error) && success == old(success)
    {
      sylt := sylt.(text := SampleEntries);
    }

    /** The language and description boxes. */
    method SetMetadata(field: MetaField, value: string)
      requires Valid()
      modifies this
      ensures Valid()
      ensures sylt == SetMeta(old(sylt), field, value)
      ensures file == old(file) && tags == old(tags) && lrcText == old(lrcText)
      ensures error == old(error) && success == old(success)
    {
      sylt := SetMeta(sylt, field, value);
    }

    /** The inline "Add Entry" button. */
    method AddEntry()
      requires Valid()
      modifies this
      ensures Valid()
      ensures sylt == old(sylt).(text := EntryList.AddEntry(old(sylt.text)))
      ensures file == old(file) && tags == old(tags) && lrcText == old(lrcText)
      ensures error == old(error) && success == old(success)
    {
      sylt := sylt.(text := EntryList.AddEntry(sylt.text));
    }

    /** The inline text box of entry `index`. */
    method EditEntryText(index: nat, value: string)
      requires Valid() && index < |sylt.text|
      modifies this
      ensures Valid()
      ensures sylt == old(sylt).(text := EntryList.EditText(old(sylt.text), index, value))
      ensures file == old(file) && tags == old(tags) && lrcText == old(lrcText)
      ensures error == old(error) && success == old(success)
    {
      sylt := sylt.(text := EntryList.EditText(sylt.text, index, value));
    }

    /** The inline timestamp box of entry `index`; `None` is input that
        `parseInt` turns into NaN. */
    method EditEntryTime(index: nat, input: Option<int>)
      requires Valid() && index < |sylt.text|
      modifies this
      ensures Valid()
      ensures sylt == old(sylt).(text := EntryList.EditTime(old(sylt.text), index, input))
      ensures file == old(file) && tags == old(tags) && lrcText == old(lrcText)
      ensures error == old(error) && success == old(success)
    {
      sylt := sylt.(text := EntryList.EditTime(sylt.text, index, input));
    }

    /** The inline delete button of entry `index`. */
    method DeleteEntry(index: nat)
      requires Valid() && index < |sylt.text|
      modifies this
      ensures Valid()
      ensures sylt == old(sylt).(text := EntryList.DeleteEntry(old(sylt.text), index))
      ensures file == old(file) && tags == old(tags) && lrcText == old(lrcText)
      ensures error == old(error) && success == old(success)
    {
      sylt := sylt.(text := EntryList.DeleteEntry(sylt.text, index));
    }

    /** `processFile`, as one step: nothing without a file; otherwise the
        messages are cleared, the frames are requested, and exactly one
        message is set. `fault` is the exception a step threw, if any. */
    method ProcessFile(fault: Option<Fault>) returns (download: Option<Download>)
      requires Valid()
      modifies this
      ensures Valid()
      ensures old(file).None? ==> download == None && error == old(error) && success == old(success)
      ensures old(file).Some? && fault.None? ==>
        download == Some(Download(DownloadName(tags.title, old(file).value.name), Plan(tags, sylt), true))
        && success == Some(ProcessedMessage) && error == None
      ensures old(file).Some? && fault.Some? ==>
        download == None && error == Some(FailureMessage(fault.value)) && success == None
      ensures file == old(file) && tags == old(tags) && sylt == old(sylt) && lrcText == old(lrcText)
      ensures SyltRequest(sylt).contentType == sylt.contentType && SyltRequest(sylt).timestampFormat == sylt.timestampFormat
    {
      if file.None? {
        return None;
      }
      isProcessing := true;
      error := None;
      success := None;
      var writer := new Id3Writer();
      WriteFrames(writer, tags, sylt);
      writer.AddTag();
      assert writer.written == Plan(tags, sylt);
      match fault {
        case None =>
          download := Some(Download(DownloadName(tags.title, file.value.name), writer.written, writer.tagAdded));
          success := Some(ProcessedMessage);
        case Some(f) =>
          download := None;
          error := Some(FailureMessage(f));
      }
      isProcessing := false;
    }
  }

  /** The sample entries are already in timestamp order, so the importer's
      sort would leave them as they are. */
  lemma SampleIsSorted()
    ensures StableSort.SortedByTime(SampleEntries)
    ensures StableSort.Sorted(SampleEntries) == SampleEntries
  {
    StableSort.SortedKeepsOrdered(SampleEntries);
  }
}
