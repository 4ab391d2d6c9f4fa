# ID3Editor — a verified model of the tag editor's core

ID3Editor is a browser app. It loads an MP3 file, lets the user edit its ID3
tags and synchronised lyrics (the SYLT frame), and saves a tagged copy. The
app exists in two versions:

- a single-component version, `Build/src/App.tsx`;
- a component-based version, `Build/src/components/App.tsx`, with the
  lyrics list in `SyncedLyrics.tsx`, the album-art picker in `AlbumArt.tsx`
  and the tag writing in the `useID3Processor` hook.

This project models the logic of both versions in Dafny and proves what that
logic promises. The model has eight modules:

- `Types`: the shared shapes. These are the eight-field tag record, the SYLT
  frame with its `(text, milliseconds)` entries, and the uploaded file.
- `LrcParser` and `StableSort`: `parseLRCFormat`, the LRC importer.
  - It splits the text on `'\n'`.
  - It searches each line, unanchored, for a `[MM:SS.CC]` or `[MM:SS:CC]`
    marker, and reads the leftmost one.
  - Each line with a marker gives one entry. The timestamp is
    `MM*60000 + SS*1000 + CC*10`. The text is the rest of the line up to a
    line terminator, trimmed.
  - The entries are collected by a loop (`CollectEntries`), then sorted in
    place by an insertion sort on an array (`SortByTime`).
  - Both methods are proved against functions, and the parser's promises are
    proved about those functions:
    - the result is ordered by time;
    - it is a permutation of the matched entries;
    - equal timestamps keep line order;
    - an entry appears exactly when some line yields it.
  - A uniqueness lemma shows that every stable sort gives the same result as
    the model's sort. So the choice of sorting algorithm by a JavaScript
    engine makes no difference.
- `EntryList`: the lyrics list editor. Adding, updating and deleting an
  entry are pure list operations. Each has "nothing else changes" contracts
  and inverse lemmas.
- `FramePlan`: `processFile`.
  - It decides which frames are requested of the tag writer, in what order
    and with what values.
  - The writer is a class that records the requests.
  - It also builds the download file name and the success or failure result,
    and resets the hook's `isProcessing` flag.
- `AlbumArt`: the album-art picker. It applies an `image/` MIME-prefix
  guard, then a 5 MiB size guard.
- `Editor`: the component-based session. It is a class whose fields are the
  `useState` variables and whose methods are the handlers.
- `LegacyEditor`: the single-component session, modelled the same way. Its
  LRC parsing, entry editing and frame requests are written inline.

The constants 1 (content type "lyrics") and 2 (timestamp format "absolute
milliseconds") are the codes of the Synchronised lyrics/text (SYLT) frame of
the ID3v2.3.0 informal standard.

What the code does, in the places where it is easy to assume otherwise:

- A tag field is written when it is non-empty, without trimming.
- Only title, artist and album produce frames. Album artist, year, genre,
  track and comment never reach the writer (`FramePlan.PlanReadsOnlyThreeFields`).
- The marker is searched anywhere in the line, not only at its start
  (`LrcParser.LeftmostMarkerWins`).

## Model

| member | source | states |
|---|---|---|
| Types.SetTag | Build/src/components/App.tsx:51-53 | the named tag field becomes the value; every other field is unchanged |
| Types.SetMeta | Build/src/components/App.tsx:82-84 | only the named field (language or description) of the SYLT frame changes; entries, type and format are kept |
| StableSort.Insert | Build/src/App.tsx:89 | one insertion step of the stable sort adds exactly one entry to the list |
| StableSort.Sorted | Build/src/App.tsx:89 | the sort keeps the length; with the lemmas below it is ordered, a permutation and stable |
| StableSort.SortedKeepsOrdered | Build/src/App.tsx:89 | a list already ordered by time is left unchanged by the sort |
| StableSort.SortedIsOrdered | Build/src/App.tsx:89 | the sort's result is ordered by timestamp, has the input's length and draws only on input entries |
| StableSort.SortedIsPermutation | Build/src/App.tsx:89 | the sort's result is a permutation (same multiset) of its input |
| StableSort.SortedIsStable | Build/src/App.tsx:89 | for every timestamp, the entries with that timestamp keep their input order |
| StableSort.OrderedUnique | Build/src/App.tsx:89 | two orderings by time that agree within every timestamp are equal |
| StableSort.StableSortIsUnique | Build/src/App.tsx:89 | any time-ordered result that keeps the input order within each timestamp is the model's sort, whatever the sorting algorithm |
| StableSort.SortedOne | Build/src/App.tsx:89 | a single entry is already sorted |
| StableSort.SortedTwo | Build/src/App.tsx:89 | two entries come back swapped only when the second is strictly earlier; a tie keeps their order |
| StableSort.InsertAt | Build/src/App.tsx:89 | inserting after the last entry not later than `x` puts `x` at that gap and keeps the rest |
| StableSort.InsertKeepsOrder | Build/src/App.tsx:89 | inserting into an ordered list keeps it ordered |
| StableSort.InsertMultiset | Build/src/App.tsx:89 | inserting adds exactly the one entry |
| StableSort.InsertAtTime | Build/src/App.tsx:89 | inserting puts the new entry last among the entries with its timestamp and changes no other timestamp's entries |
| StableSort.AtTimeAppend | Build/src/App.tsx:89 | the entries at one timestamp of a concatenation are those of each part, in order |
| StableSort.AtTimeMembers | Build/src/App.tsx:89 | the entries at timestamp `t` are exactly the list's entries with time `t` |
| StableSort.OpenGap | Build/src/App.tsx:89 | the shifting loop moves the suffix of later entries one step right and leaves everything else in place |
| StableSort.InsertLast | Build/src/App.tsx:89 | one insertion pass on the array puts `Insert(prefix, a[i])` into `a[..i+1]` and leaves the rest of the array unchanged |
| StableSort.SortByTime | Build/src/App.tsx:89 | the in-place sort leaves the array holding the sort of its old contents |
| EntryList.AddEntry | Build/src/components/SyncedLyrics.tsx:14-16 | the list grows by one, the old entries are kept as they were, and the new last entry is `('', 0)` |
| EntryList.UpdateEntry | Build/src/components/SyncedLyrics.tsx:18-23 | an in-range index replaces that entry only; an out-of-range index gives an equal list |
| EntryList.DeleteEntry | Build/src/components/SyncedLyrics.tsx:25-27 | an in-range index removes exactly that entry with the others in order; an out-of-range index gives an equal list |
| EntryList.EditText | Build/src/components/SyncedLyrics.tsx:101 | a text edit changes that entry's text, keeps its timestamp and every other entry |
| EntryList.ParsedOrZero | Build/src/components/SyncedLyrics.tsx:110 | `parseInt(value) \|\| 0`: a parsed number is kept and NaN becomes 0 |
| EntryList.EditTime | Build/src/components/SyncedLyrics.tsx:110 | a timestamp edit keeps the entry's text; non-numeric input gives 0; every other entry is unchanged |
| EntryList.DeleteUndoesAdd | Build/src/components/SyncedLyrics.tsx:14-27 | deleting the entry just added gives back the list |
| EntryList.UpdateUndone | Build/src/components/SyncedLyrics.tsx:18-23 | writing an entry's old values back undoes an update |
| EntryList.DeleteKeepsOthers | Build/src/components/SyncedLyrics.tsx:25-27 | after a delete, the entries before the index stay and the entries after it shift down one place |
| EntryList.DeleteRemovesOne | Build/src/components/SyncedLyrics.tsx:25-27 | what a delete removes is exactly the one entry at the index (as multisets) |
| LrcParser.TwoDigits | Build/src/App.tsx:76-78 | `parseInt` of two ASCII digits lies in 0..99 |
| LrcParser.SplitLines | Build/src/App.tsx:65 | the split gives at least one piece, no piece holds `'\n'`, and joining the pieces with `'\n'` gives the text back |
| LrcParser.SplitJoin | Build/src/App.tsx:65 | splitting joined newline-free pieces gives the pieces back |
| LrcParser.SplitBeforeNewline | Build/src/App.tsx:65 | a newline-free piece followed by `'\n'` is the first line of the split |
| LrcParser.SplitNoNewline | Build/src/App.tsx:65 | a newline-free text splits to itself |
| LrcParser.TrimStart | Build/src/App.tsx:80 | only leading white space is removed, and the result does not start with white space |
| LrcParser.TrimEnd | Build/src/App.tsx:80 | only trailing white space is removed, and the result does not end with white space |
| LrcParser.Trim | Build/src/App.tsx:80 | the result is a slice of the text with only white space outside it; it has no white space at either end, and it is empty exactly when the text is all white space |
| LrcParser.TrimUnchanged | Build/src/App.tsx:80 | text with no white space at either end is unchanged by trim |
| LrcParser.FindMarkerFrom | Build/src/App.tsx:73 | the search returns the first marker position at or after `from`, or reports that there is none |
| LrcParser.MarkerTime | Build/src/App.tsx:76-79 | the timestamp lies in [0, 6039990] and is a multiple of 10 |
| LrcParser.UpToTerminator | Build/src/App.tsx:73 | `.*` takes the longest prefix without a line terminator, stopping just before the first one |
| LrcParser.UpToTerminatorWhole | Build/src/App.tsx:73 | text without line terminators is taken whole |
| LrcParser.TextAfter | Build/src/App.tsx:73-80 | the entry's text is what follows the marker up to a line terminator, trimmed: no white space at either end and no line terminator inside |
| LrcParser.ParseLine | Build/src/App.tsx:73-84 | a line's entry has a timestamp in [0, 6039990] |
| LrcParser.ParseLineFindsMarker | Build/src/App.tsx:73-75 | a line yields an entry exactly when a marker occurs anywhere in it |
| LrcParser.ParseLineAt | Build/src/App.tsx:73-84 | the entry is read at the leftmost marker: the timestamp from its digits, the text from the trimmed rest of the line |
| LrcParser.LineEntries | Build/src/App.tsx:75-85 | a line contributes at most one entry, and it is the line's parse |
| LrcParser.Matched | Build/src/App.tsx:71-86 | the `forEach`/`push` loop's result has at most one entry per line |
| LrcParser.GatherBound | Build/src/App.tsx:71-86 | when each line gives at most one entry, there are at most as many entries as lines |
| LrcParser.GatheredFromSomeLine | Build/src/App.tsx:71-86 | whatever the per-line loop collects came from some line |
| LrcParser.GatheredEveryLine | Build/src/App.tsx:71-86 | every line's contribution is collected |
| LrcParser.MatchedOnlyFromLines | Build/src/App.tsx:71-86 | every matched entry is the parse of some line |
| LrcParser.MatchedAllLines | Build/src/App.tsx:71-86 | the entry of every line with a marker is matched |
| LrcParser.MatchedFromLines | Build/src/App.tsx:71-86 | an entry is matched exactly when some line parses to it |
| LrcParser.MatchedOne | Build/src/App.tsx:71-86 | the loop over one line collects that line's entries |
| LrcParser.MatchedTwo | Build/src/App.tsx:71-86 | the loop over two lines collects the first line's entries, then the second's |
| LrcParser.MatchedPrefix | Build/src/App.tsx:71-86 | one more line adds that line's entry, if any, at the end |
| LrcParser.ParseLrc | Build/src/App.tsx:64-89 | the parser's result is ordered by timestamp |
| LrcParser.ParseLrcPerLine | Build/src/App.tsx:64-89 | the parser's result has at most one entry per line of the text |
| LrcParser.ParseLrcSpec | Build/src/App.tsx:64-89 | the result's timestamps are in range; the result is ordered by time, is a permutation of the matched entries, and keeps line order within each timestamp |
| LrcParser.ParseLrcFromLines | Build/src/App.tsx:71-89 | an entry is in the result exactly when some line yields it; lines without a marker are dropped |
| LrcParser.CollectEntries | Build/src/App.tsx:66-86 | the `forEach`/`push` loop collects exactly the matched entries, in line order |
| LrcParser.ParseEntries | Build/src/App.tsx:64-89 | collecting, then sorting in place, gives the parser's result, ordered by time and a permutation of the matched entries |
| LrcParser.LineWithMarkerFirst | Build/src/App.tsx:73-84 | a line that starts with a marker, followed by plain text, gives exactly that one entry |
| LrcParser.MarkedLine | Build/src/App.tsx:73-84 | a marker followed by plain text forms such a line |
| LrcParser.OneLine | Build/src/App.tsx:64-89 | a text of one marked line parses to its one entry |
| LrcParser.TwoLines | Build/src/App.tsx:64-89 | two marked lines come back ordered by time, with the first line first on a tie |
| LrcParser.SplitTwo | Build/src/App.tsx:65 | two newline-free pieces joined by `'\n'` split back into the two pieces |
| LrcParser.MatchedPair | Build/src/App.tsx:71-86 | two lines with one entry each match those entries in line order |
| LrcParser.LeftmostMarkerWins | Build/src/App.tsx:73 | `"[00:01.00][00:02.00]hi"` gives one entry at 1000 ms whose text is `"[00:02.00]hi"` |
| LrcParser.SortsByTimestamp | Build/src/App.tsx:89 | `"[00:01.40]Hello\n[00:00.50]World"` gives `("World", 500)` then `("Hello", 1400)` |
| LrcParser.EmptyTextKept | Build/src/App.tsx:83-84 | a marker with nothing after it still gives an entry, with empty text |
| FramePlan.OrDefault | Build/src/hooks/useID3Processor.ts:47-48 | `s \|\| fallback`: a non-empty string is kept, an empty one falls back |
| FramePlan.SyltRequest | Build/src/hooks/useID3Processor.ts:37-49 | the SYLT request carries the entries unchanged, type 1 and format 2; a non-empty language or description is kept, an empty language becomes `'eng'` and an empty description `'Synced Lyrics'` |
| FramePlan.When | Build/src/hooks/useID3Processor.ts:26-37 | a conditional request is present exactly when its condition holds |
| FramePlan.Plan | Build/src/hooks/useID3Processor.ts:25-50 | at most four requests, in strictly increasing order TIT2, TPE1, TALB, SYLT |
| FramePlan.PrependRanked | Build/src/hooks/useID3Processor.ts:25-50 | a request placed in front of higher-ranked ones keeps the order |
| FramePlan.PlanTitle | Build/src/hooks/useID3Processor.ts:26-28 | TIT2(s) is requested exactly when the title is `s` and non-empty |
| FramePlan.PlanArtist | Build/src/hooks/useID3Processor.ts:29-31 | TPE1 is requested exactly when the artist is non-empty, as the one-name list `[artist]` |
| FramePlan.PlanAlbum | Build/src/hooks/useID3Processor.ts:32-34 | TALB(s) is requested exactly when the album is `s` and non-empty |
| FramePlan.PlanLyrics | Build/src/hooks/useID3Processor.ts:37-50 | a SYLT request is made exactly when there is at least one entry, and it is the one built from the frame |
| FramePlan.PlanReadsOnlyThreeFields | Build/src/hooks/useID3Processor.ts:25-34 | tag records that agree on title, artist and album give the same requests, so the other five fields never reach the writer |
| FramePlan.Id3Writer.constructor | Build/src/hooks/useID3Processor.ts:23 | a new writer has no requests, nothing written and no tag |
| FramePlan.Id3Writer.SetFrame | Build/src/hooks/useID3Processor.ts:27 | a request is appended to those made so far; what was written is unchanged |
| FramePlan.Id3Writer.AddTag | Build/src/hooks/useID3Processor.ts:52 | the tag is added, and what it writes is exactly the requests made so far, which stay unchanged |
| FramePlan.WriteFrames | Build/src/hooks/useID3Processor.ts:25-50 | the conditional `setFrame` calls append exactly the plan to the writer's requests and write nothing |
| FramePlan.IndexOfFrom | Build/src/hooks/useID3Processor.ts:59 | the search returns the first occurrence of the pattern at or after `from`, or reports that there is none |
| FramePlan.RemoveFirst | Build/src/hooks/useID3Processor.ts:59 | `replace` with a string pattern cuts out only the first occurrence, and changes nothing when there is none |
| FramePlan.DownloadName | Build/src/hooks/useID3Processor.ts:59 | the name is the title when it is non-empty, else the file name without its first `".mp3"`; `"_tagged.mp3"` always ends it |
| FramePlan.UntitledKeepsBaseName | Build/src/hooks/useID3Processor.ts:59 | without a title, `base.mp3` is saved as `base_tagged.mp3` |
| FramePlan.ExtensionAtEnd | Build/src/hooks/useID3Processor.ts:59 | `base + ".mp3"` has `".mp3"` at the end, and cutting it out leaves `base` |
| FramePlan.NotBeforeExtension | Build/src/hooks/useID3Processor.ts:59 | no `".mp3"` of `base + ".mp3"` starts inside a `base` that has none |
| FramePlan.FirstOccurrenceIsRemoved | Build/src/hooks/useID3Processor.ts:59 | `"a.mp3b.mp3"` is saved as `"ab.mp3_tagged.mp3"`: the first `".mp3"` goes, wherever it is |
| FramePlan.RemoveInnerExtension | Build/src/hooks/useID3Processor.ts:59 | removing the first `".mp3"` from `"a.mp3b.mp3"` leaves `"ab.mp3"` |
| FramePlan.UpperCaseExtensionKept | Build/src/hooks/useID3Processor.ts:59 | the match is case-sensitive: `"song.MP3"` with an empty title is saved as `"song.MP3_tagged.mp3"` |
| FramePlan.NoLowerCaseExtension | Build/src/hooks/useID3Processor.ts:59 | `".mp3"` occurs nowhere in `"song.MP3"` |
| FramePlan.FailureMessage | Build/src/hooks/useID3Processor.ts:73 | the message starts with `"Failed to process file: "` and goes on with the error's message, or with `"Unknown error"` for a non-`Error` throw |
| FramePlan.Processor.constructor | Build/src/hooks/useID3Processor.ts:9 | the hook starts not processing |
| FramePlan.Processor.ProcessFile | Build/src/hooks/useID3Processor.ts:11-78 | without a fault: success with the fixed message, and a download named by the file-name rule carrying the frames `addTag` wrote, which are exactly the planned frames, so `addTag` ran after every `setFrame`; with a fault: failure with the failure message and no download; `isProcessing` is false after both |
| AlbumArt.HandleFileChange | Build/src/components/AlbumArt.tsx:9-26 | no file: nothing happens; an image is accepted exactly when its type starts with `image/` and its size is at most 5 MiB; a non-image is rejected as such before the size is looked at |
| AlbumArt.NextArt | Build/src/components/AlbumArt.tsx:20-24 | only an accepted image replaces the art |
| AlbumArt.SizeLimitInclusive | Build/src/components/AlbumArt.tsx:16-19 | exactly 5242880 bytes is accepted and 5242881 is rejected as too large |
| AlbumArt.TypeCheckedBeforeSize | Build/src/components/AlbumArt.tsx:12-19 | an oversized non-image is reported as not an image |
| AlbumArt.MimePrefixExamples | Build/src/components/AlbumArt.tsx:12 | the prefix test is case-sensitive and needs the slash |
| AlbumArt.RejectionKeepsArt | Build/src/components/AlbumArt.tsx:10-19 | an ignored or rejected selection leaves the art as it was |
| Editor.Session.constructor | Build/src/components/App.tsx:14-29 | the session starts with no file, empty tags, no art, no entries, type 1, format 2, `'eng'`, `'Lyrics'`, an empty box, no messages and the hook not processing |
| Editor.Session.HandleFileUpload | Build/src/components/App.tsx:41-49 | a present `audio/mpeg` file is taken, the error is cleared and success is set; anything else sets the error and keeps the old file and success message |
| Editor.Session.HandleTagChange | Build/src/components/App.tsx:51-53 | exactly the named tag field changes |
| Editor.Session.SetLrcText | Build/src/components/App.tsx:119 | typing changes only the LRC box |
| Editor.Session.HandleLrcImport | Build/src/components/App.tsx:55-62 | blank text changes nothing; otherwise the entries are replaced by the parse, the other frame fields are kept, the box is cleared and success is set |
| Editor.Session.ApplyImport | Build/src/components/App.tsx:57-60 | an import outcome replaces the entries, clears the box and sets success; no outcome changes nothing |
| Editor.Session.HandleSyltChange | Build/src/components/App.tsx:78-80 | only the entry list changes |
| Editor.Session.HandleSyltMetadataChange | Build/src/components/App.tsx:82-84 | only the named language or description changes |
| Editor.Session.AddEntry | Build/src/components/SyncedLyrics.tsx:14-16 | the entries become the list with `('', 0)` appended; nothing else in the session changes |
| Editor.Session.EditEntryText | Build/src/components/SyncedLyrics.tsx:101 | the entries become the list with that entry's text edited; nothing else in the session changes |
| Editor.Session.EditEntryTime | Build/src/components/SyncedLyrics.tsx:110 | the entries become the list with that entry's timestamp edited; nothing else in the session changes |
| Editor.Session.DeleteEntry | Build/src/components/SyncedLyrics.tsx:25-27 | the entries become the list without that index; nothing else in the session changes |
| Editor.Session.ChooseAlbumArt | Build/src/components/App.tsx:127 | the art becomes what the picker's decision gives, and nothing else changes |
| Editor.Session.RemoveAlbumArt | Build/src/components/AlbumArt.tsx:53 | the art becomes none, and nothing else changes |
| Editor.Session.HandleProcess | Build/src/components/App.tsx:64-76 | no file: nothing changes, the hook's `isProcessing` included; otherwise exactly one message is set from the hook's result, and the download carries the planned frames with the tag added; the SYLT frame written carries the session's content type and timestamp format |
| LrcParser.Imported | Build/src/components/App.tsx:55-57 | an import happens exactly when the trimmed text is non-empty, and then gives the parse of the whole text |
| Editor.ImportEntries | Build/src/components/App.tsx:56-57 | the guard and the parser's loop compute the import outcome |
| Editor.ImportedLyricsAreWritten | Build/src/components/App.tsx:55-76 | after an import, a SYLT frame is requested exactly when some line of the imported text holds a marker |
| LegacyEditor.Session.constructor | Build/src/App.tsx:23-35 | the session starts with no file, empty tags, no entries, type 1, format 2, `'eng'`, `'Lyrics'`, an empty box and no messages |
| LegacyEditor.Session.HandleFileUpload | Build/src/App.tsx:48-58 | a present `audio/mpeg` file is taken, the error is cleared and success is set; anything else sets the error and keeps the old file and success message |
| LegacyEditor.Session.HandleTagChange | Build/src/App.tsx:60-62 | exactly the named one of the seven tag fields changes |
| LegacyEditor.Session.SetLrcText | Build/src/App.tsx:270 | typing changes only the LRC box |
| LegacyEditor.Session.ParseLrcFormat | Build/src/App.tsx:64-97 | the entries become the parse of the text; the other frame fields are kept |
| LegacyEditor.Session.HandleLrcImport | Build/src/App.tsx:99-105 | blank text changes nothing; otherwise the entries are replaced by the parse, the box is cleared and success is set |
| LegacyEditor.Session.ParseAndClear | Build/src/App.tsx:101-103 | the entries become the parse of the box, the box is cleared and success is set |
| LegacyEditor.Session.AddSampleSylt | Build/src/App.tsx:107-118 | the entries become the three sample entries |
| LegacyEditor.Session.SetMetadata | Build/src/App.tsx:349-359 | only the named language or description changes |
| LegacyEditor.Session.AddEntry | Build/src/App.tsx:370-373 | `('', 0)` is appended to the entries |
| LegacyEditor.Session.EditEntryText | Build/src/App.tsx:385-390 | that entry's text changes and its timestamp is kept |
| LegacyEditor.Session.EditEntryTime | Build/src/App.tsx:399-404 | that entry's timestamp changes (0 for non-numeric input) and its text is kept |
| LegacyEditor.Session.DeleteEntry | Build/src/App.tsx:410-413 | that entry is removed |
| LegacyEditor.Session.ProcessFile | Build/src/App.tsx:120-206 | no file: nothing changes; otherwise both messages are cleared, then success is set with a download whose frames `addTag` wrote after all the planned frames were set, or the failure message is set; `isProcessing` is false afterwards; the SYLT frame written carries the session's content type and timestamp format |
| LegacyEditor.SampleIsSorted | Build/src/App.tsx:108-112 | the sample entries are already in timestamp order, so the importer's sort leaves them as they are |

## Left out

- The `browser-id3-writer` library is left out: frame bytes, the tag header, sizes and splicing the tag onto the audio. `Id3Writer` only records the frame requests, which of them `addTag` wrote, and whether it ran.
- I/O is left out: `file.arrayBuffer()`, `FileReader`, the data URL, the Blob and anchor-click download, `alert` and `console.log`. The image data URL is a parameter of `Editor.Session.ChooseAlbumArt`. The download is returned as a value: its name, the frames written into it, and whether the tag was added.
- An exception thrown by any step of `processFile` is a parameter, `fault`. The model does not say which step threw.
- The async and `await` timing is left out. A process call is one atomic transition, so `isProcessing` is observed only before and after the call.
- The eruda debug console is left out. So are rendering, the JSX components, and the MB size formatting of the upload panel.
- FramePlan.SyltRequest: `String(text || '')` and `Math.floor(Number(timestamp || 0))` are treated as the identity. Entries in the model are already strings and integers, on which both coercions change nothing.
- EntryList.EditTime: the timestamp input is modelled as already parsed. `None` stands for a `parseInt` that yields NaN. How `parseInt` reads partly numeric text is not modelled.
- Editor.Session.HandleProcess: the album-art URL that the handler passes to the hook is dropped, as in the code, because the hook takes no such parameter. No APIC frame is ever requested.
- `useLRCParser`, which the component-based app calls, is not part of this model. Its parser is taken to be `parseLRCFormat` of `Build/src/App.tsx`, without the state update.
- LegacyEditor.Session.HandleTagChange: requires a field other than album artist, because the single-component app's tag record has only seven fields.
- The LRC timestamp formatter, lyric groups per language, USLT and APIC frames, and tag decoding are left out. They do not exist in the code.
