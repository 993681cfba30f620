# F5TTS backend core, modelled in Dafny

This project models the parts of the F5TTS backend whose behaviour can be stated exactly, and proves properties of them. The backend is a FastAPI service with a Kokoro command-line tool. The audio, machine-learning and document libraries around these parts come in as parameters or are left out.

- **Text chunking of the Kokoro tool** (`chunking.dfy`). `chunk_text` packs sentences into chunks of bounded size and splits oversized sentences into word pieces. The word split used on retry after a phoneme-length error uses the same greedy packing, modelled once as `Pack`.
- **Command line of the Kokoro tool** (`cli.dfy`). This covers:
  - the scan of `sys.argv` for unknown options;
  - the names of merged chapter files;
  - the `--help-voices` listing;
  - the structure check of a voice argument.
- **PDF chapters** (`pdf_toc.dfy`). This covers:
  - the chapter markers taken from the table of contents and the pages each chapter covers;
  - the title and markdown cleaners;
  - the heading split of the markdown fallback.
- **Timestamps and uploads** (`audio_utils.dfy`). The SubRip `format_timestamp` and `validate_audio_file`.
- **SubRip files** (`srt.dfy`):
  - `generate_combined_srt_content` and `generate_synchronized_srt` of the SRT service;
  - the zero-start `generate_combined_srt` route of `main.py`.
- **Audio timelines** (`combine.dfy`):
  - the truncating `format_timestamp` of the audio routes;
  - `combine_audio_segments`, which puts a 100 ms gap between segments;
  - `combine_audio`, which lays segments back to back.
- **Video jobs** (`video_store.dfy`):
  - `VideoStorage`, a class over an insertion-ordered map, with a ghost `saved` list for the JSON file;
  - `VideoService`;
  - the video routes of `main.py`, including how their errors are re-wrapped;
  - the status changes made by the audio generation routes.
- **Task status** (`task_queue.dfy`). The `task_status` dictionary of the queue service, its queries, and the records of the simulated task.
- **Voices**:
  - `voices.dfy`: the display names of the direct Kokoro service, its voice list and its lazily created model;
  - `kokoro_command.dfy`: the script-driving Kokoro service, meaning its command line, temporary files, error paths and the parse of the voice listing.
- **Numbers in text** (`number_text.dfy`). `translate_number_to_text`: a space is put between letters and digits, then every stand-alone digit run is spelled out.

`strings.dfy` writes out the Python string built-ins the code relies on: `strip`, `split`, `join`, `str(int)`, zero padding, ASCII case mapping and `os.path.join`. `wrappers.dfy` holds `Option` and `Result`.

Durations are whole milliseconds throughout, because pydub measures audio in milliseconds. Loops in the source are methods with loop invariants, each proved equal to a specification function. The properties are proved about those functions. Objects whose fields the source updates are classes:

- `VideoStorage` and `VideoService`;
- `TaskBoard` (the `task_status` dictionary);
- `DirectKokoroService` (the cached model);
- `KokoroService` and `Disk` (the temporary files).

## Model

| member | source | states |
|---|---|---|
| AudioUtils.LastIndex | backend/utils/audio.py:10 | the index of the last occurrence of a character, or -1; no later position holds it (the `rfind` inside `os.path.splitext`) |
| AudioUtils.ValidateAudioFileIff | backend/utils/audio.py:7-10 | a name passes exactly when it ends in ".wav" in any letter case and its last path component has a character other than '.' before that suffix |
| AudioUtils.ValidateAudioFileUpperCase | backend/utils/audio.py:10 | "A.WAV" passes, because the extension is lower-cased |
| AudioUtils.ValidateAudioFileInDirectory | backend/utils/audio.py:10 | "a/b.wav" passes |
| AudioUtils.ValidateAudioFileHiddenName | backend/utils/audio.py:10 | ".wav" is refused: a leading dot starts no extension |
| AudioUtils.ValidateAudioFileLastExtension | backend/utils/audio.py:10 | "x.wav.mp3" is refused: only the last extension counts |
| AudioUtils.ClockOf | backend/utils/audio.py:19-21 | minutes, seconds and milliseconds are within range, hours are unbounded, and the fields recombine to the duration |
| AudioUtils.FormatTimestampShape | backend/utils/audio.py:17-22 | the text is "H…H:MM:SS,mmm": at least two hour digits, then two digits, two digits and three digits, separated by ':', ':' and ',' |
| AudioUtils.FormatShape | backend/utils/audio.py:22 | the `02d`/`06.3f` formatting with '.' replaced by ',' prints the same text as the fields written with a comma |
| AudioUtils.FormatTimestampRoundTrip | backend/utils/audio.py:17-22 | reading a printed timestamp back gives the duration in milliseconds |
| AudioUtils.ParseCommaForm | backend/utils/audio.py:22 | the comma form of in-range fields reads back as those fields |
| AudioUtils.FormatTimestampInjective | backend/utils/audio.py:17-22 | two different durations never print the same timestamp |
| Chunking.PackProperties | backend/kokoro-tts.py:79-97 | the greedy word packing keeps every word in order; no piece is empty; a piece over the limit is a single word; a piece closes only when its next word would overflow it |
| Chunking.PackedWords | backend/kokoro-tts.py:79-97 | each piece of a packing of words consists of words |
| Chunking.SplitWords | backend/kokoro-tts.py:84-97 | the packing loop returns the rendered pieces of the greedy packing |
| Chunking.SplitForRetry | backend/kokoro-tts.py:709-726 | the retry split returns the rendered packing of `chunk.split()` at the reduced size |
| Chunking.RenderedWordsLength | backend/kokoro-tts.py:713-724 | a piece joined by spaces is already stripped, is one character shorter than its charged size, and splits back into its words |
| Chunking.RetryPieceAt | backend/kokoro-tts.py:709-726 | each retry piece is non-empty and splits back into its group of words, and it is shorter than the reduced size unless it is a single word |
| Chunking.RetryPiecesProperties | backend/kokoro-tts.py:691-726 | the retry pieces are non-empty, their words read in order are exactly `chunk.split()`, and each is within the reduced size unless it is a single word |
| Chunking.AddSentence | backend/kokoro-tts.py:70-109 | the loop body: skip a blank sentence, emit an oversized one's pieces at once, or add the sentence after closing the pending chunk if it would overflow |
| Chunking.ChunkText | backend/kokoro-tts.py:63-111 | the method returns the chunks of the chunk plan: sentence loop plus the final pending chunk |
| Chunking.StepInv | backend/kokoro-tts.py:70-109 | one loop iteration keeps the plan invariant (well-formed chunks, content, closing on overflow) |
| Chunking.FoldInv | backend/kokoro-tts.py:70-109 | the invariant holds after any prefix of the sentences |
| Chunking.ChunkPlanProperties | backend/kokoro-tts.py:65-109 | the kept sentences are stripped, non-empty and re-terminated with '.'; a sentence chunk's lengths without the joining spaces sum to at most the chunk size; it holds exactly the fitting sentences in order; the pieces hold exactly the oversized sentences' words in order; a sentence chunk closes only on overflow |
| Chunking.ChunkPlanOk | backend/kokoro-tts.py:65-109 | every chunk of the plan is well formed |
| Chunking.ChunkShape | backend/kokoro-tts.py:63-111 | every emitted chunk is non-empty and ends with '.'; a sentence chunk is as long as its sentences plus one space between each two |
| Chunking.PiecesBeforePending | backend/kokoro-tts.py:79-97 | the pieces of an oversized sentence come before the sentences pending when it was read |
| Chunking.LastPieceDoubleDot | backend/kokoro-tts.py:79-97 | the last piece of an oversized sentence ends in "..": its own '.' plus the appended one |
| Chunking.PackedEndsWithPeriod | backend/kokoro-tts.py:79-97 | when the last word of a packing ends in '.', the rendered last piece ends in ".." (the word's period and the one added to the piece) |
| Chunking.SentencePieceEnds | backend/kokoro-tts.py:91-97 | a piece whose last word ends in '.' renders ending in ".." |
| Cli.ValueOptionsAreValid | backend/kokoro-tts.py:1181-1195 | the value-taking options are all valid options (with backend/kokoro-tts.py:1211) |
| Cli.ScanOptions | backend/kokoro-tts.py:1198-1213 | the `while i < len(sys.argv)` loop returns the unknown options of the arguments after the program name |
| Cli.UnknownSound | backend/kokoro-tts.py:1203-1213 | every reported argument looks like an option, is not valid, and was given |
| Cli.UnknownWithoutValues | backend/kokoro-tts.py:1203-1213 | without value-taking options, every option-looking argument outside the valid set is reported, in order |
| Cli.ValueIsSkipped | backend/kokoro-tts.py:1211-1212 | the value after `--voice` is skipped even when it looks like an option |
| Cli.ChapterDirs | backend/kokoro-tts.py:1071-1072 | only directories whose name starts with "chapter_" are kept |
| Cli.ChunkFiles | backend/kokoro-tts.py:1083-1084 | only files of the chapter named "chunk_*.{format}" are kept |
| Cli.TitleLine | backend/kokoro-tts.py:1090-1098 | the first line starting with "Title:", or none exactly when no line starts with it |
| Cli.KeepTitleChars | backend/kokoro-tts.py:1101 | the filter keeps only alphanumerics, ' ', '-' and '_' |
| Cli.KeepTitleCharsNoOp | backend/kokoro-tts.py:1101 | a title made of kept characters passes the filter unchanged |
| Cli.SafeTitle | backend/kokoro-tts.py:1101 | the safe title has no white space at either end |
| Cli.SafeTitleNoOp | backend/kokoro-tts.py:1101 | a title of kept characters without surrounding white space is already safe |
| Cli.MergeNames | backend/kokoro-tts.py:1062-1108 | nothing when the output directory is missing, otherwise the naming of the chapter directories |
| Cli.NamingChapters | backend/kokoro-tts.py:1081-1108 | one merge per directory with chunk files, in directory order; a title stem is never empty; a fallback stem is the directory name |
| Cli.NameStepOk | backend/kokoro-tts.py:1104-1108 | one naming step keeps stems distinct when directory names are reserved |
| Cli.NamingPrefixOk | backend/kokoro-tts.py:1081-1108 | the reserving naming keeps its invariant over every prefix of the directories |
| Cli.FileNameInjective | backend/kokoro-tts.py:1105-1107 | different stems give different file names |
| Cli.ReservedNamingDistinct | backend/kokoro-tts.py:1104-1108 | with every directory name reserved, merged file names are pairwise distinct |
| Cli.NamingCollidesWhen | backend/kokoro-tts.py:1104-1108 | an untitled chapter falls back to its directory name, and a later chapter whose safe title is that name gets the same file |
| Cli.ChapterOneIsSafe | backend/kokoro-tts.py:1090-1101 | the title "chapter_1" survives the title cleaning |
| Cli.NamingCollides | backend/kokoro-tts.py:1079-1108 | an untitled "chapter_1" and a "chapter_2" titled "chapter_1" are both merged into "chapter_1.wav" |
| Cli.VoiceListing | backend/kokoro-tts.py:176-187 | a blank line, "Supported voices:", one "    {n}. {voice}" line per voice, and a closing blank line |
| Cli.ParseAll | backend/kokoro-tts.py:199-214 | the pairs are parsed in order, stopping at the first failure |
| Cli.ParseAllOk | backend/kokoro-tts.py:199-214 | parsing succeeds exactly when every pair parses, and then yields each pair's value in order |
| Cli.ParseAllFirstError | backend/kokoro-tts.py:199-214 | a failing pair fails the whole parse with its own error when the pairs before it parse |
| Cli.FirstUnsupported | backend/kokoro-tts.py:217-220 | the first unsupported voice, or none exactly when every voice is supported |
| Cli.ValidateSingle | backend/kokoro-tts.py:234-237 | a voice without ',' is accepted exactly when it is supported, and then returned unchanged |
| Cli.ValidateBlendIff | backend/kokoro-tts.py:199-220 | a blend is accepted exactly when there are two pairs, both parse and both voices are supported; the result carries both in order |
| Cli.ValidateBlendBadPair | backend/kokoro-tts.py:199-214 | a pair with more than one ':' fails the whole argument with that pair |
| PdfToc.CleanTitle | backend/kokoro-tts.py:649-651 | the stripped title with every zero-width space turned into a space |
| PdfToc.CleanTitleEmptyIff | backend/kokoro-tts.py:649-651 | a cleaned title is empty exactly when the title is all white space |
| PdfToc.ZeroWidthTitleKept | backend/kokoro-tts.py:649-651 | a title of one zero-width space survives as a blank |
| PdfToc.ChapterMarkers | backend/kokoro-tts.py:528-538 | the marker loop returns the markers of the fold over the TOC rows |
| PdfToc.MarkersAreFirstRows | backend/kokoro-tts.py:528-538 | the markers are exactly the first qualifying level-1 row of each page, in TOC order; `seen_pages` holds the pages of the qualifying rows |
| PdfToc.MarkersDistinctPages | backend/kokoro-tts.py:528-538 | every marker has a non-empty title, no two markers share a page, and the seen set holds exactly the marker pages |
| PdfToc.PageTextsAppend | backend/kokoro-tts.py:661-674 | adjacent page ranges read as one |
| PdfToc.ExtractChapterText | backend/kokoro-tts.py:661-674 | the readable page texts of the range, in page order, joined by "\n" |
| PdfToc.ChaptersCoverPages | backend/kokoro-tts.py:551-563 | with marker pages increasing, the chapters read every page from the first marker's page to the last page exactly once, in order |
| PdfToc.ChaptersCoverPrefix | backend/kokoro-tts.py:551-563 | the first n chapters read the pages from the first marker up to chapter n's end page |
| PdfToc.TocChapters | backend/kokoro-tts.py:551-574 | the chapter loop returns the chapters kept from the markers |
| PdfToc.TocChaptersSound | backend/kokoro-tts.py:551-574 | each kept chapter carries its marker's title, that chapter's pages as content, and a long enough text |
| PdfToc.TocChaptersOrdered | backend/kokoro-tts.py:551-574 | the kept chapters appear in marker order |
| PdfToc.TocChaptersComplete | backend/kokoro-tts.py:565-570 | every marker whose chapter text is long enough is kept |
| PdfToc.GetChaptersFromToc | backend/kokoro-tts.py:498-583 | no chapter when there is no TOC, when the confirmation `input()` meets the end of input (the EOFError is caught), or when there is no marker; otherwise the kept chapters |
| PdfToc.RemoveChar | backend/kokoro-tts.py:656 | the character no longer occurs |
| PdfToc.CollapseSpaces | backend/kokoro-tts.py:657 | every character is ' ' or not white space, and no two white-space characters are adjacent |
| PdfToc.CollapsedOneLine | backend/kokoro-tts.py:657 | collapsing removes every line break |
| PdfToc.CleanMarkdownOneLine | backend/kokoro-tts.py:653-659 | the cleaned markdown holds no line break |
| PdfToc.StripHashes | backend/kokoro-tts.py:626 | `lstrip('#')` leaves a suffix that does not start with '#' |
| PdfToc.MarkdownChapters | backend/kokoro-tts.py:612-640 | the line loop returns the chapters of the fold over the lines |
| PdfToc.SaveChapter | backend/kokoro-tts.py:615-622 | the pending chapter is appended exactly when it has a title and text and its stripped text is longer than the minimum, as `Saved` says; the same block closes the loop at lines 633-640 |
| PdfToc.OneLineNoChapters | backend/kokoro-tts.py:612-640 | a single line never makes a chapter |
| PdfToc.FromMarkdownEmpty | backend/kokoro-tts.py:605-640 | the markdown fallback as written never finds a chapter (with backend/kokoro-tts.py:653-659) |
| PdfToc.GetChaptersNeedsToc | backend/kokoro-tts.py:469-496 | a PDF whose TOC gives no chapter yields no chapter at all |
| PdfToc.CleanLines | backend/kokoro-tts.py:653-659 | each line is cleaned the way the whole text is |
| PdfToc.CleanMarkdownLinesSplit | backend/kokoro-tts.py:605-612 | the line-wise cleaning keeps every line: splitting its result gives each line cleaned (with backend/kokoro-tts.py:653-659) |
| PdfToc.FromMarkdownLinesSeesLines | backend/kokoro-tts.py:605-640 | the line-wise fallback reads every cleaned line of the markdown |
| PdfToc.HeadingThenBody | backend/kokoro-tts.py:612-640 | a heading line followed by a long enough body line gives one chapter "Chapter 1_{title}" |
| PdfToc.GetChaptersByLinesFindsHeading | backend/kokoro-tts.py:469-496 | with the line-wise cleaning, a heading and a body make one chapter (with backend/kokoro-tts.py:605-640) |
| Srt.Render | backend/services/srt_service.py:106 | `str` of a string is itself, of a non-negative number its decimal digits |
| Srt.Get | backend/services/srt_service.py:94-97 | `dict.get`: the stored value when the key is present, null included, else the default |
| Srt.RenderEntries | backend/services/srt_service.py:102-113 | the loop returns the "\n"-joined blocks, or fails when an entry's text is not a string |
| Srt.LinesBlocks | backend/services/srt_service.py:103-111 | four lines per entry: index, time range, text and "" |
| Srt.TimestampHasNoSpace | backend/utils/audio.py:22 | a timestamp contains no space |
| Srt.ParseTimeRangeOf | backend/services/srt_service.py:107 | a "start --> end" line splits back into its two ends |
| Srt.TimeRangeRoundTrip | backend/services/srt_service.py:107 | the time line of an entry reads back as its start and end in milliseconds |
| Srt.GenerateCombinedSrtContent | backend/services/srt_service.py:50-117 | the first path whose audio exists but cannot be decoded, with metadata missing or valid JSON, makes the call fail; otherwise the SubRip text of the combined timeline |
| Srt.CombinedIsExpected | backend/services/srt_service.py:57-100 | the entries by position: a missing audio adds nothing and does not advance; no metadata gives index i+1 and "Segment i+1"; broken JSON adds nothing and does not advance; otherwise `segment_index` and `original_text` with those defaults, from the elapsed time to that plus the duration |
| Srt.CombinedContiguous | backend/services/srt_service.py:95-100 | the first entry starts at 0 and each starts where the previous ended; the clock ends at the last entry's end (with backend/services/srt_service.py:55 and 73-74) |
| Srt.NoMetadataAsEmpty | backend/services/srt_service.py:65-79 | a path without a metadata file reads as one with the empty object (with backend/services/srt_service.py:94-97) |
| Srt.NullIndexKept | backend/services/srt_service.py:94 | a `segment_index` key is used even when it is null |
| Srt.GenerateZeroStartSrt | backend/main.py:513-565 | the method returns the zero-start response, or the first failure |
| Srt.ZeroStartStaysFailed | backend/main.py:515-538 | once a path fails, later paths do not change the failure |
| Srt.Described | backend/main.py:521-523 | only the paths with a metadata file are kept, in order |
| Srt.ZeroStartFailure | backend/main.py:515-538 | the request fails exactly when some path fails (broken JSON or missing audio), and then with the first such path (with backend/main.py:559-565) |
| Srt.ZeroStartEntriesShape | backend/main.py:515-538 | entry k comes from the k-th path with metadata: it starts at zero, ends at that path's own duration, and defaults its index to k+1 |
| Srt.ZeroStartFromZero | backend/main.py:535 | every entry starts at 0 |
| Srt.BasePath | backend/services/srt_service.py:27 | `rsplit(".", 1)[0]`: a prefix of the path that stops at its last '.' |
| Srt.SynchronizedSrtOkIff | backend/services/srt_service.py:13-17 | the call succeeds exactly when the audio is readable and the segment info holds `original_text` |
| Srt.OneEntryIsSrtContent | backend/services/srt_service.py:20-25 | the one-entry file is what the combined renderer prints for entry "1" (with backend/services/srt_service.py:103-113) |
| Srt.SynchronizedSrtIsOneEntry | backend/services/srt_service.py:16-31 | the file holds one entry "1" from zero to the duration with the stripped text |
| Srt.BasePathOfExtension | backend/services/srt_service.py:27 | only the last extension is cut |
| Srt.SynchronizedSrtPaths | backend/services/srt_service.py:27-28 | the SubRip and metadata files sit beside the audio, with ".srt" and ".json" in place of its extension (with backend/services/srt_service.py:41) |
| Combine.TruncatingAgrees | backend/api/routes/audio.py:25-30 | on whole milliseconds the truncating formatter prints the same text as the utility formatter |
| Combine.TruncatingRoundTrip | backend/api/routes/audio.py:25-30 | its timestamps read back to the duration |
| Combine.ProblemAnyPosition | backend/api/routes/audio.py:139-153 | a segment stops the combine exactly when it lacks audio, a decodable metadata object or a string `original_text` |
| Combine.SegmentEntry | backend/api/routes/audio.py:155-163 | entry i has index i+1, the stripped text, and lasts the segment's duration from its start |
| Combine.GapStepOk | backend/api/routes/audio.py:136-170 | a step succeeds exactly on a passing segment after a success, and then appends its entry and advances the clock |
| Combine.GapEntries | backend/api/routes/audio.py:136-170 | the loop returns the timeline of all segments |
| Combine.CombineAudioSegments | backend/api/routes/audio.py:128-201 | a failing segment answers 500 wrapping its cause; otherwise the entries, their SubRip text and the total duration |
| Combine.GapStaysFailed | backend/api/routes/audio.py:136-174 | once a segment fails, the later ones do not change the failure |
| Combine.GapTimelineShape | backend/api/routes/audio.py:155-170 | a successful layout puts each entry after the earlier segments plus one gap each |
| Combine.GapBetweenEntries | backend/api/routes/audio.py:155-170 | consecutive entries lie exactly 100 ms apart, the first starts at 0, and the total is the summed durations plus 100 ms per gap between segments, ending at the last entry (with backend/api/routes/audio.py:196) |
| Combine.GapEntryContents | backend/api/routes/audio.py:155-170 | entry k has index k+1, segment k's stripped text, starts after the earlier durations plus k gaps, and lasts its duration |
| Combine.GapTimelineFails | backend/api/routes/audio.py:139-153 | the combine succeeds exactly when no segment fails |
| Combine.GapTimelineFirstFailure | backend/api/routes/audio.py:139-153 | a failed combine reports the first failing segment's error, as 500 (with backend/api/routes/audio.py:199-201) |
| Combine.CombineAudio | backend/api/routes/audio.py:204-267 | the method returns the combine_audio response |
| Combine.CombineStaysFailed | backend/api/routes/audio.py:213-242 | once a segment fails, later segments do not change the failure |
| Combine.CombineFoldOk | backend/api/routes/audio.py:215-232 | the fold succeeds exactly when no segment lacks its audio or has undecodable metadata |
| Combine.CombineFoldLaid | backend/api/routes/audio.py:213-242 | segments lie back to back from zero, each lasting its own duration; one without metadata gets index k and text "Segment k+1" |
| Combine.CombineAudioOutcome | backend/api/routes/audio.py:204-267 | an empty request fails with 500 wrapping the 400; otherwise success exactly when no segment fails, with one record per path and the summed duration |
| VideoStore.StatusText | backend/main.py:54-58 | every status has a non-empty text |
| VideoStore.FieldOf | backend/main.py:65-72 | `hasattr` on the data fields: a key names a field exactly when it is that field's name; method names such as "dict" also pass `hasattr` in Python, which the model leaves out because every caller passes field names (with backend/main.py:146) |
| VideoStore.FieldOfName | backend/main.py:65-72 | every field is found by its own name |
| VideoStore.NameInjective | backend/main.py:65-72 | different fields have different names |
| VideoStore.SetField | backend/services/video_service.py:61 | `setattr`: the field now holds the value and every other field is as it was |
| VideoStore.VideoByFields | backend/main.py:65-72 | two videos whose fields agree are the same video |
| VideoStore.ApplyUpdatesFields | backend/services/video_service.py:59-61 | after the updates, each field holds the last value given for it, or its old value |
| VideoStore.KnownUpdates | backend/services/video_service.py:60 | the kept updates are those whose keys are fields |
| VideoStore.KnownUpdatesLastSet | backend/services/video_service.py:59-61 | dropping unknown keys changes no field's last value |
| VideoStore.UnknownKeysIgnored | backend/services/video_service.py:59-61 | keys that are not fields of Video are ignored |
| VideoStore.ValuesOf | backend/services/video_service.py:66-67 | `list(videos.values())`: the videos in key order |
| VideoStore.RemoveOrder | backend/services/video_service.py:71 | deleting a key removes it from the order and keeps the others |
| VideoStore.InsertOrdered | backend/services/video_service.py:47 | assignment keeps the order consistent with the map |
| VideoStore.RemoveOrdered | backend/services/video_service.py:71 | deletion keeps the order consistent with the map |
| VideoStore.InsertValues | backend/services/video_service.py:47 | a new id appends its video to the list; a known one is replaced where it stands |
| VideoStore.AllVideosCount | backend/services/video_service.py:66-67 | the list holds one entry per stored id |
| VideoStore.VideoStorage.constructor | backend/services/video_service.py:9-34 | the file's records are stored by id in file order; a file that is not JSON is reset to an empty list |
| VideoStore.VideoStorage.AddVideo | backend/services/video_service.py:46-49 | stored under its id, replacing any previous record, then saved; the saved list equals the store |
| VideoStore.VideoStorage.GetVideo | backend/services/video_service.py:51-52 | none for an unknown id, otherwise the stored video |
| VideoStore.VideoStorage.UpdateVideo | backend/services/video_service.py:54-64 | an unknown id changes nothing and saves nothing; otherwise only that video is updated, saved and returned |
| VideoStore.VideoStorage.RemoveVideo | backend/services/video_service.py:69-74 | true, with the video gone and the file saved, exactly when the id was stored; otherwise nothing changes |
| VideoStore.LoadedOrdered | backend/services/video_service.py:23-31 | loading lists each id once and stores exactly the ids of the file |
| VideoStore.LoadedKeepsLast | backend/services/video_service.py:27-31 | the video stored under an id is the file's last record with that id |
| VideoStore.NewVideo | backend/main.py:667-675 | id "VID{ms}", status "pending", title and url as given, `srtPath` in the metadata only when one is given |
| VideoStore.CreateVideoRoute | backend/main.py:664-681 | the new video is stored, its id appended to the insertion order unless it was already there, the file rewritten with all videos in that order, and the video returned |
| VideoStore.GetVideoRoute | backend/main.py:683-692 | the stored video, or a failure for an unknown id |
| VideoStore.MissingVideoAnswers500 | backend/main.py:687-692 | an unknown id is answered with 500 wrapping the 404 |
| VideoStore.GetVideoIntended | backend/main.py:687-688 | with the 404 passed through, an unknown id is answered with 404 |
| VideoStore.UpdatesOf | backend/main.py:79-82 | `dict(exclude_unset=True)` holds at most the three fields of VideoUpdate (with backend/main.py:697) |
| VideoStore.UpdateVideoRoute | backend/main.py:694-703 | a stored id gets the updated video in place, keeping the order, and the file is rewritten with all videos; an unknown id is answered with 500 wrapping the 404 and changes neither the videos, the order nor the file |
| VideoStore.DeleteVideoRoute | backend/main.py:705-713 | a success message exactly when the id was stored, with the video and its place in the order removed and the file rewritten; otherwise 500 wrapping the 404 and nothing changes |
| VideoStore.GeneratedOutcome | backend/main.py:352-356 | a run ends "completed" without a failure and "error" with the failure's text otherwise; no other field changes (with backend/main.py:412-415 and 425-428) |
| VideoStore.GenerateAudioStatus | backend/main.py:352-356 | on the one store main.py's routes share, a stored, non-empty id goes processing, then completed or error, keeping the order, with the file rewritten; any other id leaves the videos, the order and the file alone (with backend/main.py:412-415 and 425-428) |
| VideoStore.PendingRecord | backend/services/video_service.py:82-88 | the record has exactly the five keys, with its id and status "pending" |
| VideoStore.VideoService.constructor | backend/services/video_service.py:77-78 | no records |
| VideoStore.VideoService.CreateVideo | backend/services/video_service.py:80-89 | a pending record under "VID{ms}" and nothing else changes |
| VideoStore.VideoService.UpdateVideoStatus | backend/services/video_service.py:91-93 | sets the status of a known video; an unknown id changes nothing |
| TaskQueue.LessIrreflexive | backend/services/queue_service.py:86 | no string is less than itself |
| TaskQueue.LessTransitive | backend/services/queue_service.py:86 | string order is transitive |
| TaskQueue.LessTrichotomy | backend/services/queue_service.py:86 | exactly one of less, equal or greater holds |
| TaskQueue.GetTaskStatus | backend/services/queue_service.py:73-75 | the stored record, or `{'status': 'not_found'}` for an unknown id |
| TaskQueue.AheadExcludesSelf | backend/services/queue_service.py:83-88 | a task never counts itself, so its position is below the number of tasks |
| TaskQueue.EarlierWaitsLess | backend/services/queue_service.py:83-88 | a queued task that started before another is ahead of it and waits behind strictly fewer |
| TaskQueue.NoneQueuedNoneAhead | backend/services/queue_service.py:83-88 | with no queued record every known task is at position 0 |
| TaskQueue.ProcessingRecord | backend/services/queue_service.py:20-26 | the record is processing with the given start time |
| TaskQueue.ProgressUpdate | backend/services/queue_service.py:31-33 | setting the progress gives the processing record with that progress |
| TaskQueue.CompletedRecord | backend/services/queue_service.py:46-52 | a completed record is neither processing nor queued |
| TaskQueue.TaskBoard.constructor | backend/services/queue_service.py:11 | the dictionary starts empty, with nothing queued |
| TaskQueue.TaskBoard.GetQueueLength | backend/services/queue_service.py:66-71 | the number of records whose status is "processing" |
| TaskQueue.TaskBoard.GetQueuePosition | backend/services/queue_service.py:77-88 | -1 for an unknown id, else the number of queued tasks that started strictly before it, a missing start time read as "" |
| TaskQueue.TaskBoard.CountMatching | backend/services/queue_service.py:68-71 | one pass over the records counts exactly those that satisfy the test (with backend/services/queue_service.py:83-88) |
| TaskQueue.TaskBoard.RaiseProgress | backend/services/queue_service.py:31-33 | progress goes 10, 20, …, 100 and only this task's record changes |
| TaskQueue.TaskBoard.GenerateAudioTask | backend/services/queue_service.py:14-54 | the task id is the given one or a new one; progress 10 to 100; the record ends completed with result "audio_{id}.wav"; nothing becomes queued |
| Voices.Region | backend/services/official_kokoro_tts_service.py:182-189 | a region name exactly for the codes a, b, j, z, i and f (with backend/services/official_kokoro_tts_service.py:197) |
| Voices.Gender | backend/services/official_kokoro_tts_service.py:191-197 | a gender name exactly for the codes f and m |
| Voices.Suffix | backend/services/official_kokoro_tts_service.py:199 | " ({gender}, {region})" has the length of its parts plus five |
| Voices.DisplayName | backend/services/official_kokoro_tts_service.py:167-203 | ids shorter than four characters come back unchanged; otherwise the name has the length of the capitalised name plus the suffix |
| Voices.DisplayNameShape | backend/services/official_kokoro_tts_service.py:178-199 | the name is the capitalised `voice_id[3:]`, then " (", and it closes with ")" |
| Voices.DisplayNameIgnoresSeparator | backend/services/official_kokoro_tts_service.py:178-180 | the character at index 2 plays no part |
| Voices.CapitalizeLower | backend/services/official_kokoro_tts_service.py:180 | `capitalize` ignores the case the name was written in |
| Voices.DisplayNameCaseBlind | backend/services/official_kokoro_tts_service.py:178-199 | ids that differ only in the case of their name get the same display name |
| Voices.VoiceEntries | backend/services/official_kokoro_tts_service.py:108-111 | one entry per voice |
| Voices.VoiceEntriesIds | backend/services/official_kokoro_tts_service.py:108-111 | the ids are the model's voices in order, each named by its display name |
| Voices.DirectKokoroService.constructor | backend/services/official_kokoro_tts_service.py:19-35 | the paths are the model and voices files under `KOKORO_TTS_PATH` or its default, and no model is loaded |
| Voices.DirectKokoroService.GetKokoro | backend/services/official_kokoro_tts_service.py:37-48 | the cached model if there is one; otherwise a successful load is kept and a failed one is reported as an initialisation error; at most one model is ever created |
| Voices.DirectKokoroService.GetAvailableVoices | backend/services/official_kokoro_tts_service.py:100-165 | the model's voices as entries, or the fallback list when the model cannot be created or `get_voices()` raises; the model is created at most once and then kept |
| Voices.DirectKokoroService.GenerateSpeech | backend/services/official_kokoro_tts_service.py:50-98 | empty or blank text is refused before the model is touched; otherwise the model is fetched as `_get_kokoro` does (a cached one kept, a successful load stored), and the result is the model's failure, the synthesis failure, or, when both succeed, the audio with its relative path |
| KokoroCommand.LineBreakIsSpace | backend/services/kokoro_tts_service.py:106 | every line break of `splitlines` is white space |
| KokoroCommand.SplitPrinted | backend/services/kokoro_tts_service.py:106 | splitting printed lines gives the lines back (with backend/kokoro-tts.py:181-184) |
| KokoroCommand.MatchAt | backend/services/kokoro_tts_service.py:104-110 | a match is a non-empty run of word characters |
| KokoroCommand.NoDigitNoMatch | backend/services/kokoro_tts_service.py:104-110 | a line without digits never matches |
| KokoroCommand.SearchSkips | backend/services/kokoro_tts_service.py:108 | `search` passes a non-matching position on to the next |
| KokoroCommand.NoMatchAtSpace | backend/services/kokoro_tts_service.py:104 | nothing matches at a space |
| KokoroCommand.MatchNumbered | backend/services/kokoro_tts_service.py:104-110 | digits, '.', a space and a word: the match is the word |
| KokoroCommand.VoiceLineMatches | backend/services/kokoro_tts_service.py:104-110 | the listing's own line for a voice yields that voice (with backend/kokoro-tts.py:183) |
| KokoroCommand.LineSpeaker | backend/services/kokoro_tts_service.py:109-113 | a line adds at most one speaker |
| KokoroCommand.Parsed | backend/services/kokoro_tts_service.py:106-113 | at most one speaker per line |
| KokoroCommand.ParsedAppend | backend/services/kokoro_tts_service.py:106-113 | parsing distributes over concatenated lines |
| KokoroCommand.ParsedEntries | backend/services/kokoro_tts_service.py:106-113 | the first m numbered lines of the listing yield the first m speakers (with backend/kokoro-tts.py:183) |
| KokoroCommand.ListingFramed | backend/kokoro-tts.py:176-187 | the listing is its numbered lines between the heading and a blank line |
| KokoroCommand.FramingUnmatched | backend/services/kokoro_tts_service.py:104-110 | the heading and the blank lines do not match |
| KokoroCommand.ParsedFramed | backend/services/kokoro_tts_service.py:106-113 | lines that do not match add no speaker, so the heading and the blank lines drop out |
| KokoroCommand.ListingLines | backend/services/kokoro_tts_service.py:106 | `splitlines` of the printed listing gives the listing's lines back (with backend/kokoro-tts.py:176-187) |
| KokoroCommand.ListingRoundTrip | backend/services/kokoro_tts_service.py:96-113 | parsing what `--help-voices` prints gives one speaker per voice, in order, for word-character voices (with backend/kokoro-tts.py:176-187) |
| KokoroCommand.ListingParsed | backend/services/kokoro_tts_service.py:106-113 | the listing's lines yield one speaker per voice (with backend/kokoro-tts.py:181-184) |
| KokoroCommand.Disk.constructor | backend/services/kokoro_tts_service.py:30-37 | the disk holds the given files |
| KokoroCommand.KokoroService.constructor | backend/services/kokoro_tts_service.py:13-22 | the script path and interpreter come from the environment or their defaults |
| KokoroCommand.KokoroService.Command | backend/services/kokoro_tts_service.py:40-49 | [python, script, input, output, "--voice", id], with "--speed" and its text appended exactly when the speed is not 1.0 |
| KokoroCommand.KokoroService.CommandAccepted | backend/services/kokoro_tts_service.py:40-49 | the script's own option scan finds no unknown option in the command (with backend/kokoro-tts.py:1181-1213) |
| KokoroCommand.KokoroService.BuildCommand | backend/services/kokoro_tts_service.py:40-49 | the built list is the command |
| KokoroCommand.KokoroService.GenerateSpeech | backend/services/kokoro_tts_service.py:24-87 | refused without the installation; otherwise the command is run, and a `Popen` that raises, a non-zero exit code or an unreadable output fails, else the audio is returned; the temporary files are gone again on every path |
| KokoroCommand.KokoroService.GetAvailableSpeakers | backend/services/kokoro_tts_service.py:89-119 | never empty: the default without the installation, on an exception or when nothing matched; otherwise one speaker per matching line |
| KokoroCommand.KokoroService.ListCommand | backend/services/kokoro_tts_service.py:96 | [python, script, "--help-voices"], an option the script knows |
| KokoroCommand.SpeakersFromListing | backend/services/kokoro_tts_service.py:96-119 | the service reads back one speaker per listed voice, or the default when there is none (with backend/kokoro-tts.py:176-187) |
| NumberText.SubPairs | backend/utils/text.py:6-7 | the substitution never shortens the text and keeps its first character |
| NumberText.SubPairsSpaced | backend/utils/text.py:6-7 | the substitution equals the reference: a space exactly where a character of the first class meets one of the second |
| NumberText.SubPairsSeparates | backend/utils/text.py:6-7 | after the substitution no such pair is left |
| NumberText.SubPairsKeepsNoPair | backend/utils/text.py:6-7 | the substitution only adds spaces, so it creates no pair of other classes |
| NumberText.SubPairsNoOp | backend/utils/text.py:6-7 | text without a pair is left as it is |
| NumberText.SubPairsNoDigit | backend/utils/text.py:6-7 | the substitution keeps digit-free text digit-free |
| NumberText.SeparateSeparates | backend/utils/text.py:6-7 | after both substitutions no ASCII letter touches a digit, in either order |
| NumberText.KeepsOther | backend/utils/text.py:13 | a character other than a digit is kept |
| NumberText.DigitRun | backend/utils/text.py:13 | `\d+` is greedy: the run at the start is all digits and is not followed by a digit |
| NumberText.SpellsRun | backend/utils/text.py:9-13 | a whole digit run is replaced by `num2words(int(run))` exactly when word boundaries surround it; otherwise it is kept |
| NumberText.RunAfterWord | backend/utils/text.py:13 | after a word character a digit run is copied unchanged |
| NumberText.SpellNoDigits | backend/utils/text.py:13 | text without digits is left as it is by the number substitution |
| NumberText.TranslateNoDigits | backend/utils/text.py:4-13 | text without digits comes back unchanged |
| NumberText.GluedRunKept | backend/utils/text.py:13 | a run glued to a word character that is not an ASCII letter, such as '_', stays as digits |
| NumberText.DigitsThenLetter | backend/utils/text.py:7 | a digit run followed by a letter gets a space before the letter |
| NumberText.SeparateBetweenLetters | backend/utils/text.py:6-7 | a letter, digits and a letter get a space on each side of the digits |
| NumberText.LetterBeforeDigits | backend/utils/text.py:6 | the first substitution puts a space after the leading letter only |
| NumberText.DigitsBeforeLetter | backend/utils/text.py:7 | the second substitution puts a space before the trailing letter only |
| NumberText.RunBetweenLetters | backend/utils/text.py:4-13 | "a12b" becomes "a " + num2words(12) + " b" |

## Left out

- Audio reading, writing and playback (pydub, soundfile, torchaudio), model inference (F5-TTS, Kokoro, Whisper) and the EPUB/HTML/PDF libraries: their results are parameters, such as a duration in milliseconds, a page text, the converted markdown, a load or synthesis outcome, or a process exit code and output.
- Durations are whole milliseconds. The float seconds of the source are not modelled. Neither is the 1 ms that the truncating `format_timestamp` of the audio routes can lose on a float (2.3 s prints ",299").
- The 0.1 s gap of `combine_audio_segments` is the integer 100 ms.
- The `int(len(chunk) * 0.6)` of the retry split is computed exactly as ⌊3·len/5⌋. This can differ from the float product on a boundary.
- `scale_timestamps`, the weight normalisation and style blending of `validate_voice`, and the word-count duration estimates are floating-point work.
- Cli.ValidateBlendIff: it states the structure check of a blend only. The weights are kept as text, and their conversion with `float` is not modelled.
- `sorted()` of the chapter directory and chunk listings is not modelled. Listings come in already in sorted order.
- The merging of chunk audio in `merge_chunks_to_chapters` is not modelled. It is audio work; only the naming is modelled.
- Regular-expression character classes: `\d` is the ASCII digits. `\w` is a parameter constrained to agree with ASCII alphanumerics and '_' and to exclude white space. `\s` and `str.isspace` are the ASCII and Unicode white-space characters Python lists. `str.isalnum` in the safe chapter titles is the parameter `isAlnum`, constrained only to hold for the ASCII letters and digits; which other Unicode characters it accepts is not modelled. No other Unicode property is modelled.
- `num2words` is the uninterpreted parameter `words`. `str` of a float speed is the parameter `showSpeed`.
- Voices.Fallback: the built-in list of 43 voices is written out, but the model does not prove that each entry's name equals the display name of its id. Comparing so many string literals is beyond what the verifier can do at a reasonable cost.
- The Celery decorator, Redis and `time.sleep` of the queue service are not modelled. The generated `uuid`, the clock readings and the timestamps are parameters.
- The `except` branch of `generate_audio_task` is not modelled. No call in its body can raise.
- The `duration` of the task result is the float 10.5, kept as `Tenths(105)`.
- A `start_time` that is not text is read as "". The source would raise on comparing it.
- Process control in the Kokoro tool: the spinner thread, the SIGINT handler and the stop flags.
- Logging, the existence checks that only log, and `mkdir` of the storage directory.
- The `str(e)` text of re-raised exceptions. A failure keeps the status and the cause instead.
- `get_available_speakers` ignores the exit code of the listing run. The model takes the decoded output, or the exception, as given.
- Pydantic validation of request bodies, and a JSON metadata file that holds something other than an object (the `.get` on it raises). A metadata file is absent, not JSON, or an object.
- The JSON file of `VideoStorage` is the ghost list `saved`. It is the list the file last received; serialisation of dates is not modelled.
- The thin HTTP routes, the server, the middleware, the minimax client and the configuration helpers are not part of this model. `main.py` at the repository root is also left out; it repeats `translate_number_to_text`.
- `main.py` of the backend repeats `VideoStorage`, `format_timestamp`, `validate_audio_file` and `translate_number_to_text` verbatim. Each is modelled once, from its file under `backend/services` or `backend/utils`.
- The copy of `generate_synchronized_srt` in backend/main.py:214-254 is not modelled. It differs from backend/services/srt_service.py:8-48 in two places. It reads `segment_info["segment_index"]`, which raises on a missing key where the service defaults to 0. It writes the current time as `timestamp` where the service copies `segment_info.get("timestamp", "")`.
- The separate `VideoStorage()` instance that backend/api/routes/audio.py:23 creates is not modelled. VideoStore.GenerateAudioStatus models main.py, where one instance (backend/main.py:334) serves both the audio and the video routes. Under backend/server.py the audio routes update their own copy, loaded at import. That copy never sees videos created later through `/videos`, and both instances save over one file.
- PdfToc.GetChaptersFromToc: the `input()` confirmation is the parameter `confirmed`, which is false when it meets the end of input. Ctrl+C at that prompt raises KeyboardInterrupt, which the `except Exception` does not catch; aborting the program is not modelled.
- VideoStore.GenerateAudioStatus: the run is one atomic step. The `await ref_audio.read()` at backend/main.py:366 can let a concurrent `DELETE /videos/{id}` run between the processing update and the re-checks at :413 and :427; that interleaving is not captured.
- Paths follow POSIX `os.path`: PathJoin and AudioUtils.Extension treat only '/' as a separator. The Windows separator '\\' and drive letters, which the default `D:/F5-TTS/kokoro-tts` (backend/services/official_kokoro_tts_service.py:21) suggests, are not modelled.
- A WAV that exists but cannot be decoded is modelled only for `generate_combined_srt_content` (Srt.Wav). `combine_audio_segments` and `combine_audio` (backend/api/routes/audio.py:143 and 221) take a segment's audio as either missing or read. Their 500 for a decoding error is not modelled.

## Findings

| source | as written | input that shows it | evidently intended | confidence | as-written member | corrected member |
|---|---|---|---|---|---|---|
| backend/kokoro-tts.py:1101-1108 | a fallback stem `{chapter_dir}` is never added to `used_titles`, so a later chapter whose safe title equals that directory name writes the same file | chapter_1 whose info.txt has a blank Title line (it falls back to the stem chapter_1, which is not recorded) and chapter_2 titled "chapter_1": both merge into chapter_1.wav | every merged chapter gets its own file | not executed | Cli.NamingCollides | Cli.ReservedNamingDistinct |
| backend/kokoro-tts.py:605-640, 653-659 | `_clean_markdown` turns every line break into a space before the text is split at '\n', so the loop sees one line and the markdown fallback never returns a chapter | a PDF without TOC whose markdown is "# Intro\n" followed by a body line longer than the minimum length | headings split the markdown into chapters | not executed | PdfToc.FromMarkdownEmpty | PdfToc.GetChaptersByLinesFindsHeading |
| backend/main.py:683-713 | the 404 raised for an unknown video is caught by the route's own `except Exception` and answered as 500 | GET /videos/x with no video "x" | 404 "Video not found" | not executed | VideoStore.MissingVideoAnswers500 | VideoStore.GetVideoIntended |
