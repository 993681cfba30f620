/**
 * SubRip assembly: generate_synchronized_srt and generate_combined_srt_content
 * of backend/services/srt_service.py, and the zero-start
 * generate_combined_srt of backend/main.py. Each audio path comes in as a
 * record of what the file system holds for it; durations are whole
 * milliseconds.
 */
module Srt {
  import opened Wrappers
  import opened Strings
  import opened AudioUtils

  /** A JSON scalar as `json.load` returns it. */
  datatype Scalar = Null | Bool(b: bool) | Int(i: int) | Str(s: string)

  /** `str(v)` */
  function Render(v: Scalar): (r: string)
    ensures v.Str? ==> r == v.s
    ensures v.Int? && v.i >= 0 ==> r == NatToString(v.i)
  {
    match v
    case Null => "None"
    case Bool(b) => if b then "True" else "False"
    case Int(i) => IntToString(i)
    case Str(s) => s
  }

  /** The `.json` beside an audio file: absent, not JSON, or a JSON object. */
  datatype MetadataFile = NoMetadata | InvalidJson | Metadata(fields: map<string, Scalar>)

  /**
   * The audio file of a path: absent, present but not a WAV that
   * `AudioSegment.from_wav` can read (get_audio_duration raises), or read
   * with its duration.
   */
  datatype Wav = Absent | Undecodable | Decoded(ms: nat)

  /** One audio path: its audio file and its metadata file. */
  datatype AudioFile = AudioFile(audio: Wav, metadata: MetadataFile)

  /** `fields.get(key, default)` */
  function Get(fields: map<string, Scalar>, key: string, default: Scalar): (r: Scalar)
    ensures key in fields ==> r == fields[key]
    ensures key !in fields ==> r == default
  {
    if key in fields then fields[key] else default
  }

  function SegmentLabel(n: nat): string {
    "Segment " + NatToString(n)
  }

  /** One entry of `srt_entries`, with its start and end still in milliseconds. */
  datatype SrtEntry = SrtEntry(index: Scalar, start: nat, end: nat, text: Scalar)

  /**
   * Why a call raises: a text that is not a string, audio that could not be
   * read (zero-start: missing or undecodable; combined content: present but
   * undecodable), or broken JSON.
   */
  datatype SrtFailure = TextNotString | MissingAudio(position: nat) | UnreadableAudio(position: nat) | MalformedMetadata(position: nat)

  // ---------------------------------------------------------------- rendering

  /**
   * `f"{start} --> {end}"` with both ends formatted by `stamp`. The renderer
   * takes format_timestamp as the parameter `stamp`; its callers pass
   * FormatTimestamp.
   */
  function TimeRange(start: nat, end: nat, stamp: nat -> string): string {
    stamp(start) + " --> " + stamp(end)
  }

  predicate TextsAreStrings(es: seq<SrtEntry>) {
    forall k :: 0 <= k < |es| ==> es[k].text.Str?
  }

  /** The four lines one entry adds to `srt_content`. */
  function Block(e: SrtEntry, stamp: nat -> string): seq<string>
    requires e.text.Str?
  {
    [Render(e.index), TimeRange(e.start, e.end, stamp), e.text.s, ""]
  }

  function Lines(es: seq<SrtEntry>, stamp: nat -> string): seq<string>
    requires TextsAreStrings(es)
    decreases |es|
  {
    if es == [] then [] else Lines(es[..|es| - 1], stamp) + Block(es[|es| - 1], stamp)
  }

  /** `"\n".join(srt_content)`, which raises when an entry's text is not a string. */
  function SrtContent(es: seq<SrtEntry>, stamp: nat -> string): Result<string, SrtFailure> {
    if TextsAreStrings(es) then Ok(Join(Lines(es, stamp), "\n")) else Err(TextNotString)
  }

  /** The `for entry in srt_entries: srt_content.extend(...)` loop and the join. */
  method RenderEntries(es: seq<SrtEntry>, stamp: nat -> string) returns (r: Result<string, SrtFailure>)
    ensures r == SrtContent(es, stamp)
  {
    var lines: seq<string> := [];
    var i := 0;
    while i < |es|
      invariant 0 <= i <= |es|
      invariant TextsAreStrings(es[..i]) && lines == Lines(es[..i], stamp)
    {
      var e := es[i];
      if !e.text.Str? {
        return Err(TextNotString);
      }
      assert es[..i + 1][..i] == es[..i];
      lines := lines + [Render(e.index), stamp(e.start) + " --> " + stamp(e.end), e.text.s, ""];
      i := i + 1;
    }
    assert es[..i] == es;
    r := Ok(Join(lines, "\n"));
  }

  /** Block k sits at lines 4k..4k+3. */
  lemma {:induction false} LinesBlocks(es: seq<SrtEntry>, stamp: nat -> string)
    requires TextsAreStrings(es)
    ensures |Lines(es, stamp)| == 4 * |es|
    ensures forall k :: 0 <= k < |es| ==> Lines(es, stamp)[4 * k..4 * k + 4] == Block(es[k], stamp)
    decreases |es|
  {
    if es != [] {
      var init := es[..|es| - 1];
      LinesBlocks(init, stamp);
      forall k | 0 <= k < |es| ensures Lines(es, stamp)[4 * k..4 * k + 4] == Block(es[k], stamp) {
        if k < |es| - 1 {
          assert es[k] == init[k];
          assert Lines(es, stamp)[4 * k..4 * k + 4] == Lines(init, stamp)[4 * k..4 * k + 4];
        }
      }
    }
  }

  /** Every character of a timestamp is a digit, ':' or ','. */
  lemma TimestampHasNoSpace(ms: nat)
    ensures ' ' !in FormatTimestamp(ms)
  {
    var c := ClockOf(ms);
    FormatShape(c);
    DigitsHaveNoSpace(PadNat(c.hours, 2));
    DigitsHaveNoSpace(PadNat(c.minutes, 2));
    DigitsHaveNoSpace(PadNat(c.seconds, 2));
    DigitsHaveNoSpace(PadNat(c.millis, 3));
  }

  lemma DigitsHaveNoSpace(s: string)
    requires AllDigits(s)
    ensures ' ' !in s
  {
  }

  /** Reads a "start --> end" line back into its two times. */
  function ParseTimeRange(line: string): Option<(nat, nat)> {
    var parts := SplitOn(line, ' ');
    if |parts| != 3 || parts[1] != "-->" then None
    else match (ParseTimestamp(parts[0]), ParseTimestamp(parts[2]))
      case (Some(s), Some(e)) => Some((s, e))
      case _ => None
  }

  lemma TimeRangeSplit(a: string, b: string)
    requires ' ' !in a && ' ' !in b
    ensures SplitOn(a + " --> " + b, ' ') == [a, "-->", b]
  {
    assert a + " --> " + b == a + [' '] + ("-->" + [' '] + b);
    SplitOnPrefix(a, "-->" + [' '] + b, ' ');
    SplitOnPrefix("-->", b, ' ');
    SplitOnAbsent(b, ' ');
  }

  lemma ParseTimeRangeOf(a: string, b: string)
    requires ' ' !in a && ' ' !in b
    ensures ParseTimeRange(a + " --> " + b) ==
      if ParseTimestamp(a).Some? && ParseTimestamp(b).Some? then Some((ParseTimestamp(a).value, ParseTimestamp(b).value)) else None
  {
    TimeRangeSplit(a, b);
  }

  /** The time line of an entry reads back as its start and end. */
  lemma TimeRangeRoundTrip(start: nat, end: nat)
    ensures ParseTimeRange(TimeRange(start, end, FormatTimestamp)) == Some((start, end))
  {
    TimestampHasNoSpace(start);
    TimestampHasNoSpace(end);
    ParseTimeRangeOf(FormatTimestamp(start), FormatTimestamp(end));
    FormatTimestampRoundTrip(start);
    FormatTimestampRoundTrip(end);
  }

  // ---------------------------------------------------------------- generate_combined_srt_content

  /** `srt_entries` and `current_time`. */
  datatype Timeline = Timeline(entries: seq<SrtEntry>, time: nat)

  /** The loop body for a path i that does not raise: an absent file or broken JSON adds nothing. */
  function TimelineStep(t: Timeline, i: nat, f: AudioFile): Timeline {
    if !f.audio.Decoded? then t
    else
      var d := f.audio.ms;
      match f.metadata
      case NoMetadata =>
        Timeline(t.entries + [SrtEntry(Int(i + 1), t.time, t.time + d, Str(SegmentLabel(i + 1)))], t.time + d)
      case InvalidJson => t
      case Metadata(fields) =>
        var e := SrtEntry(Get(fields, "segment_index", Int(i + 1)), t.time, t.time + d,
                          Get(fields, "original_text", Str(SegmentLabel(i + 1))));
        Timeline(t.entries + [e], t.time + d)
  }

  function CombinedTimeline(files: seq<AudioFile>): Timeline
    decreases |files|
  {
    if files == [] then Timeline([], 0)
    else TimelineStep(CombinedTimeline(files[..|files| - 1]), |files| - 1, files[|files| - 1])
  }

  /**
   * A path whose audio get_audio_duration reads and cannot decode: the file
   * exists and its metadata is missing or valid JSON.
   */
  predicate Raises(f: AudioFile) {
    f.audio.Undecodable? && !f.metadata.InvalidJson?
  }

  /** Path i raises and no path before it does. */
  predicate FirstRaising(files: seq<AudioFile>, i: int) {
    0 <= i < |files| && Raises(files[i]) && forall j :: 0 <= j < i ==> !Raises(files[j])
  }

  /**
   * generate_combined_srt_content: the first path whose audio cannot be
   * decoded makes the whole call raise; otherwise the SubRip text of the
   * combined timeline.
   */
  method GenerateCombinedSrtContent(files: seq<AudioFile>) returns (r: Result<string, SrtFailure>)
    ensures (forall i :: 0 <= i < |files| ==> !Raises(files[i])) ==> r == SrtContent(CombinedTimeline(files).entries, FormatTimestamp)
    ensures (exists i :: 0 <= i < |files| && Raises(files[i])) ==> r.Err? && r.error.UnreadableAudio? && FirstRaising(files, r.error.position)
  {
    var entries: seq<SrtEntry> := [];
    var time: nat := 0;
    var i := 0;
    while i < |files|
      invariant 0 <= i <= |files|
      invariant forall j :: 0 <= j < i ==> !Raises(files[j])
      invariant Timeline(entries, time) == CombinedTimeline(files[..i])
    {
      assert files[..i + 1][..i] == files[..i];
      var f := files[i];
      if Raises(f) {
        assert FirstRaising(files, i);
        return Err(UnreadableAudio(i));
      }
      if f.audio.Decoded? {
        var d := f.audio.ms;
        match f.metadata {
          case NoMetadata =>
            entries := entries + [SrtEntry(Int(i + 1), time, time + d, Str(SegmentLabel(i + 1)))];
            time := time + d;
          case InvalidJson =>
          case Metadata(fields) =>
            var index := if "segment_index" in fields then fields["segment_index"] else Int(i + 1);
            var text := if "original_text" in fields then fields["original_text"] else Str(SegmentLabel(i + 1));
            entries := entries + [SrtEntry(index, time, time + d, text)];
            time := time + d;
        }
      }
      i := i + 1;
    }
    assert files[..|files|] == files;
    r := RenderEntries(entries, FormatTimestamp);
  }

  /** A path adds an entry exactly when its audio exists and its metadata is not broken JSON. */
  predicate Contributes(f: AudioFile) {
    f.audio.Decoded? && !f.metadata.InvalidJson?
  }

  /** The summed durations of the contributing paths. */
  function Elapsed(files: seq<AudioFile>): nat
    decreases |files|
  {
    if files == [] then 0
    else Elapsed(files[..|files| - 1]) + (if Contributes(files[|files| - 1]) then files[|files| - 1].audio.ms else 0)
  }

  /** The metadata fields a path is read with; a missing file reads as an empty object. */
  function FieldsOf(m: MetadataFile): map<string, Scalar> {
    if m.Metadata? then m.fields else map[]
  }

  /**
   * The entries by position: path i, if it contributes, adds index
   * `segment_index` (default i+1) and text `original_text` (default
   * "Segment i+1"), from the elapsed time of the paths before it to that plus
   * its duration.
   */
  function Expected(files: seq<AudioFile>, n: nat): seq<SrtEntry>
    requires n <= |files|
  {
    if n == 0 then []
    else
      var f := files[n - 1];
      Expected(files, n - 1)
        + (if Contributes(f) then
             [SrtEntry(Get(FieldsOf(f.metadata), "segment_index", Int(n)), Elapsed(files[..n - 1]), Elapsed(files[..n]),
                       Get(FieldsOf(f.metadata), "original_text", Str(SegmentLabel(n))))]
           else [])
  }

  /** The loop builds the entries by position and ends at the total elapsed time. */
  lemma {:induction false} CombinedIsExpected(files: seq<AudioFile>, n: nat)
    requires n <= |files|
    ensures CombinedTimeline(files[..n]).entries == Expected(files, n)
    ensures CombinedTimeline(files[..n]).time == Elapsed(files[..n])
  {
    if n == 0 {
      assert files[..0] == [];
    } else {
      CombinedIsExpected(files, n - 1);
      assert files[..n][..n - 1] == files[..n - 1];
      assert files[..n][n - 1] == files[n - 1];
    }
  }

  /** Entries are back to back: the first starts at 0 and each starts where the previous ended. */
  predicate Contiguous(es: seq<SrtEntry>, time: nat) {
    && (es == [] ==> time == 0)
    && (es != [] ==> es[0].start == 0 && es[|es| - 1].end == time)
    && (forall k :: 0 <= k < |es| ==> es[k].start <= es[k].end)
    && (forall k :: 0 <= k < |es| - 1 ==> es[k].end == es[k + 1].start)
  }

  lemma {:induction false} CombinedContiguous(files: seq<AudioFile>)
    ensures Contiguous(CombinedTimeline(files).entries, CombinedTimeline(files).time)
    decreases |files|
  {
    if files != [] {
      CombinedContiguous(files[..|files| - 1]);
      ContiguousStep(CombinedTimeline(files[..|files| - 1]), |files| - 1, files[|files| - 1]);
    }
  }

  /** One loop step keeps the entries back to back, ending at the clock. */
  lemma ContiguousStep(t: Timeline, i: nat, f: AudioFile)
    requires Contiguous(t.entries, t.time)
    ensures Contiguous(TimelineStep(t, i, f).entries, TimelineStep(t, i, f).time)
  {
    var t' := TimelineStep(t, i, f);
    if t' != t {
      ContiguousSnoc(t.entries, t.time, t'.entries[|t.entries|]);
      assert t'.entries == t.entries + [t'.entries[|t.entries|]];
    }
  }

  lemma ContiguousSnoc(es: seq<SrtEntry>, time: nat, e: SrtEntry)
    requires Contiguous(es, time) && e.start == time && e.start <= e.end
    ensures Contiguous(es + [e], e.end)
  {
    var es' := es + [e];
    forall k | 0 <= k < |es'| - 1 ensures es'[k].end == es'[k + 1].start {
      if k < |es| - 1 {
        assert es'[k] == es[k] && es'[k + 1] == es[k + 1];
      }
    }
  }

  /** A path without metadata reads as one whose metadata is the empty object. */
  lemma NoMetadataAsEmpty(t: Timeline, i: nat, d: nat)
    ensures TimelineStep(t, i, AudioFile(Decoded(d), NoMetadata)) == TimelineStep(t, i, AudioFile(Decoded(d), Metadata(map[])))
  {
  }

  /** A `segment_index` key is used whatever its value, null included. */
  lemma NullIndexKept(files: seq<AudioFile>, d: nat)
    ensures var es := CombinedTimeline(files + [AudioFile(Decoded(d), Metadata(map["segment_index" := Null]))]).entries;
      es != [] && es[|es| - 1].index == Null && Render(es[|es| - 1].index) == "None"
  {
    assert (files + [AudioFile(Decoded(d), Metadata(map["segment_index" := Null]))])[..|files|] == files;
  }

  // ---------------------------------------------------------------- zero-start generate_combined_srt

  /** The loop body of main.py's generate_combined_srt for path i. */
  function ZeroStep(r: Result<seq<SrtEntry>, SrtFailure>, i: nat, f: AudioFile): Result<seq<SrtEntry>, SrtFailure> {
    match r
    case Err(_) => r
    case Ok(es) =>
      match f.metadata
      case NoMetadata => r
      case InvalidJson => Err(MalformedMetadata(i))
      case Metadata(fields) =>
        if !f.audio.Decoded? then Err(MissingAudio(i))
        else
          Ok(es + [SrtEntry(Get(fields, "segment_index", Int(|es| + 1)), 0, f.audio.ms,
                            Get(fields, "original_text", Str(SegmentLabel(|es| + 1))))])
  }

  function ZeroStartEntries(files: seq<AudioFile>): Result<seq<SrtEntry>, SrtFailure>
    decreases |files|
  {
    if files == [] then Ok([])
    else ZeroStep(ZeroStartEntries(files[..|files| - 1]), |files| - 1, files[|files| - 1])
  }

  /** The response body, or the failure the 500 reports. */
  function ZeroStartSrt(files: seq<AudioFile>): Result<string, SrtFailure> {
    match ZeroStartEntries(files)
    case Err(e) => Err(e)
    case Ok(es) => SrtContent(es, FormatTimestamp)
  }

  /** generate_combined_srt in backend/main.py. */
  method GenerateZeroStartSrt(files: seq<AudioFile>) returns (r: Result<string, SrtFailure>)
    ensures r == ZeroStartSrt(files)
  {
    var entries: seq<SrtEntry> := [];
    var i := 0;
    while i < |files|
      invariant 0 <= i <= |files|
      invariant ZeroStartEntries(files[..i]) == Ok(entries)
    {
      assert files[..i + 1][..i] == files[..i];
      var f := files[i];
      match f.metadata {
        case NoMetadata =>
        case InvalidJson =>
          ZeroStartStaysFailed(files, i + 1);
          return Err(MalformedMetadata(i));
        case Metadata(fields) =>
          if !f.audio.Decoded? {
            ZeroStartStaysFailed(files, i + 1);
            return Err(MissingAudio(i));
          }
          var index := if "segment_index" in fields then fields["segment_index"] else Int(|entries| + 1);
          var text := if "original_text" in fields then fields["original_text"] else Str(SegmentLabel(|entries| + 1));
          entries := entries + [SrtEntry(index, 0, f.audio.ms, text)];
      }
      i := i + 1;
    }
    assert files[..|files|] == files;
    r := RenderEntries(entries, FormatTimestamp);
  }

  /** Once a path fails, the rest of the paths do not change the failure. */
  lemma {:induction false} ZeroStartStaysFailed(files: seq<AudioFile>, n: nat)
    requires n <= |files| && ZeroStartEntries(files[..n]).Err?
    ensures ZeroStartEntries(files) == ZeroStartEntries(files[..n])
    decreases |files| - n
  {
    if n < |files| {
      assert files[..n + 1][..n] == files[..n];
      ZeroStartStaysFailed(files, n + 1);
    } else {
      assert files[..n] == files;
    }
  }

  /** A path that fails the whole request: broken JSON, or metadata without its audio. */
  predicate Fails(f: AudioFile) {
    f.metadata.InvalidJson? || (f.metadata.Metadata? && !f.audio.Decoded?)
  }

  /** Path i fails and no path before it does. */
  predicate FirstFailure(files: seq<AudioFile>, i: int) {
    0 <= i < |files| && Fails(files[i]) && forall j :: 0 <= j < i ==> !Fails(files[j])
  }

  function FailureAt(files: seq<AudioFile>, i: nat): SrtFailure
    requires i < |files|
  {
    if files[i].metadata.InvalidJson? then MalformedMetadata(i) else MissingAudio(i)
  }

  /** The paths with metadata, in order. */
  function Described(files: seq<AudioFile>): (ds: seq<AudioFile>)
    ensures forall k :: 0 <= k < |ds| ==> ds[k].metadata.Metadata?
    decreases |files|
  {
    if files == [] then []
    else Described(files[..|files| - 1]) + (if files[|files| - 1].metadata.Metadata? then [files[|files| - 1]] else [])
  }

  /** Entry k of the zero-start response, for the k-th described path. */
  function ZeroEntry(f: AudioFile, k: nat): SrtEntry
    requires f.metadata.Metadata?
  {
    SrtEntry(Get(f.metadata.fields, "segment_index", Int(k + 1)), 0, (if f.audio.Decoded? then f.audio.ms else 0),
             Get(f.metadata.fields, "original_text", Str(SegmentLabel(k + 1))))
  }

  /** The request fails exactly when some path fails, and then with the first failing path. */
  lemma {:induction false} ZeroStartFailure(files: seq<AudioFile>)
    ensures ZeroStartEntries(files).Err? <==> exists i :: 0 <= i < |files| && Fails(files[i])
    ensures ZeroStartEntries(files).Err? ==> exists i :: FirstFailure(files, i) && ZeroStartEntries(files).error == FailureAt(files, i)
    decreases |files|
  {
    if files != [] {
      var n := |files| - 1;
      var init := files[..n];
      ZeroStartFailure(init);
      assert forall i :: 0 <= i < n ==> init[i] == files[i];
      if ZeroStartEntries(init).Err? {
        var i :| FirstFailure(init, i) && ZeroStartEntries(init).error == FailureAt(init, i);
        assert FirstFailure(files, i) && FailureAt(files, i) == FailureAt(init, i);
      } else if Fails(files[n]) {
        assert FirstFailure(files, n);
      }
    }
  }

  /**
   * Entry k comes from the k-th path with metadata: it starts at zero, ends
   * at that path's own duration, and defaults its index to k+1.
   */
  predicate ZeroShaped(es: seq<SrtEntry>, ds: seq<AudioFile>)
    requires forall k :: 0 <= k < |ds| ==> ds[k].metadata.Metadata?
  {
    |es| == |ds| && forall k :: 0 <= k < |ds| ==> ds[k].audio.Decoded? && es[k] == ZeroEntry(ds[k], k)
  }

  lemma {:induction false} ZeroStartEntriesShape(files: seq<AudioFile>)
    requires ZeroStartEntries(files).Ok?
    ensures ZeroShaped(ZeroStartEntries(files).value, Described(files))
    decreases |files|
  {
    if files != [] {
      var init := files[..|files| - 1];
      var f := files[|files| - 1];
      var r := ZeroStartEntries(init);
      assert r.Ok?;
      ZeroStartEntriesShape(init);
      var es := r.value;
      var ds := Described(init);
      if f.metadata.Metadata? {
        var es' := ZeroStartEntries(files).value;
        var ds' := Described(files);
        assert ds' == ds + [f];
        assert es' == es + [ZeroEntry(f, |es|)];
        forall k | 0 <= k < |ds'| ensures ds'[k].audio.Decoded? && es'[k] == ZeroEntry(ds'[k], k) {
          if k < |ds| {
            assert ds'[k] == ds[k] && es'[k] == es[k];
          }
        }
      }
    }
  }

  /** Every zero-start entry begins at 00:00:00,000. */
  lemma ZeroStartFromZero(files: seq<AudioFile>)
    requires ZeroStartEntries(files).Ok?
    ensures forall k :: 0 <= k < |ZeroStartEntries(files).value| ==>
      ZeroStartEntries(files).value[k].start == 0
  {
    ZeroStartEntriesShape(files);
  }

  // ---------------------------------------------------------------- generate_synchronized_srt

  /** `path.rsplit(".", 1)[0]` */
  function BasePath(path: string): (b: string)
    ensures StartsWith(path, b)
    ensures '.' in path ==> |b| < |path| && path[|b|] == '.' && '.' !in path[|b| + 1..]
    ensures '.' !in path ==> b == path
  {
    var k := LastIndex(path, '.');
    if k < 0 then path
    else
      var b := path[..k];
      assert forall j :: k + 1 <= j < |path| ==> path[k + 1..][j - (k + 1)] == path[j];
      b
  }

  /** The metadata JSON written next to the audio. */
  datatype SegmentMetadata = SegmentMetadata(segmentIndex: Scalar, originalText: string, actualDuration: nat, timestamp: Scalar)

  datatype SyncedSrt = SyncedSrt(srtPath: string, srt: string, metadataPath: string, metadata: SegmentMetadata)

  datatype SyncFailure = AudioUnreadable | NoOriginalText | OriginalTextNotString

  /**
   * generate_synchronized_srt: one entry "1" from zero to the audio's
   * duration with the stripped text; `segment_info` is `None` or a dict.
   */
  function SynchronizedSrt(audioPath: string, duration: Option<nat>, info: Option<map<string, Scalar>>): Result<SyncedSrt, SyncFailure> {
    if duration.None? then Err(AudioUnreadable)
    else if info.None? || "original_text" !in info.value then Err(NoOriginalText)
    else
      var fields := info.value;
      var text := fields["original_text"];
      if !text.Str? then Err(OriginalTextNotString)
      else
        var d := duration.value;
        var srt := OneEntry(d, Strip(text.s), FormatTimestamp);
        var base := BasePath(audioPath);
        Ok(SyncedSrt(base + ".srt", srt, base + ".json",
                     SegmentMetadata(Get(fields, "segment_index", Int(0)), text.s, d, Get(fields, "timestamp", Str("")))))
  }

  /** It succeeds exactly when the audio is readable and `original_text` is a string. */
  lemma SynchronizedSrtOkIff(audioPath: string, duration: Option<nat>, info: Option<map<string, Scalar>>)
    ensures SynchronizedSrt(audioPath, duration, info).Ok? <==>
      duration.Some? && info.Some? && "original_text" in info.value && info.value["original_text"].Str?
  {
  }

  /** The SubRip text of one entry "1" from zero to d. */
  function OneEntry(d: nat, text: string, stamp: nat -> string): string {
    Join(["1", TimeRange(0, d, stamp), text, ""], "\n")
  }

  lemma OneEntryIsSrtContent(d: nat, text: string, stamp: nat -> string)
    ensures SrtContent([SrtEntry(Int(1), 0, d, Str(text))], stamp) == Ok(OneEntry(d, text, stamp))
  {
    var e := SrtEntry(Int(1), 0, d, Str(text));
    assert [e][..0] == [];
    assert Render(Int(1)) == "1";
    assert Lines([e], stamp) == [] + Block(e, stamp);
    assert Block(e, stamp) == ["1", TimeRange(0, d, stamp), text, ""];
    assert [] + Block(e, stamp) == Block(e, stamp);
    assert TextsAreStrings([e]);
  }

  /**
   * The file holds one entry "1" from zero to the audio's duration with the
   * stripped text: by OneEntryIsSrtContent, exactly what the combined renderer
   * prints for that entry.
   */
  lemma SynchronizedSrtIsOneEntry(audioPath: string, d: nat, fields: map<string, Scalar>)
    requires "original_text" in fields && fields["original_text"].Str?
    ensures SynchronizedSrt(audioPath, Some(d), Some(fields)).Ok?
    ensures SynchronizedSrt(audioPath, Some(d), Some(fields)).value.srt
      == OneEntry(d, Strip(fields["original_text"].s), FormatTimestamp)
  {
  }

  /** Only the last extension is cut. */
  lemma BasePathOfExtension(stem: string, ext: string)
    requires '.' !in ext
    ensures BasePath(stem + "." + ext) == stem
  {
    assert stem + "." + ext == stem + ("." + ext);
    LastIndexAppend(stem, "." + ext, '.');
    assert LastIndex("." + ext, '.') == 0;
    assert (stem + "." + ext)[..|stem|] == stem;
  }

  /** The SubRip and metadata files sit beside the audio, with its extension replaced. */
  lemma SynchronizedSrtPaths(stem: string, ext: string, d: nat, fields: map<string, Scalar>)
    requires '.' !in ext
    requires "original_text" in fields && fields["original_text"].Str?
    ensures SynchronizedSrt(stem + "." + ext, Some(d), Some(fields)).Ok?
    ensures SynchronizedSrt(stem + "." + ext, Some(d), Some(fields)).value.srtPath == stem + ".srt"
    ensures SynchronizedSrt(stem + "." + ext, Some(d), Some(fields)).value.metadataPath == stem + ".json"
  {
    BasePathOfExtension(stem, ext);
  }
}
