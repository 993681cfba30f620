/**
 * The audio timelines of backend/api/routes/audio.py: its truncating
 * format_timestamp, combine_audio_segments (one SubRip entry per segment,
 * 100 ms of silence between segments) and combine_audio (segments back to
 * back, one metadata record each). Audio is given by its duration in whole
 * milliseconds; exporting the combined audio is left to the audio library.
 */
module Combine {
  import opened Wrappers
  import opened Strings
  import opened AudioUtils
  import opened Srt

  /**
   * What a handler raised: its own HTTPExceptions (404 for a missing file,
   * 400 for an empty request) and the library errors of reading metadata.
   */
  datatype Raised =
    | AudioNotFound(path: string)
    | MetadataNotFound(segment: nat)
    | NoAudioPaths
    | JsonDecodeError
    | MissingKey(key: string)
    | NotAString(key: string)

  /** The status an HTTPException carries; library errors have none and are reported as 500. */
  function Status(c: Raised): int {
    match c
    case AudioNotFound(_) => 404
    case MetadataNotFound(_) => 404
    case NoAudioPaths => 400
    case _ => 500
  }

  /** The detail text of the HTTPExceptions the handlers raise themselves. */
  function Detail(c: Raised): string {
    match c
    case AudioNotFound(path) => "Audio file not found: " + path
    case MetadataNotFound(segment) => "Metadata not found for segment " + NatToString(segment)
    case NoAudioPaths => "No audio paths provided"
    case JsonDecodeError => "JSONDecodeError"
    case MissingKey(key) => key
    case NotAString(key) => key
  }

  /** The HTTPException a route answers with: the generic handler re-raises everything as 500. */
  datatype Failure = Failure(status: int, cause: Raised)

  function Rewrapped(cause: Raised): Failure {
    Failure(500, cause)
  }

  // ---------------------------------------------------------------- format_timestamp (truncating)

  /**
   * format_timestamp of audio.py: hours and minutes by divmod, whole seconds
   * and milliseconds by truncation, printed as "HH:MM:SS,mmm".
   */
  function TruncatingTimestamp(ms: nat): string {
    var hours, remainder := ms / 3_600_000, ms % 3_600_000;
    var minutes, seconds := remainder / 60_000, remainder % 60_000;
    PadNat(hours, 2) + ":" + PadNat(minutes, 2) + ":" + PadNat(seconds / 1000, 2) + "," + PadNat(seconds % 1000, 3)
  }

  /** On whole milliseconds both timestamp formatters print the same text. */
  lemma TruncatingAgrees(ms: nat)
    ensures TruncatingTimestamp(ms) == FormatTimestamp(ms)
  {
    var c := ClockOf(ms);
    FormatShape(c);
    var remainder := ms % 3_600_000;
    var seconds := remainder % 60_000;
    TruncatingFields(ms);
    assert TruncatingTimestamp(ms) == CommaForm(Clock(ms / 3_600_000, remainder / 60_000, seconds / 1000, seconds % 1000));
  }

  /** The divmod chain of the truncating formatter yields the same clock fields. */
  lemma TruncatingFields(ms: nat)
    ensures var remainder := ms % 3_600_000; var seconds := remainder % 60_000;
      Clock(ms / 3_600_000, remainder / 60_000, seconds / 1000, seconds % 1000) == ClockOf(ms)
  {
    var remainder := ms % 3_600_000;
    assert remainder % 60_000 == ms % 60_000;
  }

  /** So the truncating timestamps read back too. */
  lemma TruncatingRoundTrip(ms: nat)
    ensures ParseTimestamp(TruncatingTimestamp(ms)) == Some(ms)
  {
    TruncatingAgrees(ms);
    FormatTimestampRoundTrip(ms);
  }

  // ---------------------------------------------------------------- combine_audio_segments

  /** One requested path: the path itself, its audio's duration if the file exists, and its metadata file. */
  datatype Segment = Segment(path: string, duration: Option<nat>, metadata: MetadataFile)

  const GapMs: nat := 100

  /** The metadata keys the routes read and write. */
  const OriginalTextKey: string := "original_text"
  const SegmentIndexKey: string := "segment_index"

  /** Why segment i stops the combine, if it does. */
  function SegmentProblem(f: Segment, i: nat): Option<Raised> {
    if f.duration.None? then Some(AudioNotFound(f.path))
    else match f.metadata
      case NoMetadata => Some(MetadataNotFound(i + 1))
      case InvalidJson => Some(JsonDecodeError)
      case Metadata(fields) =>
        if OriginalTextKey !in fields then Some(MissingKey(OriginalTextKey))
        else if !fields[OriginalTextKey].Str? then Some(NotAString(OriginalTextKey))
        else None
  }

  /** Segment checks that fail: no audio, no decodable metadata object, no string `original_text`. */
  predicate SegmentFails(f: Segment) {
    || f.duration.None?
    || !f.metadata.Metadata?
    || OriginalTextKey !in f.metadata.fields
    || !f.metadata.fields[OriginalTextKey].Str?
  }

  /** The stripped `original_text` of a segment that passed its checks. */
  function StrippedText(f: Segment): string
    requires !SegmentFails(f)
  {
    Strip(f.metadata.fields[OriginalTextKey].s)
  }

  lemma ProblemAnyPosition(f: Segment, i: nat)
    ensures SegmentProblem(f, i).Some? <==> SegmentFails(f)
  {
  }

  /** The entry of a segment that passed its checks, starting at `start`. */
  function SegmentEntry(f: Segment, i: nat, start: nat): (e: SrtEntry)
    requires !SegmentFails(f)
    ensures e.index == Int(i + 1) && e.text == Str(StrippedText(f))
    ensures e.start == start && e.end == start + f.duration.value
  {
    SrtEntry(Int(i + 1), start, start + f.duration.value, Str(StrippedText(f)))
  }

  /** `current_time` after segment i of n: its duration, and the gap unless it is the last. */
  function Advance(time: nat, d: nat, i: nat, n: nat): nat {
    if i < n - 1 then time + d + GapMs else time + d
  }

  /** Loop body i of n: add the entry, then advance. */
  function GapStep(r: Result<Timeline, Failure>, i: nat, n: nat, f: Segment): Result<Timeline, Failure> {
    match r
    case Err(_) => r
    case Ok(t) =>
      match SegmentProblem(f, i)
      case Some(cause) => Err(Rewrapped(cause))
      case None => Ok(Timeline(t.entries + [SegmentEntry(f, i, t.time)], Advance(t.time, f.duration.value, i, n)))
  }

  /** A step succeeds on a passing segment after a success, appending its entry. */
  lemma GapStepOk(r: Result<Timeline, Failure>, i: nat, n: nat, f: Segment)
    ensures GapStep(r, i, n, f).Ok? <==> r.Ok? && !SegmentFails(f)
    ensures GapStep(r, i, n, f).Ok? ==>
      GapStep(r, i, n, f).value == Timeline(r.value.entries + [SegmentEntry(f, i, r.value.time)], Advance(r.value.time, f.duration.value, i, n))
  {
    ProblemAnyPosition(f, i);
  }

  /** The first m segments of the n requested ones. */
  function GapTimeline(files: seq<Segment>, m: nat): Result<Timeline, Failure>
    requires m <= |files|
  {
    if m == 0 then Ok(Timeline([], 0)) else GapStep(GapTimeline(files, m - 1), m - 1, |files|, files[m - 1])
  }

  /** The response of combine_audio_segments, with the SubRip text it writes. */
  datatype SegmentsResult = SegmentsResult(entries: seq<SrtEntry>, srt: string, totalDuration: nat)

  /** The loop of combine_audio_segments over the requested paths. */
  method GapEntries(files: seq<Segment>) returns (r: Result<Timeline, Failure>)
    ensures r == GapTimeline(files, |files|)
  {
    var entries: seq<SrtEntry> := [];
    var time: nat := 0;
    var i := 0;
    while i < |files|
      invariant 0 <= i <= |files|
      invariant GapTimeline(files, i) == Ok(Timeline(entries, time))
    {
      var f := files[i];
      var problem := SegmentProblem(f, i);
      if problem.Some? {
        assert GapTimeline(files, i + 1) == Err(Rewrapped(problem.value));
        GapStaysFailed(files, i + 1);
        return Err(Failure(500, problem.value));
      }
      ProblemAnyPosition(f, i);
      GapStepOk(GapTimeline(files, i), i, |files|, f);
      var e := SegmentEntry(f, i, time);
      entries := entries + [e];
      time := Advance(time, f.duration.value, i, |files|);
      assert GapTimeline(files, i + 1) == Ok(Timeline(entries, time));
      i := i + 1;
    }
    r := Ok(Timeline(entries, time));
  }

  /** combine_audio_segments: lay out the segments, then write their SubRip text. */
  method CombineAudioSegments(files: seq<Segment>) returns (r: Result<SegmentsResult, Failure>)
    ensures GapTimeline(files, |files|).Err? ==> r == Err(GapTimeline(files, |files|).error)
    ensures GapTimeline(files, |files|).Ok? ==>
      && r.Ok?
      && r.value.entries == GapTimeline(files, |files|).value.entries
      && r.value.totalDuration == GapTimeline(files, |files|).value.time
      && SrtContent(r.value.entries, TruncatingTimestamp) == Ok(r.value.srt)
  {
    var laid := GapEntries(files);
    match laid {
      case Err(e) => r := Err(e);
      case Ok(t) =>
        GapTimelineShape(files, |files|);
        assert TextsAreStrings(t.entries);
        var rendered := RenderEntries(t.entries, TruncatingTimestamp);
        match rendered {
          case Ok(srt) => r := Ok(SegmentsResult(t.entries, srt, t.time));
          case Err(_) => assert false;
        }
    }
  }

  lemma {:induction false} GapStaysFailed(files: seq<Segment>, m: nat)
    requires m <= |files| && GapTimeline(files, m).Err?
    ensures GapTimeline(files, |files|) == GapTimeline(files, m)
    decreases |files| - m
  {
    if m < |files| {
      GapStaysFailed(files, m + 1);
    }
  }

  /** The summed durations of the first k segments (missing audio counts as 0). */
  function SumDurations(files: seq<Segment>, k: nat): nat
    requires k <= |files|
  {
    if k == 0 then 0 else SumDurations(files, k - 1) + files[k - 1].duration.GetOr(0)
  }

  /** Where segment k's entry starts: after the earlier segments and one gap per earlier segment. */
  function GapStart(files: seq<Segment>, k: nat): nat
    requires k <= |files|
  {
    SumDurations(files, k) + GapMs * k
  }

  /**
   * The first m of the n segments laid out with gaps: each passed its checks
   * and its entry starts at GapStart; the clock stands at the durations so
   * far plus one gap per segment that is not the last.
   */
  predicate Gapped(t: Timeline, files: seq<Segment>, m: nat)
    requires m <= |files|
  {
    LaidEntries(t.entries, files, m) && GapClock(t.time, files, m)
  }

  predicate LaidEntries(es: seq<SrtEntry>, files: seq<Segment>, m: nat)
    requires m <= |files|
  {
    |es| == m && forall k :: 0 <= k < m ==> !SegmentFails(files[k]) && es[k] == SegmentEntry(files[k], k, GapStart(files, k))
  }

  predicate GapClock(time: nat, files: seq<Segment>, m: nat)
    requires m <= |files|
  {
    time + (if m == |files| && m > 0 then GapMs else 0) == SumDurations(files, m) + GapMs * m
  }

  /** The timeline of combine_audio_segments when it succeeds. */
  lemma {:induction false} GapTimelineShape(files: seq<Segment>, m: nat)
    requires m <= |files| && GapTimeline(files, m).Ok?
    ensures Gapped(GapTimeline(files, m).value, files, m)
  {
    if m > 0 {
      var prev := GapTimeline(files, m - 1);
      GapStepOk(prev, m - 1, |files|, files[m - 1]);
      GapTimelineShape(files, m - 1);
      GappedStep(prev.value, files, m);
    }
  }

  /** Appending segment m-1's entry and advancing the clock extends the layout by one segment. */
  lemma GappedStep(t: Timeline, files: seq<Segment>, m: nat)
    requires 0 < m <= |files| && Gapped(t, files, m - 1) && !SegmentFails(files[m - 1])
    ensures Gapped(Timeline(t.entries + [SegmentEntry(files[m - 1], m - 1, t.time)], Advance(t.time, files[m - 1].duration.value, m - 1, |files|)), files, m)
  {
    assert t.time == GapStart(files, m - 1);
    LaidEntriesStep(t.entries, files, m);
    GapClockStep(t.time, files, m);
  }

  lemma LaidEntriesStep(es: seq<SrtEntry>, files: seq<Segment>, m: nat)
    requires 0 < m <= |files| && LaidEntries(es, files, m - 1) && !SegmentFails(files[m - 1])
    ensures LaidEntries(es + [SegmentEntry(files[m - 1], m - 1, GapStart(files, m - 1))], files, m)
  {
    var es' := es + [SegmentEntry(files[m - 1], m - 1, GapStart(files, m - 1))];
    forall k | 0 <= k < m ensures !SegmentFails(files[k]) && es'[k] == SegmentEntry(files[k], k, GapStart(files, k)) {
      if k < m - 1 {
        assert es'[k] == es[k];
      }
    }
  }

  lemma GapClockStep(time: nat, files: seq<Segment>, m: nat)
    requires 0 < m <= |files| && GapClock(time, files, m - 1) && files[m - 1].duration.Some?
    ensures GapClock(Advance(time, files[m - 1].duration.value, m - 1, |files|), files, m)
  {
    assert GapMs * m == GapMs * (m - 1) + GapMs;
  }

  /** Consecutive entries lie one gap apart. */
  predicate OneGapApart(es: seq<SrtEntry>) {
    forall k :: 0 <= k < |es| - 1 ==> es[k + 1].start == es[k].end + GapMs
  }

  /**
   * Entries follow each other with exactly one gap between them, the first
   * starts at zero, and the total duration ends with the last entry: the
   * summed durations plus one gap fewer than there are segments.
   */
  lemma GapBetweenEntries(files: seq<Segment>)
    requires GapTimeline(files, |files|).Ok?
    ensures OneGapApart(GapTimeline(files, |files|).value.entries)
    ensures |GapTimeline(files, |files|).value.entries| == |files|
    ensures |files| > 0 ==> GapTimeline(files, |files|).value.entries[0].start == 0
    ensures |files| > 0 ==> GapTimeline(files, |files|).value.time + GapMs == SumDurations(files, |files|) + GapMs * |files|
    ensures |files| > 0 ==> GapTimeline(files, |files|).value.time == GapTimeline(files, |files|).value.entries[|files| - 1].end
    ensures |files| == 0 ==> GapTimeline(files, |files|).value.time == 0
  {
    var t := GapTimeline(files, |files|).value;
    GapTimes(files);
    forall k | 0 <= k < |t.entries| - 1 ensures t.entries[k + 1].start == t.entries[k].end + GapMs {
      assert SumDurations(files, k + 1) == SumDurations(files, k) + files[k].duration.value;
    }
    if |files| > 0 {
      assert SumDurations(files, |files|) == SumDurations(files, |files| - 1) + files[|files| - 1].duration.value;
    }
  }

  /** The times alone of a successful combine: entry k spans segment k's duration from its gapped start. */
  lemma GapTimes(files: seq<Segment>)
    requires GapTimeline(files, |files|).Ok?
    ensures var t := GapTimeline(files, |files|).value;
      && |t.entries| == |files|
      && (forall k :: 0 <= k < |files| ==>
            && files[k].duration.Some?
            && t.entries[k].start == GapStart(files, k)
            && t.entries[k].end == GapStart(files, k) + files[k].duration.value)
      && GapClock(t.time, files, |files|)
  {
    var t := GapTimeline(files, |files|).value;
    GapTimelineShape(files, |files|);
    forall k | 0 <= k < |files| ensures
      && files[k].duration.Some?
      && t.entries[k].start == GapStart(files, k)
      && t.entries[k].end == GapStart(files, k) + files[k].duration.value
    {
      assert t.entries[k] == SegmentEntry(files[k], k, GapStart(files, k));
    }
  }

  /** Entry k of a successful combine carries index k+1 and segment k's stripped text, and lasts its duration. */
  lemma GapEntryContents(files: seq<Segment>, k: nat)
    requires GapTimeline(files, |files|).Ok? && k < |files|
    ensures |GapTimeline(files, |files|).value.entries| == |files|
    ensures !SegmentFails(files[k])
    ensures GapTimeline(files, |files|).value.entries[k].index == Int(k + 1)
    ensures GapTimeline(files, |files|).value.entries[k].text == Str(StrippedText(files[k]))
    ensures GapTimeline(files, |files|).value.entries[k].start == SumDurations(files, k) + GapMs * k
    ensures GapTimeline(files, |files|).value.entries[k].end == GapTimeline(files, |files|).value.entries[k].start + files[k].duration.value
  {
    GapTimelineShape(files, |files|);
  }

  predicate FirstFailingSegment(files: seq<Segment>, m: nat, i: int)
    requires m <= |files|
  {
    0 <= i < m && SegmentFails(files[i]) && forall j :: 0 <= j < i ==> !SegmentFails(files[j])
  }

  /** The failure of the first m segments is that of segment i, the first that fails. */
  predicate FailedAt(files: seq<Segment>, m: nat, i: int)
    requires m <= |files|
  {
    FirstFailingSegment(files, m, i)
      && GapTimeline(files, m) == Err(Rewrapped(SegmentProblem(files[i], i).value))
  }

  /** No segment among the first m fails its checks. */
  predicate NoneFails(files: seq<Segment>, m: nat)
    requires m <= |files|
  {
    forall i :: 0 <= i < m ==> !SegmentFails(files[i])
  }

  lemma NoneFailsStep(files: seq<Segment>, m: nat)
    requires 0 < m <= |files|
    ensures NoneFails(files, m) <==> NoneFails(files, m - 1) && !SegmentFails(files[m - 1])
  {
    if NoneFails(files, m - 1) && !SegmentFails(files[m - 1]) {
      forall i | 0 <= i < m ensures !SegmentFails(files[i]) {
        if i < m - 1 {
          assert !SegmentFails(files[i]);
        }
      }
    }
  }

  /** The combine fails exactly when some segment fails. */
  lemma {:induction false} GapTimelineFails(files: seq<Segment>, m: nat)
    requires m <= |files|
    ensures GapTimeline(files, m).Ok? <==> NoneFails(files, m)
  {
    if m > 0 {
      GapTimelineFails(files, m - 1);
      GapStepOk(GapTimeline(files, m - 1), m - 1, |files|, files[m - 1]);
      NoneFailsStep(files, m);
    }
  }

  /** The cause that stops the first m segments, found without laying them out. */
  function GapFailure(files: seq<Segment>, m: nat): Option<Raised>
    requires m <= |files|
  {
    if m == 0 then None
    else if GapFailure(files, m - 1).Some? then GapFailure(files, m - 1)
    else SegmentProblem(files[m - 1], m - 1)
  }

  /** How one step treats an earlier failure and a failing segment. */
  lemma GapStepErr(r: Result<Timeline, Failure>, i: nat, n: nat, f: Segment)
    ensures r.Err? ==> GapStep(r, i, n, f) == r
    ensures r.Ok? && SegmentProblem(f, i).Some? ==> GapStep(r, i, n, f) == Err(Rewrapped(SegmentProblem(f, i).value))
    ensures r.Ok? && SegmentProblem(f, i).None? ==> GapStep(r, i, n, f).Ok?
  {
  }

  /** A layout that fails exactly when a cause is found, and then with that cause. */
  predicate Reports(r: Result<Timeline, Failure>, g: Option<Raised>) {
    (r.Err? <==> g.Some?) && (r.Err? ==> r.error == Rewrapped(g.value))
  }

  /** One step keeps a layout reporting the first cause found. */
  lemma ReportsStep(r: Result<Timeline, Failure>, g: Option<Raised>, i: nat, n: nat, f: Segment)
    requires Reports(r, g)
    ensures Reports(GapStep(r, i, n, f), if g.Some? then g else SegmentProblem(f, i))
  {
    GapStepErr(r, i, n, f);
  }

  lemma {:induction false} GapReports(files: seq<Segment>, m: nat)
    requires m <= |files|
    ensures Reports(GapTimeline(files, m), GapFailure(files, m))
  {
    if m > 0 {
      GapReports(files, m - 1);
      ReportsStep(GapTimeline(files, m - 1), GapFailure(files, m - 1), m - 1, |files|, files[m - 1]);
    }
  }

  /** The layout fails exactly when a cause is found, and then with that cause. */
  lemma GapTimelineFailure(files: seq<Segment>, m: nat)
    requires m <= |files|
    ensures GapTimeline(files, m).Err? <==> GapFailure(files, m).Some?
    ensures GapTimeline(files, m).Err? ==> GapTimeline(files, m).error == Rewrapped(GapFailure(files, m).value)
  {
    GapReports(files, m);
  }

  /** No cause among the first m segments means none of them fails. */
  lemma {:induction false} GapFailureNone(files: seq<Segment>, m: nat)
    requires m <= |files| && GapFailure(files, m).None?
    ensures NoneFails(files, m)
  {
    if m > 0 {
      GapFailureNone(files, m - 1);
      ProblemAnyPosition(files[m - 1], m - 1);
      NoneFailsStep(files, m);
    }
  }

  /** A cause found among the first m segments is that of the first failing one. */
  lemma {:induction false} GapFailureFirst(files: seq<Segment>, m: nat)
    requires m <= |files| && GapFailure(files, m).Some?
    ensures exists i :: FirstFailingSegment(files, m, i) && GapFailure(files, m) == SegmentProblem(files[i], i)
  {
    if GapFailure(files, m - 1).Some? {
      GapFailureFirst(files, m - 1);
      var i :| FirstFailingSegment(files, m - 1, i) && GapFailure(files, m - 1) == SegmentProblem(files[i], i);
      assert FirstFailingSegment(files, m, i);
    } else {
      GapFailureNone(files, m - 1);
      ProblemAnyPosition(files[m - 1], m - 1);
      assert FirstFailingSegment(files, m, m - 1);
    }
  }

  /** A failed combine reports the error of the first failing segment. */
  lemma GapTimelineFirstFailure(files: seq<Segment>, m: nat)
    requires m <= |files| && GapTimeline(files, m).Err?
    ensures exists i :: FailedAt(files, m, i)
  {
    GapTimelineFailure(files, m);
    GapFailureFirst(files, m);
    var i :| FirstFailingSegment(files, m, i) && GapFailure(files, m) == SegmentProblem(files[i], i);
    assert FailedAt(files, m, i);
  }

  // ---------------------------------------------------------------- combine_audio

  /** One entry of `metadata_list`: the segment's JSON object plus the times written into it. */
  datatype SegmentRecord = SegmentRecord(fields: map<string, Scalar>, start: nat, end: nat)

  datatype CombineResult = CombineResult(records: seq<SegmentRecord>, duration: nat)

  /** `metadata_list` and `current_time`. */
  datatype CombineState = CombineState(records: seq<SegmentRecord>, time: nat)

  /** The basic metadata made for a segment that has none, `count` records in. */
  function BasicFields(count: nat): map<string, Scalar> {
    map[SegmentIndexKey := Int(count), OriginalTextKey := Str(SegmentLabel(count + 1))]
  }

  /** The fields recorded for a segment `count` records in: its own JSON object, or the basic metadata. */
  function RecordFields(f: Segment, count: nat): map<string, Scalar> {
    if f.metadata.Metadata? then f.metadata.fields else BasicFields(count)
  }

  /** Loop body: a missing audio file or undecodable metadata stops; otherwise record the segment and advance. */
  function CombineStep(r: Result<CombineState, Failure>, f: Segment): Result<CombineState, Failure> {
    match r
    case Err(_) => r
    case Ok(st) =>
      if f.duration.None? then Err(Rewrapped(AudioNotFound(f.path)))
      else if f.metadata.InvalidJson? then Err(Rewrapped(JsonDecodeError))
      else
        var d := f.duration.value;
        Ok(CombineState(st.records + [SegmentRecord(RecordFields(f, |st.records|), st.time, st.time + d)], st.time + d))
  }

  function CombineFold(files: seq<Segment>): Result<CombineState, Failure>
    decreases |files|
  {
    if files == [] then Ok(CombineState([], 0))
    else CombineStep(CombineFold(files[..|files| - 1]), files[|files| - 1])
  }

  /** combine_audio: an empty request is refused, otherwise the fold's records and total. */
  function CombineAudioSpec(files: seq<Segment>): Result<CombineResult, Failure> {
    if files == [] then Err(Rewrapped(NoAudioPaths))
    else match CombineFold(files)
      case Err(e) => Err(e)
      case Ok(st) => Ok(CombineResult(st.records, st.time))
  }

  method CombineAudio(files: seq<Segment>) returns (r: Result<CombineResult, Failure>)
    ensures r == CombineAudioSpec(files)
  {
    if |files| == 0 {
      return Err(Failure(500, NoAudioPaths));
    }
    var records: seq<SegmentRecord> := [];
    var time: nat := 0;
    var i := 0;
    while i < |files|
      invariant 0 <= i <= |files|
      invariant CombineFold(files[..i]) == Ok(CombineState(records, time))
    {
      assert files[..i + 1][..i] == files[..i];
      var f := files[i];
      if f.duration.None? {
        CombineStaysFailed(files, i + 1);
        return Err(Failure(500, AudioNotFound(f.path)));
      }
      var d := f.duration.value;
      match f.metadata {
        case InvalidJson =>
          CombineStaysFailed(files, i + 1);
          return Err(Failure(500, JsonDecodeError));
        case Metadata(fields) =>
          records := records + [SegmentRecord(fields, time, time + d)];
        case NoMetadata =>
          records := records + [SegmentRecord(map[SegmentIndexKey := Int(|records|), OriginalTextKey := Str(SegmentLabel(|records| + 1))], time, time + d)];
      }
      time := time + d;
      i := i + 1;
    }
    assert files[..|files|] == files;
    r := Ok(CombineResult(records, time));
  }

  lemma {:induction false} CombineStaysFailed(files: seq<Segment>, n: nat)
    requires n <= |files| && CombineFold(files[..n]).Err?
    ensures CombineFold(files) == CombineFold(files[..n])
    decreases |files| - n
  {
    if n < |files| {
      assert files[..n + 1][..n] == files[..n];
      CombineStaysFailed(files, n + 1);
    } else {
      assert files[..n] == files;
    }
  }

  /** A segment that stops combine_audio: missing audio or metadata that is not JSON. */
  predicate CombineFails(f: Segment) {
    f.duration.None? || f.metadata.InvalidJson?
  }

  /**
   * Record k belongs to segment k: segments lie back to back from zero, each
   * lasts its own duration, and one without metadata gets index k and text
   * "Segment k+1".
   */
  predicate BackToBack(rs: seq<SegmentRecord>, files: seq<Segment>)
    requires |rs| <= |files|
  {
    forall k :: 0 <= k < |rs| ==>
      && files[k].duration.Some?
      && rs[k].start == SumDurations(files, k)
      && rs[k].end == rs[k].start + files[k].duration.value
      && rs[k].fields == RecordFields(files[k], k)
  }

  /** The first n segments were laid out: one record each, back to back, the clock at their summed durations. */
  predicate Laid(st: CombineState, files: seq<Segment>, n: nat)
    requires n <= |files|
  {
    |st.records| == n && BackToBack(st.records, files) && st.time == SumDurations(files, n)
  }

  lemma {:induction false} CombineFoldOk(files: seq<Segment>, n: nat)
    requires n <= |files|
    ensures CombineFold(files[..n]).Ok? <==> forall i :: 0 <= i < n ==> !CombineFails(files[i])
  {
    if n == 0 {
      assert files[..0] == [];
    } else {
      CombineFoldOk(files, n - 1);
      assert files[..n][..n - 1] == files[..n - 1];
      assert files[..n][n - 1] == files[n - 1];
    }
  }

  lemma {:induction false} CombineFoldLaid(files: seq<Segment>, n: nat)
    requires n <= |files| && CombineFold(files[..n]).Ok?
    ensures Laid(CombineFold(files[..n]).value, files, n)
  {
    if n == 0 {
      assert files[..0] == [];
    } else {
      assert files[..n][..n - 1] == files[..n - 1];
      assert files[..n][n - 1] == files[n - 1];
      var prev := CombineFold(files[..n - 1]);
      assert CombineFold(files[..n]) == CombineStep(prev, files[n - 1]);
      assert prev.Ok?;
      CombineFoldLaid(files, n - 1);
      LaidStep(prev.value, files, n - 1);
    }
  }

  /** Laying out one more segment keeps the records back to back. */
  lemma LaidStep(st: CombineState, files: seq<Segment>, n: nat)
    requires n < |files| && Laid(st, files, n) && CombineStep(Ok(st), files[n]).Ok?
    ensures Laid(CombineStep(Ok(st), files[n]).value, files, n + 1)
  {
    var f := files[n];
    var d := f.duration.value;
    var rec := SegmentRecord(RecordFields(f, n), st.time, st.time + d);
    var st' := CombineStep(Ok(st), f).value;
    assert st'.records == st.records + [rec];
    assert SumDurations(files, n + 1) == SumDurations(files, n) + d;
    forall k | 0 <= k < n + 1 ensures
      && files[k].duration.Some?
      && st'.records[k].start == SumDurations(files, k)
      && st'.records[k].end == st'.records[k].start + files[k].duration.value
      && st'.records[k].fields == RecordFields(files[k], k)
    {
      if k < n {
        assert st'.records[k] == st.records[k];
      }
    }
  }

  /** combine_audio answers with one record per path and the summed duration, or fails. */
  lemma CombineAudioOutcome(files: seq<Segment>)
    ensures CombineAudioSpec(files).Ok? <==> files != [] && forall i :: 0 <= i < |files| ==> !CombineFails(files[i])
    ensures CombineAudioSpec(files).Ok? ==>
      && |CombineAudioSpec(files).value.records| == |files|
      && BackToBack(CombineAudioSpec(files).value.records, files)
      && CombineAudioSpec(files).value.duration == SumDurations(files, |files|)
    ensures files == [] ==> CombineAudioSpec(files) == Err(Failure(500, NoAudioPaths))
  {
    CombineFoldOk(files, |files|);
    assert files[..|files|] == files;
    if CombineFold(files).Ok? {
      CombineFoldLaid(files, |files|);
    }
  }
}
