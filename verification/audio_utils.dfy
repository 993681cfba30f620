/**
 * backend/utils/audio.py: the upload-extension check and the SubRip timestamp
 * formatter. Durations are whole milliseconds (pydub measures audio in ms).
 */
module AudioUtils {
  import opened Wrappers
  import opened Strings

  // ---------------------------------------------------------------- validate_audio_file

  /** Index of the last occurrence of `c` in `s`, or -1 (`str.rfind`). */
  function LastIndex(s: string, c: char): (r: int)
    ensures -1 <= r < |s|
    ensures r >= 0 ==> s[r] == c
    ensures forall k :: r < k < |s| ==> s[k] != c
  {
    if |s| == 0 then -1 else if s[|s| - 1] == c then |s| - 1 else LastIndex(s[..|s| - 1], c)
  }

  lemma {:induction false} LastIndexAppend(a: string, b: string, c: char)
    ensures LastIndex(a + b, c) == if c in b then |a| + LastIndex(b, c) else LastIndex(a, c)
    decreases |b|
  {
    if |b| == 0 {
      assert a + b == a;
    } else {
      var s := a + b;
      if b[|b| - 1] != c {
        assert s[..|s| - 1] == a + b[..|b| - 1];
        LastIndexAppend(a, b[..|b| - 1], c);
        assert c in b <==> c in b[..|b| - 1] by {
          if c in b {
            var k :| 0 <= k < |b| && b[k] == c;
            assert b[..|b| - 1][k] == c;
          }
        }
      }
    }
  }

  /** The part of a path after its last '/' contains a character other than '.'. */
  predicate HasNonDotName(stem: string) {
    exists k :: LastIndex(stem, '/') < k < |stem| && stem[k] != '.'
  }

  /**
   * `os.path.splitext(p)[1]` on POSIX: from the last '.' of the last path
   * component, unless every character before that '.' in the component is a '.'.
   */
  function Extension(p: string): string {
    var sepIndex := LastIndex(p, '/');
    var dotIndex := LastIndex(p, '.');
    if dotIndex > sepIndex && HasNonDotName(p[..dotIndex]) then p[dotIndex..] else ""
  }

  /** validate_audio_file: the lower-cased extension is ".wav". */
  predicate ValidateAudioFile(filename: string) {
    Lower(Extension(filename)) == ".wav"
  }

  /**
   * A file name passes exactly when it ends in ".wav" in any letter case and
   * the last path component has a character other than '.' before that suffix.
   */
  lemma ValidateAudioFileIff(filename: string)
    ensures ValidateAudioFile(filename) <==>
      (|filename| >= 4 && Lower(filename[|filename| - 4..]) == ".wav" && HasNonDotName(filename[..|filename| - 4]))
  {
    if ValidateAudioFile(filename) {
      ValidatedHasSuffix(filename);
    }
    if |filename| >= 4 && Lower(filename[|filename| - 4..]) == ".wav" && HasNonDotName(filename[..|filename| - 4]) {
      SuffixValidates(filename);
    }
  }

  lemma ValidatedHasSuffix(p: string)
    requires ValidateAudioFile(p)
    ensures |p| >= 4 && Lower(p[|p| - 4..]) == ".wav" && HasNonDotName(p[..|p| - 4])
  {
    var ext := Extension(p);
    assert |ext| == 4 && ext[0] == '.';
    assert LastIndex(p, '.') == |p| - 4;
  }

  lemma SuffixValidates(p: string)
    requires |p| >= 4 && Lower(p[|p| - 4..]) == ".wav" && HasNonDotName(p[..|p| - 4])
    ensures ValidateAudioFile(p)
  {
    var stem, ext := p[..|p| - 4], p[|p| - 4..];
    assert p == stem + ext;
    WavSuffixChars(ext);
    LastIndexAppend(stem, ext, '.');
    LastIndexAppend(stem, ext, '/');
    assert LastIndex(p, '.') == |stem|;
    assert LastIndex(p, '/') == LastIndex(stem, '/');
  }

  /** A four-character suffix that lower-cases to ".wav" has its only '.' first and no '/'. */
  lemma WavSuffixChars(ext: string)
    requires |ext| == 4 && Lower(ext) == ".wav"
    ensures '.' in ext && '/' !in ext && LastIndex(ext, '.') == 0
  {
    WavChars(ext);
    DotThenLetters(ext);
  }

  lemma WavChars(ext: string)
    requires |ext| == 4 && Lower(ext) == ".wav"
    ensures ext[0] == '.'
    ensures forall k :: 1 <= k < 4 ==> ext[k] != '.' && ext[k] != '/'
  {
    var l := Lower(ext);
    assert l[0] == '.' && l[1] == 'w' && l[2] == 'a' && l[3] == 'v';
    LowerCharOfDot(ext[0]);
    LowerCharOfLetter(ext[1]);
    LowerCharOfLetter(ext[2]);
    LowerCharOfLetter(ext[3]);
  }

  lemma DotThenLetters(ext: string)
    requires |ext| == 4 && ext[0] == '.'
    requires forall k :: 1 <= k < 4 ==> ext[k] != '.' && ext[k] != '/'
    ensures '.' in ext && '/' !in ext && LastIndex(ext, '.') == 0
  {
  }

  lemma LowerCharOfDot(c: char)
    requires LowerChar(c) == '.'
    ensures c == '.'
  {
  }

  lemma LowerCharOfLetter(c: char)
    requires 'a' <= LowerChar(c) <= 'z'
    ensures c != '.' && c != '/'
  {
  }

  /** Letter case does not matter. */
  lemma ValidateAudioFileUpperCase()
    ensures ValidateAudioFile("A.WAV")
  {
    ValidateAudioFileIff("A.WAV");
    assert "A.WAV"[..1][0] != '.';
  }

  /** A file inside a directory passes. */
  lemma ValidateAudioFileInDirectory()
    ensures ValidateAudioFile("a/b.wav")
  {
    ValidateAudioFileIff("a/b.wav");
    var stem := "a/b.wav"[..3];
    assert stem == "a/b";
    assert LastIndex(stem, '/') == 1;
    assert stem[2] != '.';
    var ext := "a/b.wav"[3..];
    assert Lower(ext) == ".wav";
  }

  /** A hidden file named ".wav" has no extension, so it is refused. */
  lemma ValidateAudioFileHiddenName()
    ensures !ValidateAudioFile(".wav")
  {
    ValidateAudioFileIff(".wav");
  }

  /** Only the last extension counts. */
  lemma ValidateAudioFileLastExtension()
    ensures !ValidateAudioFile("x.wav.mp3")
  {
    ValidateAudioFileIff("x.wav.mp3");
    assert Lower("x.wav.mp3"[5..])[1] == 'm';
  }

  // ---------------------------------------------------------------- format_timestamp

  /** A duration split into the fields a SubRip timestamp prints. */
  datatype Clock = Clock(hours: nat, minutes: nat, seconds: nat, millis: nat)

  /**
   * hours = ms div 3600000 (unbounded), minutes = (ms mod 3600000) div 60000,
   * seconds = (ms mod 60000) div 1000, millis = ms mod 1000.
   */
  function ClockOf(ms: nat): (c: Clock)
    ensures c.minutes < 60 && c.seconds < 60 && c.millis < 1000
    ensures c.hours * 3_600_000 + c.minutes * 60_000 + c.seconds * 1000 + c.millis == ms
  {
    ClockParts(ms);
    Clock(ms / 3_600_000, (ms % 3_600_000) / 60_000, (ms % 60_000) / 1000, ms % 1000)
  }

  /** A remainder is determined by any quotient-remainder split (divisor 60000). */
  lemma ModOfSplit60000(x: int, k: int, rem: int)
    requires x == k * 60_000 + rem && 0 <= rem < 60_000
    ensures x % 60_000 == rem
  {
  }

  /** A remainder is determined by any quotient-remainder split (divisor 1000). */
  lemma ModOfSplit1000(x: int, k: int, rem: int)
    requires x == k * 1000 + rem && 0 <= rem < 1000
    ensures x % 1000 == rem
  {
  }

  lemma ClockParts(ms: nat)
    ensures ms == (ms / 3_600_000) * 3_600_000 + ((ms % 3_600_000) / 60_000) * 60_000
                  + ((ms % 60_000) / 1000) * 1000 + ms % 1000
    ensures (ms % 3_600_000) / 60_000 < 60
  {
    var h, r := ms / 3_600_000, ms % 3_600_000;
    assert ms == h * 3_600_000 + r;
    var m, r2 := r / 60_000, r % 60_000;
    assert r == m * 60_000 + r2;
    ModOfSplit60000(ms, h * 60 + m, r2);
    var sec, mi := r2 / 1000, r2 % 1000;
    assert r2 == sec * 1000 + mi;
    ModOfSplit1000(ms, (h * 60 + m) * 60 + sec, mi);
  }

  /**
   * format_timestamp: f"{hours:02d}:{minutes:02d}:{seconds:06.3f}" with '.'
   * replaced by ','. For a whole number of milliseconds, "{:06.3f}" of the
   * seconds below a minute prints two digits, '.', and three digits.
   */
  function FormatTimestamp(ms: nat): string {
    ReplaceChar(DotForm(ClockOf(ms)), '.', ',')
  }

  /**
   * The printed text is "H…H:MM:SS,mmm": at least two hour digits, then two,
   * two and three digits, separated by ':', ':' and ','.
   */
  lemma FormatTimestampShape(ms: nat)
    ensures var r := FormatTimestamp(ms);
      && |r| >= 12
      && r[|r| - 10] == ':' && r[|r| - 7] == ':' && r[|r| - 4] == ','
      && AllDigits(r[..|r| - 10]) && AllDigits(r[|r| - 9..|r| - 7])
      && AllDigits(r[|r| - 6..|r| - 4]) && AllDigits(r[|r| - 3..])
  {
    var c := ClockOf(ms);
    FormatShape(c);
    var r := FormatTimestamp(ms);
    assert r == CommaForm(c);
    ParseCommaForm(c);
    ParsedShape(r);
  }

  /** The f-string before the replacement: zero-padded fields with '.' before the milliseconds. */
  function DotForm(c: Clock): string {
    PadNat(c.hours, 2) + ":" + PadNat(c.minutes, 2) + ":" + PadNat(c.seconds, 2) + "." + PadNat(c.millis, 3)
  }

  /** The same text written directly with the comma. */
  function CommaForm(c: Clock): string {
    PadNat(c.hours, 2) + ":" + PadNat(c.minutes, 2) + ":" + PadNat(c.seconds, 2) + "," + PadNat(c.millis, 3)
  }

  lemma NatToStringShort(n: nat)
    ensures n < 10 ==> |NatToString(n)| == 1
    ensures n < 100 ==> |NatToString(n)| <= 2
    ensures n < 1000 ==> |NatToString(n)| <= 3
  {
    if n >= 10 {
      NatToStringShort(n / 10);
    }
  }

  lemma FormatShape(c: Clock)
    requires c.minutes < 60 && c.seconds < 60 && c.millis < 1000
    ensures var printed := DotForm(c);
            var h := |PadNat(c.hours, 2)|;
            && |PadNat(c.minutes, 2)| == 2 && |PadNat(c.seconds, 2)| == 2 && |PadNat(c.millis, 3)| == 3
            && h >= 2 && |printed| == h + 10
            && ReplaceChar(printed, '.', ',') == CommaForm(c)
  {
    NatToStringShort(c.minutes);
    NatToStringShort(c.seconds);
    NatToStringShort(c.millis);
    var printed := DotForm(c);
    var h := |PadNat(c.hours, 2)|;
    var r := ReplaceChar(printed, '.', ',');
    forall k | 0 <= k < |printed| ensures r[k] == CommaForm(c)[k] {
      if k < h {
        assert IsDigit(printed[k]) && printed[k] == CommaForm(c)[k];
      } else if k == h || k == h + 3 || k == h + 6 {
      } else {
        assert IsDigit(printed[k]) && printed[k] == CommaForm(c)[k];
      }
    }
  }

  /** Reads "H…H:MM:SS,mmm" back into its fields; None when the text has another shape. */
  function ParseClock(s: string): Option<Clock> {
    var n := |s|;
    if n < 12 || s[n - 10] != ':' || s[n - 7] != ':' || s[n - 4] != ',' then None
    else if !AllDigits(s[..n - 10]) || !AllDigits(s[n - 9..n - 7])
         || !AllDigits(s[n - 6..n - 4]) || !AllDigits(s[n - 3..]) then None
    else Some(Clock(DigitsValue(s[..n - 10]), DigitsValue(s[n - 9..n - 7]),
                    DigitsValue(s[n - 6..n - 4]), DigitsValue(s[n - 3..])))
  }

  /** Text that parses has the separators and digit runs the parser checks. */
  lemma ParsedShape(s: string)
    requires ParseClock(s).Some?
    ensures |s| >= 12
    ensures s[|s| - 10] == ':' && s[|s| - 7] == ':' && s[|s| - 4] == ','
    ensures AllDigits(s[..|s| - 10]) && AllDigits(s[|s| - 9..|s| - 7])
    ensures AllDigits(s[|s| - 6..|s| - 4]) && AllDigits(s[|s| - 3..])
  {
  }

  /** The duration in milliseconds that clock fields stand for. */
  function ClockValue(c: Clock): nat {
    c.hours * 3_600_000 + c.minutes * 60_000 + c.seconds * 1000 + c.millis
  }

  /** Reads "H…H:MM:SS,mmm" back into milliseconds; None when the text has another shape. */
  function ParseTimestamp(s: string): Option<nat> {
    match ParseClock(s)
    case None => None
    case Some(c) => Some(ClockValue(c))
  }

  /** For a whole number of milliseconds the printed fields recombine to the input. */
  lemma FormatTimestampRoundTrip(ms: nat)
    ensures ParseTimestamp(FormatTimestamp(ms)) == Some(ms)
  {
    var c := ClockOf(ms);
    FormatShape(c);
    ParseCommaForm(c);
  }

  /** Reading back digit fields joined by ':', ':' and ','. */
  lemma ParseFields(h: string, m: string, sec: string, ms: string)
    requires AllDigits(h) && AllDigits(m) && AllDigits(sec) && AllDigits(ms)
    requires |h| >= 2 && |m| == 2 && |sec| == 2 && |ms| == 3
    ensures ParseClock(h + ":" + m + ":" + sec + "," + ms) ==
      Some(Clock(DigitsValue(h), DigitsValue(m), DigitsValue(sec), DigitsValue(ms)))
  {
    var tail := TailFields(m, sec, ms);
    AppendAssoc(h, ":", m);
    AppendAssoc(h, ":" + m, ":");
    AppendAssoc(h, ":" + m + ":", sec);
    AppendAssoc(h, ":" + m + ":" + sec, ",");
    AppendAssoc(h, ":" + m + ":" + sec + ",", ms);
    assert h + ":" + m + ":" + sec + "," + ms == h + tail;
    ParseClockSplit(h, tail);
  }

  /** Parsing hours followed by a well-formed ten-character tail reads each field. */
  lemma ParseClockSplit(h: string, tail: string)
    requires AllDigits(h) && |h| >= 2 && |tail| == 10
    requires tail[0] == ':' && tail[3] == ':' && tail[6] == ','
    requires AllDigits(tail[1..3]) && AllDigits(tail[4..6]) && AllDigits(tail[7..])
    ensures ParseClock(h + tail) ==
      Some(Clock(DigitsValue(h), DigitsValue(tail[1..3]), DigitsValue(tail[4..6]), DigitsValue(tail[7..])))
  {
    PrefixSlices(h, tail);
  }

  /** The ten characters after the hours: separators and fields at fixed offsets. */
  lemma TailFields(m: string, sec: string, ms: string) returns (tail: string)
    requires |m| == 2 && |sec| == 2 && |ms| == 3
    ensures tail == ":" + m + ":" + sec + "," + ms && |tail| == 10
    ensures tail[0] == ':' && tail[3] == ':' && tail[6] == ','
    ensures tail[1..3] == m && tail[4..6] == sec && tail[7..] == ms
  {
    tail := ":" + m + ":" + sec + "," + ms;
    var t1 := ":" + m;
    var t3 := t1 + ":" + sec;
    assert tail[1..3] == t1[1..];
    assert tail[4..6] == t3[4..];
  }

  /** Slicing h + tail at the boundary gives the two parts back. */
  lemma PrefixSlices(h: string, tail: string)
    requires |tail| == 10
    ensures var r := h + tail; var n := |r|;
      r[..n - 10] == h && r[n - 10] == tail[0] && r[n - 7] == tail[3] && r[n - 4] == tail[6]
      && r[n - 9..n - 7] == tail[1..3] && r[n - 6..n - 4] == tail[4..6] && r[n - 3..] == tail[7..]
  {
  }

  lemma ParseCommaForm(c: Clock)
    requires c.minutes < 60 && c.seconds < 60 && c.millis < 1000
    ensures ParseClock(CommaForm(c)) == Some(c)
    ensures ParseTimestamp(CommaForm(c)) ==
      Some(c.hours * 3_600_000 + c.minutes * 60_000 + c.seconds * 1000 + c.millis)
  {
    FormatShape(c);
    ParseFields(PadNat(c.hours, 2), PadNat(c.minutes, 2), PadNat(c.seconds, 2), PadNat(c.millis, 3));
    PadNatValue(c.hours, 2);
    PadNatValue(c.minutes, 2);
    PadNatValue(c.seconds, 2);
    PadNatValue(c.millis, 3);
  }


  /** Two distinct durations never print the same timestamp. */
  lemma FormatTimestampInjective(a: nat, b: nat)
    requires FormatTimestamp(a) == FormatTimestamp(b)
    ensures a == b
  {
    FormatTimestampRoundTrip(a);
    FormatTimestampRoundTrip(b);
  }
}
