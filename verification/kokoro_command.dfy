/**
 * The script-driving Kokoro service of backend/services/kokoro_tts_service.py:
 * the command line it builds, the temporary files it creates and removes,
 * its error paths, and the parse of the `--help-voices` listing. Running
 * the process and reading audio are outside the model: their outcomes are
 * parameters. The disk is a map from path to content.
 */
module KokoroCommand {
  import opened Wrappers
  import opened Strings
  import Cli

  // ---------------------------------------------------------------- splitlines

  /** The characters `str.splitlines()` breaks at. */
  predicate IsLineBreak(c: char) {
    ('\n' <= c <= '\r') || ('\U{1c}' <= c <= '\U{1e}') || c == '\U{85}' || c == '\U{2028}' || c == '\U{2029}'
  }

  lemma LineBreakIsSpace(c: char)
    requires IsLineBreak(c)
    ensures IsSpace(c)
  {
  }

  /** Length of the longest prefix of `s` whose characters all satisfy `p`. */
  function Span(s: string, p: char -> bool): (n: nat)
    ensures n <= |s|
    ensures forall k :: 0 <= k < n ==> p(s[k])
    ensures n < |s| ==> !p(s[n])
  {
    if s == [] || !p(s[0]) then 0 else 1 + Span(s[1..], p)
  }

  /** The span of `a + b` is all of `a` when `b` does not continue it. */
  lemma {:induction false} SpanOf(a: string, b: string, p: char -> bool)
    requires forall k :: 0 <= k < |a| ==> p(a[k])
    requires b == [] || !p(b[0])
    ensures Span(a + b, p) == |a|
    decreases |a|
  {
    if a != [] {
      assert (a + b)[1..] == a[1..] + b;
      SpanOf(a[1..], b, p);
    } else {
      assert a + b == b;
    }
  }

  /** `s.splitlines()`: no trailing empty line, and "\r\n" is one break. */
  function SplitLines(s: string): seq<string>
    decreases |s|
  {
    if s == [] then []
    else
      var n := Span(s, c => !IsLineBreak(c));
      if n == |s| then [s]
      else
        var width := if s[n] == '\r' && n + 1 < |s| && s[n + 1] == '\n' then 2 else 1;
        [s[..n]] + SplitLines(s[n + width..])
  }

  /** What `print` writes for each of `lines`: the line, then "\n". */
  function Printed(lines: seq<string>): string {
    if lines == [] then "" else lines[0] + "\n" + Printed(lines[1..])
  }

  predicate NoLineBreak(s: string) {
    forall k :: 0 <= k < |s| ==> !IsLineBreak(s[k])
  }

  /** Splitting printed lines gives the lines back. */
  lemma {:induction false} SplitPrinted(lines: seq<string>)
    requires forall k :: 0 <= k < |lines| ==> NoLineBreak(lines[k])
    ensures SplitLines(Printed(lines)) == lines
    decreases |lines|
  {
    if lines != [] {
      var rest := lines[1..];
      assert forall k :: 0 <= k < |rest| ==> rest[k] == lines[k + 1];
      SplitLinesFirst(lines[0], Printed(rest));
      SplitPrinted(rest);
    }
  }

  /** A line without breaks followed by "\n" splits off as the first line. */
  lemma SplitLinesFirst(l: string, rest: string)
    requires NoLineBreak(l)
    ensures SplitLines(l + "\n" + rest) == [l] + SplitLines(rest)
  {
    var s := l + "\n" + rest;
    assert s == l + ("\n" + rest);
    SpanOf(l, "\n" + rest, c => !IsLineBreak(c));
    assert s[..|l|] == l;
    assert s[|l|] == '\n';
    assert s[|l| + 1..] == rest;
  }

  // ---------------------------------------------------------------- the voice pattern

  /**
   * `re.compile(r'(\d+)\.\s+(\w+)').match` at position `i`: group 2, the
   * word after digits, a dot and white space. No backtracking is needed:
   * none of the three classes can stand in for the character after it.
   */
  function MatchAt(line: string, i: nat, isWord: char -> bool): (r: Option<string>)
    requires i <= |line|
    ensures r.Some? ==> r.value != [] && forall k :: 0 <= k < |r.value| ==> isWord(r.value[k])
  {
    var t := line[i..];
    var digits := Span(t, IsDigit);
    if digits == 0 || digits == |t| || t[digits] != '.' then None
    else
      var u := t[digits + 1..];
      var spaces := Span(u, IsSpace);
      if spaces == 0 then None
      else
        var v := u[spaces..];
        var word := Span(v, isWord);
        if word == 0 then None else Some(v[..word])
  }

  /** `voice_pattern.search(line)`: the match at the leftmost position that has one. */
  function Search(line: string, isWord: char -> bool, i: nat): (r: Option<string>)
    requires i <= |line|
    decreases |line| - i
  {
    if MatchAt(line, i, isWord).Some? then MatchAt(line, i, isWord)
    else if i == |line| then None
    else Search(line, isWord, i + 1)
  }

  predicate NoDigit(s: string) {
    forall k :: 0 <= k < |s| ==> !IsDigit(s[k])
  }

  /** A line without digits never matches. */
  lemma {:induction false} NoDigitNoMatch(line: string, isWord: char -> bool, i: nat)
    requires i <= |line| && NoDigit(line)
    ensures Search(line, isWord, i) == None
    decreases |line| - i
  {
    if i < |line| {
      assert line[i..][0] == line[i];
      NoDigitNoMatch(line, isWord, i + 1);
    }
  }

  /** A word: non-empty, of `\w` characters only. */
  predicate IsWord(v: string, isWord: char -> bool) {
    v != [] && forall k :: 0 <= k < |v| ==> isWord(v[k])
  }

  /** A position that does not match passes the search on to the next one. */
  lemma SearchSkips(line: string, isWord: char -> bool, i: nat)
    requires i < |line| && MatchAt(line, i, isWord) == None
    ensures Search(line, isWord, i) == Search(line, isWord, i + 1)
  {
  }

  /** Nothing matches at a space. */
  lemma NoMatchAtSpace(line: string, isWord: char -> bool, i: nat)
    requires i < |line| && line[i] == ' '
    ensures MatchAt(line, i, isWord) == None
  {
    assert line[i..][0] == ' ';
  }

  /** The number, the dot, one space and a word: the match is the word. */
  lemma MatchNumbered(d: string, v: string, isWord: char -> bool)
    requires d != [] && AllDigits(d) && WordClass(isWord) && IsWord(v, isWord)
    ensures MatchAt(d + ". " + v, 0, isWord) == Some(v)
  {
    var t := d + ". " + v;
    assert t[0..] == t;
    assert t == d + (". " + v);
    SpanOf(d, ". " + v, IsDigit);
    assert t[|d|] == '.';
    var u := t[|d| + 1..];
    assert u == " " + v;
    SpanOf(" ", v, IsSpace);
    assert u[1..] == v;
    SpanOf(v, [], isWord);
    assert v + [] == v && v[..|v|] == v;
  }

  /** Shifting the search past a prefix. */
  lemma MatchAfter(p: string, t: string, isWord: char -> bool)
    ensures MatchAt(p + t, |p|, isWord) == MatchAt(t, 0, isWord)
  {
    assert (p + t)[|p|..] == t && t[0..] == t;
  }

  /** The listing's own line for voice number `n` yields that voice. */
  lemma VoiceLineMatches(n: nat, v: string, isWord: char -> bool)
    requires WordClass(isWord) && IsWord(v, isWord)
    ensures Search("    " + NatToString(n) + ". " + v, isWord, 0) == Some(v)
  {
    var d := NatToString(n);
    var line := "    " + d + ". " + v;
    assert line == "    " + (d + ". " + v) by {
      AppendAssoc("    ", d, ". ");
      AppendAssoc("    ", d + ". ", v);
    }
    IndentIsSpaces();
    IndentedNumberMatches("    ", d, v, isWord, line);
  }

  lemma IndentIsSpaces()
    ensures forall k :: 0 <= k < 4 ==> "    "[k] == ' '
  {
  }

  /** Indentation, a number, ". " and a word: the search finds the word. */
  lemma IndentedNumberMatches(indent: string, d: string, v: string, isWord: char -> bool, line: string)
    requires forall k :: 0 <= k < |indent| ==> indent[k] == ' '
    requires d != [] && AllDigits(d) && WordClass(isWord) && IsWord(v, isWord)
    requires line == indent + (d + ". " + v)
    ensures Search(line, isWord, 0) == Some(v)
  {
    MatchNumbered(d, v, isWord);
    SearchPastIndent(indent, d + ". " + v, isWord);
  }

  /** Leading spaces never match, so the search reaches the text after them. */
  lemma SearchPastIndent(indent: string, rest: string, isWord: char -> bool)
    requires forall k :: 0 <= k < |indent| ==> indent[k] == ' '
    requires MatchAt(rest, 0, isWord).Some?
    ensures Search(indent + rest, isWord, 0) == MatchAt(rest, 0, isWord)
  {
    var line := indent + rest;
    SearchOverSpaces(line, isWord, 0, |indent|);
    MatchAfter(indent, rest, isWord);
    SearchFound(line, isWord, |indent|);
  }

  /** A run of spaces is passed over by the search. */
  lemma {:induction false} SearchOverSpaces(line: string, isWord: char -> bool, i: nat, j: nat)
    requires i <= j <= |line| && forall k :: i <= k < j ==> line[k] == ' '
    ensures Search(line, isWord, i) == Search(line, isWord, j)
    decreases j - i
  {
    if i < j {
      NoMatchAtSpace(line, isWord, i);
      SearchSkips(line, isWord, i);
      SearchOverSpaces(line, isWord, i + 1, j);
    }
  }

  /** The search stops at a position that matches. */
  lemma SearchFound(line: string, isWord: char -> bool, i: nat)
    requires i <= |line| && MatchAt(line, i, isWord).Some?
    ensures Search(line, isWord, i) == MatchAt(line, i, isWord)
  {
  }

  // ---------------------------------------------------------------- the speaker list

  datatype Speaker = Speaker(id: string, name: string)

  /** `[{"id": "default", "name": "Default Speaker"}]` */
  const DefaultSpeakers: seq<Speaker> := [Speaker("default", "Default Speaker")]

  /** `voice_pattern.search(line)`, as the function the parse loop applies to each line. */
  function VoicePattern(isWord: char -> bool): string -> Option<string> {
    line => Search(line, isWord, 0)
  }

  /** What a line contributes: `{"id": voice_id, "name": f"Voice {voice_id}"}` if it matched. */
  function LineSpeaker(m: Option<string>): (r: seq<Speaker>)
    ensures |r| <= 1
  {
    match m
    case Some(id) => [Speaker(id, "Voice " + id)]
    case None => []
  }

  /** One speaker per line that `search` matches, in the order of the lines. */
  function Parsed(lines: seq<string>, search: string -> Option<string>): (r: seq<Speaker>)
    ensures |r| <= |lines|
    decreases |lines|
  {
    if lines == [] then []
    else Parsed(lines[..|lines| - 1], search) + LineSpeaker(search(lines[|lines| - 1]))
  }

  lemma {:induction false} ParsedAppend(a: seq<string>, b: seq<string>, search: string -> Option<string>)
    ensures Parsed(a + b, search) == Parsed(a, search) + Parsed(b, search)
    decreases |b|
  {
    if b == [] {
      assert a + b == a;
    } else {
      assert (a + b)[..|a + b| - 1] == a + b[..|b| - 1];
      assert (a + b)[|a + b| - 1] == b[|b| - 1];
      ParsedAppend(a, b[..|b| - 1], search);
    }
  }

  /** The speakers named after `voices`, in order. */
  function SpeakersOf(voices: seq<string>): (r: seq<Speaker>)
    ensures |r| == |voices|
  {
    seq(|voices|, k requires 0 <= k < |voices| => Speaker(voices[k], "Voice " + voices[k]))
  }

  /** The numbered lines of the listing. */
  function EntryLines(voices: seq<string>): seq<string> {
    seq(|voices|, k requires 0 <= k < |voices| => "    " + NatToString(k + 1) + ". " + voices[k])
  }

  lemma {:induction false} ParsedEntries(voices: seq<string>, isWord: char -> bool, m: nat)
    requires WordClass(isWord) && forall k :: 0 <= k < |voices| ==> IsWord(voices[k], isWord)
    requires m <= |voices|
    ensures Parsed(EntryLines(voices)[..m], VoicePattern(isWord)) == SpeakersOf(voices)[..m]
  {
    if m > 0 {
      ParsedEntries(voices, isWord, m - 1);
      var lines := EntryLines(voices)[..m];
      assert lines[..m - 1] == EntryLines(voices)[..m - 1];
      assert lines[m - 1] == EntryLines(voices)[m - 1];
      EntryLineParses(voices, isWord, m - 1);
      assert SpeakersOf(voices)[..m] == SpeakersOf(voices)[..m - 1] + [SpeakersOf(voices)[m - 1]];
    }
  }

  /** The k-th numbered line yields the k-th speaker. */
  lemma EntryLineParses(voices: seq<string>, isWord: char -> bool, k: nat)
    requires WordClass(isWord) && k < |voices| && IsWord(voices[k], isWord)
    ensures LineSpeaker(VoicePattern(isWord)(EntryLines(voices)[k])) == [SpeakersOf(voices)[k]]
  {
    var line := EntryLines(voices)[k];
    assert line == "    " + NatToString(k + 1) + ". " + voices[k];
    VoiceLineMatches(k + 1, voices[k], isWord);
    assert VoicePattern(isWord)(line) == Some(voices[k]);
  }

  /** A voice listing splits back into its lines. */
  lemma ListingLines(voices: seq<string>, isWord: char -> bool)
    requires WordClass(isWord) && forall k :: 0 <= k < |voices| ==> IsWord(voices[k], isWord)
    ensures SplitLines(Printed(Cli.VoiceListing(voices))) == Cli.VoiceListing(voices)
  {
    var lines := Cli.VoiceListing(voices);
    forall k | 0 <= k < |lines| ensures NoLineBreak(lines[k]) {
      if 2 <= k < |lines| - 1 {
        var v := voices[k - 2];
        var d := NatToString(k - 1);
        assert lines[k] == "    " + d + ". " + v;
        forall j | 0 <= j < |v| ensures !IsLineBreak(v[j]) {
          if IsLineBreak(v[j]) {
            LineBreakIsSpace(v[j]);
          }
        }
        forall j | 0 <= j < |lines[k]| ensures !IsLineBreak(lines[k][j]) {
          if j >= 4 + |d| + 2 {
            assert lines[k][j] == v[j - 4 - |d| - 2];
          } else if 4 <= j < 4 + |d| {
            assert lines[k][j] == d[j - 4];
          }
        }
      }
    }
    SplitPrinted(lines);
  }

  /** The listing is its numbered lines between the heading and a blank line. */
  lemma ListingFramed(voices: seq<string>)
    ensures Cli.VoiceListing(voices) == ["", "Supported voices:"] + EntryLines(voices) + [""]
  {
  }

  /** The heading and the blank lines around the entries do not match. */
  lemma FramingUnmatched(isWord: char -> bool)
    ensures VoicePattern(isWord)("") == None
    ensures VoicePattern(isWord)("Supported voices:") == None
  {
    assert NoDigit("Supported voices:");
    NoDigitNoMatch("Supported voices:", isWord, 0);
    NoDigitNoMatch("", isWord, 0);
  }

  /** Unmatched lines around the entries add no speaker. */
  lemma ParsedFramed(entries: seq<string>, search: string -> Option<string>)
    requires search("") == None && search("Supported voices:") == None
    ensures Parsed(["", "Supported voices:"] + entries + [""], search) == Parsed(entries, search)
  {
    ParsedAppend(["", "Supported voices:"] + entries, [""], search);
    ParsedAppend(["", "Supported voices:"], entries, search);
    assert ["", "Supported voices:"][..1] == [""];
    assert [""][..0] == [];
  }

  /**
   * Parsing what `--help-voices` prints gives one speaker per voice, in the
   * listing's order, for voices made of word characters.
   */
  lemma ListingRoundTrip(voices: seq<string>, isWord: char -> bool)
    requires WordClass(isWord) && forall k :: 0 <= k < |voices| ==> IsWord(voices[k], isWord)
    ensures Parsed(SplitLines(Printed(Cli.VoiceListing(voices))), VoicePattern(isWord)) == SpeakersOf(voices)
  {
    ListingLines(voices, isWord);
    ListingParsed(voices, isWord);
  }

  /** The listing's lines yield one speaker per voice. */
  lemma ListingParsed(voices: seq<string>, isWord: char -> bool)
    requires WordClass(isWord) && forall k :: 0 <= k < |voices| ==> IsWord(voices[k], isWord)
    ensures Parsed(Cli.VoiceListing(voices), VoicePattern(isWord)) == SpeakersOf(voices)
  {
    var entries := EntryLines(voices);
    ListingFramed(voices);
    FramingUnmatched(isWord);
    ParsedFramed(entries, VoicePattern(isWord));
    ParsedEntries(voices, isWord, |voices|);
    assert entries[..|voices|] == entries;
    assert SpeakersOf(voices)[..|voices|] == SpeakersOf(voices);
  }

  // ---------------------------------------------------------------- the service

  datatype Audio = Audio(samples: seq<int>, sampleRate: nat)

  /**
   * What running the script produced: `Popen` raised (the interpreter could
   * not be started, say), or the process ran and `process.communicate()` and
   * `sf.read` produced an exit code, the error output and the audio read back.
   */
  datatype Run =
    | NotStarted(raised: string)
    | Run(exitCode: int, stderr: string, written: Result<Audio, string>)

  datatype TtsError =
    | NotInstalled(path: string)          // ValueError, before any file is created
    | StartFailed(detail: string)         // whatever `Popen` raised
    | ProcessFailed(code: int, stderr: string)
    | ReadFailed(detail: string)          // whatever `sf.read` raised

  function Message(e: TtsError): string {
    match e
    case NotInstalled(path) => "Kokoro TTS not found at " + path
    case StartFailed(detail) => detail
    case ProcessFailed(code, stderr) => "Kokoro TTS failed with code " + IntToString(code) + ": " + stderr
    case ReadFailed(detail) => detail
  }

  /** The disk, as far as the service touches it. */
  class Disk {
    var files: map<string, string>

    constructor(files: map<string, string>)
      ensures this.files == files
    {
      this.files := files;
    }
  }

  /** `KokoroTTSService`: where the script lives and which interpreter runs it. */
  class KokoroService {
    const kokoroPath: string
    const pythonExec: string

    /** `__init__`: `envPath` is `KOKORO_TTS_PATH`, `envPython` is `KOKORO_PYTHON`. */
    constructor(envPath: Option<string>, envPython: Option<string>, baseDir: string)
      ensures kokoroPath == envPath.GetOr(PathJoin(baseDir, "kokoro-tts"))
      ensures pythonExec == envPython.GetOr("python")
    {
      kokoroPath := envPath.GetOr(PathJoin(baseDir, "kokoro-tts"));
      pythonExec := envPython.GetOr("python");
    }

    function Script(): string
      reads this
    {
      PathJoin(kokoroPath, "kokoro-tts")
    }

    /** The arguments of the synthesis run; `showSpeed` is `str` on floats. */
    function Command(inputPath: string, outputPath: string, speakerId: string, speed: real,
                     showSpeed: real -> string): (cmd: seq<string>)
      reads this
      ensures |cmd| == (if speed != 1.0 then 8 else 6)
      ensures cmd[..6] == [pythonExec, Script(), inputPath, outputPath, "--voice", speakerId]
      ensures speed != 1.0 ==> cmd[6..] == ["--speed", showSpeed(speed)]
    {
      [pythonExec, Script(), inputPath, outputPath, "--voice", speakerId]
        + (if speed != 1.0 then ["--speed", showSpeed(speed)] else [])
    }

    /** The script accepts the command: it has no option the script does not know. */
    lemma CommandAccepted(inputPath: string, outputPath: string, speakerId: string, speed: real,
                          showSpeed: real -> string)
      requires !Cli.IsOption(inputPath) && !Cli.IsOption(outputPath)
      ensures Cli.UnknownFrom(Cli.Arguments(Command(inputPath, outputPath, speakerId, speed, showSpeed)[1..])) == []
    {
      var cmd := Command(inputPath, outputPath, speakerId, speed, showSpeed);
      var args := Cli.Arguments(cmd[1..]);
      assert args == cmd[2..];
      assert args[1..] == cmd[3..];
      assert args[1..][1..] == cmd[4..];
      assert Cli.IsOption("--voice") && "--voice" in Cli.ValueOptions;
      assert Cli.Remaining(cmd[4..], 2) == cmd[6..];
      if speed != 1.0 {
        assert Cli.IsOption("--speed") && "--speed" in Cli.ValueOptions;
        assert Cli.Remaining(cmd[6..], 2) == [];
        assert Cli.UnknownFrom(cmd[6..]) == [];
      } else {
        assert cmd[6..] == [];
      }
      assert Cli.UnknownFrom(cmd[4..]) == Cli.UnknownFrom(cmd[6..]);
      assert Cli.UnknownFrom(cmd[3..]) == Cli.UnknownFrom(cmd[4..]);
      assert Cli.UnknownFrom(cmd[2..]) == Cli.UnknownFrom(cmd[3..]);
    }

    /** `cmd = [...]` and, for a speed other than 1.0, `cmd.extend(["--speed", str(speed)])`. */
    method BuildCommand(inputPath: string, outputPath: string, speakerId: string, speed: real,
                        showSpeed: real -> string) returns (cmd: seq<string>)
      ensures cmd == Command(inputPath, outputPath, speakerId, speed, showSpeed)
    {
      cmd := [pythonExec, Script(), inputPath, outputPath, "--voice", speakerId];
      if speed != 1.0 {
        cmd := cmd + ["--speed", showSpeed(speed)];
      }
    }

    /**
     * `generate_speech`: refuses to start without the installation; else
     * writes the text to a fresh input file next to a fresh output file,
     * runs the script, fails on a non-zero exit code, reads the audio, and
     * in every case removes both temporary files again.
     */
    method GenerateSpeech(disk: Disk, installed: bool, text: string, speakerId: string, speed: real,
                          showSpeed: real -> string, outputPath: string, inputPath: string, run: Run)
      returns (r: Result<Audio, TtsError>, cmd: seq<string>)
      requires outputPath != inputPath && outputPath !in disk.files && inputPath !in disk.files
      modifies disk
      ensures disk.files == old(disk.files)
      ensures !installed ==> r == Err(NotInstalled(kokoroPath)) && cmd == []
      ensures installed ==> cmd == Command(inputPath, outputPath, speakerId, speed, showSpeed)
      ensures installed && run.NotStarted? ==> r == Err(StartFailed(run.raised))
      ensures installed && run.Run? && run.exitCode != 0 ==> r == Err(ProcessFailed(run.exitCode, run.stderr))
      ensures installed && run.Run? && run.exitCode == 0 && run.written.Ok? ==> r == Ok(run.written.value)
      ensures installed && run.Run? && run.exitCode == 0 && run.written.Err? ==> r == Err(ReadFailed(run.written.error))
    {
      cmd := [];
      if !installed {
        return Err(NotInstalled(kokoroPath)), cmd;
      }
      disk.files := disk.files[outputPath := ""];
      disk.files := disk.files[inputPath := text];
      cmd := BuildCommand(inputPath, outputPath, speakerId, speed, showSpeed);
      if run.NotStarted? {
        r := Err(StartFailed(run.raised));
      } else if run.exitCode != 0 {
        r := Err(ProcessFailed(run.exitCode, run.stderr));
      } else if run.written.Err? {
        r := Err(ReadFailed(run.written.error));
      } else {
        r := Ok(run.written.value);
      }
      // the `finally` block
      if outputPath in disk.files {
        disk.files := disk.files - {outputPath};
      }
      if inputPath in disk.files {
        disk.files := disk.files - {inputPath};
      }
    }

    /**
     * `get_available_speakers`: the default speaker without the
     * installation, when running `--help-voices` raised (`output` is then
     * an error), or when no line matched; otherwise one speaker per
     * matching line of the decoded output.
     */
    method GetAvailableSpeakers(installed: bool, output: Result<string, string>, isWord: char -> bool)
      returns (speakers: seq<Speaker>)
      ensures speakers != []
      ensures !installed || output.Err? ==> speakers == DefaultSpeakers
      ensures installed && output.Ok? ==>
        speakers == (if Parsed(SplitLines(output.value), VoicePattern(isWord)) == [] then DefaultSpeakers
                     else Parsed(SplitLines(output.value), VoicePattern(isWord)))
    {
      if !installed || output.Err? {
        return DefaultSpeakers;
      }
      var lines := SplitLines(output.value);
      var found: seq<Speaker> := [];
      for i := 0 to |lines|
        invariant found == Parsed(lines[..i], VoicePattern(isWord))
      {
        assert lines[..i + 1][..i] == lines[..i];
        var m := Search(lines[i], isWord, 0);
        assert m == VoicePattern(isWord)(lines[..i + 1][i]);
        if m.Some? {
          found := found + [Speaker(m.value, "Voice " + m.value)];
        } else {
          assert found + LineSpeaker(m) == found;
        }
      }
      assert lines[..|lines|] == lines;
      speakers := if found == [] then DefaultSpeakers else found;
    }

    /** The list command: the script with `--help-voices`. */
    function ListCommand(): (cmd: seq<string>)
      reads this
      ensures cmd == [pythonExec, Script(), "--help-voices"] && "--help-voices" in Cli.ValidOptions
    {
      [pythonExec, Script(), "--help-voices"]
    }
  }

  /** What the service reads back from the script's own listing: one speaker per voice, or the default for none. */
  lemma SpeakersFromListing(voices: seq<string>, isWord: char -> bool)
    requires WordClass(isWord) && forall k :: 0 <= k < |voices| ==> IsWord(voices[k], isWord)
    ensures var parsed := Parsed(SplitLines(Printed(Cli.VoiceListing(voices))), VoicePattern(isWord));
      (if parsed == [] then DefaultSpeakers else parsed) == (if voices == [] then DefaultSpeakers else SpeakersOf(voices))
  {
    ListingRoundTrip(voices, isWord);
  }
}
