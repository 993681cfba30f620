/**
 * The command-line logic of backend/kokoro-tts.py that is not audio work:
 * the scan of `sys.argv` for unknown options, the naming of merged chapter
 * files, the `--help-voices` listing and the structure check of a voice
 * argument.
 */
module Cli {
  import opened Wrappers
  import opened Strings

  // ---------------------------------------------------------------- unknown options

  /** get_valid_options */
  const ValidOptions: set<string> := {
    "-h", "--help", "--help-languages", "--help-voices", "--merge-chunks", "--stream",
    "--speed", "--lang", "--voice", "--split-output", "--format", "--debug"
  }

  /** The options whose value is the next argument. */
  const ValueOptions: set<string> := {"--speed", "--lang", "--voice", "--split-output", "--format"}

  lemma ValueOptionsAreValid()
    ensures ValueOptions <= ValidOptions
  {
  }

  /** `arg.startswith('--') or arg.startswith('-')` */
  predicate IsOption(arg: string) {
    StartsWith(arg, "--") || StartsWith(arg, "-")
  }

  /** An option the script does not know: the scan reports it. */
  predicate IsUnknown(arg: string) {
    IsOption(arg) && arg !in ValidOptions
  }

  /** A known option whose value the scan skips. */
  predicate TakesValue(arg: string) {
    IsOption(arg) && arg in ValueOptions
  }

  /** `argv[i:]`, empty once `i` has run past the end. */
  function Remaining(argv: seq<string>, i: nat): (r: seq<string>)
    ensures |r| == if i < |argv| then |argv| - i else 0
  {
    if i < |argv| then argv[i..] else []
  }

  /** The arguments after the program name. */
  function Arguments(argv: seq<string>): seq<string> {
    Remaining(argv, 1)
  }

  /**
   * What the scan reports when it starts at `args[0]`: an unknown option is
   * reported, a known option taking a value skips that value.
   */
  function UnknownFrom(args: seq<string>): seq<string>
    decreases |args|
  {
    if args == [] then []
    else
      var arg := args[0];
      if IsUnknown(arg) then [arg] + UnknownFrom(args[1..])
      else if TakesValue(arg) then UnknownFrom(Remaining(args, 2))
      else UnknownFrom(args[1..])
  }

  /** One argument of the scan, as an equation between the reports from `i` and from the next argument. */
  lemma ScanStep(argv: seq<string>, i: nat)
    requires i < |argv|
    ensures UnknownFrom(Remaining(argv, i)) ==
      if IsUnknown(argv[i]) then [argv[i]] + UnknownFrom(Remaining(argv, i + 1))
      else if TakesValue(argv[i]) then UnknownFrom(Remaining(argv, i + 2))
      else UnknownFrom(Remaining(argv, i + 1))
  {
    var rest := argv[i..];
    assert rest[1..] == Remaining(argv, i + 1);
    assert Remaining(rest, 2) == Remaining(argv, i + 2);
  }

  /** The `while i < len(sys.argv)` scan of the script's entry point. */
  method ScanOptions(argv: seq<string>) returns (unknown: seq<string>)
    ensures unknown == UnknownFrom(Arguments(argv))
  {
    unknown := [];
    var i := 1;
    while i < |argv|
      invariant 1 <= i <= |argv| + 1
      invariant unknown + UnknownFrom(Remaining(argv, i)) == UnknownFrom(Arguments(argv))
      decreases |argv| + 1 - i
    {
      var arg := argv[i];
      ScanStep(argv, i);
      if IsUnknown(arg) {
        assert unknown + [arg] + UnknownFrom(Remaining(argv, i + 1)) == unknown + ([arg] + UnknownFrom(Remaining(argv, i + 1)));
        unknown := unknown + [arg];
      } else if TakesValue(arg) {
        i := i + 1;
      }
      i := i + 1;
    }
    assert unknown + [] == unknown;
  }

  /** Every reported argument looks like an option, is not a valid one, and was given. */
  lemma {:induction false} UnknownSound(args: seq<string>)
    ensures forall u :: u in UnknownFrom(args) ==> IsOption(u) && u !in ValidOptions && u in args
    decreases |args|
  {
    if args != [] {
      UnknownSound(args[1..]);
      UnknownSound(Remaining(args, 2));
      forall u | u in args[1..] ensures u in args {
        var k :| 0 <= k < |args[1..]| && args[1..][k] == u;
        assert args[k + 1] == u;
      }
      forall u | u in Remaining(args, 2) ensures u in args {
        var k :| 0 <= k < |Remaining(args, 2)| && Remaining(args, 2)[k] == u;
        assert args[k + 2] == u;
      }
    }
  }

  /** The option-looking arguments outside the valid set, in order. */
  function Flagged(args: seq<string>): seq<string> {
    if args == [] then []
    else (if IsOption(args[0]) && args[0] !in ValidOptions then [args[0]] else []) + Flagged(args[1..])
  }

  /** Without value-taking options nothing is skipped: every unknown option is reported, in order. */
  lemma {:induction false} UnknownWithoutValues(args: seq<string>)
    requires forall k :: 0 <= k < |args| ==> args[k] !in ValueOptions
    ensures UnknownFrom(args) == Flagged(args)
    decreases |args|
  {
    if args != [] {
      assert forall k :: 0 <= k < |args[1..]| ==> args[1..][k] == args[k + 1];
      UnknownWithoutValues(args[1..]);
      if !(IsOption(args[0]) && args[0] !in ValidOptions) {
        assert [] + Flagged(args[1..]) == Flagged(args[1..]);
      }
    }
  }

  /** The value after `--voice` is skipped even when it looks like an option. */
  lemma ValueIsSkipped()
    ensures UnknownFrom(["--voice", "-x", "-y"]) == ["-y"]
  {
    var args := ["--voice", "-x", "-y"];
    assert IsOption("--voice") && "--voice" in ValueOptions;
    assert Remaining(args, 2) == ["-y"];
    assert StartsWith("-y", "-");
    assert "-y" !in ValidOptions;
    assert ["-y"][1..] == [];
  }

  // ---------------------------------------------------------------- merged chapter names

  /** A directory entry of the split-output directory. */
  datatype Entry =
    | File(fileName: string)
    | Directory(dir: ChapterDir)

  /**
   * A sub-directory: its name, the names of its files, and the lines of its
   * `info.txt` (`None` when there is no such file). Lines keep their "\n".
   */
  datatype ChapterDir = ChapterDir(name: string, files: seq<string>, info: Option<seq<string>>)

  /** The directories whose name starts with "chapter_", in listing order. */
  function ChapterDirs(entries: seq<Entry>): (r: seq<ChapterDir>)
    ensures forall k :: 0 <= k < |r| ==> StartsWith(r[k].name, "chapter_")
  {
    if entries == [] then []
    else
      var rest := ChapterDirs(entries[1..]);
      match entries[0]
      case Directory(d) => if StartsWith(d.name, "chapter_") then [d] + rest else rest
      case File(_) => rest
  }

  /** The chunk files of a chapter: "chunk_*.{format}". */
  function ChunkFiles(files: seq<string>, format: string): (r: seq<string>)
    ensures forall k :: 0 <= k < |r| ==> r[k] in files && StartsWith(r[k], "chunk_")
    ensures forall k :: 0 <= k < |r| ==> EndsWith(r[k], "." + format)
  {
    if files == [] then []
    else
      var rest := ChunkFiles(files[1..], format);
      assert forall k :: 0 <= k < |rest| ==> rest[k] in files by {
        forall k | 0 <= k < |rest| ensures rest[k] in files {
          var j :| 0 <= j < |files[1..]| && files[1..][j] == rest[k];
          assert files[j + 1] == rest[k];
        }
      }
      if StartsWith(files[0], "chunk_") && EndsWith(files[0], "." + format) then [files[0]] + rest else rest
  }

  /** The first line of `info.txt` that starts with "Title:". */
  function TitleLine(lines: seq<string>): (r: Option<string>)
    ensures r.None? <==> forall k :: 0 <= k < |lines| ==> !StartsWith(lines[k], "Title:")
    ensures r.Some? ==> exists k :: 0 <= k < |lines| && lines[k] == r.value && StartsWith(r.value, "Title:")
                          && forall j :: 0 <= j < k ==> !StartsWith(lines[j], "Title:")
  {
    if lines == [] then None
    else if StartsWith(lines[0], "Title:") then Some(lines[0])
    else
      var r := TitleLine(lines[1..]);
      assert forall k :: 0 <= k < |lines[1..]| ==> lines[1..][k] == lines[k + 1];
      if r.Some? then
        var k :| 0 <= k < |lines[1..]| && lines[1..][k] == r.value && StartsWith(r.value, "Title:")
                 && forall j :: 0 <= j < k ==> !StartsWith(lines[1..][j], "Title:");
        assert lines[k + 1] == r.value;
        assert forall j :: 0 <= j < k + 1 ==> !StartsWith(lines[j], "Title:") by {
          forall j | 0 <= j < k + 1 ensures !StartsWith(lines[j], "Title:") {
            if j > 0 { assert lines[j] == lines[1..][j - 1]; }
          }
        }
        r
      else
        r
  }

  /** The chapter title: from the "Title:" line of `info.txt`, else the directory name. */
  function ChapterTitle(d: ChapterDir): string {
    match d.info
    case None => d.name
    case Some(lines) =>
      match TitleLine(lines)
      case None => d.name
      case Some(line) => Strip(ReplaceAll(line, "Title:", ""))
  }

  /** The characters a file-name title keeps: `c.isalnum() or c in (' ', '-', '_')`. */
  predicate TitleChar(c: char, isAlnum: char -> bool) {
    isAlnum(c) || c == ' ' || c == '-' || c == '_'
  }

  /** `"".join(c for c in title if ...)` */
  function KeepTitleChars(title: string, isAlnum: char -> bool): (r: string)
    ensures |r| <= |title|
    ensures forall k :: 0 <= k < |r| ==> TitleChar(r[k], isAlnum)
  {
    if title == [] then []
    else
      var rest := KeepTitleChars(title[1..], isAlnum);
      if TitleChar(title[0], isAlnum) then [title[0]] + rest else rest
  }

  /** A title made only of kept characters passes the filter unchanged. */
  lemma {:induction false} KeepTitleCharsNoOp(title: string, isAlnum: char -> bool)
    requires forall k :: 0 <= k < |title| ==> TitleChar(title[k], isAlnum)
    ensures KeepTitleChars(title, isAlnum) == title
  {
    if title != [] {
      assert forall k :: 0 <= k < |title[1..]| ==> title[1..][k] == title[k + 1];
      KeepTitleCharsNoOp(title[1..], isAlnum);
      assert [title[0]] + title[1..] == title;
    }
  }

  /** `safe_title`: the kept characters, stripped. */
  function SafeTitle(title: string, isAlnum: char -> bool): (r: string)
    ensures |r| <= |title|
    ensures r == [] || (!IsSpace(r[0]) && !IsSpace(r[|r| - 1]))
  {
    Strip(KeepTitleChars(title, isAlnum))
  }

  /** A title of kept characters with no white space at either end is already safe. */
  lemma SafeTitleNoOp(title: string, isAlnum: char -> bool)
    requires forall k :: 0 <= k < |title| ==> TitleChar(title[k], isAlnum)
    requires title == [] || (!IsSpace(title[0]) && !IsSpace(title[|title| - 1]))
    ensures SafeTitle(title, isAlnum) == title
  {
    KeepTitleCharsNoOp(title, isAlnum);
    StripNoOp(title);
  }

  /** The safe title of each chapter, as merge_chunks_to_chapters computes it. */
  function SafeTitleOf(isAlnum: char -> bool): ChapterDir -> string {
    d => SafeTitle(ChapterTitle(d), isAlnum)
  }

  /** A chapter to merge and the stem of its merged file, "{stem}.{format}". */
  datatype Merge = Merge(chapter: string, stem: string)

  function FileName(m: Merge, format: string): string {
    m.stem + "." + format
  }

  /** The merges planned so far and the titles recorded in `used_titles`. */
  datatype NamingState = NamingState(merges: seq<Merge>, used: set<string>)

  /**
   * One chapter directory, given its safe title `safe`. A directory without
   * chunk files is skipped. An empty safe title, one already used or one in
   * `reserved` falls back to the directory name; otherwise the title is the
   * stem and is recorded. The source's own naming reserves nothing.
   */
  function NameStep(st: NamingState, d: ChapterDir, format: string, safe: string,
                    reserved: set<string>): NamingState
  {
    if ChunkFiles(d.files, format) == [] then st
    else if safe == "" || safe in st.used || safe in reserved then
      NamingState(st.merges + [Merge(d.name, d.name)], st.used)
    else
      NamingState(st.merges + [Merge(d.name, safe)], st.used + {safe})
  }

  /** The naming loop of merge_chunks_to_chapters over `dirs`, with `safeOf` giving each safe title. */
  function Naming(dirs: seq<ChapterDir>, format: string, safeOf: ChapterDir -> string,
                  reserved: set<string>): NamingState
    decreases |dirs|
  {
    if dirs == [] then NamingState([], {})
    else
      var d := dirs[|dirs| - 1];
      NameStep(Naming(dirs[..|dirs| - 1], format, safeOf, reserved), d, format, safeOf(d), reserved)
  }

  /** The directories that have chunk files, in order. */
  function WithChunks(dirs: seq<ChapterDir>, format: string): seq<string>
    decreases |dirs|
  {
    if dirs == [] then []
    else
      var d := dirs[|dirs| - 1];
      WithChunks(dirs[..|dirs| - 1], format) + (if ChunkFiles(d.files, format) == [] then [] else [d.name])
  }

  function Chapters(merges: seq<Merge>): (r: seq<string>)
    ensures |r| == |merges| && forall k :: 0 <= k < |r| ==> r[k] == merges[k].chapter
  {
    seq(|merges|, k requires 0 <= k < |merges| => merges[k].chapter)
  }

  /**
   * merge_chunks_to_chapters, naming part: nothing when the output directory
   * does not exist; otherwise one merge per chapter directory with chunks.
   * `safeOf` is the title cleaning, `SafeTitleOf(isAlnum)` in the source.
   */
  method MergeNames(listing: Option<seq<Entry>>, format: string, safeOf: ChapterDir -> string)
    returns (merges: seq<Merge>)
    ensures listing.None? ==> merges == []
    ensures listing.Some? ==> merges == Naming(ChapterDirs(listing.value), format, safeOf, {}).merges
  {
    merges := [];
    if listing.None? {
      return;
    }
    var dirs := ChapterDirs(listing.value);
    var used: set<string> := {};
    var i := 0;
    while i < |dirs|
      invariant 0 <= i <= |dirs|
      invariant NamingState(merges, used) == Naming(dirs[..i], format, safeOf, {})
    {
      var d := dirs[i];
      assert dirs[..i + 1][..i] == dirs[..i];
      if ChunkFiles(d.files, format) != [] {
        var safe := safeOf(d);
        if safe == "" || safe in used {
          merges := merges + [Merge(d.name, d.name)];
        } else {
          merges := merges + [Merge(d.name, safe)];
          used := used + {safe};
        }
      }
      i := i + 1;
    }
    assert dirs[..|dirs|] == dirs;
  }

  /** One merge per directory with chunks, in directory order; a title stem is never empty. */
  lemma {:induction false} NamingChapters(dirs: seq<ChapterDir>, format: string, safeOf: ChapterDir -> string,
                                          reserved: set<string>)
    ensures var ms := Naming(dirs, format, safeOf, reserved).merges;
      && Chapters(ms) == WithChunks(dirs, format)
      && forall k :: 0 <= k < |ms| ==> ms[k].stem == ms[k].chapter || ms[k].stem != ""
    decreases |dirs|
  {
    if dirs != [] {
      var init := dirs[..|dirs| - 1];
      NamingChapters(init, format, safeOf, reserved);
      var st := Naming(init, format, safeOf, reserved);
      var ms := Naming(dirs, format, safeOf, reserved).merges;
      if |ms| != |st.merges| {
        assert Chapters(ms) == Chapters(st.merges) + [dirs[|dirs| - 1].name];
      }
    }
  }

  /** The directory names of a listing. */
  function DirNames(dirs: seq<ChapterDir>): set<string> {
    set k | 0 <= k < |dirs| :: dirs[k].name
  }

  predicate DistinctNames(dirs: seq<ChapterDir>) {
    forall i, j :: 0 <= i < j < |dirs| ==> dirs[i].name != dirs[j].name
  }

  predicate DistinctStems(ms: seq<Merge>) {
    forall i, j :: 0 <= i < j < |ms| ==> ms[i].stem != ms[j].stem
  }

  /**
   * What the reserving naming keeps: stems are distinct; a title stem is
   * recorded and not reserved; a fallback stem is its chapter's name;
   * chapters are directories seen so far.
   */
  predicate NamingOk(st: NamingState, seen: seq<ChapterDir>, reserved: set<string>) {
    && DistinctStems(st.merges)
    && (forall k :: 0 <= k < |st.merges| ==>
          (st.merges[k].stem in st.used && st.merges[k].stem !in reserved) || st.merges[k].stem == st.merges[k].chapter)
    && (forall k :: 0 <= k < |st.merges| ==> st.merges[k].chapter in DirNames(seen))
    && (forall t :: t in st.used ==> t !in reserved)
  }

  lemma NameStepOk(st: NamingState, seen: seq<ChapterDir>, d: ChapterDir, format: string,
                   safe: string, reserved: set<string>)
    requires NamingOk(st, seen, reserved) && DirNames(seen) <= reserved
    requires d.name in reserved && d.name !in DirNames(seen)
    ensures NamingOk(NameStep(st, d, format, safe, reserved), seen + [d], reserved)
  {
    var seen' := seen + [d];
    assert DirNames(seen') == DirNames(seen) + {d.name} by {
      forall n | n in DirNames(seen) ensures n in DirNames(seen') {
        var k :| 0 <= k < |seen| && seen[k].name == n;
        assert seen'[k].name == n;
      }
      assert seen'[|seen|].name == d.name;
    }
    var st' := NameStep(st, d, format, safe, reserved);
    if |st'.merges| != |st.merges| {
      var m := st'.merges[|st.merges|];
      assert st'.merges == st.merges + [m];
      forall k | 0 <= k < |st.merges| ensures st.merges[k].stem != m.stem {
        if st.merges[k].stem == st.merges[k].chapter {
          assert st.merges[k].chapter != d.name;
        }
      }
    }
  }

  lemma {:induction false} NamingPrefixOk(dirs: seq<ChapterDir>, n: nat, format: string, safeOf: ChapterDir -> string)
    requires DistinctNames(dirs) && n <= |dirs|
    ensures NamingOk(Naming(dirs[..n], format, safeOf, DirNames(dirs)), dirs[..n], DirNames(dirs))
  {
    var reserved := DirNames(dirs);
    if n > 0 {
      NamingPrefixOk(dirs, n - 1, format, safeOf);
      var d := dirs[n - 1];
      assert dirs[..n][..n - 1] == dirs[..n - 1];
      assert dirs[..n] == dirs[..n - 1] + [d];
      assert d.name in reserved;
      assert d.name !in DirNames(dirs[..n - 1]);
      assert DirNames(dirs[..n - 1]) <= reserved by {
        forall x | x in DirNames(dirs[..n - 1]) ensures x in reserved {
          var k :| 0 <= k < n - 1 && dirs[..n - 1][k].name == x;
          assert dirs[k].name == x;
        }
      }
      NameStepOk(Naming(dirs[..n - 1], format, safeOf, reserved), dirs[..n - 1], d, format, safeOf(d), reserved);
    } else {
      assert DirNames([]) == {};
    }
  }

  lemma FileNameInjective(a: Merge, b: Merge, format: string)
    requires a.stem != b.stem
    ensures FileName(a, format) != FileName(b, format)
  {
    var x, y := FileName(a, format), FileName(b, format);
    if |a.stem| == |b.stem| {
      var k :| 0 <= k < |a.stem| && a.stem[k] != b.stem[k];
      assert x[k] == a.stem[k] && y[k] == b.stem[k];
    } else {
      assert |x| != |y|;
    }
  }

  /**
   * When every directory name is reserved, merged file names are pairwise
   * distinct, so no merged chapter overwrites another.
   */
  lemma ReservedNamingDistinct(dirs: seq<ChapterDir>, format: string, safeOf: ChapterDir -> string)
    requires DistinctNames(dirs)
    ensures var ms := Naming(dirs, format, safeOf, DirNames(dirs)).merges;
      forall i, j :: 0 <= i < j < |ms| ==> FileName(ms[i], format) != FileName(ms[j], format)
  {
    NamingPrefixOk(dirs, |dirs|, format, safeOf);
    assert dirs[..|dirs|] == dirs;
    var ms := Naming(dirs, format, safeOf, DirNames(dirs)).merges;
    forall i, j | 0 <= i < j < |ms| ensures FileName(ms[i], format) != FileName(ms[j], format) {
      FileNameInjective(ms[i], ms[j], format);
    }
  }

  /**
   * The fallback name is never recorded: a chapter without a usable title
   * falls back to its directory name, and a later chapter whose safe title is
   * that name gets the same file.
   */
  lemma NamingCollidesWhen(d1: ChapterDir, d2: ChapterDir, format: string, safeOf: ChapterDir -> string)
    requires ChunkFiles(d1.files, format) != [] && ChunkFiles(d2.files, format) != []
    requires d1.name != "" && safeOf(d1) == "" && safeOf(d2) == d1.name
    ensures var ms := Naming([d1, d2], format, safeOf, {}).merges;
      |ms| == 2 && ms[0].stem == ms[1].stem == d1.name && FileName(ms[0], format) == FileName(ms[1], format)
  {
    assert [d1, d2][..1] == [d1];
    assert [d1][..0] == [];
    var st0 := Naming([], format, safeOf, {});
    assert st0 == NamingState([], {});
    var st1 := Naming([d1], format, safeOf, {});
    assert st1 == NameStep(st0, d1, format, safeOf(d1), {});
    assert st1 == NamingState([Merge(d1.name, d1.name)], {});
    var st2 := Naming([d1, d2], format, safeOf, {});
    assert st2 == NameStep(st1, d2, format, safeOf(d2), {});
    assert st2.merges == [Merge(d1.name, d1.name), Merge(d2.name, d1.name)];
  }

  /** A chapter with one chunk file and an `info.txt` whose title line is "Title:" + `title`. */
  function Titled(name: string, title: string): ChapterDir {
    ChapterDir(name, ["chunk_0.wav"], Some(["Title:" + title]))
  }

  lemma TitledChunks(name: string, title: string)
    ensures ChunkFiles(Titled(name, title).files, "wav") != []
  {
    assert ["chunk_0.wav"][1..] == [];
    assert "chunk_0.wav"[..6] == "chunk_";
    assert "chunk_0.wav"[7..] == ".wav";
  }

  lemma TitledTitle(name: string, title: string)
    requires forall k :: 0 <= k < |title| ==> title[k] != ':'
    requires title == [] || (!IsSpace(title[0]) && !IsSpace(title[|title| - 1]))
    ensures ChapterTitle(Titled(name, title)) == title
  {
    var line := "Title:" + title;
    assert StartsWith(line, "Title:") by { assert line[..6] == "Title:"; }
    assert TitleLine([line]) == Some(line);
    ReplaceAllNoColon(title);
    StripNoOp(title);
  }

  lemma ReplaceAllNoColon(title: string)
    requires forall k :: 0 <= k < |title| ==> title[k] != ':'
    ensures ReplaceAll("Title:" + title, "Title:", "") == title
  {
    var line := "Title:" + title;
    assert StartsWith(line, "Title:") by { assert line[..6] == "Title:"; }
    assert line[6..] == title;
    ReplaceAllAbsent(title);
  }

  lemma {:induction false} ReplaceAllAbsent(s: string)
    requires forall k :: 0 <= k < |s| ==> s[k] != ':'
    ensures ReplaceAll(s, "Title:", "") == s
    decreases |s|
  {
    if |s| > 0 {
      assert !StartsWith(s, "Title:") by {
        if |s| >= 6 { assert s[..6][5] == s[5]; }
      }
      assert forall k :: 0 <= k < |s[1..]| ==> s[1..][k] == s[k + 1];
      ReplaceAllAbsent(s[1..]);
      assert [s[0]] + s[1..] == s;
    }
  }

  lemma SafeTitleOfTitled(name: string, title: string, isAlnum: char -> bool)
    requires forall k :: 0 <= k < |title| ==> title[k] != ':' && TitleChar(title[k], isAlnum)
    requires title == [] || (!IsSpace(title[0]) && !IsSpace(title[|title| - 1]))
    ensures SafeTitleOf(isAlnum)(Titled(name, title)) == title
  {
    TitledTitle(name, title);
    SafeTitleNoOp(title, isAlnum);
  }

  /** The title "chapter_1" passes the title cleaning unchanged. */
  lemma ChapterOneIsSafe(isAlnum: char -> bool)
    requires forall c :: IsAsciiAlnum(c) ==> isAlnum(c)
    ensures SafeTitleOf(isAlnum)(Titled("chapter_2", "chapter_1")) == "chapter_1"
  {
    var t := "chapter_1";
    assert t == ['c', 'h', 'a', 'p', 't', 'e', 'r', '_', '1'];
    assert IsAsciiAlnum('c') && IsAsciiAlnum('h') && IsAsciiAlnum('a') && IsAsciiAlnum('p');
    assert IsAsciiAlnum('t') && IsAsciiAlnum('e') && IsAsciiAlnum('r') && IsAsciiAlnum('1');
    assert !IsSpace(t[0]) && !IsSpace(t[8]);
    SafeTitleOfTitled("chapter_2", t, isAlnum);
  }

  /**
   * An untitled "chapter_1" falls back to "chapter_1.wav", and a later
   * chapter titled "chapter_1" is merged into the same file.
   */
  lemma NamingCollides(isAlnum: char -> bool)
    requires forall c :: IsAsciiAlnum(c) ==> isAlnum(c)
    ensures var ms := Naming([Titled("chapter_1", ""), Titled("chapter_2", "chapter_1")], "wav", SafeTitleOf(isAlnum), {}).merges;
      |ms| == 2 && ms[0].stem == ms[1].stem == "chapter_1" && FileName(ms[0], "wav") == FileName(ms[1], "wav")
  {
    TitledChunks("chapter_1", "");
    TitledChunks("chapter_2", "chapter_1");
    SafeTitleOfTitled("chapter_1", "", isAlnum);
    ChapterOneIsSafe(isAlnum);
    NamingCollidesWhen(Titled("chapter_1", ""), Titled("chapter_2", "chapter_1"), "wav", SafeTitleOf(isAlnum));
  }

  // ---------------------------------------------------------------- voice listing

  /** The lines print_supported_voices writes: a heading, then "    {idx + 1}. {voice}", then a blank line. */
  function VoiceListing(voices: seq<string>): (lines: seq<string>)
    ensures |lines| == |voices| + 3
    ensures lines[0] == "" && lines[1] == "Supported voices:" && lines[|lines| - 1] == ""
    ensures forall k :: 0 <= k < |voices| ==> lines[k + 2] == "    " + NatToString(k + 1) + ". " + voices[k]
  {
    ["", "Supported voices:"] + seq(|voices|, k requires 0 <= k < |voices| => "    " + NatToString(k + 1) + ". " + voices[k]) + [""]
  }

  // ---------------------------------------------------------------- validate_voice

  /** A parsed voice argument. A weight is the text after ':'; `None` is the 50.0 default. */
  datatype VoiceChoice =
    | Single(id: string)
    | Blend(first: string, firstWeight: Option<string>, second: string, secondWeight: Option<string>)

  /** Why validate_voice prints an error and exits with status 1. */
  datatype VoiceError =
    | BadPair(pair: string)
    | NotTwoVoices(count: nat)
    | UnsupportedVoice(id: string)

  datatype Part = Part(voice: string, weight: Option<string>)

  /** One comma-separated pair: "v:w" (one ':' only, else the unpacking raises) or a bare voice. */
  function ParsePart(pair: string): (r: Result<Part, VoiceError>)
  {
    if ':' in pair then
      var halves := SplitOn(Strip(pair), ':');
      if |halves| != 2 then Err(BadPair(pair))
      else Ok(Part(Strip(halves[0]), Some(Strip(halves[1]))))
    else Ok(Part(Strip(pair), None))
  }

  /** `parse` applied to each item in order, stopping at the first failure (a loop that raises). */
  function ParseAll<A>(items: seq<string>, parse: string -> Result<A, VoiceError>): (r: Result<seq<A>, VoiceError>)
    ensures r.Ok? ==> |r.value| == |items|
  {
    if items == [] then Ok([])
    else
      match parse(items[0])
      case Err(e) => Err(e)
      case Ok(x) =>
        match ParseAll(items[1..], parse)
        case Err(e) => Err(e)
        case Ok(xs) => Ok([x] + xs)
  }

  /** Parsing succeeds exactly when every item parses, and then yields each item's value in order. */
  lemma {:induction false} ParseAllOk<A>(items: seq<string>, parse: string -> Result<A, VoiceError>)
    ensures ParseAll(items, parse).Ok? <==> forall k :: 0 <= k < |items| ==> parse(items[k]).Ok?
    ensures ParseAll(items, parse).Ok? ==>
      forall k :: 0 <= k < |items| ==> ParseAll(items, parse).value[k] == parse(items[k]).value
  {
    if items != [] {
      ParseAllOk(items[1..], parse);
      assert forall k :: 0 <= k < |items| - 1 ==> items[1..][k] == items[k + 1];
      if parse(items[0]).Ok? && ParseAll(items[1..], parse).Ok? {
        var xs := ParseAll(items[1..], parse).value;
        assert forall k :: 1 <= k < |items| ==> ([parse(items[0]).value] + xs)[k] == xs[k - 1];
      }
    }
  }

  /** The first voice of `parts` not in the supported set. */
  function FirstUnsupported(parts: seq<Part>, supported: set<string>): (r: Option<string>)
    ensures r.None? <==> forall k :: 0 <= k < |parts| ==> parts[k].voice in supported
    ensures r.Some? ==> r.value !in supported
  {
    if parts == [] then None
    else if parts[0].voice !in supported then Some(parts[0].voice)
    else
      assert forall k :: 0 <= k < |parts| - 1 ==> parts[1..][k] == parts[k + 1];
      FirstUnsupported(parts[1..], supported)
  }

  /**
   * The blend branch of validate_voice on the comma-separated pairs, with
   * `parse` reading one pair (`ParsePart` in the source).
   */
  function ValidateBlend(pairs: seq<string>, supported: set<string>,
                         parse: string -> Result<Part, VoiceError>): Result<VoiceChoice, VoiceError> {
    match ParseAll(pairs, parse)
    case Err(e) => Err(e)
    case Ok(parts) =>
      if |parts| != 2 then Err(NotTwoVoices(|parts|))
      else match FirstUnsupported(parts, supported)
        case Some(v) => Err(UnsupportedVoice(v))
        case None => Ok(Blend(parts[0].voice, parts[0].weight, parts[1].voice, parts[1].weight))
  }

  /** validate_voice, without the weight arithmetic and the style blend. */
  function ValidateVoice(voice: string, supported: set<string>): Result<VoiceChoice, VoiceError> {
    if ',' in voice then ValidateBlend(SplitOn(voice, ','), supported, ParsePart)
    else if voice in supported then Ok(Single(voice))
    else Err(UnsupportedVoice(voice))
  }

  /** A voice without ',' is accepted exactly when it is supported, and then returned unchanged. */
  lemma ValidateSingle(voice: string, supported: set<string>)
    requires ',' !in voice
    ensures ValidateVoice(voice, supported) == if voice in supported then Ok(Single(voice)) else Err(UnsupportedVoice(voice))
  {
  }

  /**
   * A blend is accepted exactly when there are two pairs, both parse, and
   * both name supported voices; the result carries both in order.
   */
  lemma ValidateBlendIff(pairs: seq<string>, supported: set<string>, parse: string -> Result<Part, VoiceError>)
    ensures ValidateBlend(pairs, supported, parse).Ok? <==>
      && |pairs| == 2
      && parse(pairs[0]).Ok? && parse(pairs[1]).Ok?
      && parse(pairs[0]).value.voice in supported && parse(pairs[1]).value.voice in supported
    ensures ValidateBlend(pairs, supported, parse).Ok? ==>
      ValidateBlend(pairs, supported, parse).value ==
        Blend(parse(pairs[0]).value.voice, parse(pairs[0]).value.weight,
              parse(pairs[1]).value.voice, parse(pairs[1]).value.weight)
  {
    ParseAllOk(pairs, parse);
  }

  /** A pair with more than one ':' makes the whole argument fail with that pair. */
  lemma ValidateBlendBadPair(pairs: seq<string>, supported: set<string>, k: nat)
    requires k < |pairs| && ParsePart(pairs[k]).Err?
    requires forall j :: 0 <= j < k ==> ParsePart(pairs[j]).Ok?
    ensures ValidateBlend(pairs, supported, ParsePart) == Err(BadPair(pairs[k]))
  {
    ParseAllFirstError(pairs, ParsePart, k);
  }

  lemma {:induction false} ParseAllFirstError<A>(items: seq<string>, parse: string -> Result<A, VoiceError>, k: nat)
    requires k < |items| && parse(items[k]).Err?
    requires forall j :: 0 <= j < k ==> parse(items[j]).Ok?
    ensures ParseAll(items, parse) == Err(parse(items[k]).error)
  {
    if k > 0 {
      assert forall j :: 0 <= j < k - 1 ==> items[1..][j] == items[j + 1];
      ParseAllFirstError(items[1..], parse, k - 1);
    }
  }
}
