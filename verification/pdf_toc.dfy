/**
 * PdfParser of backend/kokoro-tts.py: chapter markers from the table of
 * contents, the pages each chapter covers, the title and markdown cleaners,
 * and the heading split of the markdown fallback. Reading the PDF, its pages
 * and its markdown conversion is library work; it comes in as parameters.
 */
module PdfToc {
  import opened Wrappers
  import opened Strings

  const ZeroWidthSpace: char := '\U{200b}'

  /** A chapter as the parser returns it: title, content and 1-based order. */
  datatype Chapter = Chapter(title: string, content: string, order: int)

  // ---------------------------------------------------------------- _clean_title

  /** _clean_title: strip, then turn every zero-width space into a space. */
  function CleanTitle(title: string): (r: string)
    ensures |r| == |Strip(title)|
    ensures ZeroWidthSpace !in r
    ensures forall k :: 0 <= k < |r| ==> r[k] == if Strip(title)[k] == ZeroWidthSpace then ' ' else Strip(title)[k]
  {
    var r := ReplaceChar(Strip(title), ZeroWidthSpace, ' ');
    assert forall k :: 0 <= k < |r| ==> r[k] != ZeroWidthSpace;
    r
  }

  /** A cleaned title is empty exactly when the title is all white space. */
  lemma CleanTitleEmptyIff(title: string)
    ensures CleanTitle(title) == "" <==> forall k :: 0 <= k < |title| ==> IsSpace(title[k])
  {
    StripEmptyIff(title);
  }

  /** A zero-width space is not white space, so a title made of one survives as a blank. */
  lemma ZeroWidthTitleKept()
    ensures CleanTitle([ZeroWidthSpace]) == " "
  {
    assert !IsSpace(ZeroWidthSpace);
    StripNoOp([ZeroWidthSpace]);
  }

  // ---------------------------------------------------------------- chapter markers

  /** One `(level, title, page)` row of `doc.get_toc()`. */
  datatype TocEntry = TocEntry(level: int, title: string, page: int)

  datatype Marker = Marker(title: string, page: int)

  /** `chapter_markers` and `seen_pages`. */
  datatype MarkerState = MarkerState(markers: seq<Marker>, seen: set<int>)

  /** One TOC row, with `title` its cleaned title. */
  function MarkerStep(st: MarkerState, e: TocEntry, title: string): MarkerState {
    if e.level == 1 && title != "" && e.page !in st.seen then
      MarkerState(st.markers + [Marker(title, e.page)], st.seen + {e.page})
    else st
  }

  /** The marker loop over `toc`, with `clean` cleaning each title. */
  function Markers(toc: seq<TocEntry>, clean: string -> string): MarkerState
    decreases |toc|
  {
    if toc == [] then MarkerState([], {})
    else
      var e := toc[|toc| - 1];
      MarkerStep(Markers(toc[..|toc| - 1], clean), e, clean(e.title))
  }

  /** The marker loop of get_chapters_from_toc. */
  method ChapterMarkers(toc: seq<TocEntry>, clean: string -> string) returns (markers: seq<Marker>)
    ensures markers == Markers(toc, clean).markers
  {
    markers := [];
    var seen: set<int> := {};
    var i := 0;
    while i < |toc|
      invariant 0 <= i <= |toc|
      invariant MarkerState(markers, seen) == Markers(toc[..i], clean)
    {
      var e := toc[i];
      assert toc[..i + 1][..i] == toc[..i];
      if e.level == 1 {
        var title := clean(e.title);
        if title != "" && e.page !in seen {
          markers := markers + [Marker(title, e.page)];
          seen := seen + {e.page};
        }
      }
      i := i + 1;
    }
    assert toc[..|toc|] == toc;
  }

  /** A level-1 row whose cleaned title is not empty. */
  predicate Qualifies(e: TocEntry, clean: string -> string) {
    e.level == 1 && clean(e.title) != ""
  }

  /** Row j opens a chapter: it qualifies and no earlier qualifying row has its page. */
  predicate Opens(toc: seq<TocEntry>, j: nat, clean: string -> string)
    requires j < |toc|
  {
    Qualifies(toc[j], clean) && forall i :: 0 <= i < j ==> !(Qualifies(toc[i], clean) && toc[i].page == toc[j].page)
  }

  /** The opening rows among the first n, as markers, in TOC order. */
  function FirstMarkers(toc: seq<TocEntry>, n: nat, clean: string -> string): seq<Marker>
    requires n <= |toc|
  {
    if n == 0 then []
    else
      FirstMarkers(toc, n - 1, clean)
        + (if Opens(toc, n - 1, clean) then [Marker(clean(toc[n - 1].title), toc[n - 1].page)] else [])
  }

  function QualifiedPages(toc: seq<TocEntry>, n: nat, clean: string -> string): set<int>
    requires n <= |toc|
  {
    set i | 0 <= i < n && Qualifies(toc[i], clean) :: toc[i].page
  }

  /**
   * The markers are exactly the first qualifying row of each page, in TOC
   * order, and `seen_pages` holds the pages of all qualifying rows.
   */
  lemma {:induction false} MarkersAreFirstRows(toc: seq<TocEntry>, n: nat, clean: string -> string)
    requires n <= |toc|
    ensures Markers(toc[..n], clean).markers == FirstMarkers(toc, n, clean)
    ensures Markers(toc[..n], clean).seen == QualifiedPages(toc, n, clean)
  {
    if n == 0 {
      assert toc[..0] == [];
    } else {
      MarkersAreFirstRows(toc, n - 1, clean);
      assert toc[..n][..n - 1] == toc[..n - 1];
      var e := toc[n - 1];
      assert toc[..n][n - 1] == e;
      var st := Markers(toc[..n - 1], clean);
      assert e.page in st.seen <==> exists i :: 0 <= i < n - 1 && Qualifies(toc[i], clean) && toc[i].page == e.page;
      assert QualifiedPages(toc, n, clean) ==
        QualifiedPages(toc, n - 1, clean) + (if Qualifies(e, clean) then {e.page} else {});
    }
  }

  /** Every marker has a title, no two markers share a page, and `seen` is the set of their pages. */
  ghost predicate MarkersWell(st: MarkerState) {
    && (forall k :: 0 <= k < |st.markers| ==> st.markers[k].title != "")
    && (forall i, j :: 0 <= i < j < |st.markers| ==> st.markers[i].page != st.markers[j].page)
    && (forall p :: p in st.seen <==> exists k :: 0 <= k < |st.markers| && st.markers[k].page == p)
  }

  lemma {:induction false} MarkersDistinctPages(toc: seq<TocEntry>, clean: string -> string)
    ensures MarkersWell(Markers(toc, clean))
    decreases |toc|
  {
    if toc != [] {
      MarkersDistinctPages(toc[..|toc| - 1], clean);
      var e := toc[|toc| - 1];
      MarkerStepWell(Markers(toc[..|toc| - 1], clean), e, clean(e.title));
    }
  }

  lemma MarkerStepWell(st: MarkerState, e: TocEntry, title: string)
    requires MarkersWell(st)
    ensures MarkersWell(MarkerStep(st, e, title))
  {
    var st' := MarkerStep(st, e, title);
    if st' != st {
      var n := |st.markers|;
      assert st'.markers == st.markers + [Marker(title, e.page)];
      assert st'.markers[n].page == e.page;
      forall p | p in st'.seen ensures exists k :: 0 <= k < |st'.markers| && st'.markers[k].page == p {
        if p == e.page {
          assert st'.markers[n].page == p;
        } else {
          var k :| 0 <= k < n && st.markers[k].page == p;
          assert st'.markers[k].page == p;
        }
      }
      forall p | exists k :: 0 <= k < |st'.markers| && st'.markers[k].page == p ensures p in st'.seen {
        var k :| 0 <= k < |st'.markers| && st'.markers[k].page == p;
        if k < n {
          assert st.markers[k].page == p;
        }
      }
    }
  }

  // ---------------------------------------------------------------- page ranges

  /** The last 1-based page of chapter i: before the next marker's page, or the document's last page. */
  function EndPage(markers: seq<Marker>, i: nat, pageCount: int): int
    requires i < |markers|
  {
    if i < |markers| - 1 then markers[i + 1].page - 1 else pageCount
  }

  /**
   * The texts of the 0-based pages start..end-1 that could be read, in page
   * order; `pageText` is `doc[p].get_text()`, `None` when that raises.
   */
  function PageTexts(pageText: int -> Option<string>, start: int, end: int): seq<string>
    decreases end - start
  {
    if end <= start then []
    else PageTexts(pageText, start, end - 1) + (match pageText(end - 1) case Some(t) => [t] case None => [])
  }

  /** Adjacent page ranges read as one. */
  lemma {:induction false} PageTextsAppend(pageText: int -> Option<string>, a: int, b: int, c: int)
    requires a <= b <= c
    ensures PageTexts(pageText, a, b) + PageTexts(pageText, b, c) == PageTexts(pageText, a, c)
    decreases c - b
  {
    if c > b {
      PageTextsAppend(pageText, a, b, c - 1);
    } else {
      assert PageTexts(pageText, a, b) + [] == PageTexts(pageText, a, b);
    }
  }

  /** _extract_chapter_text */
  method ExtractChapterText(pageText: int -> Option<string>, start: int, end: int) returns (text: string)
    ensures text == Join(PageTexts(pageText, start, end), "\n")
  {
    var parts: seq<string> := [];
    var p := start;
    while p < end
      invariant start <= p && (p <= end || p == start)
      invariant parts == PageTexts(pageText, start, p)
      decreases end - p
    {
      match pageText(p) {
        case Some(t) => parts := parts + [t];
        case None =>
      }
      p := p + 1;
    }
    text := Join(parts, "\n");
  }

  /** The page texts of chapter i: 0-based pages start_i - 1 up to, not including, its end page. */
  function ChapterPages(pageText: int -> Option<string>, markers: seq<Marker>, i: nat, pageCount: int): seq<string>
    requires i < |markers|
  {
    PageTexts(pageText, markers[i].page - 1, EndPage(markers, i, pageCount))
  }

  /** The page texts of the first n chapters, one after the other. */
  function PagesOfChapters(pageText: int -> Option<string>, markers: seq<Marker>, n: nat, pageCount: int): seq<string>
    requires n <= |markers|
  {
    if n == 0 then [] else PagesOfChapters(pageText, markers, n - 1, pageCount) + ChapterPages(pageText, markers, n - 1, pageCount)
  }

  predicate Increasing(markers: seq<Marker>) {
    forall i :: 0 <= i < |markers| - 1 ==> markers[i].page < markers[i + 1].page
  }

  /**
   * With marker pages increasing and within the document, the chapters read
   * every page from the first marker's to the last page exactly once, in order.
   */
  lemma ChaptersCoverPages(pageText: int -> Option<string>, markers: seq<Marker>, pageCount: int)
    requires markers != [] && Increasing(markers)
    requires markers[|markers| - 1].page - 1 <= pageCount
    ensures PagesOfChapters(pageText, markers, |markers|, pageCount) == PageTexts(pageText, markers[0].page - 1, pageCount)
  {
    ChaptersCoverPrefix(pageText, markers, |markers|, pageCount);
  }

  lemma {:induction false} ChaptersCoverPrefix(pageText: int -> Option<string>, markers: seq<Marker>, n: nat, pageCount: int)
    requires 1 <= n <= |markers| && Increasing(markers)
    requires markers[|markers| - 1].page - 1 <= pageCount
    ensures markers[0].page - 1 <= EndPage(markers, n - 1, pageCount)
    ensures PagesOfChapters(pageText, markers, n, pageCount) ==
      PageTexts(pageText, markers[0].page - 1, EndPage(markers, n - 1, pageCount))
  {
    var lo := markers[0].page - 1;
    if n == 1 {
      assert PagesOfChapters(pageText, markers, 0, pageCount) == [];
      assert [] + ChapterPages(pageText, markers, 0, pageCount) == ChapterPages(pageText, markers, 0, pageCount);
      assert lo <= EndPage(markers, 0, pageCount) by {
        if |markers| > 1 { assert markers[0].page < markers[1].page; }
      }
    } else {
      ChaptersCoverPrefix(pageText, markers, n - 1, pageCount);
      var mid := EndPage(markers, n - 2, pageCount);
      assert mid == markers[n - 1].page - 1;
      var hi := EndPage(markers, n - 1, pageCount);
      assert mid <= hi by {
        if n < |markers| { assert markers[n - 1].page < markers[n].page; }
      }
      PageTextsAppend(pageText, lo, mid, hi);
    }
  }

  // ---------------------------------------------------------------- chapters from the TOC

  /**
   * The stripped text is longer than `min_chapter_length`. The chapter loops
   * take `str.strip` as the parameter `strip`, instantiated with Strip by
   * their callers.
   */
  predicate LongEnough(text: string, minLength: int, strip: string -> string) {
    |strip(text)| > minLength
  }

  /** The text of chapter i. */
  function ChapterText(pageText: int -> Option<string>, markers: seq<Marker>, i: nat, pageCount: int): string
    requires i < |markers|
  {
    Join(ChapterPages(pageText, markers, i, pageCount), "\n")
  }

  /** The chapters kept from the first n markers, with order i + 1 for marker i. */
  function TocChaptersOf(pageText: int -> Option<string>, markers: seq<Marker>, n: nat, pageCount: int,
                         minLength: int, strip: string -> string): seq<Chapter>
    requires n <= |markers|
  {
    if n == 0 then []
    else
      var text := ChapterText(pageText, markers, n - 1, pageCount);
      TocChaptersOf(pageText, markers, n - 1, pageCount, minLength, strip)
        + (if LongEnough(text, minLength, strip) then [Chapter(markers[n - 1].title, text, n)] else [])
  }

  /** The `for i, (title, start_page) in enumerate(chapter_markers)` loop. */
  method TocChapters(pageText: int -> Option<string>, markers: seq<Marker>, pageCount: int, minLength: int, strip: string -> string)
    returns (chapters: seq<Chapter>)
    ensures chapters == TocChaptersOf(pageText, markers, |markers|, pageCount, minLength, strip)
  {
    chapters := [];
    var i := 0;
    while i < |markers|
      invariant 0 <= i <= |markers|
      invariant chapters == TocChaptersOf(pageText, markers, i, pageCount, minLength, strip)
    {
      var endPage := if i < |markers| - 1 then markers[i + 1].page - 1 else pageCount;
      var text := ExtractChapterText(pageText, markers[i].page - 1, endPage);
      if |strip(text)| > minLength {
        chapters := chapters + [Chapter(markers[i].title, text, i + 1)];
      }
      i := i + 1;
    }
  }

  /**
   * Chapter c comes from marker c.order - 1: it has that marker's title,
   * that chapter's pages as content, and a long enough text.
   */
  predicate FromMarker(c: Chapter, pageText: int -> Option<string>, markers: seq<Marker>, pageCount: int,
                       minLength: int, strip: string -> string)
  {
    && 1 <= c.order <= |markers|
    && c.title == markers[c.order - 1].title
    && c.content == ChapterText(pageText, markers, c.order - 1, pageCount)
    && LongEnough(c.content, minLength, strip)
  }

  /** Each kept chapter comes from one of the first n markers. */
  lemma {:induction false} TocChaptersSound(pageText: int -> Option<string>, markers: seq<Marker>, n: nat,
                                            pageCount: int, minLength: int, strip: string -> string)
    requires n <= |markers|
    ensures forall c :: c in TocChaptersOf(pageText, markers, n, pageCount, minLength, strip) ==>
      c.order <= n && FromMarker(c, pageText, markers, pageCount, minLength, strip)
  {
    if n > 0 {
      TocChaptersSound(pageText, markers, n - 1, pageCount, minLength, strip);
    }
  }

  /** The kept chapters appear in marker order. */
  lemma {:induction false} TocChaptersOrdered(pageText: int -> Option<string>, markers: seq<Marker>, n: nat,
                                              pageCount: int, minLength: int, strip: string -> string)
    requires n <= |markers|
    ensures Ordered(TocChaptersOf(pageText, markers, n, pageCount, minLength, strip), n)
  {
    if n > 0 {
      TocChaptersOrdered(pageText, markers, n - 1, pageCount, minLength, strip);
      var prev := TocChaptersOf(pageText, markers, n - 1, pageCount, minLength, strip);
      var cs := TocChaptersOf(pageText, markers, n, pageCount, minLength, strip);
      assert cs[..|prev|] == prev;
      if |cs| > |prev| && |prev| > 0 {
        assert cs[|prev| - 1] == prev[|prev| - 1];
      }
    }
  }

  /** Orders rise strictly and stay within 1..n. */
  predicate Ordered(cs: seq<Chapter>, n: int) {
    && (forall k :: 0 <= k < |cs| ==> 1 <= cs[k].order <= n)
    && (forall k :: 0 <= k < |cs| - 1 ==> cs[k].order < cs[k + 1].order)
  }

  /** Some chapter of `cs` has this order and title. */
  predicate Kept(cs: seq<Chapter>, order: int, title: string) {
    exists k :: 0 <= k < |cs| && cs[k].order == order && cs[k].title == title
  }

  /** Every marker whose chapter text is long enough is kept. */
  lemma {:induction false} TocChaptersComplete(pageText: int -> Option<string>, markers: seq<Marker>, n: nat,
                                               pageCount: int, minLength: int, strip: string -> string, i: nat)
    requires i < n <= |markers|
    requires LongEnough(ChapterText(pageText, markers, i, pageCount), minLength, strip)
    ensures Kept(TocChaptersOf(pageText, markers, n, pageCount, minLength, strip), i + 1, markers[i].title)
  {
    var prev := TocChaptersOf(pageText, markers, n - 1, pageCount, minLength, strip);
    var cs := TocChaptersOf(pageText, markers, n, pageCount, minLength, strip);
    assert cs[..|prev|] == prev;
    if i < n - 1 {
      TocChaptersComplete(pageText, markers, n - 1, pageCount, minLength, strip, i);
      var k :| 0 <= k < |prev| && prev[k].order == i + 1 && prev[k].title == markers[i].title;
      assert cs[k] == prev[k];
    } else {
      assert cs == prev + [Chapter(markers[i].title, ChapterText(pageText, markers, i, pageCount), n)];
      assert cs[|prev|].order == i + 1 && cs[|prev|].title == markers[i].title;
    }
  }

  /**
   * get_chapters_from_toc: `None` where it returns False, else the chapters it
   * collected. `confirmed` says whether the `input()` after the TOC listing
   * returns; when it meets the end of input, the EOFError is caught and the
   * call returns False.
   */
  function FromToc(toc: seq<TocEntry>, confirmed: bool, pageText: int -> Option<string>, pageCount: int, minLength: int): Option<seq<Chapter>> {
    if toc == [] || !confirmed then None
    else
      var markers := Markers(toc, CleanTitle).markers;
      if markers == [] then None
      else
        var chapters := TocChaptersOf(pageText, markers, |markers|, pageCount, minLength, Strip);
        if chapters == [] then None else Some(chapters)
  }

  method GetChaptersFromToc(toc: seq<TocEntry>, confirmed: bool, pageText: int -> Option<string>, pageCount: int, minLength: int)
    returns (r: Option<seq<Chapter>>)
    ensures r == FromToc(toc, confirmed, pageText, pageCount, minLength)
  {
    if toc == [] {
      return None;
    }
    if !confirmed {
      // input() met the end of input: the EOFError is caught and False returned
      return None;
    }
    var markers := ChapterMarkers(toc, CleanTitle);
    if markers == [] {
      return None;
    }
    var chapters := TocChapters(pageText, markers, pageCount, minLength, Strip);
    if chapters == [] {
      return None;
    }
    return Some(chapters);
  }

  // ---------------------------------------------------------------- _clean_markdown

  /** `text.replace(c, '')` */
  function RemoveChar(s: string, c: char): (r: string)
    ensures c !in r && |r| <= |s|
  {
    if s == [] then [] else (if s[0] == c then [] else [s[0]]) + RemoveChar(s[1..], c)
  }

  /** Length of the white-space run that starts `s`. */
  function SpaceRun(s: string): (n: nat)
    ensures n <= |s| && (|s| > 0 && IsSpace(s[0]) ==> n >= 1)
    ensures n == |s| || !IsSpace(s[n])
  {
    if |s| == 0 || !IsSpace(s[0]) then 0 else 1 + SpaceRun(s[1..])
  }

  /** `re.sub(r'\s+', ' ', s)`: every maximal run of white space becomes one space. */
  function CollapseSpaces(s: string): (r: string)
    ensures |s| > 0 <==> |r| > 0
    ensures |s| > 0 ==> (IsSpace(r[0]) <==> IsSpace(s[0]))
    ensures forall k :: 0 <= k < |r| ==> r[k] == ' ' || !IsSpace(r[k])
    ensures forall k :: 0 <= k < |r| - 1 ==> !(IsSpace(r[k]) && IsSpace(r[k + 1]))
    decreases |s|
  {
    if s == [] then []
    else if IsSpace(s[0]) then
      var rest := CollapseSpaces(s[SpaceRun(s)..]);
      assert forall k :: 1 <= k < |rest| + 1 ==> (" " + rest)[k] == rest[k - 1];
      " " + rest
    else
      var rest := CollapseSpaces(s[1..]);
      assert forall k :: 1 <= k < |rest| + 1 ==> ([s[0]] + rest)[k] == rest[k - 1];
      [s[0]] + rest
  }

  /** _clean_markdown: drop every '-', collapse white space, strip. */
  function CleanMarkdown(text: string): string {
    Strip(CollapseSpaces(RemoveChar(text, '-')))
  }

  /** Collapsing turns every white-space run, line breaks included, into one ' '. */
  lemma CollapsedOneLine(s: string)
    ensures '\n' !in CollapseSpaces(s)
  {
    assert IsSpace('\n');
  }

  /** White space collapses to ' ', so the cleaned markdown has no line break left. */
  lemma CleanMarkdownOneLine(text: string)
    ensures '\n' !in CleanMarkdown(text)
  {
    CollapsedOneLine(RemoveChar(text, '-'));
    StripAbsent(CollapseSpaces(RemoveChar(text, '-')), '\n');
  }

  // ---------------------------------------------------------------- chapters from markdown

  /** `line.lstrip('#')` */
  function StripHashes(line: string): (r: string)
    ensures |r| <= |line| && r == line[|line| - |r|..]
    ensures r == [] || r[0] != '#'
  {
    if |line| > 0 && line[0] == '#' then StripHashes(line[1..]) else line
  }

  /**
   * The markdown loop's state: chapters so far, `current_chapter`,
   * `current_text` and `chapter_count`.
   */
  datatype MdState = MdState(chapters: seq<Chapter>, current: Option<string>, text: seq<string>, count: nat)

  /** The chapter saved from the state, if it has a title, text, and long enough content. */
  function Saved(st: MdState, minLength: int, strip: string -> string): seq<Chapter> {
    if st.current.Some? && st.text != [] && LongEnough(Join(st.text, ""), minLength, strip) then
      [Chapter(st.current.value, Join(st.text, ""), st.count)]
    else []
  }

  function MdStep(st: MdState, line: string, minLength: int, strip: string -> string): MdState {
    if StartsWith(line, "#") then
      MdState(st.chapters + Saved(st, minLength, strip),
              Some("Chapter " + NatToString(st.count + 1) + "_" + strip(StripHashes(line))), [], st.count + 1)
    else if st.current.Some? then st.(text := st.text + [line + "\n"])
    else st
  }

  function MdFold(lines: seq<string>, minLength: int, strip: string -> string): MdState
    decreases |lines|
  {
    if lines == [] then MdState([], None, [], 0)
    else MdStep(MdFold(lines[..|lines| - 1], minLength, strip), lines[|lines| - 1], minLength, strip)
  }

  /** The chapters the markdown loop returns for these lines. */
  function MdChapters(lines: seq<string>, minLength: int, strip: string -> string): seq<Chapter> {
    var st := MdFold(lines, minLength, strip);
    st.chapters + Saved(st, minLength, strip)
  }

  /** The line loop of get_chapters_from_markdown, after cleaning. */
  method MarkdownChapters(md: string, minLength: int, strip: string -> string) returns (chapters: seq<Chapter>)
    ensures chapters == MdChapters(SplitOn(md, '\n'), minLength, strip)
  {
    var lines := SplitOn(md, '\n');
    chapters := [];
    var current: Option<string> := None;
    var text: seq<string> := [];
    var count: nat := 0;
    var i := 0;
    while i < |lines|
      invariant 0 <= i <= |lines|
      invariant MdState(chapters, current, text, count) == MdFold(lines[..i], minLength, strip)
    {
      var line := lines[i];
      MdFoldSnoc(lines, i, minLength, strip);
      ghost var before := MdState(chapters, current, text, count);
      if StartsWith(line, "#") {
        chapters := SaveChapter(chapters, current, text, count, minLength, strip);
        count := count + 1;
        current := Some("Chapter " + NatToString(count) + "_" + strip(StripHashes(line)));
        text := [];
      } else if current.Some? {
        text := text + [line + "\n"];
      }
      assert MdState(chapters, current, text, count) == MdStep(before, line, minLength, strip);
      i := i + 1;
    }
    assert lines[..|lines|] == lines;
    chapters := SaveChapter(chapters, current, text, count, minLength, strip);
  }

  lemma MdFoldSnoc(lines: seq<string>, i: nat, minLength: int, strip: string -> string)
    requires i < |lines|
    ensures MdFold(lines[..i + 1], minLength, strip) == MdStep(MdFold(lines[..i], minLength, strip), lines[i], minLength, strip)
  {
    assert lines[..i + 1][..i] == lines[..i] && lines[..i + 1][i] == lines[i];
  }

  /** The save block run before each heading and after the last line: keep a titled chapter whose stripped text is long enough. */
  method SaveChapter(chapters: seq<Chapter>, current: Option<string>, text: seq<string>, count: nat,
                     minLength: int, strip: string -> string) returns (chapters': seq<Chapter>)
    ensures chapters' == chapters + Saved(MdState(chapters, current, text, count), minLength, strip)
  {
    chapters' := chapters;
    if current.Some? && text != [] {
      var chapterText := Join(text, "");
      if |strip(chapterText)| > minLength {
        chapters' := chapters + [Chapter(current.value, chapterText, count)];
      }
    }
  }

  /** get_chapters_from_markdown on the converted markdown `md`. */
  function FromMarkdown(md: string, minLength: int): seq<Chapter> {
    MdChapters(SplitOn(CleanMarkdown(md), '\n'), minLength, Strip)
  }

  /** A single line never makes a chapter: a heading has no text after it. */
  lemma OneLineNoChapters(line: string, minLength: int, strip: string -> string)
    ensures MdChapters([line], minLength, strip) == []
  {
    assert [line][..0] == [] && [line][0] == line;
    assert MdFold([], minLength, strip) == MdState([], None, [], 0);
    var st := MdFold([line], minLength, strip);
    assert st == MdStep(MdState([], None, [], 0), line, minLength, strip);
    assert st.chapters == [] && st.text == [];
  }

  /** Because the cleaned markdown is one line, the markdown fallback never finds a chapter. */
  lemma FromMarkdownEmpty(md: string, minLength: int)
    ensures FromMarkdown(md, minLength) == []
  {
    CleanMarkdownOneLine(md);
    SplitOnAbsent(CleanMarkdown(md), '\n');
    OneLineNoChapters(CleanMarkdown(md), minLength, Strip);
  }

  /** get_chapters: the TOC chapters when that succeeds, otherwise the markdown ones. */
  function GetChapters(toc: seq<TocEntry>, confirmed: bool, pageText: int -> Option<string>, pageCount: int, md: string,
                       minLength: int): seq<Chapter> {
    match FromToc(toc, confirmed, pageText, pageCount, minLength)
    case Some(chapters) => chapters
    case None => FromMarkdown(md, minLength)
  }

  /** A PDF whose TOC gives no chapter yields no chapter at all. */
  lemma GetChaptersNeedsToc(toc: seq<TocEntry>, confirmed: bool, pageText: int -> Option<string>, pageCount: int, md: string,
                            minLength: int)
    requires FromToc(toc, confirmed, pageText, pageCount, minLength).None?
    ensures GetChapters(toc, confirmed, pageText, pageCount, md, minLength) == []
  {
    FromMarkdownEmpty(md, minLength);
  }

  // ---------------------------------------------------------------- line-preserving cleaning

  /** One line cleaned the way _clean_markdown cleans the whole text. */
  function CleanLine(line: string): string {
    Strip(CollapseSpaces(line))
  }

  function CleanLines(lines: seq<string>): (r: seq<string>)
    ensures |r| == |lines| && forall k :: 0 <= k < |lines| ==> r[k] == CleanLine(lines[k])
  {
    seq(|lines|, k requires 0 <= k < |lines| => CleanLine(lines[k]))
  }

  /** _clean_markdown applied line by line, keeping the line breaks the heading split needs. */
  function CleanMarkdownLines(text: string): string {
    Join(CleanLines(SplitOn(RemoveChar(text, '-'), '\n')), "\n")
  }

  lemma CleanLineOneLine(line: string)
    ensures '\n' !in CleanLine(line)
  {
    CollapsedOneLine(line);
    StripAbsent(CollapseSpaces(line), '\n');
  }

  /** The line-wise cleaning keeps every line: splitting its result gives each line cleaned. */
  lemma CleanMarkdownLinesSplit(text: string)
    ensures SplitOn(CleanMarkdownLines(text), '\n') == CleanLines(SplitOn(RemoveChar(text, '-'), '\n'))
  {
    var lines := CleanLines(SplitOn(RemoveChar(text, '-'), '\n'));
    forall k | 0 <= k < |lines| ensures '\n' !in lines[k] {
      CleanLineOneLine(SplitOn(RemoveChar(text, '-'), '\n')[k]);
    }
    SplitOnOfJoin(lines, '\n');
  }

  /** A heading line followed by a long enough body line gives one chapter. */
  lemma HeadingThenBody(heading: string, body: string, minLength: int, strip: string -> string)
    requires StartsWith(heading, "#") && !StartsWith(body, "#")
    requires LongEnough(body + "\n", minLength, strip)
    ensures MdChapters([heading, body], minLength, strip) ==
      [Chapter("Chapter 1_" + strip(StripHashes(heading)), body + "\n", 1)]
  {
    assert [heading, body][..1] == [heading];
    assert [heading][..0] == [] && [heading][0] == heading && [heading, body][1] == body;
    assert MdFold([], minLength, strip) == MdState([], None, [], 0);
    var title := "Chapter " + NatToString(1) + "_" + strip(StripHashes(heading));
    assert NatToString(1) == "1";
    assert "Chapter " + NatToString(1) + "_" == "Chapter 1_";
    assert title == "Chapter 1_" + strip(StripHashes(heading));
    var st1 := MdFold([heading], minLength, strip);
    assert st1 == MdStep(MdState([], None, [], 0), heading, minLength, strip);
    assert st1 == MdState([], Some(title), [], 1);
    var st2 := MdFold([heading, body], minLength, strip);
    assert st2 == MdStep(st1, body, minLength, strip);
    assert st2 == MdState([], Some(title), [body + "\n"], 1);
    assert Join([body + "\n"], "") == body + "\n";
    assert Saved(st2, minLength, strip) == [Chapter(title, body + "\n", 1)];
  }

  /** The markdown fallback with the line-wise cleaning, so that headings are still seen as lines. */
  function FromMarkdownLines(md: string, minLength: int): seq<Chapter> {
    MdChapters(SplitOn(CleanMarkdownLines(md), '\n'), minLength, Strip)
  }

  /** get_chapters with the line-preserving markdown fallback. */
  function GetChaptersByLines(toc: seq<TocEntry>, confirmed: bool, pageText: int -> Option<string>, pageCount: int, md: string,
                              minLength: int): seq<Chapter> {
    match FromToc(toc, confirmed, pageText, pageCount, minLength)
    case Some(chapters) => chapters
    case None => FromMarkdownLines(md, minLength)
  }

  /** The line-wise fallback reads every line of the markdown, cleaned. */
  lemma FromMarkdownLinesSeesLines(md: string, minLength: int)
    ensures FromMarkdownLines(md, minLength) == MdChapters(CleanLines(SplitOn(RemoveChar(md, '-'), '\n')), minLength, Strip)
  {
    CleanMarkdownLinesSplit(md);
  }

  /**
   * With the line-wise cleaning, a PDF without usable TOC whose markdown
   * cleans to a heading line and a long enough body line gives one chapter
   * (where the as-written fallback gives none, by FromMarkdownEmpty).
   */
  lemma GetChaptersByLinesFindsHeading(toc: seq<TocEntry>, confirmed: bool, pageText: int -> Option<string>, pageCount: int,
                                       md: string, heading: string, body: string, minLength: int)
    requires FromToc(toc, confirmed, pageText, pageCount, minLength).None?
    requires CleanLines(SplitOn(RemoveChar(md, '-'), '\n')) == [heading, body]
    requires StartsWith(heading, "#") && !StartsWith(body, "#")
    requires LongEnough(body + "\n", minLength, Strip)
    ensures GetChaptersByLines(toc, confirmed, pageText, pageCount, md, minLength) ==
      [Chapter("Chapter 1_" + Strip(StripHashes(heading)), body + "\n", 1)]
  {
    FromMarkdownLinesSeesLines(md, minLength);
    HeadingThenBody(heading, body, minLength, Strip);
  }
}
