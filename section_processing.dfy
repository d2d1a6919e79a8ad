/** Finding the sections of a document by their headings, and cleaning a
    section's raw text. */
module SectionProcessing {
  import opened Strings
  import Config

  /** A heading match: `match.start()` and `match.group(0)`. */
  datatype Match = Match(start: nat, text: string)

  /** The tuple (section_name, section_text, page_num, start_pos). */
  datatype Section = Section(name: string, text: string, pageNum: nat, startPos: nat)

  function Min(a: nat, b: nat): nat { if a <= b then a else b }

  /** Python's `s[lo:hi]` for non-negative bounds: both are clamped to the
      length, and the slice is empty when they cross. */
  function Slice(s: string, lo: nat, hi: nat): (r: string)
    ensures lo <= hi <= |s| ==> r == s[lo..hi]
    ensures hi <= lo ==> r == ""
  {
    var a, b := Min(lo, |s|), Min(hi, |s|);
    if a < b then s[a..b] else ""
  }

  // ---------------------------------------------------------------------
  // Collecting and ordering heading matches
  // ---------------------------------------------------------------------

  /** The matches of every pattern, pattern by pattern in list order, each
      pattern's matches in the order `finditer` yields them. */
  function Found(patterns: seq<string>, text: string, finditer: (string, string) -> seq<Match>): seq<Match>
    decreases |patterns|
  {
    if patterns == [] then []
    else Found(patterns[..|patterns| - 1], text, finditer) + finditer(patterns[|patterns| - 1], text)
  }

  /** Zero matches over all patterns, and only then, leaves nothing. */
  lemma {:induction false} FoundEmpty(patterns: seq<string>, text: string, finditer: (string, string) -> seq<Match>)
    ensures Found(patterns, text, finditer) == [] <==>
      forall k :: 0 <= k < |patterns| ==> finditer(patterns[k], text) == []
    decreases |patterns|
  {
    if patterns != [] {
      var front := patterns[..|patterns| - 1];
      FoundEmpty(front, text, finditer);
      assert forall k :: 0 <= k < |front| ==> front[k] == patterns[k];
    }
  }

  predicate SortedByStart(ms: seq<Match>) {
    forall i, j :: 0 <= i < j < |ms| ==> ms[i].start <= ms[j].start
  }

  /** No match starts after `bound`. */
  predicate StartsAtMost(ms: seq<Match>, bound: nat) {
    forall i :: 0 <= i < |ms| ==> ms[i].start <= bound
  }

  /** Inserts `m` after every element that does not start after it. */
  function InsertByStart(sorted: seq<Match>, m: Match): (r: seq<Match>)
    ensures |r| == |sorted| + 1
    decreases |sorted|
  {
    if sorted == [] || sorted[|sorted| - 1].start <= m.start then sorted + [m]
    else InsertByStart(sorted[..|sorted| - 1], m) + [sorted[|sorted| - 1]]
  }

  /** Insertion adds `m` and loses nothing. */
  lemma {:induction false} InsertPermutes(sorted: seq<Match>, m: Match)
    ensures multiset(InsertByStart(sorted, m)) == multiset(sorted) + multiset{m}
    decreases |sorted|
  {
    if sorted != [] && sorted[|sorted| - 1].start > m.start {
      var front, last := sorted[..|sorted| - 1], sorted[|sorted| - 1];
      assert sorted == front + [last];
      InsertPermutes(front, m);
    }
  }

  /** Inserting a match that starts no later than `bound` among matches that
      start no later than `bound` keeps them all no later than `bound`. */
  lemma InsertAtMost(ms: seq<Match>, m: Match, bound: nat)
    requires StartsAtMost(ms, bound) && m.start <= bound
    ensures StartsAtMost(InsertByStart(ms, m), bound)
  {
    var r := InsertByStart(ms, m);
    InsertPermutes(ms, m);
    forall i | 0 <= i < |r| ensures r[i].start <= bound {
      assert r[i] in multiset(r);
      if r[i] != m {
        assert r[i] in multiset(ms);
        var j :| 0 <= j < |ms| && ms[j] == r[i];
      }
    }
  }

  /** Insertion keeps a sorted list sorted. */
  lemma {:induction false} InsertSorted(sorted: seq<Match>, m: Match)
    requires SortedByStart(sorted)
    ensures SortedByStart(InsertByStart(sorted, m))
    decreases |sorted|
  {
    if sorted != [] && sorted[|sorted| - 1].start > m.start {
      var front, last := sorted[..|sorted| - 1], sorted[|sorted| - 1];
      InsertSorted(front, m);
      assert StartsAtMost(front, last.start);
      InsertAtMost(front, m, last.start);
      var r := InsertByStart(front, m);
      assert InsertByStart(sorted, m) == r + [last];
    }
  }

  /** Sorting keeps every match no later than `bound`. */
  lemma {:induction false} SortAtMost(ms: seq<Match>, bound: nat)
    requires StartsAtMost(ms, bound)
    ensures StartsAtMost(SortByStart(ms), bound)
    decreases |ms|
  {
    if ms != [] {
      var front := ms[..|ms| - 1];
      assert StartsAtMost(front, bound);
      SortAtMost(front, bound);
      InsertAtMost(SortByStart(front), ms[|ms| - 1], bound);
    }
  }

  /** `list.sort(key=start)`: a stable sort by start offset. */
  function SortByStart(ms: seq<Match>): (r: seq<Match>)
    ensures SortedByStart(r)
    ensures |r| == |ms|
    ensures multiset(r) == multiset(ms)
    decreases |ms|
  {
    if ms == [] then []
    else
      assert ms == ms[..|ms| - 1] + [ms[|ms| - 1]];
      InsertSorted(SortByStart(ms[..|ms| - 1]), ms[|ms| - 1]);
      InsertPermutes(SortByStart(ms[..|ms| - 1]), ms[|ms| - 1]);
      InsertByStart(SortByStart(ms[..|ms| - 1]), ms[|ms| - 1])
  }

  /** The matches that start at `pos`, in order. */
  function StartingAt(ms: seq<Match>, pos: nat): seq<Match>
    decreases |ms|
  {
    if ms == [] then []
    else StartingAt(ms[..|ms| - 1], pos) + (if ms[|ms| - 1].start == pos then [ms[|ms| - 1]] else [])
  }

  lemma StartingAtSnoc(ms: seq<Match>, m: Match, pos: nat)
    ensures StartingAt(ms + [m], pos) == StartingAt(ms, pos) + (if m.start == pos then [m] else [])
  {
    assert (ms + [m])[..|ms|] == ms;
  }

  lemma {:induction false} StartingAtAfter(ms: seq<Match>, pos: nat)
    requires forall i :: 0 <= i < |ms| ==> ms[i].start > pos
    ensures StartingAt(ms, pos) == []
    decreases |ms|
  {
    if ms != [] {
      StartingAtAfter(ms[..|ms| - 1], pos);
    }
  }

  lemma SwapEmpty(a: seq<Match>, x: seq<Match>, y: seq<Match>)
    requires x == [] || y == []
    ensures a + x + y == a + y + x
  {
  }

  lemma {:induction false} InsertStable(sorted: seq<Match>, m: Match, pos: nat)
    ensures StartingAt(InsertByStart(sorted, m), pos) ==
      StartingAt(sorted, pos) + (if m.start == pos then [m] else [])
    decreases |sorted|
  {
    if sorted == [] || sorted[|sorted| - 1].start <= m.start {
      StartingAtSnoc(sorted, m, pos);
    } else {
      var front, last := sorted[..|sorted| - 1], sorted[|sorted| - 1];
      var r := InsertByStart(front, m);
      assert sorted == front + [last];
      assert InsertByStart(sorted, m) == r + [last];
      InsertStable(front, m, pos);
      StartingAtSnoc(r, last, pos);
      StartingAtSnoc(front, last, pos);
      SwapEmpty(StartingAt(front, pos), if m.start == pos then [m] else [], if last.start == pos then [last] else []);
    }
  }

  /** Stability: for every offset, the matches starting there keep the order
      in which they were found (ties keep pattern-list order). */
  lemma {:induction false} SortStable(ms: seq<Match>, pos: nat)
    ensures StartingAt(SortByStart(ms), pos) == StartingAt(ms, pos)
    decreases |ms|
  {
    if ms != [] {
      SortStable(ms[..|ms| - 1], pos);
      InsertStable(SortByStart(ms[..|ms| - 1]), ms[|ms| - 1], pos);
    }
  }

  // ---------------------------------------------------------------------
  // Pages
  // ---------------------------------------------------------------------

  /** Where page `p` starts in the pages joined with line feeds:
      the lengths of the pages before it, plus one separator each. */
  function PageOffset(pages: seq<string>, p: nat): nat
    requires p <= |pages|
  {
    if p == 0 then 0 else PageOffset(pages, p - 1) + |pages[p - 1]| + 1
  }

  predicate OnPage(pages: seq<string>, p: nat, pos: nat)
    requires p < |pages|
  {
    PageOffset(pages, p) <= pos < PageOffset(pages, p) + |pages[p]|
  }

  /** The first page from `p` on whose range holds `pos`, or 0 if none does. */
  function PageFrom(pages: seq<string>, p: nat, pos: nat): nat
    requires p <= |pages|
    decreases |pages| - p
  {
    if p == |pages| then 0
    else if OnPage(pages, p, pos) then p
    else PageFrom(pages, p + 1, pos)
  }

  function PageOf(pages: seq<string>, pos: nat): nat {
    PageFrom(pages, 0, pos)
  }

  lemma {:induction false} PageFromFirst(pages: seq<string>, p: nat, pos: nat)
    requires p <= |pages|
    requires forall q :: 0 <= q < p ==> !OnPage(pages, q, pos)
    ensures var r := PageFrom(pages, p, pos);
      ((exists q :: 0 <= q < |pages| && OnPage(pages, q, pos)) ==>
        r < |pages| && OnPage(pages, r, pos) && forall q :: 0 <= q < r ==> !OnPage(pages, q, pos)) &&
      ((forall q :: 0 <= q < |pages| ==> !OnPage(pages, q, pos)) ==> r == 0)
    decreases |pages| - p
  {
    if p < |pages| && !OnPage(pages, p, pos) {
      PageFromFirst(pages, p + 1, pos);
    }
  }

  /** The page of an offset is the first page whose range holds it; it is 0
      when no page's range does (an offset on a separator, or past the end). */
  lemma PageOfSpec(pages: seq<string>, pos: nat)
    ensures var r := PageOf(pages, pos);
      ((exists q :: 0 <= q < |pages| && OnPage(pages, q, pos)) ==>
        r < |pages| && OnPage(pages, r, pos) && forall q :: 0 <= q < r ==> !OnPage(pages, q, pos)) &&
      ((forall q :: 0 <= q < |pages| ==> !OnPage(pages, q, pos)) ==> r == 0)
  {
    PageFromFirst(pages, 0, pos);
  }

  lemma {:induction false} PageOffsetTail(pages: seq<string>, p: nat)
    requires 1 <= p <= |pages|
    ensures PageOffset(pages, p) == |pages[0]| + 1 + PageOffset(pages[1..], p - 1)
  {
    if p > 1 {
      PageOffsetTail(pages, p - 1);
    }
  }

  /** The offsets are right: page `p` sits at `PageOffset(pages, p)` in the
      pages joined with line feeds. */
  lemma {:induction false} PageOffsetInText(pages: seq<string>, p: nat)
    requires p < |pages|
    ensures PageOffset(pages, p) + |pages[p]| <= |Join("\n", pages)|
    ensures Join("\n", pages)[PageOffset(pages, p)..PageOffset(pages, p) + |pages[p]|] == pages[p]
    decreases p
  {
    var text := Join("\n", pages);
    if |pages| > 1 {
      assert text == pages[0] + "\n" + Join("\n", pages[1..]);
    }
    if p > 0 {
      PageOffsetInText(pages[1..], p - 1);
      PageOffsetTail(pages, p);
      var n := |pages[0]| + 1;
      assert text[n..] == Join("\n", pages[1..]);
    }
  }

  // ---------------------------------------------------------------------
  // Sections
  // ---------------------------------------------------------------------

  /** A section ends where the next one starts, the last at the end of text. */
  function SectionEnd(sorted: seq<Match>, i: nat, textLength: nat): nat
    requires i < |sorted|
  {
    if i < |sorted| - 1 then sorted[i + 1].start else textLength
  }

  /** The raw span of the i-th section: `combined[start:end]`. */
  function RawSpan(combined: string, sorted: seq<Match>, i: nat): string
    requires i < |sorted|
  {
    Slice(combined, sorted[i].start, SectionEnd(sorted, i, |combined|))
  }

  function SectionAt(pages: seq<string>, combined: string, sorted: seq<Match>, i: nat): Section
    requires i < |sorted|
  {
    Section(sorted[i].text, Strip(RawSpan(combined, sorted, i)), PageOf(pages, sorted[i].start), sorted[i].start)
  }

  /** The heading matches of the document in section order. */
  function SortedMatches(pages: seq<string>, finditer: (string, string) -> seq<Match>): seq<Match> {
    SortByStart(Found(Config.SECTION_PATTERNS, Join("\n", pages), finditer))
  }

  /** The sections `identify_sections(pages)` returns. */
  function SectionsOf(pages: seq<string>, finditer: (string, string) -> seq<Match>): seq<Section> {
    var sorted := SortedMatches(pages, finditer);
    seq(|sorted|, i requires 0 <= i < |sorted| => SectionAt(pages, Join("\n", pages), sorted, i))
  }

  /** One section per match over all patterns, none without a match, in
      non-decreasing order of start offset. */
  lemma SectionsOrdered(pages: seq<string>, finditer: (string, string) -> seq<Match>)
    ensures var sections := SectionsOf(pages, finditer);
      |sections| == |Found(Config.SECTION_PATTERNS, Join("\n", pages), finditer)| &&
      (sections == [] <==> forall k :: 0 <= k < |Config.SECTION_PATTERNS| ==>
                             finditer(Config.SECTION_PATTERNS[k], Join("\n", pages)) == []) &&
      forall i, j :: 0 <= i < j < |sections| ==> sections[i].startPos <= sections[j].startPos
  {
    FoundEmpty(Config.SECTION_PATTERNS, Join("\n", pages), finditer);
    var sorted := SortedMatches(pages, finditer);
    var sections := SectionsOf(pages, finditer);
    assert forall i :: 0 <= i < |sections| ==> sections[i].startPos == sorted[i].start;
  }

  /** The (start, name) pairs of the sections. */
  function Headings(sections: seq<Section>): seq<Match> {
    seq(|sections|, i requires 0 <= i < |sections| => Match(sections[i].startPos, sections[i].name))
  }

  /** Sections that start at the same offset come in the order their headings
      were found: pattern-list order, then match order. */
  lemma SectionsStable(pages: seq<string>, finditer: (string, string) -> seq<Match>, pos: nat)
    ensures StartingAt(Headings(SectionsOf(pages, finditer)), pos) ==
            StartingAt(Found(Config.SECTION_PATTERNS, Join("\n", pages), finditer), pos)
  {
    var sorted := SortedMatches(pages, finditer);
    assert Headings(SectionsOf(pages, finditer)) == sorted;
    SortStable(Found(Config.SECTION_PATTERNS, Join("\n", pages), finditer), pos);
  }

  /** All the texts one after another. */
  function Concat(parts: seq<string>): string
    decreases |parts|
  {
    if parts == [] then "" else parts[0] + Concat(parts[1..])
  }

  /** The raw spans of the sections, in order. */
  function RawSpans(combined: string, sorted: seq<Match>): seq<string> {
    seq(|sorted|, i requires 0 <= i < |sorted| => RawSpan(combined, sorted, i))
  }

  lemma {:induction false} SpansTile(combined: string, sorted: seq<Match>)
    requires sorted != [] && SortedByStart(sorted)
    requires StartsAtMost(sorted, |combined|)
    ensures Concat(RawSpans(combined, sorted)) == combined[sorted[0].start..]
    decreases |sorted|
  {
    var spans := RawSpans(combined, sorted);
    if |sorted| > 1 {
      var rest := sorted[1..];
      assert SortedByStart(rest);
      SpansTile(combined, rest);
      assert spans[1..] == RawSpans(combined, rest) by {
        forall i | 0 <= i < |rest| ensures spans[1..][i] == RawSpan(combined, rest, i) {
          assert SectionEnd(sorted, i + 1, |combined|) == SectionEnd(rest, i, |combined|);
        }
      }
      assert spans[0] == combined[sorted[0].start..sorted[1].start];
      assert combined[sorted[0].start..] ==
             combined[sorted[0].start..sorted[1].start] + combined[sorted[1].start..];
    } else {
      assert spans[1..] == [];
    }
  }

  /** Contiguity: when the matches lie within the text, the raw spans tile the
      text from the first heading to the end, with no gap and no overlap (text
      before the first heading is in no section). */
  lemma SectionsTile(pages: seq<string>, finditer: (string, string) -> seq<Match>)
    requires MatchesWithin(Config.SECTION_PATTERNS, Join("\n", pages), finditer)
    ensures var combined, sorted := Join("\n", pages), SortedMatches(pages, finditer);
      sorted != [] ==> Concat(RawSpans(combined, sorted)) == Slice(combined, sorted[0].start, |combined|)
  {
    var combined := Join("\n", pages);
    var found := Found(Config.SECTION_PATTERNS, combined, finditer);
    var sorted := SortedMatches(pages, finditer);
    FoundWithin(Config.SECTION_PATTERNS, combined, finditer);
    SortAtMost(found, |combined|);
    if sorted != [] {
      SpansTile(combined, sorted);
    }
  }

  /** Every match the matcher reports for these patterns starts within the text. */
  ghost predicate MatchesWithin(patterns: seq<string>, text: string, finditer: (string, string) -> seq<Match>) {
    forall k, j :: 0 <= k < |patterns| && 0 <= j < |finditer(patterns[k], text)| ==>
      finditer(patterns[k], text)[j].start <= |text|
  }

  lemma {:induction false} FoundWithin(patterns: seq<string>, text: string, finditer: (string, string) -> seq<Match>)
    requires MatchesWithin(patterns, text, finditer)
    ensures StartsAtMost(Found(patterns, text, finditer), |text|)
    decreases |patterns|
  {
    if patterns != [] {
      var front := patterns[..|patterns| - 1];
      assert MatchesWithin(front, text, finditer) by {
        assert forall k :: 0 <= k < |front| ==> front[k] == patterns[k];
      }
      FoundWithin(front, text, finditer);
      var last := finditer(patterns[|patterns| - 1], text);
      assert forall j :: 0 <= j < |last| ==> last[j].start <= |text|;
    }
  }

  /** The page-number scan of identify_sections: walk the pages, keeping the
      running offset, and stop at the first page whose range holds `startPos`. */
  method FindPageNumber(pages: seq<string>, startPos: nat) returns (pageNum: nat)
    ensures pageNum == PageOf(pages, startPos)
  {
    pageNum := 0;
    var currentPos := 0;
    for p := 0 to |pages|
      invariant currentPos == PageOffset(pages, p)
      invariant PageFrom(pages, p, startPos) == PageOf(pages, startPos)
      invariant pageNum == 0
    {
      if startPos >= currentPos && startPos < currentPos + |pages[p]| {
        pageNum := p;
        break;
      }
      currentPos := currentPos + |pages[p]| + 1;
    }
  }

  /** The first loop of `identify_sections`: every match of every pattern,
      pattern by pattern, each pattern's matches in the order found. */
  method CollectMatches(patterns: seq<string>, text: string, finditer: (string, string) -> seq<Match>)
    returns (positions: seq<Match>)
    ensures positions == Found(patterns, text, finditer)
  {
    positions := [];
    for k := 0 to |patterns|
      invariant positions == Found(patterns[..k], text, finditer)
    {
      var matches := finditer(patterns[k], text);
      for j := 0 to |matches|
        invariant positions == Found(patterns[..k], text, finditer) + matches[..j]
      {
        assert matches[..j + 1] == matches[..j] + [matches[j]];
        positions := positions + [Match(matches[j].start, matches[j].text)];
      }
      assert patterns[..k + 1][..k] == patterns[..k];
      assert matches[..|matches|] == matches;
    }
    assert patterns[..|patterns|] == patterns;
  }

  /** One iteration of the second loop of `identify_sections`: section `i`
      runs from its match to the next match, or to the end of the text. */
  method CutSection(pages: seq<string>, combinedText: string, sectionPositions: seq<Match>, i: nat)
    returns (section: Section)
    requires i < |sectionPositions|
    ensures section == SectionAt(pages, combinedText, sectionPositions, i)
  {
    var startPos := sectionPositions[i].start;
    var endPos := if i < |sectionPositions| - 1 then sectionPositions[i + 1].start else |combinedText|;
    var sectionText := Strip(Slice(combinedText, startPos, endPos));
    var pageNum := FindPageNumber(pages, startPos);
    assert endPos == SectionEnd(sectionPositions, i, |combinedText|);
    section := Section(sectionPositions[i].text, sectionText, pageNum, startPos);
  }

  /** The second loop of `identify_sections`: one section per sorted match. */
  method CutSections(pages: seq<string>, combinedText: string, sectionPositions: seq<Match>)
    returns (sections: seq<Section>)
    ensures |sections| == |sectionPositions|
    ensures forall j :: 0 <= j < |sections| ==>
      sections[j] == SectionAt(pages, combinedText, sectionPositions, j)
  {
    sections := [];
    for i := 0 to |sectionPositions|
      invariant |sections| == i
      invariant forall j :: 0 <= j < i ==> sections[j] == SectionAt(pages, combinedText, sectionPositions, j)
    {
      var section := CutSection(pages, combinedText, sectionPositions, i);
      sections := sections + [section];
    }
  }

  /** identify_sections: collect every heading match, sort by offset, cut the
      joined text at the matches and look up each section's page. */
  method IdentifySections(pages: seq<string>, finditer: (string, string) -> seq<Match>)
    returns (sections: seq<Section>)
    ensures sections == SectionsOf(pages, finditer)
  {
    var combinedText := Join("\n", pages);
    var sectionPositions := CollectMatches(Config.SECTION_PATTERNS, combinedText, finditer);
    sectionPositions := SortByStart(sectionPositions);
    sections := CutSections(pages, combinedText, sectionPositions);
  }

  // ---------------------------------------------------------------------
  // Cleaning
  // ---------------------------------------------------------------------

  /** Step 1: drop the first line when it is upper case (the heading). */
  function DropHeader(text: string): string {
    var lines := Split(text, '\n');
    if IsUpper(lines[0]) then Join("\n", lines[1..]) else text
  }

  /** The header is dropped only when the first line is upper case; what is
      dropped is exactly that line and the line feed after it. */
  lemma DropHeaderSpec(text: string)
    ensures var lines := Split(text, '\n');
      (!IsUpper(lines[0]) ==> DropHeader(text) == text) &&
      (IsUpper(lines[0]) && |lines| == 1 ==> DropHeader(text) == "" && text == lines[0]) &&
      (IsUpper(lines[0]) && |lines| > 1 ==> text == lines[0] + "\n" + DropHeader(text))
  {
    JoinSplit(text, '\n');
  }

  predicate NoDoubleSpace(s: string) {
    forall i :: 0 <= i < |s| - 1 ==> !(IsSpace(s[i]) && IsSpace(s[i + 1]))
  }

  /** Step 2, `re.sub(r'\s+', ' ', text)`: each whitespace run becomes one
      space, so no line feed and no two adjacent whitespace characters remain. */
  function CollapseSpace(s: string): (r: string)
    ensures '\n' !in r
    ensures NoDoubleSpace(r)
    ensures r == [] <==> s == []
    ensures r != [] ==> (IsSpace(r[0]) <==> IsSpace(s[0]))
    decreases |s|
  {
    if s == [] then ""
    else if IsSpace(s[0]) then
      var rest := s[SkipSpace(s, 0)..];
      assert |rest| < |s|;
      var r := " " + CollapseSpace(rest);
      assert r[1..] == CollapseSpace(rest);
      r
    else
      var r := [s[0]] + CollapseSpace(s[1..]);
      assert r[1..] == CollapseSpace(s[1..]);
      r
  }

  /** Text without whitespace is left unchanged. */
  lemma {:induction false} CollapseNoSpace(s: string)
    requires forall i :: 0 <= i < |s| ==> !IsSpace(s[i])
    ensures CollapseSpace(s) == s
    decreases |s|
  {
    if s != [] {
      CollapseNoSpace(s[1..]);
      assert s == [s[0]] + s[1..];
    }
  }

  lemma {:induction false} SkipSpaceShift(s: string, i: nat)
    requires 1 <= i <= |s|
    ensures SkipSpace(s[1..], i - 1) + 1 == SkipSpace(s, i)
    decreases |s| - i
  {
    if i < |s| && IsSpace(s[i]) {
      assert s[1..][i - 1] == s[i];
      SkipSpaceShift(s, i + 1);
    } else if i < |s| {
      assert s[1..][i - 1] == s[i];
    }
  }

  /** Splicing the first element back onto a prefix of the tail. */
  lemma ConsPrefix(s: string, i: nat, y: string, x: string)
    requires 1 <= i <= |s|
    ensures [s[0]] + (s[1..][..i - 1] + y + x) == s[..i] + y + x
  {
    assert s[..i] == [s[0]] + s[1..][..i - 1];
  }

  lemma CollapseAtSpace(s: string)
    requires s != [] && IsSpace(s[0])
    ensures CollapseSpace(s) == " " + CollapseSpace(s[SkipSpace(s, 0)..])
  {
  }

  lemma CollapseAtNonSpace(s: string)
    requires s != [] && !IsSpace(s[0])
    ensures CollapseSpace(s) == [s[0]] + CollapseSpace(s[1..])
  {
  }

  /** The first whitespace run of `s`, past its first character, is the first run of its tail. */
  lemma FirstSpaceShift(s: string, i: nat)
    requires 1 <= i < |s| && IsSpace(s[i])
    requires forall j :: 0 <= j < i ==> !IsSpace(s[j])
    ensures IsSpace(s[1..][i - 1])
    ensures forall j :: 0 <= j < i - 1 ==> !IsSpace(s[1..][j])
    ensures s[1..][SkipSpace(s[1..], i - 1)..] == s[SkipSpace(s, i)..]
  {
    SkipSpaceShift(s, i);
  }

  lemma CollapseCons(s: string, i: nat, y: string, rest: string)
    requires 1 <= i <= |s| && !IsSpace(s[0])
    requires CollapseSpace(s[1..]) == s[1..][..i - 1] + y + rest
    ensures CollapseSpace(s) == s[..i] + y + rest
  {
    CollapseAtNonSpace(s);
    ConsPrefix(s, i, y, rest);
  }

  /** `re.sub` replaces the leftmost match: the first whitespace run, which
      starts at `i`, becomes one space, the text before it is kept, and the
      substitution resumes after the whole run. With `CollapseNoSpace` this
      determines the result for every text. */
  lemma {:induction false} CollapseFirstRun(s: string, i: nat)
    requires i < |s| && IsSpace(s[i])
    requires forall j :: 0 <= j < i ==> !IsSpace(s[j])
    ensures CollapseSpace(s) == s[..i] + " " + CollapseSpace(s[SkipSpace(s, i)..])
    decreases i
  {
    if i == 0 {
      CollapseAtSpace(s);
      assert s[..0] == [];
    } else {
      FirstSpaceShift(s, i);
      CollapseFirstRun(s[1..], i - 1);
      CollapseCons(s, i, " ", CollapseSpace(s[SkipSpace(s, i)..]));
    }
  }

  /** A hyphenation break at `i`: `(\w)- (\w)`. */
  predicate HyphenBreakAt(s: string, i: nat)
    requires i + 4 <= |s|
  {
    IsWordChar(s[i]) && s[i + 1] == '-' && s[i + 2] == ' ' && IsWordChar(s[i + 3])
  }

  /** Step 3, `re.sub(r'(\w)- (\w)', r'\1\2', text)`: one left-to-right pass
      that removes "- " between two word characters, resuming after each
      replacement. */
  function Dehyphenate(s: string): (r: string)
    ensures |r| <= |s|
    ensures r != [] ==> s != [] && r[0] == s[0]
    ensures '\n' !in s ==> '\n' !in r
    ensures NoDoubleSpace(s) ==> NoDoubleSpace(r)
    decreases |s|
  {
    if |s| >= 4 && HyphenBreakAt(s, 0) then
      var r := [s[0], s[3]] + Dehyphenate(s[4..]);
      assert '\n' !in s ==> '\n' !in s[4..] by {
        if '\n' in s[4..] { var k :| 0 <= k < |s[4..]| && s[4..][k] == '\n'; assert s[k + 4] == '\n'; }
      }
      assert NoDoubleSpace(s) ==> NoDoubleSpace(s[4..]) by {
        if NoDoubleSpace(s) {
          forall i | 0 <= i < |s[4..]| - 1 ensures !(IsSpace(s[4..][i]) && IsSpace(s[4..][i + 1])) {
            assert s[4..][i] == s[i + 4] && s[4..][i + 1] == s[i + 5];
          }
        }
      }
      assert r[2..] == Dehyphenate(s[4..]);
      r
    else if s == [] then ""
    else
      var r := [s[0]] + Dehyphenate(s[1..]);
      assert NoDoubleSpace(s) ==> NoDoubleSpace(s[1..]) by {
        if NoDoubleSpace(s) {
          forall i | 0 <= i < |s[1..]| - 1 ensures !(IsSpace(s[1..][i]) && IsSpace(s[1..][i + 1])) {
            assert s[1..][i] == s[i + 1] && s[1..][i + 1] == s[i + 2];
          }
        }
      }
      assert r[1..] == Dehyphenate(s[1..]);
      r
  }

  lemma HyphenBreakShift(s: string, i: nat)
    requires i + 5 <= |s|
    ensures HyphenBreakAt(s[1..], i) == HyphenBreakAt(s, i + 1)
  {
    assert s[1..][i..i + 4] == s[i + 1..i + 5];
  }

  lemma DehyphenateAtBreak(s: string)
    requires |s| >= 4 && HyphenBreakAt(s, 0)
    ensures Dehyphenate(s) == [s[0], s[3]] + Dehyphenate(s[4..])
  {
  }

  lemma DehyphenateNoBreakAt(s: string)
    requires s != [] && !(|s| >= 4 && HyphenBreakAt(s, 0))
    ensures Dehyphenate(s) == [s[0]] + Dehyphenate(s[1..])
  {
  }

  /** The first break of `s`, past its first character, is the first break of its tail. */
  lemma FirstBreakShift(s: string, i: nat)
    requires 1 <= i && i + 4 <= |s| && HyphenBreakAt(s, i)
    requires forall j :: 0 <= j < i ==> !HyphenBreakAt(s, j)
    ensures HyphenBreakAt(s[1..], i - 1)
    ensures forall j :: 0 <= j < i - 1 ==> !HyphenBreakAt(s[1..], j)
  {
    HyphenBreakShift(s, i - 1);
    forall j | 0 <= j < i - 1 ensures !HyphenBreakAt(s[1..], j) {
      HyphenBreakShift(s, j);
    }
  }

  lemma DehyphenateCons(s: string, i: nat, y: string, rest: string)
    requires 1 <= i <= |s| && !(|s| >= 4 && HyphenBreakAt(s, 0))
    requires Dehyphenate(s[1..]) == s[1..][..i - 1] + y + rest
    ensures Dehyphenate(s) == s[..i] + y + rest
  {
    DehyphenateNoBreakAt(s);
    ConsPrefix(s, i, y, rest);
  }

  /** Text without a break is left unchanged. */
  lemma {:induction false} DehyphenateNoBreak(s: string)
    requires forall i :: 0 <= i && i + 4 <= |s| ==> !HyphenBreakAt(s, i)
    ensures Dehyphenate(s) == s
    decreases |s|
  {
    if s != [] {
      forall i | 0 <= i && i + 4 <= |s[1..]| ensures !HyphenBreakAt(s[1..], i) {
        HyphenBreakShift(s, i);
      }
      DehyphenateNoBreakAt(s);
      DehyphenateNoBreak(s[1..]);
      assert s == [s[0]] + s[1..];
    }
  }

  /** `re.sub` replaces the leftmost match: at the first break, at `i`, the
      "- " between the two word characters is removed, the text before it is
      kept, and the substitution resumes after the second word character.
      With `DehyphenateNoBreak` this determines the result for every text:
      only the "- " of breaks is ever deleted. */
  lemma {:induction false} DehyphenateFirstBreak(s: string, i: nat)
    requires i + 4 <= |s| && HyphenBreakAt(s, i)
    requires forall j :: 0 <= j < i ==> !HyphenBreakAt(s, j)
    ensures Dehyphenate(s) == s[..i] + [s[i], s[i + 3]] + Dehyphenate(s[i + 4..])
    decreases i
  {
    if i == 0 {
      DehyphenateAtBreak(s);
      assert s[..0] == [];
    } else {
      var t := s[1..];
      FirstBreakShift(s, i);
      DehyphenateFirstBreak(t, i - 1);
      assert t[i + 3..] == s[i + 4..];
      DehyphenateCons(s, i, [s[i], s[i + 3]], Dehyphenate(s[i + 4..]));
    }
  }

  lemma {:induction false} DehyphenateShort(s: string)
    requires |s| < 4
    ensures Dehyphenate(s) == s
    decreases |s|
  {
    if s != [] {
      DehyphenateShort(s[1..]);
      assert s == [s[0]] + s[1..];
    }
  }

  lemma DehyphenateFirstPass()
    ensures Dehyphenate("a- b- c") == "ab- c"
  {
    var s := "a- b- c";
    assert HyphenBreakAt(s, 0);
    assert s[4..] == "- c";
    DehyphenateShort("- c");
    assert ['a', 'b'] + "- c" == "ab- c";
  }

  lemma DehyphenateSecondPass()
    ensures Dehyphenate("ab- c") == "abc"
  {
    var s := "ab- c";
    assert !HyphenBreakAt(s, 0);
    assert s[1..] == "b- c";
    assert HyphenBreakAt("b- c", 0);
    assert "b- c"[4..] == "";
    assert Dehyphenate("b- c") == "bc";
  }

  /** The pass is not idempotent: a second pass can repair again. */
  lemma DehyphenateExample()
    ensures Dehyphenate("a- b- c") == "ab- c"
    ensures Dehyphenate(Dehyphenate("a- b- c")) == "abc"
  {
    DehyphenateFirstPass();
    DehyphenateSecondPass();
  }

  /** clean_section_text. */
  function CleanSectionText(sectionText: string): string {
    Strip(Dehyphenate(CollapseSpace(DropHeader(sectionText))))
  }

  lemma {:induction false} StripKeepsShape(s: string)
    requires '\n' !in s && NoDoubleSpace(s)
    ensures '\n' !in Strip(s) && NoDoubleSpace(Strip(s))
  {
    var r := Strip(s);
    var k := SkipSpace(s, 0);
    assert forall i :: 0 <= i < |r| ==> r[i] == s[k + i];
  }

  /** The cleaned text holds no line feed, no two adjacent whitespace
      characters and no whitespace at either end. */
  lemma CleanedShape(sectionText: string)
    ensures var r := CleanSectionText(sectionText);
      '\n' !in r && NoDoubleSpace(r) && NoEdgeSpace(r)
  {
    StripKeepsShape(Dehyphenate(CollapseSpace(DropHeader(sectionText))));
  }
}
