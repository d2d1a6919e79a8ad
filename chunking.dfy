/** Splitting a cleaned section into paragraph-respecting chunks under a word
    budget, and wrapping each chunk with its context header and metadata. */
module Chunking {
  import opened Wrappers
  import opened Strings

  // ---------------------------------------------------------------------
  // Paragraphs: re.split(r'\n\s*\n', text)
  // ---------------------------------------------------------------------

  /** End of the run of whitespace of `s` that starts at `i`. */
  function SpaceRunEnd(s: string, i: nat): (j: nat)
    requires i <= |s|
    ensures i <= j <= |s|
    ensures forall k :: i <= k < j ==> IsSpace(s[k])
    ensures j == |s| || !IsSpace(s[j])
    decreases |s| - i
  {
    if i < |s| && IsSpace(s[i]) then SpaceRunEnd(s, i + 1) else i
  }

  /** Index of the last line feed of `s` in [lo, hi), if there is one. */
  function LastNewline(s: string, lo: nat, hi: nat): (r: Option<nat>)
    requires lo <= hi <= |s|
    ensures r.Some? ==> lo <= r.value < hi && s[r.value] == '\n'
    ensures r.Some? ==> forall k :: r.value < k < hi ==> s[k] != '\n'
    ensures r.None? ==> forall k :: lo <= k < hi ==> s[k] != '\n'
    decreases hi - lo
  {
    if hi == lo then None
    else if s[hi - 1] == '\n' then Some(hi - 1)
    else LastNewline(s, lo, hi - 1)
  }

  /** Where a separator `\n\s*\n` that starts at index `i` ends, if one starts
      there: a line feed, then the whitespace that follows up to and including
      its last line feed (the greedy `\s*` backs off only as far as it must). */
  function SeparatorEnd(s: string, i: nat): (e: Option<nat>)
    requires i < |s|
    ensures e.Some? ==> i + 2 <= e.value <= |s| && s[i] == '\n' && s[e.value - 1] == '\n'
    ensures e.Some? ==> forall k :: i <= k < e.value ==> IsSpace(s[k])
    ensures e.None? ==> s[i] != '\n' || forall k :: i < k < SpaceRunEnd(s, i + 1) ==> s[k] != '\n'
  {
    if s[i] != '\n' then None
    else
      match LastNewline(s, i + 1, SpaceRunEnd(s, i + 1))
      case None => None
      case Some(k) => Some(k + 1)
  }

  /** The paragraphs of `s` from index `i` on, the current one having started
      at `start`; the scan resumes after each separator, so separators do not
      overlap. */
  function SplitFrom(s: string, start: nat, i: nat): (r: seq<string>)
    requires start <= i <= |s|
    ensures |r| >= 1
    decreases |s| - i
  {
    if i == |s| then [s[start..]]
    else
      match SeparatorEnd(s, i)
      case Some(e) => [s[start..i]] + SplitFrom(s, e, e)
      case None => SplitFrom(s, start, i + 1)
  }

  /** `re.split(r'\n\s*\n', text)`: never empty, even for empty text. */
  function SplitParagraphs(text: string): (paragraphs: seq<string>)
    ensures |paragraphs| >= 1
  {
    SplitFrom(text, 0, 0)
  }

  lemma {:induction false} SplitFromNoNewline(s: string, start: nat, i: nat)
    requires start <= i <= |s|
    requires forall k :: i <= k < |s| ==> s[k] != '\n'
    ensures SplitFrom(s, start, i) == [s[start..]]
    decreases |s| - i
  {
    if i < |s| {
      SplitFromNoNewline(s, start, i + 1);
    }
  }

  /** The separator starting at `i` is the longest match: no line feed lies
      between its end and the end of the whitespace run it sits in. */
  lemma SeparatorGreedy(s: string, i: nat)
    requires i < |s| && SeparatorEnd(s, i).Some?
    ensures SeparatorEnd(s, i).value <= SpaceRunEnd(s, i + 1)
    ensures forall k :: SeparatorEnd(s, i).value <= k < SpaceRunEnd(s, i + 1) ==> s[k] != '\n'
  {
  }

  lemma SplitFromAtSeparator(s: string, start: nat, i: nat)
    requires start <= i < |s| && SeparatorEnd(s, i).Some?
    ensures var e := SeparatorEnd(s, i).value;
      SplitFrom(s, start, i) == [s[start..i]] + SplitFrom(s, e, e)
  {
  }

  lemma SplitFromPastNonSeparator(s: string, start: nat, i: nat)
    requires start <= i < |s| && SeparatorEnd(s, i).None?
    ensures SplitFrom(s, start, i) == SplitFrom(s, start, i + 1)
  {
  }

  /** With no separator from `i` on, the rest is one paragraph. */
  lemma {:induction false} SplitFromNoSeparator(s: string, start: nat, i: nat)
    requires start <= i <= |s|
    requires forall k :: i <= k < |s| ==> SeparatorEnd(s, k).None?
    ensures SplitFrom(s, start, i) == [s[start..]]
    decreases |s| - i
  {
    if i < |s| {
      SplitFromPastNonSeparator(s, start, i);
      SplitFromNoSeparator(s, start, i + 1);
    }
  }

  /** At the leftmost separator from `i`, which starts at `j`, the current
      paragraph ends and the scan resumes after the separator. */
  lemma {:induction false} SplitFromFirstSeparator(s: string, start: nat, i: nat, j: nat)
    requires start <= i <= j < |s| && SeparatorEnd(s, j).Some?
    requires forall k :: i <= k < j ==> SeparatorEnd(s, k).None?
    ensures var e := SeparatorEnd(s, j).value;
      SplitFrom(s, start, i) == [s[start..j]] + SplitFrom(s, e, e)
    decreases j - i
  {
    if i < j {
      SplitFromPastNonSeparator(s, start, i);
      SplitFromFirstSeparator(s, start, i + 1, j);
    } else {
      SplitFromAtSeparator(s, start, i);
    }
  }

  /** Text without a separator is a single paragraph. */
  lemma ParagraphsNoSeparator(text: string)
    requires forall k :: 0 <= k < |text| ==> SeparatorEnd(text, k).None?
    ensures SplitParagraphs(text) == [text]
  {
    SplitFromNoSeparator(text, 0, 0);
    assert text[0..] == text;
  }

  /** `re.split` at the leftmost separator, which starts at `j` and ends at
      `e`: the text before it is the first paragraph, and the remaining
      paragraphs are those found by resuming the scan at `e`. With
      `ParagraphsNoSeparator` and `SplitFromFirstSeparator` this determines
      the paragraphs of every text. */
  lemma ParagraphsFirstSeparator(text: string, j: nat)
    requires j < |text| && SeparatorEnd(text, j).Some?
    requires forall k :: 0 <= k < j ==> SeparatorEnd(text, k).None?
    ensures var e := SeparatorEnd(text, j).value;
      SplitParagraphs(text) == [text[..j]] + SplitFrom(text, e, e)
  {
    SplitFromFirstSeparator(text, 0, 0, j);
    assert text[0..j] == text[..j];
  }

  /** Text without a line feed is a single paragraph. */
  lemma NoNewlineSingleParagraph(text: string)
    requires '\n' !in text
    ensures SplitParagraphs(text) == [text]
  {
    SplitFromNoNewline(text, 0, 0);
  }

  // ---------------------------------------------------------------------
  // Greedy packing of paragraphs
  // ---------------------------------------------------------------------

  /** The word count of a group of paragraphs. */
  function Size(group: seq<string>): nat
    decreases |group|
  {
    if group == [] then 0 else Size(group[..|group| - 1]) + WordCount(group[|group| - 1])
  }

  /** The packing loop's state: completed chunks and the chunk being built. */
  datatype PackState = PackState(done: seq<seq<string>>, current: seq<string>)

  /** One iteration: close the current chunk when the paragraph would take it
      over the budget and it is not empty, otherwise add the paragraph to it. */
  function Step(st: PackState, para: string, maxTokens: int): PackState {
    if Size(st.current) + WordCount(para) > maxTokens && st.current != [] then
      PackState(st.done + [st.current], [para])
    else
      PackState(st.done, st.current + [para])
  }

  /** The state after the loop has consumed `paras`. */
  function Scan(paras: seq<string>, maxTokens: int): PackState
    decreases |paras|
  {
    if paras == [] then PackState([], [])
    else Step(Scan(paras[..|paras| - 1], maxTokens), paras[|paras| - 1], maxTokens)
  }

  /** The paragraph groups, one per chunk: the completed ones and the last. */
  function Groups(paras: seq<string>, maxTokens: int): seq<seq<string>> {
    var st := Scan(paras, maxTokens);
    if st.current != [] then st.done + [st.current] else st.done
  }

  /** Each group joined with a blank line. */
  function JoinEach(groups: seq<seq<string>>): seq<string> {
    seq(|groups|, i requires 0 <= i < |groups| => Join("\n\n", groups[i]))
  }

  lemma JoinEachSnoc(groups: seq<seq<string>>, g: seq<string>)
    ensures JoinEach(groups + [g]) == JoinEach(groups) + [Join("\n\n", g)]
  {
  }

  /** The chunk bodies for `text`. */
  function Bodies(text: string, maxTokens: int): seq<string> {
    JoinEach(Groups(SplitParagraphs(text), maxTokens))
  }

  /** All groups one after another. */
  function Flatten(groups: seq<seq<string>>): seq<string>
    decreases |groups|
  {
    if groups == [] then [] else Flatten(groups[..|groups| - 1]) + groups[|groups| - 1]
  }

  lemma FlattenSnoc(groups: seq<seq<string>>, g: seq<string>)
    ensures Flatten(groups + [g]) == Flatten(groups) + g
  {
    assert (groups + [g])[..|groups|] == groups;
  }

  lemma SizeSnoc(group: seq<string>, p: string)
    ensures Size(group + [p]) == Size(group) + WordCount(p)
  {
    assert (group + [p])[..|group|] == group;
  }

  /** The scan keeps every paragraph, in order, in non-empty groups. */
  lemma {:induction false} ScanPartition(paras: seq<string>, maxTokens: int)
    ensures var st := Scan(paras, maxTokens);
      Flatten(st.done) + st.current == paras &&
      (forall k :: 0 <= k < |st.done| ==> st.done[k] != []) &&
      (paras != [] ==> st.current != [])
    decreases |paras|
  {
    if paras != [] {
      var prefix, para := paras[..|paras| - 1], paras[|paras| - 1];
      ScanPartition(prefix, maxTokens);
      var st := Scan(prefix, maxTokens);
      if Size(st.current) + WordCount(para) > maxTokens && st.current != [] {
        FlattenSnoc(st.done, st.current);
      }
      assert prefix + [para] == paras;
    }
  }

  /** A group of two or more paragraphs stays within the budget. */
  lemma {:induction false} ScanBound(paras: seq<string>, maxTokens: int)
    ensures var st := Scan(paras, maxTokens);
      (forall k :: 0 <= k < |st.done| && |st.done[k]| >= 2 ==> Size(st.done[k]) <= maxTokens) &&
      (|st.current| >= 2 ==> Size(st.current) <= maxTokens)
    decreases |paras|
  {
    if paras != [] {
      var prefix, para := paras[..|paras| - 1], paras[|paras| - 1];
      ScanBound(prefix, maxTokens);
      SizeSnoc(Scan(prefix, maxTokens).current, para);
    }
  }

  /** Each group after the first is non-empty, and its first paragraph would
      have taken the group before it over the budget. */
  ghost predicate Greedy(groups: seq<seq<string>>, maxTokens: int) {
    forall k :: 1 <= k < |groups| ==>
      groups[k] != [] && Size(groups[k - 1]) + WordCount(groups[k][0]) > maxTokens
  }

  lemma GreedySnoc(groups: seq<seq<string>>, g: seq<string>, maxTokens: int)
    requires Greedy(groups, maxTokens)
    requires groups != [] ==> g != [] && Size(groups[|groups| - 1]) + WordCount(g[0]) > maxTokens
    ensures Greedy(groups + [g], maxTokens)
  {
    var all := groups + [g];
    forall k | 1 <= k < |all|
      ensures all[k] != [] && Size(all[k - 1]) + WordCount(all[k][0]) > maxTokens
    {
      if k < |groups| {
        assert all[k] == groups[k] && all[k - 1] == groups[k - 1];
      }
    }
  }

  lemma GreedyPrefix(groups: seq<seq<string>>, g: seq<string>, maxTokens: int)
    requires Greedy(groups + [g], maxTokens)
    ensures Greedy(groups, maxTokens)
  {
    var all := groups + [g];
    forall k | 1 <= k < |groups|
      ensures groups[k] != [] && Size(groups[k - 1]) + WordCount(groups[k][0]) > maxTokens
    {
      assert all[k] == groups[k] && all[k - 1] == groups[k - 1];
    }
  }

  /** The scan state read as groups: the closed ones, then the current one,
      which is non-empty once a group has been closed. */
  ghost predicate ClosedGreedily(st: PackState, maxTokens: int) {
    (st.done != [] ==> st.current != []) && Greedy(st.done + [st.current], maxTokens)
  }

  /** Once a group is closed, the next paragraph did not fit beside it. */
  lemma {:induction false} ScanGreedy(paras: seq<string>, maxTokens: int)
    ensures ClosedGreedily(Scan(paras, maxTokens), maxTokens)
    decreases |paras|
  {
    if paras != [] {
      var prefix, para := paras[..|paras| - 1], paras[|paras| - 1];
      ScanGreedy(prefix, maxTokens);
      var st := Scan(prefix, maxTokens);
      if Size(st.current) + WordCount(para) > maxTokens && st.current != [] {
        GreedySnoc(st.done + [st.current], [para], maxTokens);
      } else {
        var all := st.done + [st.current];
        GreedyPrefix(st.done, st.current, maxTokens);
        if st.done != [] {
          assert all[|st.done|] == st.current && all[|st.done| - 1] == st.done[|st.done| - 1];
          assert (st.current + [para])[0] == st.current[0];
        }
        GreedySnoc(st.done, st.current + [para], maxTokens);
      }
    }
  }

  /** The groups partition the paragraphs: flattened, they are the paragraphs
      in order, none is empty, and there is a group iff there is a paragraph. */
  lemma GroupsPartition(paras: seq<string>, maxTokens: int)
    ensures var groups := Groups(paras, maxTokens);
      Flatten(groups) == paras &&
      (forall k :: 0 <= k < |groups| ==> groups[k] != []) &&
      (groups == [] <==> paras == [])
  {
    ScanPartition(paras, maxTokens);
    var st := Scan(paras, maxTokens);
    if st.current != [] {
      FlattenSnoc(st.done, st.current);
    }
  }

  lemma {:induction false} NonEmptyGroupsFlatten(groups: seq<seq<string>>)
    requires groups != []
    requires forall k :: 0 <= k < |groups| ==> groups[k] != []
    ensures Flatten(groups) != []
  {
    assert groups[|groups| - 1] != [];
  }

  /** Size bound: a group of two or more paragraphs is within the budget, so a
      group over the budget is a single paragraph. */
  lemma GroupsBound(paras: seq<string>, maxTokens: int)
    ensures var groups := Groups(paras, maxTokens);
      forall k :: 0 <= k < |groups| && Size(groups[k]) > maxTokens ==> |groups[k]| == 1
  {
    ScanBound(paras, maxTokens);
    ScanPartition(paras, maxTokens);
  }

  /** Greedy maximality: the first paragraph of each group would have taken the
      group before it over the budget. */
  lemma GroupsGreedy(paras: seq<string>, maxTokens: int)
    ensures var groups := Groups(paras, maxTokens);
      forall k :: 1 <= k < |groups| ==>
        groups[k] != [] && Size(groups[k - 1]) + WordCount(groups[k][0]) > maxTokens
  {
    ScanGreedy(paras, maxTokens);
  }

  /** The word count of a chunk body is the sum of its paragraphs' word counts. */
  lemma {:induction false} SizeIsWordCount(group: seq<string>)
    requires group != []
    ensures WordCount(Join("\n\n", group)) == Size(group)
    decreases |group|
  {
    if |group| > 1 {
      var front := group[..|group| - 1];
      SizeIsWordCount(front);
      JoinAppend("\n\n", front, [group[|group| - 1]]);
      assert front + [group[|group| - 1]] == group;
      WordCountSeparated(Join("\n\n", front), "\n\n", group[|group| - 1]);
    } else {
      assert group[..0] == [];
    }
  }

  /** The chunks' own word counts obey the bound: a body with more words than
      the budget comes from exactly one paragraph. */
  lemma BodiesBound(text: string, maxTokens: int)
    ensures var groups := Groups(SplitParagraphs(text), maxTokens);
      forall k :: 0 <= k < |groups| ==>
        groups[k] != [] && WordCount(Bodies(text, maxTokens)[k]) == Size(groups[k]) &&
        (WordCount(Bodies(text, maxTokens)[k]) > maxTokens ==> |groups[k]| == 1)
  {
    var paras := SplitParagraphs(text);
    var groups := Groups(paras, maxTokens);
    GroupsPartition(paras, maxTokens);
    GroupsBound(paras, maxTokens);
    forall k | 0 <= k < |groups|
      ensures WordCount(Bodies(text, maxTokens)[k]) == Size(groups[k])
    {
      SizeIsWordCount(groups[k]);
    }
  }

  /** Joining the chunk bodies with a blank line gives the paragraphs joined the
      same way: no paragraph is lost, repeated or moved. */
  lemma JoinedBodiesPreserveParagraphs(text: string, maxTokens: int)
    ensures Join("\n\n", Bodies(text, maxTokens)) == Join("\n\n", SplitParagraphs(text))
  {
    var paras := SplitParagraphs(text);
    var groups := Groups(paras, maxTokens);
    GroupsPartition(paras, maxTokens);
    JoinFlatten(groups);
  }

  lemma {:induction false} JoinFlatten(groups: seq<seq<string>>)
    requires forall k :: 0 <= k < |groups| ==> groups[k] != []
    ensures Join("\n\n", JoinEach(groups)) == Join("\n\n", Flatten(groups))
    decreases |groups|
  {
    if |groups| > 1 {
      var front, last := groups[..|groups| - 1], groups[|groups| - 1];
      JoinFlatten(front);
      assert JoinEach(groups) == JoinEach(front) + [Join("\n\n", last)];
      JoinAppend("\n\n", JoinEach(front), [Join("\n\n", last)]);
      NonEmptyGroupsFlatten(front);
      JoinAppend("\n\n", Flatten(front), last);
    } else if |groups| == 1 {
      assert groups[..0] == [];
      assert Flatten(groups) == groups[0];
      assert JoinEach(groups) == [Join("\n\n", groups[0])];
    }
  }

  /** The result is never empty: there is at least one paragraph, hence at
      least one group. */
  lemma BodiesNonEmpty(text: string, maxTokens: int)
    ensures |Bodies(text, maxTokens)| >= 1
  {
    GroupsPartition(SplitParagraphs(text), maxTokens);
  }

  lemma GroupsOfEmptyParagraph(maxTokens: int)
    ensures Groups([""], maxTokens) == [[""]]
  {
    assert [""][..0] == [];
    assert Scan([""], maxTokens) == Step(PackState([], []), "", maxTokens);
    assert Step(PackState([], []), "", maxTokens) == PackState([], [""]);
  }

  /** Empty text gives the one chunk "". */
  lemma EmptyTextOneChunk(maxTokens: int)
    ensures Bodies("", maxTokens) == [""]
  {
    assert SplitParagraphs("") == [""];
    GroupsOfEmptyParagraph(maxTokens);
    assert JoinEach([[""]]) == [Join("\n\n", [""])];
  }

  /** Three paragraphs of 300 words under a budget of 800 give a chunk of the
      first two (600 words) and a chunk of the third (300 words). */
  lemma ThreeParagraphsExample(a: string, b: string, c: string)
    requires WordCount(a) == 300 && WordCount(b) == 300 && WordCount(c) == 300
    ensures Groups([a, b, c], 800) == [[a, b], [c]]
    ensures Size([a, b]) == 600 && Size([c]) == 300
  {
    assert [a, b, c][..2] == [a, b] && [a, b][..1] == [a] && [a][..0] == [];
    assert Scan([a], 800) == PackState([], [a]);
    SizeSnoc([], a);
    assert Scan([a, b], 800) == PackState([], [a, b]);
    SizeSnoc([a], b);
  }

  /** One record per chunk: `text` carries the context header, `metadata`
      the chunk's place in its section. */
  datatype ChunkMetadata = ChunkMetadata(
    docketNumber: string,
    claimantName: string,
    section: string,
    chunkIndex: nat,
    chunkCount: nat,
    filename: string,
    respondentName: Option<string>)

  datatype Chunk = Chunk(text: string, metadata: ChunkMetadata)

  /** The keys `create_chunks_with_metadata` reads without a default. */
  predicate HasCaseKeys(metadata: map<string, string>) {
    "docket_number" in metadata && "claimant_name" in metadata
  }

  function ContextHeader(metadata: map<string, string>, sectionName: string): string
    requires HasCaseKeys(metadata)
  {
    "Case: " + metadata["docket_number"] + " | Claimant: " + metadata["claimant_name"] +
    "\nSection: " + sectionName + "\n\n"
  }

  /** `metadata.get('filename', 'unknown')`. */
  function FilenameOf(metadata: map<string, string>): string {
    if "filename" in metadata then metadata["filename"] else "unknown"
  }

  /** The respondent is recorded only when the key is present and resolved. */
  function RespondentOf(metadata: map<string, string>): Option<string> {
    if "respondent_name" in metadata && metadata["respondent_name"] != "Unknown" then
      Some(metadata["respondent_name"])
    else None
  }

  function MakeChunk(sectionName: string, body: string, metadata: map<string, string>,
                     index: nat, count: nat): Chunk
    requires HasCaseKeys(metadata)
  {
    Chunk(ContextHeader(metadata, sectionName) + body,
          ChunkMetadata(metadata["docket_number"], metadata["claimant_name"], sectionName,
                        index, count, FilenameOf(metadata), RespondentOf(metadata)))
  }

  /** The records `create_chunks_with_metadata` returns. */
  function ChunkRecords(sectionName: string, sectionText: string,
                        metadata: map<string, string>, maxTokens: int): seq<Chunk>
    requires HasCaseKeys(metadata)
  {
    var bodies := Bodies(sectionText, maxTokens);
    seq(|bodies|, i requires 0 <= i < |bodies| => MakeChunk(sectionName, bodies[i], metadata, i, |bodies|))
  }

  // ---------------------------------------------------------------------
  // The operations
  // ---------------------------------------------------------------------

  /** create_logical_chunks: the greedy packing loop. */
  /** The body of the packing loop: the paragraph closes the current chunk
      or joins it, as `Step` says, with the running size kept in step. */
  method PackParagraph(chunks: seq<string>, currentChunk: seq<string>, currentSize: int,
                       para: string, maxTokens: int, ghost st: PackState)
    returns (chunks': seq<string>, currentChunk': seq<string>, currentSize': int)
    requires chunks == JoinEach(st.done) && currentChunk == st.current
    requires currentSize == Size(currentChunk)
    ensures chunks' == JoinEach(Step(st, para, maxTokens).done)
    ensures currentChunk' == Step(st, para, maxTokens).current != []
    ensures currentSize' == Size(currentChunk')
  {
    var paraSize := WordCount(para);
    SizeSnoc(currentChunk, para);
    if currentSize + paraSize > maxTokens && currentChunk != [] {
      JoinEachSnoc(st.done, st.current);
      chunks' := chunks + [Join("\n\n", currentChunk)];
      currentChunk' := [para];
      currentSize' := paraSize;
      assert Size([para]) == WordCount(para) by { assert [para][..0] == []; }
    } else {
      chunks' := chunks;
      currentChunk' := currentChunk + [para];
      currentSize' := currentSize + paraSize;
    }
  }

  method CreateLogicalChunks(text: string, maxTokens: int) returns (chunks: seq<string>)
    ensures chunks == Bodies(text, maxTokens)
    ensures |chunks| >= 1
  {
    chunks := [];
    var paragraphs := SplitParagraphs(text);
    var currentChunk: seq<string> := [];
    var currentSize := 0;
    ghost var st := PackState([], []);
    for i := 0 to |paragraphs|
      invariant st == Scan(paragraphs[..i], maxTokens)
      invariant chunks == JoinEach(st.done) && currentChunk == st.current
      invariant currentSize == Size(currentChunk)
      invariant i > 0 ==> currentChunk != []
    {
      assert paragraphs[..i + 1][..i] == paragraphs[..i];
      chunks, currentChunk, currentSize := PackParagraph(chunks, currentChunk, currentSize, paragraphs[i], maxTokens, st);
      st := Step(st, paragraphs[i], maxTokens);
    }
    assert paragraphs[..|paragraphs|] == paragraphs;
    if currentChunk != [] {
      JoinEachSnoc(st.done, currentChunk);
      chunks := chunks + [Join("\n\n", currentChunk)];
    }
  }

  /** create_chunks_with_metadata: one record per chunk body, numbered in order. */
  method CreateChunksWithMetadata(sectionName: string, sectionText: string,
                                  metadata: map<string, string>, maxTokens: int)
    returns (chunkDicts: seq<Chunk>)
    requires HasCaseKeys(metadata)
    ensures |chunkDicts| == |Bodies(sectionText, maxTokens)| >= 1
    ensures forall i :: 0 <= i < |chunkDicts| ==>
      chunkDicts[i].text == ContextHeader(metadata, sectionName) + Bodies(sectionText, maxTokens)[i]
    ensures forall i :: 0 <= i < |chunkDicts| ==>
      chunkDicts[i].metadata.chunkIndex == i && chunkDicts[i].metadata.chunkCount == |chunkDicts|
    ensures forall i :: 0 <= i < |chunkDicts| ==>
      var m := chunkDicts[i].metadata;
      m.docketNumber == metadata["docket_number"] && m.claimantName == metadata["claimant_name"] &&
      m.section == sectionName && m.filename == FilenameOf(metadata) &&
      m.respondentName == RespondentOf(metadata)
    ensures chunkDicts == ChunkRecords(sectionName, sectionText, metadata, maxTokens)
  {
    chunkDicts := [];
    var chunks := CreateLogicalChunks(sectionText, maxTokens);
    for i := 0 to |chunks|
      invariant |chunkDicts| == i
      invariant forall j :: 0 <= j < i ==> chunkDicts[j] == MakeChunk(sectionName, chunks[j], metadata, j, |chunks|)
    {
      var chunk := ChunkRecord(sectionName, chunks[i], metadata, i, |chunks|);
      chunkDicts := chunkDicts + [chunk];
    }
  }

  /** The body of the record loop of `create_chunks_with_metadata`: the text
      with its context header, and the metadata with the respondent added
      only when it is known. */
  method ChunkRecord(sectionName: string, body: string, metadata: map<string, string>,
                     index: nat, count: nat)
    returns (chunk: Chunk)
    requires HasCaseKeys(metadata)
    ensures chunk == MakeChunk(sectionName, body, metadata, index, count)
  {
    var formattedText := "Case: " + metadata["docket_number"] + " | Claimant: " +
                         metadata["claimant_name"] + "\nSection: " + sectionName + "\n\n" + body;
    var chunkMetadata := ChunkMetadata(metadata["docket_number"], metadata["claimant_name"],
                                       sectionName, index, count,
                                       if "filename" in metadata then metadata["filename"] else "unknown",
                                       None);
    if "respondent_name" in metadata && metadata["respondent_name"] != "Unknown" {
      chunkMetadata := chunkMetadata.(respondentName := Some(metadata["respondent_name"]));
    }
    chunk := Chunk(formattedText, chunkMetadata);
  }
}
