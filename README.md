# Kansas workers' compensation decision chunker — a Dafny model

This project models the core of a pipeline that turns Kansas workers'
compensation decisions (PDF files already reduced to page texts) into
retrieval chunks. It models four parts of the pipeline:

- Case metadata. The claimant, docket number and respondent are read from
  the first three pages. Each field is tried against an ordered list of
  patterns, and the first pattern that yields a value wins.
- Sections. The page texts are joined with line feeds. Every match of every
  section-heading pattern is collected, the matches are stably sorted by
  offset, and the text is cut into one section per heading, each with the
  page it starts on. Each section's text is then cleaned: an upper-case
  heading line is dropped, whitespace runs are collapsed, and line-break
  hyphenation is repaired.
- Chunks. A section's paragraphs are packed greedily into chunks under a
  word budget of 800. Every chunk is tagged with a context header and with
  the document's case fields.
- The document and batch drivers. One document gives either a success
  (name, chunks, metadata) or an error result. A batch filters out files
  already processed when resuming, runs every remaining file, and
  aggregates chunks, successes and errors. The chunks are written once,
  appended exactly when resuming.

The files:

- `wrappers.dfy` holds `Option`.
- `strings.dfy` holds the Python string operations the core relies on:
  `strip`, `split`/`join`, the word count of `str.split()`,
  `os.path.basename`, and the ASCII character classes.
- `config.dfy` holds the configuration table.
- `chunking.dfy`, `section_processing.dfy`, `metadata_extraction.dfy` and
  `processors.dfy` follow the four core source files.

Each loop of the source is a `method` proved against a specification
function, and the properties are proved about those functions as lemmas.
Comprehensions and expressions without a loop, such as the resume filter,
are functions (`Processors.ResumeFilter`).

Several parts of the source are modelled as parameters:

- The regular-expression engine:
  - `search(pattern, text)` is the first group of `re.search`, if there is
    a match;
  - `finditer(pattern, text)` is the list of `(start, group(0))` pairs of
    `re.finditer`.
- The PDF reader: `extract(path)` gives the pages, or the message and
  traceback of the exception it raised.
- The directory listing.
- The set of names already recorded in the output file.

Three regular expressions are modelled exactly because their behaviour is
part of the algorithm: the paragraph split `\n\s*\n` (leftmost matching,
with the greedy `\s*` backing off to the last line feed), and the two
substitutions of the cleaning step, `\s+` to one space and `(\w)- (\w)` to
the two word characters. For each of the three, two lemmas together fix the
result for every text, as `re.split` and `re.sub` define it: a text without
a match is one paragraph or is unchanged; otherwise the text before the
leftmost match is kept (as the first paragraph, or in front of the
replacement), and the scan resumes after the match.

The model follows what the code does in three places where its behaviour is
easy to misread:

- Empty section text gives one empty chunk, `[""]`, not an empty list,
  because `re.split` returns `[""]` (`Chunking.EmptyTextOneChunk`).
- The context header is `Case: <docket> | Claimant: <claimant>`, with a
  space before the bar.
- A section is skipped by comparing the length of its *stripped raw* text
  with its heading's length plus five, not the length of its cleaned text.

## Model

| member | source | states |
|---|---|---|
| Strings.Strip | section_processing.py:45 | `str.strip()`: the result has no whitespace at either end, and it is the input with exactly its leading and trailing whitespace runs removed |
| Strings.JoinSplit | section_processing.py:71-73 | joining the pieces of `split('\n')` with a line feed gives the text back |
| Strings.SplitJoin | section_processing.py:71-73 | splitting a join of line-feed-free pieces gives the pieces back |
| Strings.WordCountSeparated | chunking.py:27-31 | the `split()` word count of two texts joined by a whitespace separator is the sum of their word counts |
| Strings.WordCountBase | chunking.py:27 | a non-empty text without whitespace is one word and whitespace alone is none; with WordCountSeparated this fixes `len(s.split())` for every text |
| Strings.BasenameSpec | processors.py:31 | POSIX `os.path.basename`: the name holds no `/`, is a suffix of the path, and is preceded by a `/` whenever it is shorter than the path |
| Chunking.SplitParagraphs | chunking.py:21 | `re.split` never returns an empty list, even for empty text |
| Chunking.NoNewlineSingleParagraph | chunking.py:21 | text without a line feed is a single paragraph |
| Chunking.SeparatorGreedy | chunking.py:21 | a separator match is the longest one: its greedy `\s*` backs off only to the last line feed of the whitespace run |
| Chunking.SplitFromNoSeparator | chunking.py:21 | with no separator from the scan position on, the rest of the text is one paragraph |
| Chunking.SplitFromFirstSeparator | chunking.py:21 | at the leftmost separator from the scan position, the current paragraph ends where the separator starts, and the scan resumes where it ends |
| Chunking.ParagraphsNoSeparator | chunking.py:21 | a text with no `\n\s*\n` match is a single paragraph, the text itself |
| Chunking.ParagraphsFirstSeparator | chunking.py:21 | at the leftmost match, the text before it is the first paragraph and the rest are found by resuming after the match; with ParagraphsNoSeparator this fixes `re.split` for every text |
| Chunking.ScanPartition | chunking.py:26-36 | after the loop, the closed chunks followed by the open one hold every paragraph, in order; no chunk is empty |
| Chunking.ScanBound | chunking.py:29-36 | a chunk of two or more paragraphs stays within the budget |
| Chunking.ScanGreedy | chunking.py:29-33 | a chunk is closed only when the next paragraph would take it over the budget |
| Chunking.GroupsPartition | chunking.py:26-40 | flattened, the chunks' paragraph groups are the paragraphs in order; no group is empty; there is a group iff there is a paragraph |
| Chunking.GroupsBound | chunking.py:29-40 | a group over the budget is a single paragraph |
| Chunking.GroupsGreedy | chunking.py:29-33 | the first paragraph of every group after the first would have taken the previous group over the budget |
| Chunking.SizeIsWordCount | chunking.py:27-31 | a chunk body's word count is the sum of its paragraphs' word counts |
| Chunking.BodiesBound | chunking.py:26-40 | the chunk bodies' own word counts obey the budget, except for a body that is a single paragraph |
| Chunking.JoinedBodiesPreserveParagraphs | chunking.py:21-40 | the chunk bodies joined by a blank line equal the paragraphs joined the same way: nothing is lost, repeated or moved |
| Chunking.BodiesNonEmpty | chunking.py:21-40 | there is always at least one chunk |
| Chunking.EmptyTextOneChunk | chunking.py:21-40 | empty text gives the single chunk `""` |
| Chunking.ThreeParagraphsExample | chunking.py:26-40 | three paragraphs of 300 words under a budget of 800 give the chunks [first two] and [third] |
| Chunking.PackParagraph | chunking.py:27-36 | one loop iteration: the paragraph closes a non-empty chunk that it would take over the budget, or else joins it; the closed bodies, the open chunk and its running word count stay those of `Step` |
| Chunking.CreateLogicalChunks | chunking.py:9-42 | the packing loop returns exactly the specified chunk bodies, and at least one |
| Chunking.ChunkRecord | chunking.py:67-88 | one record: the context header plus the body; docket, claimant, section, index, count, the filename or `unknown`, and the respondent only when present and not `Unknown` |
| Chunking.CreateChunksWithMetadata | chunking.py:44-92 | one record per chunk body, in order: record i has the header plus body i, index i, a count equal to the number of records, and the document's case fields |
| SectionProcessing.Slice | section_processing.py:45 | Python slicing: the substring when the bounds are ordered and in range, empty when the end is not after the start |
| SectionProcessing.FoundEmpty | section_processing.py:28-31 | no match is collected iff no pattern matches |
| SectionProcessing.CollectMatches | section_processing.py:27-31 | the collection loop gathers every match of every pattern, pattern by pattern, in match order |
| SectionProcessing.SortByStart | section_processing.py:34 | the sort orders the matches by offset and is a permutation of them |
| SectionProcessing.InsertStable | section_processing.py:34 | inserting a match keeps, for every offset, the matches at that offset in their previous order, with the new match last |
| SectionProcessing.SortStable | section_processing.py:34 | the sort is stable: for every offset, the matches starting there keep their collection order |
| SectionProcessing.PageOfSpec | section_processing.py:48-54 | the page of an offset is the first page whose range holds it, and 0 when no page's range does |
| SectionProcessing.PageOffsetInText | section_processing.py:24-54 | the offsets the page loop computes locate every page exactly in the joined text (one line feed per separator) |
| SectionProcessing.FindPageNumber | section_processing.py:48-54 | the page loop with its `break` returns the page of the offset |
| SectionProcessing.CutSection | section_processing.py:38-56 | a section runs from its match to the next match or to the end of the text, stripped, with its page and offset |
| SectionProcessing.CutSections | section_processing.py:37-56 | the cutting loop yields one section per sorted match, each as specified |
| SectionProcessing.IdentifySections | section_processing.py:9-58 | `identify_sections` returns exactly the specified sections |
| SectionProcessing.SectionsOrdered | section_processing.py:27-56 | there is one section per match; there are no sections iff no pattern matches; the sections are in non-decreasing offset order |
| SectionProcessing.SectionsStable | section_processing.py:28-34 | sections at the same offset come in pattern-list order, then match order |
| SectionProcessing.SpansTile | section_processing.py:37-45 | the unstripped spans of sorted in-range matches concatenate to the text from the first match to the end |
| SectionProcessing.SectionsTile | section_processing.py:24-45 | when the matches lie in the text, the sections' raw spans tile it from the first heading to the end, with no gap and no overlap |
| SectionProcessing.DropHeaderSpec | section_processing.py:71-73 | the first line is dropped iff it is upper case, and what is dropped is exactly that line and its line feed |
| SectionProcessing.CollapseSpace | section_processing.py:76 | after `\s+` becomes one space, there is no line feed and no two adjacent whitespace characters; the text is empty iff it was, and its first character is whitespace iff the input's was |
| SectionProcessing.CollapseNoSpace | section_processing.py:76 | a text without whitespace is left unchanged |
| SectionProcessing.CollapseFirstRun | section_processing.py:76 | the leftmost whitespace run, taken whole, becomes one space, the text before it is kept, and the substitution resumes after the run |
| SectionProcessing.Dehyphenate | section_processing.py:79 | the repair never lengthens the text, keeps its first character, and introduces neither a line feed nor adjacent whitespace |
| SectionProcessing.DehyphenateNoBreak | section_processing.py:79 | a text with no word character, hyphen, space, word character sequence is left unchanged |
| SectionProcessing.DehyphenateFirstBreak | section_processing.py:79 | at the leftmost break `x- y`, the text before it is kept, the break becomes `xy`, and the repair resumes right after `y` |
| SectionProcessing.DehyphenateExample | section_processing.py:79 | one left-to-right pass is not idempotent: `a- b- c` becomes `ab- c`, which a second pass makes `abc` |
| SectionProcessing.StripKeepsShape | section_processing.py:81 | stripping keeps a text free of line feeds and adjacent whitespace |
| SectionProcessing.CleanedShape | section_processing.py:60-81 | `CleanSectionText` (header drop, `\s+` collapse, hyphen repair, strip): cleaned text has no line feed, no two adjacent whitespace characters and no whitespace at either end |
| MetadataExtraction.FirstAcceptedFrom | metadata_extraction.py:26-49 | from any position, the value comes from the first pattern that yields one; there is none iff no later pattern yields one |
| MetadataExtraction.PriorityOrder | metadata_extraction.py:26-49 | a field takes the trimmed group of the first pattern, in list order, that matches (and, for a name, passes the check); it is `Unknown` when none does |
| MetadataExtraction.CaseInfoShape | metadata_extraction.py:19-49 | every field is `Unknown` or a trimmed group; a stored name has a space and is upper case |
| MetadataExtraction.FieldDependsOnOwnPatterns | metadata_extraction.py:26-49 | a field depends only on what its own patterns find |
| MetadataExtraction.FindField | metadata_extraction.py:26-49 | a pattern loop with its `break` returns the first accepted trimmed group |
| MetadataExtraction.ExtractCaseInfo | metadata_extraction.py:9-51 | `extract_case_info` returns exactly the specified three fields |
| MetadataExtraction.EnhancedReadsThreePages | metadata_extraction.py:53-67 | `ExtractEnhancedCaseInfo`: pages after the third never affect the metadata, which is read from the first three pages joined by line feeds |
| Processors.DocumentMetadata | processors.py:35-36 | the document metadata always holds `docket_number` and `claimant_name` |
| Processors.DocumentMetadataFields | processors.py:35-36 | the metadata's keys are exactly the three case fields and `filename`, and the chunks of the document record them (the respondent only when known) |
| Processors.ChunkSections | processors.py:41-58 | the section loop skips degenerate sections and appends the chunks of the others, in section order |
| Processors.ProcessPdfFile | processors.py:20-74 | `process_pdf_file` returns exactly the specified result |
| Processors.SingleChunkPerSection | processors.py:47-56 | a cleaned section is one paragraph, so it gives exactly one chunk, numbered 0 of 1 |
| Processors.OneChunkPerKeptSection | processors.py:42-58 | degenerate sections contribute nothing, and kept section i gives chunk i, with its heading and cleaned text |
| Processors.KeptChunksMetadata | processors.py:35-58 | every chunk of a document carries the document's docket, claimant, filename and respondent |
| Processors.ResultCarriesFilename | processors.py:20-74 | a result is named after the path's last component; it is a success iff the pages were read; every chunk carries that name; an error keeps the reader's message and details |
| Processors.ResumeFilter | processors.py:117 | the filter never adds files |
| Processors.ResumeFilterKeeps | processors.py:117 | a file survives the filter iff it is listed and its name was not processed |
| Processors.ResumeFilterAppend | processors.py:117 | the filter keeps listing order: filtering two listings in sequence is filtering each |
| Processors.ResumeFilterNothingProcessed | processors.py:109-117 | without a resume every listed file is kept |
| Processors.ResultsOf | processors.py:129-134 | there is one result per file |
| Processors.ProcessAll | processors.py:129-134 | running the files in order gives exactly the specified results, one per file |
| Processors.Collect | processors.py:137-150 | the aggregation loop gathers the successes' chunks in order, counts the successes and lists the errors |
| Processors.ResultsAccounted | processors.py:137-150 | successes plus errors is the number of results, and only error results are listed as errors |
| Processors.AllChunksFromSuccesses | processors.py:137-140 | a chunk is aggregated iff it is a chunk of some successful result: error results contribute nothing and no success's chunk is lost |
| Processors.AllChunksNamedIn | processors.py:137-140 | a filename property shared by every chunk of the successful results carries over to every aggregated chunk |
| Processors.ResultsOfAt | processors.py:129-134 | the result at position `i` is `process_pdf_file` applied to the `i`-th file, as `Executor.map` pairs them |
| Processors.ResultNamedAfterOwnFile | processors.py:129-134 | the `i`-th result is named after the `i`-th file, is a success iff that file's pages were read, and each of its chunks carries that file's name |
| Processors.ResultsNamedAfterFiles | processors.py:129-134 | every chunk of every successful result carries the name of a file of the batch |
| Processors.ProcessDirectory | processors.py:76-171 | `process_directory` produces exactly the specified report |
| Processors.BatchAccounts | processors.py:108-171 | nothing is processed or written when no file is left; otherwise every remaining file is processed, successes plus errors equal the files processed, the output is appended iff resuming, and the chunk count is the number written |
| Processors.ResumeSkipsProcessed | processors.py:108-159 | a resumed run never writes a chunk for a file already recorded; without a resume every listed file is processed |

## Left out

- The regular-expression engine is a parameter. It is not interpreted for the section, claimant, docket and respondent patterns: nothing is proved about what those patterns match. The pattern texts are kept verbatim in `Config`.
- Character classes are ASCII only:
  - whitespace (`\s`, `strip`, `split`) is tab through carriage return plus the characters 0x1C to space;
  - `\w` is letters, digits and `_`;
  - `isupper` looks only at A–Z and a–z.
  Unicode whitespace, Unicode letters and case mappings are not modelled.
- PDF text extraction is a parameter that yields either pages or an exception's message and traceback. The reader itself is not part of this model.
- Exceptions from the steps after extraction are not modelled. In the model those steps cannot fail, so only a reader failure produces an error result.
- `process_directory` is modelled with some parts replaced or dropped:
  - The process pool and its progress bar are modelled as a sequential run in input order, which is the order `Executor.map` returns results in.
  - Timing and the returned duration are left out.
  - Logging and the per-error log file writes are left out.
- The file listing (`find_pdf_files`) and the already-processed names (`get_processed_files`) are parameters.
- The JSONL write is a record of the chunks written and whether they are appended.
- Strings.Basename: only the POSIX rule of `os.path.basename` is modelled: the name is cut after the last `/`. The Windows rule, which also cuts at `\` and after a drive colon, is not.
- Processors.ProcessDirectory: the `workers` argument is dropped. When files remain to process, `ProcessPoolExecutor(max_workers=workers)` raises `ValueError` for `workers <= 0` (processors.py:129); the model returns a report for every input.
- `process_single_file`, the command-line entry point and the utilities are not part of this model.
- Chunking.CreateChunksWithMetadata: requires the `docket_number` and `claimant_name` keys. Without them the source raises `KeyError`, which the document driver never triggers because its metadata always has both keys.
- Processors.ProcessAll: runs the files one after another. Process isolation and concurrency are not modelled, and the result is the same list `Executor.map` returns.
- MetadataExtraction.FindField: the three pattern loops of `extract_case_info` share one method, parameterised by pattern list and by whether the name check applies. The method's contract ties each loop to its field exactly.
