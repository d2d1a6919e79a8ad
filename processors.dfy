/** The per-document driver (`process_pdf_file`) and the deterministic parts of
    the batch driver (`process_directory`): the resume filter, the early
    return, the sequential run over the files and the aggregation of results. */
module Processors {
  import opened Wrappers
  import opened Strings
  import Config
  import opened Chunking
  import SectionProcessing
  import MetadataExtraction

  // ---------------------------------------------------------------------
  // One document
  // ---------------------------------------------------------------------

  /** What the PDF reader gives for a path: the text of each page, or the
      exception it raised (its message and its formatted traceback). */
  datatype Extraction = Pages(pages: seq<string>) | Failed(error: string, details: string)

  /** The dictionary `process_pdf_file` returns; the constructor is its
      `status`. An error result carries no chunks. */
  datatype FileResult =
    | Success(filename: string, chunks: seq<Chunk>, metadata: map<string, string>)
    | Error(filename: string, error: string, details: string)

  /** The case information as the dictionary `extract_case_info` builds. */
  function CaseInfoDict(info: MetadataExtraction.CaseInfo): map<string, string> {
    map["claimant_name" := info.claimantName,
        "docket_number" := info.docketNumber,
        "respondent_name" := info.respondentName]
  }

  /** The document metadata: the case information plus the file's name. */
  function DocumentMetadata(info: MetadataExtraction.CaseInfo, filename: string): (m: map<string, string>)
    ensures HasCaseKeys(m)
  {
    CaseInfoDict(info)["filename" := filename]
  }

  /** The document metadata holds exactly the three case fields and the file
      name, so every chunk of the document records them. */
  lemma DocumentMetadataFields(info: MetadataExtraction.CaseInfo, filename: string)
    ensures var m := DocumentMetadata(info, filename);
      m.Keys == {"claimant_name", "docket_number", "respondent_name", "filename"} &&
      m["docket_number"] == info.docketNumber && m["claimant_name"] == info.claimantName &&
      FilenameOf(m) == filename &&
      RespondentOf(m) == if info.respondentName == "Unknown" then None else Some(info.respondentName)
  {
  }

  /** A section is chunked only when its stripped text is longer than its
      heading plus five characters. */
  predicate Kept(section: SectionProcessing.Section) {
    |Strip(section.text)| > |section.name| + 5
  }

  /** The chunks of one section: its cleaned text, chunked and tagged. */
  function SectionChunks(section: SectionProcessing.Section, metadata: map<string, string>): seq<Chunk>
    requires HasCaseKeys(metadata)
  {
    ChunkRecords(section.name, SectionProcessing.CleanSectionText(section.text), metadata, Config.MAX_CHUNK_SIZE)
  }

  /** The chunks of the kept sections, in section order. */
  function KeptChunks(sections: seq<SectionProcessing.Section>, metadata: map<string, string>): seq<Chunk>
    requires HasCaseKeys(metadata)
    decreases |sections|
  {
    if sections == [] then []
    else
      var last := sections[|sections| - 1];
      KeptChunks(sections[..|sections| - 1], metadata) +
      (if Kept(last) then SectionChunks(last, metadata) else [])
  }

  /** The kept sections, in order. */
  function KeptSections(sections: seq<SectionProcessing.Section>): seq<SectionProcessing.Section>
    decreases |sections|
  {
    if sections == [] then []
    else
      var last := sections[|sections| - 1];
      KeptSections(sections[..|sections| - 1]) + (if Kept(last) then [last] else [])
  }

  /** The result `process_pdf_file(path)` returns, given what the reader
      yields for the path. */
  function FileResultOf(path: string, extraction: Extraction,
                        search: (string, string) -> Option<string>,
                        finditer: (string, string) -> seq<SectionProcessing.Match>): FileResult
  {
    match extraction
    case Failed(error, details) => Error(Basename(path), error, details)
    case Pages(pages) =>
      var metadata := DocumentMetadata(MetadataExtraction.ExtractEnhancedCaseInfo(pages, search), Basename(path));
      Success(Basename(path), KeptChunks(SectionProcessing.SectionsOf(pages, finditer), metadata), metadata)
  }

  /** The section loop of `process_pdf_file`: degenerate sections are
      skipped, the others cleaned, chunked and appended in order. */
  method ChunkSections(sections: seq<SectionProcessing.Section>, metadata: map<string, string>)
    returns (fileChunks: seq<Chunk>)
    requires HasCaseKeys(metadata)
    ensures fileChunks == KeptChunks(sections, metadata)
  {
    fileChunks := [];
    for i := 0 to |sections|
      invariant fileChunks == KeptChunks(sections[..i], metadata)
    {
      assert sections[..i + 1][..i] == sections[..i];
      var section := sections[i];
      if |Strip(section.text)| <= |section.name| + 5 {
        continue;
      }
      var cleanText := SectionProcessing.CleanSectionText(section.text);
      var sectionChunks := CreateChunksWithMetadata(section.name, cleanText, metadata, Config.MAX_CHUNK_SIZE);
      fileChunks := fileChunks + sectionChunks;
    }
    assert sections[..|sections|] == sections;
  }

  /** process_pdf_file. */
  method ProcessPdfFile(pdfPath: string, extraction: Extraction,
                        search: (string, string) -> Option<string>,
                        finditer: (string, string) -> seq<SectionProcessing.Match>)
    returns (result: FileResult)
    ensures result == FileResultOf(pdfPath, extraction, search, finditer)
  {
    match extraction {
      case Failed(error, details) =>
        result := Error(Basename(pdfPath), error, details);
      case Pages(pages) =>
        var filename := Basename(pdfPath);
        var caseInfo := MetadataExtraction.ExtractCaseInfo(MetadataExtraction.FrontText(pages), search);
        var metadata := CaseInfoDict(caseInfo);
        metadata := metadata["filename" := filename];
        assert metadata == DocumentMetadata(MetadataExtraction.ExtractEnhancedCaseInfo(pages, search), filename);
        var sections := SectionProcessing.IdentifySections(pages, finditer);
        var fileChunks := ChunkSections(sections, metadata);
        result := Success(filename, fileChunks, metadata);
    }
  }

  /** A cleaned section has no line feed, so it is one paragraph and gives
      exactly one chunk: index 0 of 1, its text the header and the cleaned
      section. */
  lemma SingleChunkPerSection(section: SectionProcessing.Section, metadata: map<string, string>)
    requires HasCaseKeys(metadata)
    ensures SectionChunks(section, metadata) ==
            [MakeChunk(section.name, SectionProcessing.CleanSectionText(section.text), metadata, 0, 1)]
  {
    var clean := SectionProcessing.CleanSectionText(section.text);
    SectionProcessing.CleanedShape(section.text);
    NoNewlineSingleParagraph(clean);
    assert [clean][..0] == [];
    assert Scan([clean], Config.MAX_CHUNK_SIZE) == PackState([], [clean]);
    assert Groups([clean], Config.MAX_CHUNK_SIZE) == [[clean]];
    assert Bodies(clean, Config.MAX_CHUNK_SIZE) == [clean];
  }

  /** Chunk i is the single chunk of section i. */
  ghost predicate OneChunkEach(chunks: seq<Chunk>, kept: seq<SectionProcessing.Section>,
                               metadata: map<string, string>)
    requires HasCaseKeys(metadata)
  {
    |chunks| == |kept| &&
    forall i :: 0 <= i < |chunks| ==>
      chunks[i] == MakeChunk(kept[i].name, SectionProcessing.CleanSectionText(kept[i].text), metadata, 0, 1)
  }

  lemma OneChunkEachSnoc(chunks: seq<Chunk>, kept: seq<SectionProcessing.Section>,
                         section: SectionProcessing.Section, metadata: map<string, string>)
    requires HasCaseKeys(metadata)
    requires OneChunkEach(chunks, kept, metadata)
    ensures OneChunkEach(chunks + SectionChunks(section, metadata), kept + [section], metadata)
  {
    SingleChunkPerSection(section, metadata);
  }

  /** Degenerate sections contribute nothing and every kept section exactly
      one chunk: chunk i belongs to kept section i, is numbered 0 of 1 and
      carries that section's heading and cleaned text. */
  lemma {:induction false} OneChunkPerKeptSection(sections: seq<SectionProcessing.Section>,
                                                  metadata: map<string, string>)
    requires HasCaseKeys(metadata)
    ensures var chunks, kept := KeptChunks(sections, metadata), KeptSections(sections);
      |chunks| == |kept| &&
      forall i :: 0 <= i < |chunks| ==>
        chunks[i] == MakeChunk(kept[i].name, SectionProcessing.CleanSectionText(kept[i].text), metadata, 0, 1)
    decreases |sections|
  {
    if sections != [] {
      var last := sections[|sections| - 1];
      var init := sections[..|sections| - 1];
      OneChunkPerKeptSection(init, metadata);
      if Kept(last) {
        OneChunkEachSnoc(KeptChunks(init, metadata), KeptSections(init), last, metadata);
      } else {
        assert KeptChunks(sections, metadata) == KeptChunks(init, metadata);
        assert KeptSections(sections) == KeptSections(init);
      }
    }
  }

  /** Every chunk of a document carries the document's case fields and name. */
  lemma {:induction false} KeptChunksMetadata(sections: seq<SectionProcessing.Section>,
                                              metadata: map<string, string>)
    requires HasCaseKeys(metadata)
    ensures forall c :: c in KeptChunks(sections, metadata) ==>
      c.metadata.docketNumber == metadata["docket_number"] &&
      c.metadata.claimantName == metadata["claimant_name"] &&
      c.metadata.filename == FilenameOf(metadata) &&
      c.metadata.respondentName == RespondentOf(metadata)
    decreases |sections|
  {
    if sections != [] {
      var init, last := sections[..|sections| - 1], sections[|sections| - 1];
      KeptChunksMetadata(init, metadata);
      if Kept(last) {
        SectionChunksCarryCase(last, metadata);
      }
    }
  }

  lemma SectionChunksCarryCase(section: SectionProcessing.Section, metadata: map<string, string>)
    requires HasCaseKeys(metadata)
    ensures forall c :: c in SectionChunks(section, metadata) ==>
      c.metadata.docketNumber == metadata["docket_number"] &&
      c.metadata.claimantName == metadata["claimant_name"] &&
      c.metadata.filename == FilenameOf(metadata) &&
      c.metadata.respondentName == RespondentOf(metadata)
  {
  }

  /** A successful result is named after the path's last component, and so is
      every chunk in it; a failed extraction gives an error result under the
      same name. */
  lemma ResultCarriesFilename(path: string, extraction: Extraction,
                              search: (string, string) -> Option<string>,
                              finditer: (string, string) -> seq<SectionProcessing.Match>)
    ensures var r := FileResultOf(path, extraction, search, finditer);
      r.filename == Basename(path) &&
      (r.Success? <==> extraction.Pages?) &&
      (r.Success? ==> r.metadata["filename"] == Basename(path) &&
                      forall c :: c in r.chunks ==> c.metadata.filename == Basename(path)) &&
      (r.Error? ==> r.error == extraction.error && r.details == extraction.details)
  {
    if extraction.Pages? {
      var metadata := DocumentMetadata(MetadataExtraction.ExtractEnhancedCaseInfo(extraction.pages, search), Basename(path));
      KeptChunksMetadata(SectionProcessing.SectionsOf(extraction.pages, finditer), metadata);
    }
  }

  // ---------------------------------------------------------------------
  // A batch of documents
  // ---------------------------------------------------------------------

  /** The listed files whose names are not among the processed ones, in
      listing order. */
  function ResumeFilter(files: seq<string>, processed: set<string>): (r: seq<string>)
    ensures |r| <= |files|
    decreases |files|
  {
    if files == [] then []
    else (if Basename(files[0]) in processed then [] else [files[0]]) + ResumeFilter(files[1..], processed)
  }

  /** A file survives the filter exactly when its name was not processed. */
  lemma {:induction false} ResumeFilterKeeps(files: seq<string>, processed: set<string>)
    ensures forall f :: f in ResumeFilter(files, processed) <==> f in files && Basename(f) !in processed
    decreases |files|
  {
    if files != [] {
      ResumeFilterKeeps(files[1..], processed);
      assert files == [files[0]] + files[1..];
    }
  }

  /** The filter keeps the listing order: filtering two listings one after the
      other is filtering each. */
  lemma {:induction false} ResumeFilterAppend(a: seq<string>, b: seq<string>, processed: set<string>)
    ensures ResumeFilter(a + b, processed) == ResumeFilter(a, processed) + ResumeFilter(b, processed)
    decreases |a|
  {
    if a == [] {
      assert a + b == b;
    } else {
      assert (a + b)[0] == a[0];
      assert (a + b)[1..] == a[1..] + b;
      ResumeFilterAppend(a[1..], b, processed);
    }
  }

  /** Without a resume every listed file is processed. */
  lemma {:induction false} ResumeFilterNothingProcessed(files: seq<string>)
    ensures ResumeFilter(files, {}) == files
    decreases |files|
  {
    if files != [] {
      ResumeFilterNothingProcessed(files[1..]);
      assert [files[0]] + files[1..] == files;
    }
  }

  /** The results of running `process_pdf_file` over the files, in input
      order (`Executor.map` yields results in the order of its inputs). */
  function ResultsOf(files: seq<string>, extract: string -> Extraction,
                     search: (string, string) -> Option<string>,
                     finditer: (string, string) -> seq<SectionProcessing.Match>): (results: seq<FileResult>)
    ensures |results| == |files|
    decreases |files|
  {
    if files == [] then []
    else
      var last := files[|files| - 1];
      ResultsOf(files[..|files| - 1], extract, search, finditer) + [FileResultOf(last, extract(last), search, finditer)]
  }

  /** The chunks of the successful results, in result order. */
  function AllChunks(results: seq<FileResult>): seq<Chunk>
    decreases |results|
  {
    if results == [] then []
    else
      var last := results[|results| - 1];
      AllChunks(results[..|results| - 1]) + (if last.Success? then last.chunks else [])
  }

  function SuccessCount(results: seq<FileResult>): nat
    decreases |results|
  {
    if results == [] then 0
    else SuccessCount(results[..|results| - 1]) + (if results[|results| - 1].Success? then 1 else 0)
  }

  /** The error results, in result order. */
  function ErrorsOf(results: seq<FileResult>): seq<FileResult>
    decreases |results|
  {
    if results == [] then []
    else
      var last := results[|results| - 1];
      ErrorsOf(results[..|results| - 1]) + (if last.Success? then [] else [last])
  }

  /** Every file is accounted for: successes plus errors is the number of
      results, and only error results are listed as errors. */
  lemma {:induction false} ResultsAccounted(results: seq<FileResult>)
    ensures SuccessCount(results) + |ErrorsOf(results)| == |results|
    ensures forall r :: r in ErrorsOf(results) ==> r in results && r.Error?
    decreases |results|
  {
    if results != [] {
      ResultsAccounted(results[..|results| - 1]);
    }
  }

  /** A chunk is aggregated iff it is a chunk of some successful result. */
  lemma {:induction false} AllChunksFromSuccesses(results: seq<FileResult>)
    ensures forall c :: c in AllChunks(results) <==>
      exists r :: r in results && r.Success? && c in r.chunks
    decreases |results|
  {
    if results != [] {
      var init, last := results[..|results| - 1], results[|results| - 1];
      AllChunksFromSuccesses(init);
      assert results == init + [last];
      forall c ensures c in AllChunks(results) <==>
        exists r :: r in results && r.Success? && c in r.chunks
      {
        if c in AllChunks(results) {
          if c in AllChunks(init) {
            var r :| r in init && r.Success? && c in r.chunks;
            assert r in results;
          } else {
            assert last in results;
          }
        }
      }
    }
  }

  /** Every chunk of every successful result is named by one of `names`. */
  ghost predicate ChunksNamedIn(results: seq<FileResult>, names: set<string>) {
    forall r, c :: r in results && r.Success? && c in r.chunks ==> c.metadata.filename in names
  }

  /** A filename property shared by the successes' chunks carries over to
      the aggregated chunks. */
  lemma {:induction false} AllChunksNamedIn(results: seq<FileResult>, names: set<string>)
    requires ChunksNamedIn(results, names)
    ensures forall c :: c in AllChunks(results) ==> c.metadata.filename in names
    decreases |results|
  {
    if results != [] {
      var init := results[..|results| - 1];
      assert ChunksNamedIn(init, names) by {
        forall r | r in init ensures r in results { }
      }
      AllChunksNamedIn(init, names);
      assert results[|results| - 1] in results;
    }
  }

  /** Each result's chunks are named after a file of the batch. */
  lemma {:induction false} ResultsNamedAfterFiles(files: seq<string>, names: set<string>,
                                                  extract: string -> Extraction,
                                                  search: (string, string) -> Option<string>,
                                                  finditer: (string, string) -> seq<SectionProcessing.Match>)
    requires forall f :: f in files ==> Basename(f) in names
    ensures ChunksNamedIn(ResultsOf(files, extract, search, finditer), names)
    decreases |files|
  {
    if files != [] {
      var init, last := files[..|files| - 1], files[|files| - 1];
      assert forall f :: f in init ==> f in files;
      ResultsNamedAfterFiles(init, names, extract, search, finditer);
      ResultCarriesFilename(last, extract(last), search, finditer);
      assert last in files;
    }
  }

  /** The result at position `i` is the one for the `i`-th file. */
  lemma {:induction false} ResultsOfAt(files: seq<string>, extract: string -> Extraction,
                                       search: (string, string) -> Option<string>,
                                       finditer: (string, string) -> seq<SectionProcessing.Match>,
                                       i: nat)
    requires i < |files|
    ensures ResultsOf(files, extract, search, finditer)[i] == FileResultOf(files[i], extract(files[i]), search, finditer)
    decreases |files|
  {
    if i < |files| - 1 {
      ResultsOfAt(files[..|files| - 1], extract, search, finditer, i);
    }
  }

  /** `r` is the result for `path`: it is named after the path, it is a
      success iff pages were read, and each of its chunks carries that name. */
  ghost predicate NamedAfter(r: FileResult, path: string, extraction: Extraction) {
    r.filename == Basename(path) &&
    (r.Success? <==> extraction.Pages?) &&
    (r.Success? ==> forall c :: c in r.chunks ==> c.metadata.filename == Basename(path))
  }

  /** The result at position `i`, and each of its chunks, carry the name of
      the `i`-th file: results are never attributed to another file. */
  lemma ResultNamedAfterOwnFile(files: seq<string>, extract: string -> Extraction,
                                search: (string, string) -> Option<string>,
                                finditer: (string, string) -> seq<SectionProcessing.Match>,
                                i: nat)
    requires i < |files|
    ensures NamedAfter(ResultsOf(files, extract, search, finditer)[i], files[i], extract(files[i]))
  {
    ResultsOfAt(files, extract, search, finditer, i);
    ResultCarriesFilename(files[i], extract(files[i]), search, finditer);
  }

  /** What is written to the output file, and whether it is appended. */
  datatype OutputWrite = OutputWrite(chunks: seq<Chunk>, append: bool)

  /** The outcome of a batch: the returned file and chunk counts (the
      duration is left out), the logged success count and errors, and the
      write to the output file, if any. */
  datatype BatchReport = BatchReport(filesProcessed: nat, chunksWritten: nat, successfulFiles: nat,
                                     errors: seq<FileResult>, output: Option<OutputWrite>)

  /** The files `process_directory` works on. */
  function FilesToProcess(listed: seq<string>, resume: bool, alreadyProcessed: set<string>): seq<string> {
    ResumeFilter(listed, if resume then alreadyProcessed else {})
  }

  /** The report of `process_directory`. */
  function BatchReportOf(listed: seq<string>, resume: bool, alreadyProcessed: set<string>,
                         extract: string -> Extraction,
                         search: (string, string) -> Option<string>,
                         finditer: (string, string) -> seq<SectionProcessing.Match>): BatchReport
  {
    var files := FilesToProcess(listed, resume, alreadyProcessed);
    if files == [] then BatchReport(0, 0, 0, [], None)
    else
      var results := ResultsOf(files, extract, search, finditer);
      BatchReport(|files|, |AllChunks(results)|, SuccessCount(results), ErrorsOf(results),
                  Some(OutputWrite(AllChunks(results), resume)))
  }

  /** `executor.map(process_pdf_file, pdf_files)`, run in input order. */
  method ProcessAll(pdfFiles: seq<string>, extract: string -> Extraction,
                    search: (string, string) -> Option<string>,
                    finditer: (string, string) -> seq<SectionProcessing.Match>)
    returns (results: seq<FileResult>)
    ensures results == ResultsOf(pdfFiles, extract, search, finditer)
  {
    results := [];
    for i := 0 to |pdfFiles|
      invariant results == ResultsOf(pdfFiles[..i], extract, search, finditer)
    {
      var result := ProcessPdfFile(pdfFiles[i], extract(pdfFiles[i]), search, finditer);
      assert pdfFiles[..i + 1][..i] == pdfFiles[..i];
      results := results + [result];
    }
    assert pdfFiles[..|pdfFiles|] == pdfFiles;
  }

  /** The aggregation loop of `process_directory`: a success contributes its
      chunks and is counted, a failure is listed as an error. */
  method Collect(results: seq<FileResult>)
    returns (allChunks: seq<Chunk>, successfulFiles: nat, errors: seq<FileResult>)
    ensures allChunks == AllChunks(results)
    ensures successfulFiles == SuccessCount(results)
    ensures errors == ErrorsOf(results)
  {
    allChunks, successfulFiles, errors := [], 0, [];
    for i := 0 to |results|
      invariant allChunks == AllChunks(results[..i])
      invariant successfulFiles == SuccessCount(results[..i])
      invariant errors == ErrorsOf(results[..i])
    {
      assert results[..i + 1][..i] == results[..i];
      var result := results[i];
      if result.Success? {
        allChunks := allChunks + result.chunks;
        successfulFiles := successfulFiles + 1;
      } else {
        errors := errors + [result];
      }
    }
    assert results[..|results|] == results;
  }

  /** process_directory, given the listed PDF paths, the names recorded in
      the output file and what the reader yields for each path. */
  method ProcessDirectory(listed: seq<string>, resume: bool, alreadyProcessed: set<string>,
                          extract: string -> Extraction,
                          search: (string, string) -> Option<string>,
                          finditer: (string, string) -> seq<SectionProcessing.Match>)
    returns (report: BatchReport)
    ensures report == BatchReportOf(listed, resume, alreadyProcessed, extract, search, finditer)
  {
    var processedFiles: set<string> := {};
    if resume {
      processedFiles := alreadyProcessed;
    }

    var pdfFiles := ResumeFilter(listed, processedFiles);
    if pdfFiles == [] {
      return BatchReport(0, 0, 0, [], None);
    }

    var results := ProcessAll(pdfFiles, extract, search, finditer);

    var allChunks, successfulFiles, errors := Collect(results);
    report := BatchReport(|pdfFiles|, |allChunks|, successfulFiles, errors,
                          Some(OutputWrite(allChunks, resume)));
  }

  /** Nothing is processed and nothing is written when no file is left; otherwise
      every remaining file is processed once, each either succeeds or is
      listed as an error, and the output is appended exactly on a resume. */
  lemma BatchAccounts(listed: seq<string>, resume: bool, alreadyProcessed: set<string>,
                      extract: string -> Extraction,
                      search: (string, string) -> Option<string>,
                      finditer: (string, string) -> seq<SectionProcessing.Match>)
    ensures var report := BatchReportOf(listed, resume, alreadyProcessed, extract, search, finditer);
      var files := FilesToProcess(listed, resume, alreadyProcessed);
      (files == [] <==> report.output.None?) &&
      (files == [] ==> report.filesProcessed == 0 && report.chunksWritten == 0) &&
      (files != [] ==>
        report.filesProcessed == |files| &&
        report.successfulFiles + |report.errors| == report.filesProcessed &&
        report.output.value.append == resume &&
        report.chunksWritten == |report.output.value.chunks|)
  {
    var files := FilesToProcess(listed, resume, alreadyProcessed);
    if files != [] {
      ResultsAccounted(ResultsOf(files, extract, search, finditer));
    }
  }

  /** A resumed run never writes a chunk for a file whose name is already
      recorded in the output, and without a resume every listed file is
      processed. */
  lemma ResumeSkipsProcessed(listed: seq<string>, resume: bool, alreadyProcessed: set<string>,
                             extract: string -> Extraction,
                             search: (string, string) -> Option<string>,
                             finditer: (string, string) -> seq<SectionProcessing.Match>)
    ensures !resume ==> FilesToProcess(listed, resume, alreadyProcessed) == listed
    ensures var report := BatchReportOf(listed, resume, alreadyProcessed, extract, search, finditer);
      resume && report.output.Some? ==>
        forall c :: c in report.output.value.chunks ==> c.metadata.filename !in alreadyProcessed
  {
    if !resume {
      ResumeFilterNothingProcessed(listed);
    }
    var files := FilesToProcess(listed, resume, alreadyProcessed);
    if resume && files != [] {
      var names := set f | f in files :: Basename(f);
      ResumeFilterKeeps(listed, alreadyProcessed);
      assert forall n :: n in names ==> n !in alreadyProcessed;
      ResultsNamedAfterFiles(files, names, extract, search, finditer);
      AllChunksNamedIn(ResultsOf(files, extract, search, finditer), names);
    }
  }
}
