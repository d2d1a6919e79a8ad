/** Case metadata from the front of a decision: claimant, docket number and
    respondent, each chosen by an ordered list of patterns. */
module MetadataExtraction {
  import opened Wrappers
  import opened Strings
  import Config

  /** A claimant or respondent candidate is accepted only when it has more
      than one word and is upper case. */
  predicate IsValidName(name: string) {
    ' ' in name && IsUpper(name)
  }

  /** Whether pattern `k` yields a value: `search` (standing for
      `re.search(pattern, text).group(1)`) finds a match, and for a name field
      the trimmed group passes the name check. */
  predicate AcceptedAt(patterns: seq<string>, k: nat, text: string,
                       search: (string, string) -> Option<string>, validate: bool)
    requires k < |patterns|
  {
    search(patterns[k], text).Some? &&
    (!validate || IsValidName(Strip(search(patterns[k], text).value)))
  }

  /** The trimmed group of the first pattern from `i` on that yields a value. */
  function FirstAccepted(patterns: seq<string>, i: nat, text: string,
                         search: (string, string) -> Option<string>, validate: bool): Option<string>
    requires i <= |patterns|
    decreases |patterns| - i
  {
    if i == |patterns| then None
    else if AcceptedAt(patterns, i, text, search, validate) then Some(Strip(search(patterns[i], text).value))
    else FirstAccepted(patterns, i + 1, text, search, validate)
  }

  /** A field's value: the first accepted group, or "Unknown". */
  function FieldValue(patterns: seq<string>, text: string,
                      search: (string, string) -> Option<string>, validate: bool): string
  {
    FirstAccepted(patterns, 0, text, search, validate).GetOr("Unknown")
  }

  /** The dictionary `extract_case_info` returns, whose keys are always
      exactly `claimant_name`, `docket_number` and `respondent_name`. */
  datatype CaseInfo = CaseInfo(claimantName: string, docketNumber: string, respondentName: string)

  /** The case information `extract_case_info(text)` returns. */
  function CaseInfoOf(text: string, search: (string, string) -> Option<string>): CaseInfo {
    CaseInfo(FieldValue(Config.CLAIMANT_PATTERNS, text, search, true),
             FieldValue(Config.DOCKET_PATTERNS, text, search, false),
             FieldValue(Config.RESPONDENT_PATTERNS, text, search, true))
  }

  lemma {:induction false} FirstAcceptedFrom(patterns: seq<string>, i: nat, text: string,
                                             search: (string, string) -> Option<string>, validate: bool)
    requires i <= |patterns|
    ensures forall k :: i <= k < |patterns| && AcceptedAt(patterns, k, text, search, validate) &&
                        (forall j :: i <= j < k ==> !AcceptedAt(patterns, j, text, search, validate)) ==>
              FirstAccepted(patterns, i, text, search, validate) == Some(Strip(search(patterns[k], text).value))
    ensures FirstAccepted(patterns, i, text, search, validate) == None <==>
              forall k :: i <= k < |patterns| ==> !AcceptedAt(patterns, k, text, search, validate)
    decreases |patterns| - i
  {
    if i < |patterns| {
      FirstAcceptedFrom(patterns, i + 1, text, search, validate);
    }
  }

  /** Priority: the value comes from the first pattern in list order that
      yields one (matches, and for names passes the check); patterns after it
      are not consulted, and there is no value only when no pattern yields one. */
  lemma PriorityOrder(patterns: seq<string>, text: string,
                      search: (string, string) -> Option<string>, validate: bool)
    ensures forall k :: 0 <= k < |patterns| && AcceptedAt(patterns, k, text, search, validate) &&
                        (forall j :: 0 <= j < k ==> !AcceptedAt(patterns, j, text, search, validate)) ==>
              FieldValue(patterns, text, search, validate) == Strip(search(patterns[k], text).value)
    ensures (forall k :: 0 <= k < |patterns| ==> !AcceptedAt(patterns, k, text, search, validate)) ==>
              FieldValue(patterns, text, search, validate) == "Unknown"
  {
    FirstAcceptedFrom(patterns, 0, text, search, validate);
  }

  lemma {:induction false} FirstAcceptedShape(patterns: seq<string>, i: nat, text: string,
                                              search: (string, string) -> Option<string>, validate: bool)
    requires i <= |patterns|
    ensures var r := FirstAccepted(patterns, i, text, search, validate);
      r.Some? ==> NoEdgeSpace(r.value) && (validate ==> IsValidName(r.value))
    decreases |patterns| - i
  {
    if i < |patterns| {
      FirstAcceptedShape(patterns, i + 1, text, search, validate);
    }
  }

  /** Every stored value is a trimmed group (no whitespace at either end) or
      "Unknown"; a stored name has more than one word and is upper case. */
  lemma CaseInfoShape(text: string, search: (string, string) -> Option<string>)
    ensures var info := CaseInfoOf(text, search);
      (info.claimantName == "Unknown" || (IsValidName(info.claimantName) && NoEdgeSpace(info.claimantName))) &&
      (info.respondentName == "Unknown" || (IsValidName(info.respondentName) && NoEdgeSpace(info.respondentName))) &&
      (info.docketNumber == "Unknown" || NoEdgeSpace(info.docketNumber))
  {
    FirstAcceptedShape(Config.CLAIMANT_PATTERNS, 0, text, search, true);
    FirstAcceptedShape(Config.DOCKET_PATTERNS, 0, text, search, false);
    FirstAcceptedShape(Config.RESPONDENT_PATTERNS, 0, text, search, true);
  }

  lemma {:induction false} FirstAcceptedOwnPatterns(patterns: seq<string>, i: nat, text: string,
                                                    s1: (string, string) -> Option<string>,
                                                    s2: (string, string) -> Option<string>, validate: bool)
    requires i <= |patterns|
    requires forall k :: 0 <= k < |patterns| ==> s1(patterns[k], text) == s2(patterns[k], text)
    ensures FirstAccepted(patterns, i, text, s1, validate) == FirstAccepted(patterns, i, text, s2, validate)
    decreases |patterns| - i
  {
    if i < |patterns| {
      FirstAcceptedOwnPatterns(patterns, i + 1, text, s1, s2, validate);
    }
  }

  /** Independence: a field depends only on what its own patterns find. */
  lemma FieldDependsOnOwnPatterns(patterns: seq<string>, text: string,
                                  s1: (string, string) -> Option<string>,
                                  s2: (string, string) -> Option<string>, validate: bool)
    requires forall k :: 0 <= k < |patterns| ==> s1(patterns[k], text) == s2(patterns[k], text)
    ensures FieldValue(patterns, text, s1, validate) == FieldValue(patterns, text, s2, validate)
  {
    FirstAcceptedOwnPatterns(patterns, 0, text, s1, s2, validate);
  }

  /** One of `extract_case_info`'s pattern loops: try the patterns in order
      and stop at the first whose trimmed group is accepted. */
  method FindField(patterns: seq<string>, text: string,
                   search: (string, string) -> Option<string>, validate: bool)
    returns (value: Option<string>)
    ensures value == FirstAccepted(patterns, 0, text, search, validate)
  {
    value := None;
    for i := 0 to |patterns|
      invariant value == None
      invariant FirstAccepted(patterns, i, text, search, validate) ==
                FirstAccepted(patterns, 0, text, search, validate)
    {
      var found := search(patterns[i], text);
      if found.Some? {
        var candidate := Strip(found.value);
        if !validate || (' ' in candidate && IsUpper(candidate)) {
          value := Some(candidate);
          break;
        }
      }
    }
  }

  /** extract_case_info: start from "Unknown" everywhere and overwrite each
      field that one of its patterns yields. */
  method ExtractCaseInfo(text: string, search: (string, string) -> Option<string>)
    returns (caseInfo: CaseInfo)
    ensures caseInfo == CaseInfoOf(text, search)
  {
    caseInfo := CaseInfo("Unknown", "Unknown", "Unknown");
    var claimant := FindField(Config.CLAIMANT_PATTERNS, text, search, true);
    if claimant.Some? {
      caseInfo := caseInfo.(claimantName := claimant.value);
    }
    var docket := FindField(Config.DOCKET_PATTERNS, text, search, false);
    if docket.Some? {
      caseInfo := caseInfo.(docketNumber := docket.value);
    }
    var respondent := FindField(Config.RESPONDENT_PATTERNS, text, search, true);
    if respondent.Some? {
      caseInfo := caseInfo.(respondentName := respondent.value);
    }
  }

  /** The text metadata is read from: the first three pages joined with line feeds. */
  function FrontText(pages: seq<string>): string {
    if |pages| >= 3 then Join("\n", pages[..3]) else Join("\n", pages)
  }

  /** extract_enhanced_case_info. */
  function ExtractEnhancedCaseInfo(pages: seq<string>, search: (string, string) -> Option<string>): CaseInfo {
    CaseInfoOf(FrontText(pages), search)
  }

  /** Pages after the third never affect the metadata, which is read from the
      first three pages separated by line feeds. */
  lemma EnhancedReadsThreePages(pages: seq<string>, later: seq<string>, search: (string, string) -> Option<string>)
    requires |pages| == 3
    ensures ExtractEnhancedCaseInfo(pages + later, search) == ExtractEnhancedCaseInfo(pages, search)
    ensures FrontText(pages) == pages[0] + "\n" + pages[1] + "\n" + pages[2]
  {
    assert (pages + later)[..3] == pages[..3];
    assert FrontText(pages + later) == FrontText(pages);
    assert pages[..3] == pages;
    assert pages[1..][1..] == [pages[2]];
    calc {
      Join("\n", pages);
      pages[0] + "\n" + Join("\n", pages[1..]);
      pages[0] + "\n" + (pages[1] + "\n" + pages[2]);
      pages[0] + "\n" + pages[1] + "\n" + pages[2];
    }
  }
}
