/** The configuration table of the processor: the chunk-size default and the
 ordered pattern lists. Patterns are kept as their regular-expression source
 text; what they match is left to the matcher each operation receives. */
module Config {

  /** Maximum number of words (the token proxy) per chunk. */
  const MAX_CHUNK_SIZE: int := 800

  /** Section headings, in the order they are searched. */
  const SECTION_PATTERNS: seq<string> := [
    "\\bAPPEARANCES\\b",
    "\\bRECORD AND STIPULATIONS\\b",
    "\\bISSUES\\b",
    "\\bFINDINGS OF FACT\\b",
    "\\bPRINCIPLES OF LAW( AND ANALYSIS)?\\b",
    "\\bANALYSIS\\b",
    "\\bCONCLUSION(S)?\\b",
    "\\bAWARD\\b",
    "\\bORDER\\b",
    "\\bDECISION\\b"
  ]

  /** Claimant-name patterns, highest priority first; group 1 is the name. */
  const CLAIMANT_PATTERNS: seq<string> := [
    "([A-Z][A-Z\\s\\.]+)\\s+\\)\\s*\\n\\s*Claimant",
    "([A-Z][A-Z\\s\\.]+)\\s+\\d+\\s+DOCKET\\s+NO\\.",
    "([A-Z][A-Z\\s\\.]+)\\s+vs\\.\\s+",
    "([A-Z][A-Z\\s\\.]+)\\s+VS\\.\\s+",
    "BEFORE\\s+THE\\s+[A-Z\\s]+\\s+APPEALS\\s+BOARD\\s+([A-Z][A-Z\\s\\.]+)"
  ]

  /** Docket-number patterns, highest priority first; group 1 is the number. */
  const DOCKET_PATTERNS: seq<string> := [
    "Docket\\s+No\\.\\s+([\\d,\\.\\-]+)",
    "DOCKET\\s+NO\\.\\s+([\\d,\\.\\-]+)",
    "(AP-\\d+-\\d+-\\d+)",
    "(CS-\\d+-\\d+-\\d+)",
    "(?:^|\\s)([\\d]{3},[\\d]{3})(?:$|\\s)"
  ]

  /** Respondent-name patterns, highest priority first; group 1 is the name. */
  const RESPONDENT_PATTERNS: seq<string> := [
    "VS\\.\\s*\\)\\s*\\n\\s*\\)\\s*\\n\\s*([A-Z][A-Z\\s\\.]+)",
    "VS\\.\\s*\\)\\s*\\n\\s*([A-Z][A-Z\\s\\.]+)",
    "vs\\.\\s+([A-Z][A-Z\\s\\.]+)",
    "RESPONDENT:\\s+([A-Z][A-Z\\s\\.]+)"
  ]
}
