/** The values the stages of the collector hand to each other. */
module Model {

  import opened Strings

  /** An instant: nanoseconds since the Unix epoch. */
  type Instant = int

  /** Go's zero time.Time, 0001-01-01T00:00:00Z. */
  const ZERO_TIME: Instant := -62_135_596_800_000_000_000

  const SECOND: int := 1_000_000_000

  /** The literal that replaces a variable position of a pattern. */
  const WILDCARD := "<*>"

  datatype LogEntry = LogEntry(timestamp: Instant, severity: string, message: string, labels: map<string, string>)

  /** The published value of one cluster. */
  datatype Template = Template(
    id: string,
    pattern: string,
    severity: string,
    count: int,
    firstSeen: Instant,
    lastSeen: Instant,
    exampleVars: seq<seq<string>>,
    alias: string
  )

  /** A survivor of a merge and the template ids that went into it. */
  datatype Absorption = Absorption(survivor: string, fragments: seq<string>)

  /**
    The parts of the collector this model keeps abstract, each an arbitrary function: the masking
    expressions, the SHA-256 based identifiers, the alias derivation and the line recognisers.
   */
  datatype Rules = Rules(
    mask: string -> string,
    templateHash: string -> string,
    labelHash: string -> string,
    alias: (string, string) -> string,
    embeddedSeverity: string -> string,
    goLine: string -> bool,
    goExampleLine: string -> bool,
    pythonLine: string -> bool,
    pythonException: string -> bool,
    sameName: (string, string) -> bool
  )

  /** The idealisation of a hash that never collides. */
  ghost predicate Injective(f: string -> string) {
    forall a, b :: f(a) == f(b) ==> a == b
  }

  // ---- severities --------------------------------------------------------

  const TRACE := "TRACE"
  const DEBUG := "DEBUG"
  const INFO := "INFO"
  const WARN := "WARN"
  const ERROR := "ERROR"
  const CRITICAL := "CRITICAL"

  /** The canonical levels, from the least severe. */
  const LEVELS := ["TRACE", "DEBUG", "INFO", "WARN", "ERROR", "CRITICAL"]

  predicate Canonical(s: string) {
    s in {TRACE, DEBUG, INFO, WARN, ERROR, CRITICAL}
  }

  /** The scale filtering and merging use; an unlisted value ranks with TRACE. */
  function SeverityIndex(s: string): nat {
    if s == DEBUG then 1
    else if s == INFO then 2
    else if s == WARN then 3
    else if s == ERROR then 4
    else if s == CRITICAL then 5
    else 0
  }

  /** The scale clusters aggregate by; an unknown value ranks below TRACE. */
  function SeverityRank(s: string): nat {
    var u := ToUpper(s);
    if u == "TRACE" then 1
    else if u == "DEBUG" then 2
    else if u == "INFO" then 3
    else if u == "WARN" || u == "WARNING" then 4
    else if u == "ERROR" then 5
    else if u == "FATAL" || u == "CRITICAL" || u == "EMERGENCY" then 6
    else 0
  }

  lemma UpperCanonical(s: string)
    requires Canonical(s)
    ensures ToUpper(s) == s
  {
    assert forall i | 0 <= i < |s| :: ToUpperChar(s[i]) == s[i];
  }

  /**
    The two severity scales order a pair of canonical levels alike, and the rank tells canonical
    levels apart.
   */
  lemma ScalesAgree(a: string, b: string)
    requires Canonical(a) && Canonical(b)
    ensures SeverityRank(a) == SeverityIndex(a) + 1
    ensures SeverityIndex(a) < SeverityIndex(b) <==> SeverityRank(a) < SeverityRank(b)
    ensures SeverityRank(a) == SeverityRank(b) <==> a == b
  {
    UpperCanonical(a);
    UpperCanonical(b);
  }

  /** Off the canonical levels they do not: FATAL outranks ERROR on one scale and ties with TRACE on the other. */
  lemma ScalesDisagree()
    ensures SeverityRank("FATAL") > SeverityRank(ERROR)
    ensures SeverityIndex("FATAL") < SeverityIndex(ERROR)
    ensures SeverityRank("unknown") < SeverityRank(TRACE)
    ensures SeverityIndex("unknown") == SeverityIndex(TRACE)
  {
    assert ToUpper("FATAL") == "FATAL";
    assert ToUpper("ERROR") == "ERROR";
    assert ToUpper("TRACE") == "TRACE";
    var u := ToUpper("unknown");
    assert u == "UNKNOWN";
  }
}
