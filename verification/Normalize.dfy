/** Unpeeling the wrappers a log line arrives in: severity prefixes, logger prefixes and nested JSON. */
module Normalize {

  import opened Wrappers
  import opened Strings
  import opened Model

  /**
    The parts kept abstract: decoding a structured line into the message and the level its payload
    carries, and the search for a level embedded in plain text (empty for none).
   */
  datatype Reader = Reader(decode: string -> Option<(string, string)>, embedded: string -> string)

  /** A reader only reports canonical levels. */
  ghost predicate CanonicalReader(rd: Reader) {
    && (forall s :: rd.decode(s).Some? ==> Canonical(rd.decode(s).value.1))
    && (forall s :: rd.embedded(s) == "" || Canonical(rd.embedded(s)))
  }

  const SEVERITY_PREFIX_MAX := 8
  const MAX_NESTING := 3

  /** INFO for anything unrecognized. */
  function ParseSeverity(s: string): (r: string)
    ensures Canonical(r)
  {
    var u := ToUpper(TrimSpace(s));
    if u == "TRACE" then TRACE
    else if u == "DEBUG" || u == "DBG" then DEBUG
    else if u == "INFO" || u == "INFORMATION" || u == "NOTICE" then INFO
    else if u == "WARN" || u == "WARNING" || u == "WARNI" then WARN
    else if u == "ERROR" || u == "ERR" || u == "SEVERE" || u == "FATAL" then ERROR
    else if u == "CRITICAL" || u == "CRIT" || u == "ALERT" || u == "EMERGENCY" || u == "EMERG"
      || u == "PANIC" then CRITICAL
    else INFO
  }

  // ---- prefixes ----------------------------------------------------------

  /** strings.IndexByte. */
  function IndexOf(s: string, c: char): (i: Option<nat>)
    ensures i.Some? ==> i.value < |s| && s[i.value] == c && c !in s[..i.value]
    ensures i.None? ==> c !in s
  {
    if |s| == 0 then None
    else if s[0] == c then Some(0)
    else
      var rest := IndexOf(s[1..], c);
      if rest.None? then None else Some(rest.value + 1)
  }

  /** What follows the first occurrence of sep, as strings.Cut gives it. */
  function CutAfter(s: string, sep: string): Option<string> {
    if sep <= s then Some(s[|sep|..]) else if |s| == 0 then None else CutAfter(s[1..], sep)
  }

  predicate IsBracket(c: char) {
    c == '[' || c == ']'
  }

  function TrimBrackets(s: string): string
    decreases |s|
  {
    if |s| != 0 && IsBracket(s[0]) then TrimBrackets(s[1..])
    else if |s| != 0 && IsBracket(s[|s| - 1]) then TrimBrackets(s[..|s| - 1])
    else s
  }

  /** The level a leading token names, and what follows it; None when the first word is not a level. */
  function LeadingLevel(s: string): Option<(string, string)> {
    var idx := IndexOf(s, ' ');
    if idx.None? || idx.value == 0 || idx.value > SEVERITY_PREFIX_MAX then None
    else
      var prefix := TrimBrackets(s[..idx.value]);
      var level := ParseSeverity(prefix);
      if level == INFO && ToUpper(prefix) != "INFO" then None
      else Some((level, TrimSpace(s[idx.value + 1..])))
  }

  predicate IsObject(s: string) {
    |s| != 0 && s[0] == '{'
  }

  /** Drops a leading "[logger.name] " when a JSON object follows. */
  function StripLoggerPrefix(s: string): (r: string)
    ensures r == s || IsObject(r)
  {
    if |s| == 0 || s[0] != '[' then s
    else
      var tail := CutAfter(s, "] ");
      if tail.Some? && IsObject(TrimSpace(tail.value)) then TrimSpace(tail.value) else s
  }

  // ---- nested JSON -------------------------------------------------------

  /** Raises sev to a level that says something; the default says nothing. */
  function Prefer(inner: string, sev: string): string {
    if inner != INFO then inner else sev
  }

  /** A structured line's message and severity; None when it does not decode or is nested too deep. */
  function ParseJson(rd: Reader, line: string, depth: nat): Option<(string, string)>
    decreases MAX_NESTING + 2 - depth, 0
  {
    if depth > MAX_NESTING then None
    else
      var doc := rd.decode(line);
      if doc.None? then None else Some(UnwrapNested(rd, doc.value.0, doc.value.1, depth + 1))
  }

  /** Unwraps a message that is itself a structured line, with or without its own prefixes. */
  function UnwrapNested(rd: Reader, msg: string, sev: string, depth: nat): (string, string)
    requires depth <= MAX_NESTING + 1
    decreases MAX_NESTING + 2 - depth, 1
  {
    if |msg| == 0 then (msg, sev)
    else if msg[0] == '{' then
      var inner := ParseJson(rd, msg, depth);
      if inner.Some? then (inner.value.0, Prefer(inner.value.1, sev)) else (msg, sev)
    else
      var lead := LeadingLevel(msg);
      var raised := if lead.Some? then Prefer(lead.value.0, sev) else sev;
      var rest := StripLoggerPrefix(if lead.Some? then lead.value.1 else msg);
      if IsObject(rest) then
        var inner := ParseJson(rd, rest, depth);
        if inner.Some? then (inner.value.0, Prefer(inner.value.1, raised)) else (msg, raised)
      else (msg, raised)
  }

  // ---- what unwrapping amounts to ----------------------------------------

  /** The levels met on the way in, outermost first, and how many lines were handed to the decoder. */
  datatype Path = Path(levels: seq<string>, decodes: nat)

  function JsonPath(rd: Reader, line: string, depth: nat): Path
    decreases MAX_NESTING + 2 - depth, 0
  {
    if depth > MAX_NESTING then Path([], 0)
    else
      var doc := rd.decode(line);
      if doc.None? then Path([], 1)
      else
        var inner := NestedPath(rd, doc.value.0, depth + 1);
        Path([doc.value.1] + inner.levels, 1 + inner.decodes)
  }

  function NestedPath(rd: Reader, msg: string, depth: nat): Path
    requires depth <= MAX_NESTING + 1
    decreases MAX_NESTING + 2 - depth, 1
  {
    if |msg| == 0 then Path([], 0)
    else if msg[0] == '{' then JsonPath(rd, msg, depth)
    else
      var lead := LeadingLevel(msg);
      var own := if lead.Some? then [lead.value.0] else [];
      var rest := StripLoggerPrefix(if lead.Some? then lead.value.1 else msg);
      if IsObject(rest) then
        var inner := JsonPath(rd, rest, depth);
        Path(own + inner.levels, inner.decodes)
      else Path(own, 0)
  }

  /** The last level that is not the default; fallback when there is none. */
  function Innermost(levels: seq<string>, fallback: string): string {
    if |levels| == 0 then fallback
    else if levels[|levels| - 1] != INFO then levels[|levels| - 1]
    else Innermost(levels[..|levels| - 1], fallback)
  }

  lemma {:induction false} InnermostConcat(a: seq<string>, b: seq<string>, fallback: string)
    ensures Innermost(a + b, fallback) == Innermost(b, Innermost(a, fallback))
  {
    if |b| == 0 {
      assert a + b == a;
    } else {
      assert (a + b)[..|a + b| - 1] == a + b[..|b| - 1];
      InnermostConcat(a, b[..|b| - 1], fallback);
    }
  }

  lemma InnermostOne(level: string, fallback: string)
    ensures Innermost([level], fallback) == Prefer(level, fallback)
  {
    assert [level][..0] == [];
  }

  /** A default fallback behind levels changes nothing a louder one would not. */
  lemma {:induction false} InnermostPrefers(levels: seq<string>, sev: string)
    ensures Prefer(Innermost(levels, INFO), sev) == Innermost(levels, sev)
  {
    if |levels| != 0 {
      InnermostPrefers(levels[..|levels| - 1], sev);
    }
  }

  /** The severity of a structured line is the innermost level on its path that is not the default. */
  lemma {:induction false} JsonYieldsInnermost(rd: Reader, line: string, depth: nat)
    ensures ParseJson(rd, line, depth).Some? ==>
      ParseJson(rd, line, depth).value.1 == Innermost(JsonPath(rd, line, depth).levels, INFO)
    ensures ParseJson(rd, line, depth).None? ==> JsonPath(rd, line, depth).levels == []
    decreases MAX_NESTING + 2 - depth, 0
  {
    if depth <= MAX_NESTING && rd.decode(line).Some? {
      var (msg, sev) := rd.decode(line).value;
      NestedYieldsInnermost(rd, msg, sev, depth + 1);
      var inner := NestedPath(rd, msg, depth + 1).levels;
      InnermostConcat([sev], inner, INFO);
      InnermostOne(sev, INFO);
    }
  }

  lemma {:induction false} NestedYieldsInnermost(rd: Reader, msg: string, sev: string, depth: nat)
    requires depth <= MAX_NESTING + 1
    ensures UnwrapNested(rd, msg, sev, depth).1 == Innermost(NestedPath(rd, msg, depth).levels, sev)
    decreases MAX_NESTING + 2 - depth, 1
  {
    if |msg| != 0 {
      if msg[0] == '{' {
        JsonYieldsInnermost(rd, msg, depth);
        InnermostPrefers(JsonPath(rd, msg, depth).levels, sev);
      } else {
        var lead := LeadingLevel(msg);
        var own := if lead.Some? then [lead.value.0] else [];
        var raised := if lead.Some? then Prefer(lead.value.0, sev) else sev;
        if lead.Some? {
          InnermostOne(lead.value.0, sev);
        }
        assert Innermost(own, sev) == raised;
        var rest := StripLoggerPrefix(if lead.Some? then lead.value.1 else msg);
        if IsObject(rest) {
          JsonYieldsInnermost(rd, rest, depth);
          var inner := JsonPath(rd, rest, depth).levels;
          InnermostPrefers(inner, raised);
          InnermostConcat(own, inner, sev);
        }
      }
    }
  }

  /** Unwrapping never lowers an outer level to the default, and stops within four decodes. */
  lemma {:induction false} UnwrappingIsBounded(rd: Reader, line: string, depth: nat)
    requires depth <= MAX_NESTING + 1
    ensures JsonPath(rd, line, depth).decodes <= MAX_NESTING + 1 - depth
    decreases MAX_NESTING + 2 - depth, 0
  {
    if depth <= MAX_NESTING && rd.decode(line).Some? {
      NestedIsBounded(rd, rd.decode(line).value.0, depth + 1);
    }
  }

  lemma {:induction false} NestedIsBounded(rd: Reader, msg: string, depth: nat)
    requires depth <= MAX_NESTING + 1
    ensures NestedPath(rd, msg, depth).decodes <= MAX_NESTING + 1 - depth
    decreases MAX_NESTING + 2 - depth, 1
  {
    if |msg| != 0 {
      var lead := LeadingLevel(msg);
      UnwrappingIsBounded(rd, msg, depth);
      UnwrappingIsBounded(rd, StripLoggerPrefix(if lead.Some? then lead.value.1 else msg), depth);
    }
  }

  lemma {:induction false} InnermostIsNeverLowered(levels: seq<string>, fallback: string)
    ensures fallback != INFO || (exists l :: l in levels && l != INFO) ==> Innermost(levels, fallback) != INFO
  {
    if |levels| != 0 && levels[|levels| - 1] == INFO {
      InnermostIsNeverLowered(levels[..|levels| - 1], fallback);
      assert levels == levels[..|levels| - 1] + [INFO];
    }
  }

  /** So a wrapped line whose wrapper, or any layer inside it, reports a level keeps one. */
  lemma OuterLevelSurvives(rd: Reader, line: string)
    requires ParseJson(rd, line, 0).Some?
    ensures (exists l :: l in JsonPath(rd, line, 0).levels && l != INFO) ==> ParseJson(rd, line, 0).value.1 != INFO
    ensures JsonPath(rd, line, 0).decodes <= 4
  {
    JsonYieldsInnermost(rd, line, 0);
    InnermostIsNeverLowered(JsonPath(rd, line, 0).levels, INFO);
    UnwrappingIsBounded(rd, line, 0);
  }

  // ---- the whole line ----------------------------------------------------

  /** A line that starts with a level; None when it does not, or when nothing follows. */
  function ParseSeverityPrefix(rd: Reader, msg: string): Option<(string, string)> {
    var lead := LeadingLevel(msg);
    if lead.None? || lead.value.1 == "" then None
    else
      var rest := StripLoggerPrefix(lead.value.1);
      var inner := if IsObject(rest) then ParseJson(rd, rest, 0) else None;
      if inner.Some? then Some((inner.value.0, Prefer(inner.value.1, lead.value.0)))
      else Some((rest, lead.value.0))
  }

  /** The JSON a line consists of, bare or behind a logger prefix; the line itself otherwise. */
  function JsonBody(message: string): string {
    StripLoggerPrefix(message)
  }

  /** The message and severity of a line: JSON, prefixed, or plain. */
  function ParseLogMessage(rd: Reader, line: string): (string, string) {
    var message := TrimSpace(line);
    if message == "" then (message, INFO)
    else
      var body := JsonBody(message);
      var json := if IsObject(body) then ParseJson(rd, body, 0) else None;
      if json.Some? then json.value
      else
        var prefixed := ParseSeverityPrefix(rd, message);
        if prefixed.Some? then prefixed.value
        else (message, if rd.embedded(message) != "" then rd.embedded(message) else INFO)
  }

  lemma {:induction false} JsonIsCanonical(rd: Reader, line: string, depth: nat)
    requires CanonicalReader(rd)
    ensures ParseJson(rd, line, depth).Some? ==> Canonical(ParseJson(rd, line, depth).value.1)
    decreases MAX_NESTING + 2 - depth, 0
  {
    if depth <= MAX_NESTING && rd.decode(line).Some? {
      NestedIsCanonical(rd, rd.decode(line).value.0, rd.decode(line).value.1, depth + 1);
    }
  }

  lemma {:induction false} NestedIsCanonical(rd: Reader, msg: string, sev: string, depth: nat)
    requires CanonicalReader(rd) && depth <= MAX_NESTING + 1 && Canonical(sev)
    ensures Canonical(UnwrapNested(rd, msg, sev, depth).1)
    decreases MAX_NESTING + 2 - depth, 1
  {
    if |msg| != 0 {
      var lead := LeadingLevel(msg);
      JsonIsCanonical(rd, msg, depth);
      JsonIsCanonical(rd, StripLoggerPrefix(if lead.Some? then lead.value.1 else msg), depth);
    }
  }

  /** Whatever shape a line has, its severity is one of the canonical levels. */
  lemma SeveritiesAreCanonical(rd: Reader, line: string)
    requires CanonicalReader(rd)
    ensures Canonical(ParseLogMessage(rd, line).1)
  {
    var message := TrimSpace(line);
    JsonIsCanonical(rd, JsonBody(message), 0);
    var lead := LeadingLevel(message);
    if lead.Some? {
      JsonIsCanonical(rd, StripLoggerPrefix(lead.value.1), 0);
    }
  }
}
