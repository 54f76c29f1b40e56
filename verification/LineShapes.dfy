/** What the reading of a line amounts to: its level's spelling, the prefixes it sheds, and the text it settles on. */
module LineShapes {

  import opened Wrappers
  import opened Strings
  import opened Model
  import opened Normalize

  // ---- spellings ---------------------------------------------------------

  /** What each level may be spelled as, whatever the case. */
  const SPELLINGS := [
    ["TRACE"], ["DEBUG", "DBG"], ["INFO", "INFORMATION", "NOTICE"], ["WARN", "WARNING", "WARNI"],
    ["ERROR", "ERR", "SEVERE", "FATAL"], ["CRITICAL", "CRIT", "ALERT", "EMERGENCY", "EMERG", "PANIC"]
  ]

  /** Text that spells level i, white space around it aside. */
  ghost predicate Spells(text: string, i: nat) {
    i < 6 && exists j: nat :: j < |SPELLINGS[i]| && SameButCase(TrimSpace(text), SPELLINGS[i][j])
  }

  /** The upper-cased text is one of these words. */
  predicate OneOf(upper: string, words: seq<string>) {
    upper in words
  }

  predicate UpperCase(word: string) {
    forall i | 0 <= i < |word| :: 'A' <= word[i] <= 'Z'
  }

  lemma UpperIsItself(word: string)
    requires UpperCase(word)
    ensures ToUpper(word) == word
  {
  }

  lemma SpellingIsOneOf(text: string, i: nat)
    requires i < 6
    ensures Spells(text, i) <==> OneOf(ToUpper(TrimSpace(text)), SPELLINGS[i])
  {
    var core := TrimSpace(text);
    forall j: nat | j < |SPELLINGS[i]|
      ensures SameButCase(core, SPELLINGS[i][j]) <==> ToUpper(core) == SPELLINGS[i][j]
    {
      assert UpperCase(SPELLINGS[i][j]);
      UpperIsItself(SPELLINGS[i][j]);
      RaisingForgetsCase(core, SPELLINGS[i][j]);
    }
    if OneOf(ToUpper(core), SPELLINGS[i]) {
      var j: nat :| j < |SPELLINGS[i]| && SPELLINGS[i][j] == ToUpper(core);
    }
  }

  /** Text that spells a level reads as that level, and text that spells none reads as INFO. */
  lemma LevelsAreSpelled(text: string)
    ensures forall i: nat | Spells(text, i) :: ParseSeverity(text) == LEVELS[i]
    ensures (forall i: nat :: !Spells(text, i)) ==> ParseSeverity(text) == "INFO"
  {
    var u := ToUpper(TrimSpace(text));
    forall i: nat | i < 6 ensures Spells(text, i) <==> OneOf(u, SPELLINGS[i]) {
      SpellingIsOneOf(text, i);
    }
    ReadByUpper(u, ParseSeverity(text));
  }

  lemma ReadByUpper(u: string, level: string)
    requires level
      == if u == "TRACE" then "TRACE"
      else if u == "DEBUG" || u == "DBG" then "DEBUG"
      else if u == "INFO" || u == "INFORMATION" || u == "NOTICE" then "INFO"
      else if u == "WARN" || u == "WARNING" || u == "WARNI" then "WARN"
      else if u == "ERROR" || u == "ERR" || u == "SEVERE" || u == "FATAL" then "ERROR"
      else if u == "CRITICAL" || u == "CRIT" || u == "ALERT" || u == "EMERGENCY" || u == "EMERG"
        || u == "PANIC" then "CRITICAL"
      else "INFO"
    ensures forall i: nat | i < 6 && OneOf(u, SPELLINGS[i]) :: level == LEVELS[i]
    ensures (forall i: nat | i < 6 :: !OneOf(u, SPELLINGS[i])) ==> level == "INFO"
  {
    forall i: nat | i < 6 && OneOf(u, SPELLINGS[i]) ensures level == LEVELS[i] {
      if i == 0 {
      } else if i == 1 {
      } else if i == 2 {
      } else if i == 3 {
      } else if i == 4 {
      } else {
        assert i == 5;
      }
    }
    assert OneOf("TRACE", SPELLINGS[0]);
    assert SPELLINGS[1] == ["DEBUG", "DBG"];
    assert SPELLINGS[3] == ["WARN", "WARNING", "WARNI"];
    assert SPELLINGS[4] == ["ERROR", "ERR", "SEVERE", "FATAL"];
    assert SPELLINGS[5] == ["CRITICAL", "CRIT", "ALERT", "EMERGENCY", "EMERG", "PANIC"];
  }

  /** What clusters rank alike, whatever the case, from the first rank up. */
  const RANKED := [["TRACE"], ["DEBUG"], ["INFO"], ["WARN", "WARNING"], ["ERROR"], ["FATAL", "CRITICAL", "EMERGENCY"]]

  /** A severity has the rank of the words it reads as, and the lowest when it reads as none. */
  lemma RanksAreSpelled(severity: string)
    ensures forall i: nat, j: nat | i < 6 && j < |RANKED[i]| && SameButCase(severity, RANKED[i][j]) ::
      SeverityRank(severity) == i + 1
    ensures (forall i: nat, j: nat | i < 6 && j < |RANKED[i]| :: !SameButCase(severity, RANKED[i][j])) ==>
      SeverityRank(severity) == 0
  {
    var u := ToUpper(severity);
    forall i: nat, j: nat | i < 6 && j < |RANKED[i]|
      ensures SameButCase(severity, RANKED[i][j]) <==> u == RANKED[i][j]
    {
      assert UpperCase(RANKED[i][j]);
      UpperIsItself(RANKED[i][j]);
      RaisingForgetsCase(severity, RANKED[i][j]);
    }
    RankByUpper(u, SeverityRank(severity));
  }

  lemma RankByUpper(u: string, rank: nat)
    requires rank
      == if u == "TRACE" then 1
      else if u == "DEBUG" then 2
      else if u == "INFO" then 3
      else if u == "WARN" || u == "WARNING" then 4
      else if u == "ERROR" then 5
      else if u == "FATAL" || u == "CRITICAL" || u == "EMERGENCY" then 6
      else 0
    ensures forall i: nat, j: nat | i < 6 && j < |RANKED[i]| && u == RANKED[i][j] :: rank == i + 1
    ensures (forall i: nat, j: nat | i < 6 && j < |RANKED[i]| :: u != RANKED[i][j]) ==> rank == 0
  {
    assert RANKED[0][0] == "TRACE" && RANKED[1][0] == "DEBUG" && RANKED[2][0] == "INFO";
    assert RANKED[3][0] == "WARN" && RANKED[3][1] == "WARNING" && RANKED[4][0] == "ERROR";
    assert RANKED[5][0] == "FATAL" && RANKED[5][1] == "CRITICAL" && RANKED[5][2] == "EMERGENCY";
  }

  // ---- prefixes ----------------------------------------------------------

  predicate AllBrackets(s: string) {
    forall i | 0 <= i < |s| :: s[i] == '[' || s[i] == ']'
  }

  /** Brackets are dropped from both ends, all of them and nothing else. */
  lemma {:induction false} BracketsAreTrimmed(s: string) returns (lead: string, trail: string)
    ensures AllBrackets(lead) && AllBrackets(trail) && s == lead + TrimBrackets(s) + trail
    ensures var core := TrimBrackets(s); core != "" ==> core[0] !in "[]" && core[|core| - 1] !in "[]"
    decreases |s|
  {
    if |s| != 0 && IsBracket(s[0]) {
      var more;
      more, trail := BracketsAreTrimmed(s[1..]);
      lead := [s[0]] + more;
      assert s == [s[0]] + s[1..];
    } else if |s| != 0 && IsBracket(s[|s| - 1]) {
      var more;
      lead, more := BracketsAreTrimmed(s[..|s| - 1]);
      trail := more + [s[|s| - 1]];
      assert s == s[..|s| - 1] + [s[|s| - 1]];
    } else {
      lead, trail := "", "";
    }
  }

  /** A first word that names level i: brackets aside, it spells the level; INFO only by its own name. */
  ghost predicate Names(word: string, i: nat) {
    if i == 2 then SameButCase(TrimBrackets(word), "INFO") else Spells(TrimBrackets(word), i)
  }

  lemma NamesInfo(word: string)
    ensures Names(word, 2) <==> ToUpper(TrimBrackets(word)) == "INFO"
  {
    UpperIsItself("INFO");
    RaisingForgetsCase(TrimBrackets(word), "INFO");
  }

  lemma InfoIsBare(word: string)
    requires SameButCase(word, "INFO")
    ensures TrimSpace(word) == word && Spells(word, 2)
  {
    assert SameLetter(word[0], "INFO"[0]) && SameLetter(word[3], "INFO"[3]);
    assert SPELLINGS[2][0] == "INFO";
    BareIsTrimmed(word);
  }

  /**
    A line leads with a level exactly when its first word, of at most eight characters, names one; what follows is
    the rest of it, trimmed.
   */
  lemma LevelLeads(word: string, tail: string)
    requires ' ' !in word
    ensures forall i: nat | i < 6 && 1 <= |word| <= 8 && Names(word, i) ::
      LeadingLevel(word + " " + tail) == Some((LEVELS[i], TrimSpace(tail)))
    ensures |word| == 0 || |word| > 8 || (forall i: nat | i < 6 :: !Names(word, i)) ==>
      LeadingLevel(word + " " + tail).None?
  {
    var s := word + " " + tail;
    FirstSpace(word, tail);
    assert s[..|word|] == word && s[|word| + 1..] == tail;
    var core := TrimBrackets(word);
    LevelsAreSpelled(core);
    NamesInfo(word);
    if Names(word, 2) {
      InfoIsBare(core);
    }
    if ParseSeverity(core) != "INFO" {
      var i: nat :| Spells(core, i);
      assert i != 2;
      assert Names(word, i);
    }
    forall i: nat | i < 6 && i != 2 && Names(word, i) ensures ParseSeverity(core) == LEVELS[i] != "INFO" {
      LevelIsNotInfo(i);
    }
  }

  lemma LevelIsNotInfo(i: nat)
    requires i < 6 && i != 2
    ensures LEVELS[i] != "INFO"
  {
    assert LEVELS[0] == "TRACE" && LEVELS[1] == "DEBUG" && LEVELS[3] == "WARN" && LEVELS[4] == "ERROR";
  }

  lemma FirstSpace(word: string, tail: string)
    requires ' ' !in word
    ensures IndexOf(word + " " + tail, ' ') == Some(|word|)
  {
    var s := word + " " + tail;
    assert s[|word|] == ' ';
    assert forall k | 0 <= k < |word| :: s[k] == word[k];
  }

  /** A line of one word leads with none. */
  lemma OneWordLeadsNothing(s: string)
    requires ' ' !in s
    ensures LeadingLevel(s).None?
  {
  }

  /** Cutting takes what follows the first occurrence. */
  lemma {:induction false} CutIsFirst(s: string, sep: string) returns (front: string)
    ensures CutAfter(s, sep).Some? ==>
      s == front + sep + CutAfter(s, sep).value && forall k | 0 <= k < |front| :: !(sep <= s[k..])
    ensures CutAfter(s, sep).None? ==> forall k | 0 <= k <= |s| :: !(sep <= s[k..])
  {
    front := "";
    assert s[0..] == s;
    if !(sep <= s) && s != "" {
      var rest := CutIsFirst(s[1..], sep);
      front := [s[0]] + rest;
      assert s == [s[0]] + s[1..];
      assert forall k | 1 <= k <= |s| :: s[k..] == s[1..][k - 1..];
    }
  }

  /** A bracketed name is dropped exactly when the text after it, trimmed, is an object. */
  lemma LoggerNameIsDropped(name: string, tail: string)
    requires forall k | 0 <= k < |name| + 1 :: !("] " <= ("[" + name + "] " + tail)[k..])
    ensures var s := "[" + name + "] " + tail;
      StripLoggerPrefix(s) == if "{" <= TrimSpace(tail) then TrimSpace(tail) else s
  {
    var s := "[" + name + "] " + tail;
    var front := CutIsFirst(s, "] ");
    var head := "[" + name;
    assert s[|head|..] == "] " + tail;
    assert "] " <= s[|head|..];
    assert |front| <= |head|;
    if CutAfter(s, "] ").Some? {
      assert s[|front|..] == "] " + CutAfter(s, "] ").value;
      assert |front| == |head|;
      assert CutAfter(s, "] ").value == s[|front| + 2..] == tail;
    }
  }

  // ---- the text a line settles on ----------------------------------------

  /** What of a text may be decoded: itself, or what follows its level and its logger name. */
  function Payload(text: string): string {
    if IsObject(text) then text
    else
      var lead := LeadingLevel(text);
      StripLoggerPrefix(if lead.Some? then lead.value.1 else text)
  }

  /** The outer text's payload decodes to the inner text. */
  predicate Wraps(rd: Reader, outer: string, inner: string) {
    IsObject(Payload(outer)) && rd.decode(Payload(outer)).Some? && rd.decode(Payload(outer)).value.0 == inner
  }

  ghost predicate WrapsNothing(rd: Reader, text: string) {
    forall inner :: !Wraps(rd, text, inner)
  }

  /** Each text wraps the next. */
  ghost predicate Peels(rd: Reader, chain: seq<string>) {
    forall i, j | 0 <= i < j < |chain| && j == i + 1 :: Wraps(rd, chain[i], chain[j])
  }

  /** Peeling from outer, at most n times, ends at core: where nothing is wrapped any more, or the turns run out. */
  ghost predicate Settles(rd: Reader, outer: string, core: string, n: nat) {
    exists chain :: SettlesBy(rd, outer, core, n, chain)
  }

  ghost predicate SettlesBy(rd: Reader, outer: string, core: string, n: nat, chain: seq<string>) {
    && 1 <= |chain| <= n + 1 && chain[0] == outer && chain[|chain| - 1] == core && Peels(rd, chain)
    && (|chain| == n + 1 || WrapsNothing(rd, core))
  }

  lemma SettledAlready(rd: Reader, text: string, n: nat)
    requires n == 0 || WrapsNothing(rd, text)
    ensures Settles(rd, text, text, n)
  {
    assert SettlesBy(rd, text, text, n, [text]);
  }

  lemma SettlesBehind(rd: Reader, outer: string, inner: string, core: string, n: nat)
    requires Wraps(rd, outer, inner) && Settles(rd, inner, core, n)
    ensures Settles(rd, outer, core, n + 1)
  {
    var chain :| SettlesBy(rd, inner, core, n, chain);
    var longer := [outer] + chain;
    forall i, j | 0 <= i < j < |longer| && j == i + 1 ensures Wraps(rd, longer[i], longer[j]) {
      if i != 0 {
        assert Wraps(rd, chain[i - 1], chain[j - 1]);
      }
    }
    assert SettlesBy(rd, outer, core, n + 1, longer);
  }

  lemma StepIsTaken(rd: Reader, chain: seq<string>, i: nat)
    requires Peels(rd, chain) && i + 1 < |chain|
    ensures !WrapsNothing(rd, chain[i])
  {
    assert Wraps(rd, chain[i], chain[i + 1]);
  }

  lemma SettlesNoEarlier(rd: Reader, outer: string, a: string, b: string, n: nat, x: seq<string>, y: seq<string>)
    requires SettlesBy(rd, outer, a, n, x) && SettlesBy(rd, outer, b, n, y)
    ensures |y| <= |x|
  {
    ChainsAgree(rd, x, y, |x| - 1);
    if |x| < |y| {
      StepIsTaken(rd, y, |x| - 1);
    }
  }

  /** There is only one text to settle on. */
  lemma SettlesOnce(rd: Reader, outer: string, a: string, b: string, n: nat)
    requires Settles(rd, outer, a, n) && Settles(rd, outer, b, n)
    ensures a == b
  {
    var x :| SettlesBy(rd, outer, a, n, x);
    var y :| SettlesBy(rd, outer, b, n, y);
    SettlesNoEarlier(rd, outer, a, b, n, x, y);
    SettlesNoEarlier(rd, outer, b, a, n, y, x);
    ChainsAgree(rd, x, y, |x| - 1);
  }

  lemma {:induction false} ChainsAgree(rd: Reader, x: seq<string>, y: seq<string>, i: nat)
    requires Peels(rd, x) && Peels(rd, y) && x != [] && y != [] && x[0] == y[0] && i < |x|
    ensures i < |y| ==> x[i] == y[i]
  {
    if i != 0 && i < |y| {
      ChainsAgree(rd, x, y, i - 1);
      assert Wraps(rd, x[i - 1], x[i]) && Wraps(rd, y[i - 1], y[i]);
    }
  }

  /** The message unwrapping returns is the one the text settles on in the turns that are left. */
  lemma {:induction false} UnwrappingSettles(rd: Reader, msg: string, sev: string, depth: nat)
    requires depth <= MAX_NESTING + 1
    ensures Settles(rd, msg, UnwrapNested(rd, msg, sev, depth).0, MAX_NESTING + 1 - depth)
    decreases MAX_NESTING + 2 - depth
  {
    var payload, result := Payload(msg), UnwrapNested(rd, msg, sev, depth).0;
    PayloadIsUnwrapped(rd, msg, sev, depth);
    if depth <= MAX_NESTING && IsObject(payload) && rd.decode(payload).Some? {
      var (inner, level) := rd.decode(payload).value;
      UnwrappingSettles(rd, inner, level, depth + 1);
      SettlesBehind(rd, msg, inner, result, MAX_NESTING - depth);
    } else {
      SettledAlready(rd, msg, MAX_NESTING + 1 - depth);
    }
  }

  lemma PayloadIsUnwrapped(rd: Reader, msg: string, sev: string, depth: nat)
    requires depth <= MAX_NESTING + 1
    ensures var payload := Payload(msg);
      UnwrapNested(rd, msg, sev, depth).0
      == if depth <= MAX_NESTING && IsObject(payload) && rd.decode(payload).Some? then
           UnwrapNested(rd, rd.decode(payload).value.0, rd.decode(payload).value.1, depth + 1).0
         else msg
  {
    if msg == "" {
      assert LeadingLevel(msg).None?;
    }
  }

  /** The line, without the white space around it, is an object or a logger name in front of one, and it decodes. */
  predicate IsStructured(rd: Reader, line: string) {
    IsObject(StripLoggerPrefix(TrimSpace(line))) && rd.decode(StripLoggerPrefix(TrimSpace(line))).Some?
  }

  /** What a line leads with, its level and the rest, when something follows the level. */
  function Led(line: string): Option<(string, string)> {
    var lead := LeadingLevel(TrimSpace(line));
    if lead.Some? && lead.value.1 != "" then lead else None
  }

  lemma StructuredSettles(rd: Reader, body: string)
    requires IsObject(body) && rd.decode(body).Some?
    ensures ParseJson(rd, body, 0).Some? && Settles(rd, body, ParseJson(rd, body, 0).value.0, 4)
  {
    var (inner, level) := rd.decode(body).value;
    UnwrappingSettles(rd, inner, level, 1);
    SettlesBehind(rd, body, inner, ParseJson(rd, body, 0).value.0, 3);
  }

  /**
    The message a line is read as. A structured line's is the text its object settles on within four decodes. A
    line that leads with a level, something following it, has what follows, or the text that settles on when it is
    structured in turn. Any other line is its own message, trimmed.
   */
  lemma LineIsRead(rd: Reader, line: string)
    ensures var message := ParseLogMessage(rd, line).0;
      if IsStructured(rd, line) then Settles(rd, StripLoggerPrefix(TrimSpace(line)), message, 4)
      else if Led(line).None? then message == TrimSpace(line)
      else if IsStructured(rd, Led(line).value.1) then
        Settles(rd, StripLoggerPrefix(Led(line).value.1), message, 4)
      else message == StripLoggerPrefix(Led(line).value.1)
  {
    var message := TrimSpace(line);
    var body := StripLoggerPrefix(message);
    if IsStructured(rd, line) {
      StructuredSettles(rd, body);
    } else if Led(line).Some? {
      LedIsTrimmed(line);
      var rest := StripLoggerPrefix(Led(line).value.1);
      if IsObject(rest) && rd.decode(rest).Some? {
        StructuredSettles(rd, rest);
      }
    }
  }

  lemma LedIsTrimmed(line: string)
    requires Led(line).Some?
    ensures TrimSpace(Led(line).value.1) == Led(line).value.1
  {
    var message := TrimSpace(line);
    var tail := message[IndexOf(message, ' ').value + 1..];
    var lead, trail := TrimSpaceDrops(tail);
    BareIsTrimmed(TrimSpace(tail));
  }

  /**
    ... and its severity: of a structured line, the innermost level met on the way in that is not the default, the
    level it leads with counting as the outermost; of any other, the level it leads with, else the embedded one,
    else INFO.
   */
  lemma LineHasSeverity(rd: Reader, line: string)
    ensures var severity := ParseLogMessage(rd, line).1;
      if IsStructured(rd, line) then
        severity == Innermost(JsonPath(rd, StripLoggerPrefix(TrimSpace(line)), 0).levels, "INFO")
      else if Led(line).None? then
        severity == if TrimSpace(line) == "" || rd.embedded(TrimSpace(line)) == "" then "INFO"
          else rd.embedded(TrimSpace(line))
      else if IsStructured(rd, Led(line).value.1) then
        severity == Innermost(JsonPath(rd, StripLoggerPrefix(Led(line).value.1), 0).levels, Led(line).value.0)
      else severity == Led(line).value.0
  {
    var body := StripLoggerPrefix(TrimSpace(line));
    if IsStructured(rd, line) {
      StructuredSettles(rd, body);
      JsonYieldsInnermost(rd, body, 0);
    } else if Led(line).Some? {
      LedIsTrimmed(line);
      var rest := StripLoggerPrefix(Led(line).value.1);
      if IsObject(rest) && rd.decode(rest).Some? {
        StructuredSettles(rd, rest);
        JsonYieldsInnermost(rd, rest, 0);
        InnermostPrefers(JsonPath(rd, rest, 0).levels, Led(line).value.0);
      }
    }
  }

  /** A level in front of plain text is taken off it. */
  lemma LevelIsTakenOff(rd: Reader, word: string, text: string, i: nat)
    requires i < 6 && 1 <= |word| <= 8 && Names(word, i) && ' ' !in word && Bare(word) && word[0] !in "[{"
    requires text != "" && Bare(text) && text[0] !in "[{"
    ensures ParseLogMessage(rd, word + " " + text) == (text, LEVELS[i])
  {
    var line := word + " " + text;
    assert Bare(line) by {
      assert line[0] == word[0] && line[|line| - 1] == text[|text| - 1];
    }
    BareIsTrimmed(line);
    BareIsTrimmed(text);
    LevelLeads(word, text);
    assert !IsObject(line) && line[0] != '[';
  }
}
