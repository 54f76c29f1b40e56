/** Options, and the few string operations of Go's standard library the pipeline relies on. */
module Wrappers {

  datatype Option<+T> = None | Some(value: T)

  datatype Result<+T, +E> = Success(value: T) | Failure(error: E)
}

module Strings {

  // ---- order -------------------------------------------------------------

  /** Go's string comparison: lexicographic. Code point order and UTF-8 byte order coincide. */
  predicate Less(a: string, b: string)
    decreases |a|
  {
    |b| != 0 && (|a| == 0 || a[0] < b[0] || (a[0] == b[0] && Less(a[1..], b[1..])))
  }

  lemma {:induction false} LessIrreflexive(a: string)
    ensures !Less(a, a)
  {
    if |a| != 0 {
      LessIrreflexive(a[1..]);
    }
  }

  lemma {:induction false} LessTransitive(a: string, b: string, c: string)
    requires Less(a, b) && Less(b, c)
    ensures Less(a, c)
    decreases |a|
  {
    if |a| != 0 && a[0] == b[0] && b[0] == c[0] {
      LessTransitive(a[1..], b[1..], c[1..]);
    }
  }

  lemma {:induction false} LessTotal(a: string, b: string)
    ensures Less(a, b) || a == b || Less(b, a)
    decreases |a|
  {
    if |a| != 0 && |b| != 0 && a[0] == b[0] {
      LessTotal(a[1..], b[1..]);
      assert a == [a[0]] + a[1..] && b == [b[0]] + b[1..];
    }
  }

  lemma LessAsymmetric(a: string, b: string)
    requires Less(a, b)
    ensures !Less(b, a)
  {
    if Less(b, a) {
      LessTransitive(a, b, a);
      LessIrreflexive(a);
    }
  }

  // ---- whitespace and words ----------------------------------------------

  /** unicode.IsSpace. */
  predicate IsSpace(c: char) {
    c in " \t\n\r" || c == '\U{000B}' || c == '\U{000C}' || c == '\U{0085}' || c == '\U{00A0}' || c == '\U{1680}'
    || '\U{2000}' <= c <= '\U{200A}' || c == '\U{2028}' || c == '\U{2029}' || c == '\U{202F}' || c == '\U{205F}'
    || c == '\U{3000}'
  }

  /** A token as strings.Fields produces it: non-empty and free of whitespace. */
  predicate IsWord(s: string) {
    |s| != 0 && forall i | 0 <= i < |s| :: !IsSpace(s[i])
  }

  predicate AreWords(ts: seq<string>) {
    forall i | 0 <= i < |ts| :: IsWord(ts[i])
  }

  /** How many leading characters are not whitespace. */
  function WordLength(s: string): (n: nat)
    ensures n <= |s|
    ensures forall i | 0 <= i < n :: !IsSpace(s[i])
    ensures n < |s| ==> IsSpace(s[n])
  {
    if |s| == 0 || IsSpace(s[0]) then 0 else 1 + WordLength(s[1..])
  }

  /** strings.Fields: the maximal whitespace-free runs, in order. */
  function Fields(s: string): (ts: seq<string>)
    ensures AreWords(ts)
    decreases |s|
  {
    if |s| == 0 then []
    else if IsSpace(s[0]) then Fields(s[1..])
    else var n := WordLength(s); [s[..n]] + Fields(s[n..])
  }

  /** strings.Join(ts, " "). */
  function Join(ts: seq<string>): string {
    if |ts| == 0 then "" else if |ts| == 1 then ts[0] else ts[0] + " " + Join(ts[1..])
  }

  lemma {:induction false} WordLengthOfPrefix(w: string, rest: string)
    requires IsWord(w)
    requires rest == "" || IsSpace(rest[0])
    ensures WordLength(w + rest) == |w|
  {
    assert forall i | 0 <= i < |w| :: (w + rest)[i] == w[i];
    assert rest != "" ==> (w + rest)[|w|] == rest[0];
  }

  /** Splitting a joined token list gives the tokens back. */
  lemma {:induction false} FieldsOfJoin(ts: seq<string>)
    requires AreWords(ts)
    ensures Fields(Join(ts)) == ts
  {
    if |ts| != 0 {
      assert IsWord(ts[0]);
      var rest := if |ts| == 1 then "" else " " + Join(ts[1..]);
      var s := Join(ts);
      assert s == ts[0] + rest;
      WordLengthOfPrefix(ts[0], rest);
      assert !IsSpace(s[0]) by { assert s[0] == ts[0][0]; }
      assert s[..|ts[0]|] == ts[0] && s[|ts[0]|..] == rest;
      FieldsOfJoin(ts[1..]);
      if |ts| > 1 {
        assert rest[1..] == Join(ts[1..]);
        assert Fields(rest) == Fields(rest[1..]);
      }
      assert ts == [ts[0]] + ts[1..];
    }
  }

  /** Patterns determine their token lists. */
  lemma JoinInjective(a: seq<string>, b: seq<string>)
    requires AreWords(a) && AreWords(b)
    requires Join(a) == Join(b)
    ensures a == b
  {
    FieldsOfJoin(a);
    FieldsOfJoin(b);
  }

  // ---- prefixes and trimming ---------------------------------------------

  predicate HasPrefix(s: string, p: string) {
    p <= s
  }

  predicate Contains(s: string, p: string) {
    exists i | 0 <= i <= |s| :: p <= s[i..]
  }

  function TrimLeft(s: string): string {
    if |s| != 0 && IsSpace(s[0]) then TrimLeft(s[1..]) else s
  }

  function TrimRight(s: string): string {
    if |s| != 0 && IsSpace(s[|s| - 1]) then TrimRight(s[..|s| - 1]) else s
  }

  /** strings.TrimSpace. */
  function TrimSpace(s: string): string {
    TrimRight(TrimLeft(s))
  }

  function ToUpperChar(c: char): char {
    if 'a' <= c <= 'z' then c - 'a' + 'A' else c
  }

  /** strings.ToUpper on ASCII letters. */
  function ToUpper(s: string): (r: string)
    ensures |r| == |s|
    ensures forall i | 0 <= i < |s| :: r[i] == ToUpperChar(s[i])
  {
    seq(|s|, i requires 0 <= i < |s| => ToUpperChar(s[i]))
  }

  function ToLowerChar(c: char): char {
    if 'A' <= c <= 'Z' then c - 'A' + 'a' else c
  }

  /** strings.ToLower on ASCII letters. */
  function ToLower(s: string): (r: string)
    ensures |r| == |s|
    ensures forall i | 0 <= i < |s| :: r[i] == ToLowerChar(s[i])
  {
    seq(|s|, i requires 0 <= i < |s| => ToLowerChar(s[i]))
  }

  // ---- what trimming and folding keep ------------------------------------

  predicate AllSpace(s: string) {
    forall i | 0 <= i < |s| :: IsSpace(s[i])
  }

  /** No white space at either end. */
  predicate Bare(s: string) {
    s != "" ==> !IsSpace(s[0]) && !IsSpace(s[|s| - 1])
  }

  lemma {:induction false} TrimLeftDrops(s: string) returns (lead: string)
    ensures AllSpace(lead) && s == lead + TrimLeft(s)
    ensures TrimLeft(s) != "" ==> !IsSpace(TrimLeft(s)[0])
  {
    if s != "" && IsSpace(s[0]) {
      var rest := TrimLeftDrops(s[1..]);
      lead := [s[0]] + rest;
      assert s == [s[0]] + s[1..];
    } else {
      lead := "";
    }
  }

  lemma {:induction false} TrimRightDrops(s: string) returns (trail: string)
    ensures AllSpace(trail) && s == TrimRight(s) + trail
    ensures TrimRight(s) != "" ==> !IsSpace(TrimRight(s)[|TrimRight(s)| - 1])
  {
    if s != "" && IsSpace(s[|s| - 1]) {
      var rest := TrimRightDrops(s[..|s| - 1]);
      trail := rest + [s[|s| - 1]];
      assert s == s[..|s| - 1] + [s[|s| - 1]];
    } else {
      trail := "";
    }
  }

  /** Trimming drops white space from both ends, all of it and nothing else. */
  lemma TrimSpaceDrops(s: string) returns (lead: string, trail: string)
    ensures AllSpace(lead) && AllSpace(trail) && s == lead + TrimSpace(s) + trail && Bare(TrimSpace(s))
  {
    lead := TrimLeftDrops(s);
    trail := TrimRightDrops(TrimLeft(s));
    var core := TrimSpace(s);
    assert TrimLeft(s) == core + trail;
    if core != "" {
      assert core[0] == TrimLeft(s)[0];
    }
  }

  /** Text without white space at its ends is left as it is. */
  lemma BareIsTrimmed(s: string)
    requires Bare(s)
    ensures TrimSpace(s) == s
  {
  }

  predicate AreCases(upper: char, lower: char) {
    'A' <= upper <= 'Z' && lower as int == upper as int + 32
  }

  /** The same character, or the two cases of one ASCII letter. */
  predicate SameLetter(a: char, b: char) {
    a == b || AreCases(a, b) || AreCases(b, a)
  }

  predicate SameButCase(a: string, b: string) {
    |a| == |b| && forall i | 0 <= i < |a| :: SameLetter(a[i], b[i])
  }

  lemma FoldedLetters(a: char, b: char)
    ensures ToLowerChar(a) == ToLowerChar(b) <==> SameLetter(a, b)
    ensures ToUpperChar(a) == ToUpperChar(b) <==> SameLetter(a, b)
  {
  }

  /** Lowering forgets case and nothing else ... */
  lemma LoweringForgetsCase(a: string, b: string)
    ensures ToLower(a) == ToLower(b) <==> SameButCase(a, b)
  {
    forall i | 0 <= i < |a| && i < |b| ensures ToLowerChar(a[i]) == ToLowerChar(b[i]) <==> SameLetter(a[i], b[i]) {
      FoldedLetters(a[i], b[i]);
    }
    if ToLower(a) == ToLower(b) {
      assert forall i | 0 <= i < |a| :: ToLower(a)[i] == ToLower(b)[i];
    }
  }

  /** ... and so does raising. */
  lemma RaisingForgetsCase(a: string, b: string)
    ensures ToUpper(a) == ToUpper(b) <==> SameButCase(a, b)
  {
    forall i | 0 <= i < |a| && i < |b| ensures ToUpperChar(a[i]) == ToUpperChar(b[i]) <==> SameLetter(a[i], b[i]) {
      FoldedLetters(a[i], b[i]);
    }
    if ToUpper(a) == ToUpper(b) {
      assert forall i | 0 <= i < |a| :: ToUpper(a)[i] == ToUpper(b)[i];
    }
  }

  // ---- what splitting and comparing mean ---------------------------------

  /** The characters unicode.IsSpace accepts, by their code points. */
  lemma SpacesAre(c: char)
    ensures var n := c as int;
      IsSpace(c) <==> 9 <= n <= 13 || n in {32, 133, 160, 5760} || 8192 <= n <= 8202
                      || n in {8232, 8233, 8239, 8287, 12288}
  {
  }

  /** A gap, then a word, and so on; the last gap closes the text. */
  function Interleaved(gaps: seq<string>, words: seq<string>): string
    requires |gaps| == |words| + 1
    decreases |words|
  {
    if |words| == 0 then gaps[0] else gaps[0] + words[0] + Interleaved(gaps[1..], words[1..])
  }

  /** White space throughout, and some between any two words. */
  predicate AreGaps(gaps: seq<string>) {
    (forall i | 0 <= i < |gaps| :: AllSpace(gaps[i])) && forall i | 0 < i < |gaps| - 1 :: gaps[i] != ""
  }

  lemma WordIsTaken(s: string)
    requires s != "" && !IsSpace(s[0])
    ensures Fields(s) == [s[..WordLength(s)]] + Fields(s[WordLength(s)..]) && WordLength(s) != 0
  {
  }

  /** Splitting loses nothing but white space: the words, with gaps put back around them, make up the text. */
  lemma {:induction false} FieldsLoseOnlySpace(s: string) returns (gaps: seq<string>)
    ensures |gaps| == |Fields(s)| + 1 && AreGaps(gaps) && s == Interleaved(gaps, Fields(s))
    ensures s != "" && IsSpace(s[0]) ==> gaps[0] != ""
    decreases |s|
  {
    if s == "" {
      gaps := [""];
    } else if IsSpace(s[0]) {
      var rest := FieldsLoseOnlySpace(s[1..]);
      gaps := [[s[0]] + rest[0]] + rest[1..];
      SpaceIsSkipped(s);
      GapGrows(s[0], rest, Fields(s));
      assert s == [s[0]] + s[1..];
    } else {
      var n := WordLength(s);
      WordIsTaken(s);
      var rest := FieldsLoseOnlySpace(s[n..]);
      gaps := [""] + rest;
      StillGaps(rest);
      GapBefore(s[..n], rest, Fields(s[n..]));
      assert s == s[..n] + s[n..];
    }
  }

  lemma SpaceIsSkipped(s: string)
    requires s != "" && IsSpace(s[0])
    ensures Fields(s) == Fields(s[1..])
  {
  }

  lemma GapGrows(c: char, rest: seq<string>, words: seq<string>)
    requires |rest| == |words| + 1
    ensures Interleaved([[c] + rest[0]] + rest[1..], words) == [c] + Interleaved(rest, words)
  {
    assert ([[c] + rest[0]] + rest[1..])[1..] == rest[1..];
    if |words| != 0 {
      assert [c] + rest[0] + words[0] + Interleaved(rest[1..], words[1..])
        == [c] + (rest[0] + words[0] + Interleaved(rest[1..], words[1..]));
    }
  }

  lemma GapBefore(w: string, rest: seq<string>, more: seq<string>)
    requires |rest| == |more| + 1
    ensures Interleaved([""] + rest, [w] + more) == w + Interleaved(rest, more)
  {
    assert ([""] + rest)[1..] == rest && ([w] + more)[1..] == more;
    assert "" + w == w;
  }

  lemma StillGaps(rest: seq<string>)
    requires AreGaps(rest) && (|rest| > 1 ==> rest[0] != "")
    ensures AreGaps([""] + rest)
  {
  }

  lemma SamePrefix(a: string, b: string, k: nat)
    requires k <= |a| && k <= |b| && a[..k] == b[..k]
    ensures forall j | 0 <= j < k :: a[j] == b[j]
  {
    assert forall j | 0 <= j < k :: a[j] == a[..k][j] && b[j] == b[..k][j];
  }

  /** Before means: a proper prefix, or smaller at the first difference. */
  lemma {:induction false} LessIsLexicographic(a: string, b: string)
    ensures Less(a, b) <==> a < b || exists k :: 0 <= k < |a| && k < |b| && a[..k] == b[..k] && a[k] < b[k]
    decreases |a|
  {
    if a != "" && b != "" && a[0] == b[0] {
      LessIsLexicographic(a[1..], b[1..]);
      assert a == [a[0]] + a[1..] && b == [b[0]] + b[1..];
      if k :| 0 <= k < |a[1..]| && k < |b[1..]| && a[1..][..k] == b[1..][..k] && a[1..][k] < b[1..][k] {
        assert a[..k + 1] == [a[0]] + a[1..][..k] && b[..k + 1] == [b[0]] + b[1..][..k];
        assert a[k + 1] < b[k + 1];
      }
      if k :| 0 <= k < |a| && k < |b| && a[..k] == b[..k] && a[k] < b[k] {
        assert a[1..][..k - 1] == a[..k][1..] && b[1..][..k - 1] == b[..k][1..];
        assert a[1..][k - 1] < b[1..][k - 1];
      }
    } else {
      if a != "" && b != "" && a[0] < b[0] {
        assert a[..0] == b[..0];
      }
      if k :| 0 <= k < |a| && k < |b| && a[..k] == b[..k] && a[k] < b[k] {
        SamePrefix(a, b, k);
      }
    }
  }
}
