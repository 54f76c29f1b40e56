/** The words of a pattern that a template's alias is made of. */
module Alias {

  import opened Model

  /** What Unicode says about characters: which are letters or digits, and how a word is lowered. */
  datatype Lexicon = Lexicon(isWordChar: char -> bool, lower: string -> string)

  /** The wildcard's characters, and the space that replaces it, are separators. */
  predicate Separates(lex: Lexicon) {
    !lex.isWordChar('<') && !lex.isWordChar('*') && !lex.isWordChar('>') && !lex.isWordChar(' ')
  }

  const STOPWORDS := {"a", "an", "the", "of", "on", "for", "to", "in", "is", "and", "or", "with"}

  // ---- the simple form ---------------------------------------------------

  function RunLength(lex: Lexicon, s: string): (n: nat)
    ensures n <= |s|
    ensures forall i | 0 <= i < n :: lex.isWordChar(s[i])
    ensures n < |s| ==> !lex.isWordChar(s[n])
  {
    if |s| == 0 || !lex.isWordChar(s[0]) then 0 else 1 + RunLength(lex, s[1..])
  }

  /** The maximal runs of letters and digits, in order. */
  function Words(lex: Lexicon, s: string): seq<string>
    decreases |s|
  {
    if |s| == 0 then []
    else if !lex.isWordChar(s[0]) then Words(lex, s[1..])
    else var n := RunLength(lex, s); [s[..n]] + Words(lex, s[n..])
  }

  /** The lowered words that are not connectors. */
  function Meaningful(lex: Lexicon, words: seq<string>): seq<string> {
    if |words| == 0 then []
    else
      var w := lex.lower(words[|words| - 1]);
      Meaningful(lex, words[..|words| - 1]) + if w in STOPWORDS then [] else [w]
  }

  function Take(s: seq<string>, n: nat): seq<string> {
    if |s| <= n then s else s[..n]
  }

  // ---- wildcards ---------------------------------------------------------

  /** strings.ReplaceAll(s, "<*>", " "). */
  function StripWildcards(s: string): string {
    if |s| == 0 then ""
    else if WILDCARD <= s then " " + StripWildcards(s[3..])
    else [s[0]] + StripWildcards(s[1..])
  }

  predicate AllWordChars(lex: Lexicon, s: string) {
    forall i | 0 <= i < |s| :: lex.isWordChar(s[i])
  }

  lemma {:induction false} RunOfPrefix(lex: Lexicon, w: string, rest: string)
    requires AllWordChars(lex, w) && (rest == "" || !lex.isWordChar(rest[0]))
    ensures RunLength(lex, w + rest) == |w|
  {
    assert forall i | 0 <= i < |w| :: (w + rest)[i] == w[i];
    assert rest != "" ==> (w + rest)[|w|] == rest[0];
  }

  /** A separator ends the word before it. */
  lemma SeparatorEndsWord(lex: Lexicon, w: string, c: char, rest: string)
    requires AllWordChars(lex, w) && !lex.isWordChar(c)
    ensures Words(lex, w + [c] + rest) == (if w == "" then [] else [w]) + Words(lex, rest)
  {
    var tail := [c] + rest;
    assert w + [c] + rest == w + tail;
    assert Words(lex, tail) == Words(lex, rest) by {
      assert tail[1..] == rest;
    }
    if w == "" {
      assert w + tail == tail;
    } else {
      RunOfPrefix(lex, w, tail);
      assert (w + tail)[..|w|] == w && (w + tail)[|w|..] == tail;
      assert (w + tail)[0] == w[0];
    }
  }

  lemma WordAlone(lex: Lexicon, w: string)
    requires AllWordChars(lex, w)
    ensures Words(lex, w) == if w == "" then [] else [w]
  {
    if w != "" {
      RunOfPrefix(lex, w, "");
      assert w + "" == w && w[..|w|] == w;
    }
  }

  /** ... and so does a whole wildcard. */
  lemma WildcardEndsWord(lex: Lexicon, w: string, rest: string)
    requires Separates(lex) && AllWordChars(lex, w)
    ensures Words(lex, w + (WILDCARD + rest)) == (if w == "" then [] else [w]) + Words(lex, rest)
  {
    var tail, last := "*>" + rest, ">" + rest;
    assert Words(lex, last) == Words(lex, rest) by {
      assert last[0] == '>' && last[1..] == rest;
    }
    assert Words(lex, tail) == Words(lex, last) by {
      assert tail[0] == '*' && tail[1..] == last;
    }
    SeparatorEndsWord(lex, w, '<', tail);
    assert w + (WILDCARD + rest) == w + ['<'] + tail;
  }

  lemma SpaceEndsWord(lex: Lexicon, w: string, rest: string)
    requires Separates(lex) && AllWordChars(lex, w)
    ensures Words(lex, w + (" " + rest)) == (if w == "" then [] else [w]) + Words(lex, rest)
  {
    SeparatorEndsWord(lex, w, ' ', rest);
    assert w + (" " + rest) == w + [' '] + rest;
  }

  lemma StripStep(s: string)
    requires WILDCARD <= s
    ensures s == WILDCARD + s[3..] && StripWildcards(s) == " " + StripWildcards(s[3..])
  {
  }

  lemma {:induction false} StrippingBehindWord(lex: Lexicon, w: string, s: string)
    requires Separates(lex) && AllWordChars(lex, w)
    ensures Words(lex, w + StripWildcards(s)) == Words(lex, w + s)
    decreases |s|, 1
  {
    if |s| == 0 {
    } else if WILDCARD <= s {
      StrippingBehindWildcard(lex, w, s);
    } else {
      StrippingBehindCharacter(lex, w, s);
    }
  }

  lemma {:induction false} StrippingBehindWildcard(lex: Lexicon, w: string, s: string)
    requires Separates(lex) && AllWordChars(lex, w) && WILDCARD <= s
    ensures Words(lex, w + StripWildcards(s)) == Words(lex, w + s)
    decreases |s|, 0
  {
    var rest := s[3..];
    StripStep(s);
    SpaceEndsWord(lex, w, StripWildcards(rest));
    WildcardEndsWord(lex, w, rest);
    assert Words(lex, StripWildcards(rest)) == Words(lex, rest) by {
      StrippingBehindWord(lex, "", rest);
      assert "" + StripWildcards(rest) == StripWildcards(rest) && "" + rest == rest;
    }
  }

  lemma {:induction false} StrippingBehindCharacter(lex: Lexicon, w: string, s: string)
    requires Separates(lex) && AllWordChars(lex, w) && |s| != 0 && !(WILDCARD <= s)
    ensures Words(lex, w + StripWildcards(s)) == Words(lex, w + s)
    decreases |s|, 0
  {
    var c, rest := s[0], s[1..];
    assert w + s == w + [c] + rest && w + StripWildcards(s) == w + [c] + StripWildcards(rest);
    if lex.isWordChar(c) {
      StrippingBehindWord(lex, w + [c], rest);
    } else {
      StrippingBehindWord(lex, "", rest);
      assert "" + StripWildcards(rest) == StripWildcards(rest) && "" + rest == rest;
      SeparatorEndsWord(lex, w, c, rest);
      SeparatorEndsWord(lex, w, c, StripWildcards(rest));
    }
  }

  /** Stripping wildcards changes no word: they already separate. */
  lemma StrippingIsRedundant(lex: Lexicon, s: string)
    requires Separates(lex)
    ensures Words(lex, StripWildcards(s)) == Words(lex, s)
  {
    StrippingBehindWord(lex, "", s);
    assert "" + StripWildcards(s) == StripWildcards(s) && "" + s == s;
  }

  // ---- the streaming form ------------------------------------------------

  lemma MeaningfulSnoc(lex: Lexicon, words: seq<string>, w: string)
    ensures Meaningful(lex, words + [w]) == Meaningful(lex, words)
      + if lex.lower(w) in STOPWORDS then [] else [lex.lower(w)]
  {
    assert (words + [w])[..|words|] == words;
  }

  lemma {:induction false} MeaningfulConcat(lex: Lexicon, a: seq<string>, b: seq<string>)
    ensures Meaningful(lex, a + b) == Meaningful(lex, a) + Meaningful(lex, b)
  {
    if |b| == 0 {
      assert a + b == a;
    } else {
      assert (a + b)[..|a + b| - 1] == a + b[..|b| - 1];
      MeaningfulConcat(lex, a, b[..|b| - 1]);
    }
  }

  /** The meaningful words are the lowered words of the text, connectors left out. */
  lemma {:induction false} MeaningfulAre(lex: Lexicon, words: seq<string>, tok: string)
    ensures tok in Meaningful(lex, words)
      <==> (exists w :: w in words && tok == lex.lower(w))
           && tok !in ["a", "an", "the", "of", "on", "for", "to", "in", "is", "and", "or", "with"]
    decreases |words|
  {
    if |words| != 0 {
      var front, last := words[..|words| - 1], words[|words| - 1];
      assert words == front + [last];
      MeaningfulAre(lex, front, tok);
    }
  }

  /** Ends the current word: kept when it is no connector and there is room. */
  method Flush(lex: Lexicon, current: string, out: seq<string>, limit: nat, ghost words: seq<string>)
    returns (out': seq<string>)
    requires out == Take(Meaningful(lex, words), limit)
    ensures out' == Take(Meaningful(lex, if current == "" then words else words + [current]), limit)
  {
    out' := out;
    if |current| == 0 {
      return;
    }
    MeaningfulSnoc(lex, words, current);
    var tok := lex.lower(current);
    if tok in STOPWORDS {
      return;
    }
    if |out| < limit {
      out' := out + [tok];
    }
  }

  lemma FullIsFinal(lex: Lexicon, words: seq<string>, more: seq<string>, limit: nat)
    requires |Take(Meaningful(lex, words), limit)| >= limit
    ensures Take(Meaningful(lex, words + more), limit) == Take(Meaningful(lex, words), limit)
  {
    MeaningfulConcat(lex, words, more);
  }

  /** What has been read splits off: the words so far, the current one, and what is left. */
  ghost predicate Scanned(lex: Lexicon, s: string, i: nat, words: seq<string>, current: string)
    requires i <= |s|
  {
    AllWordChars(lex, current) && Words(lex, s) == words + Words(lex, current + s[i..])
  }

  lemma ScanWordChar(lex: Lexicon, s: string, i: nat, words: seq<string>, current: string)
    requires i < |s| && Scanned(lex, s, i, words, current) && lex.isWordChar(s[i])
    ensures Scanned(lex, s, i + 1, words, current + [s[i]])
  {
    assert current + s[i..] == (current + [s[i]]) + s[i + 1..];
  }

  lemma ScanSeparator(lex: Lexicon, s: string, i: nat, words: seq<string>, current: string)
    requires i < |s| && Scanned(lex, s, i, words, current) && !lex.isWordChar(s[i])
    ensures Scanned(lex, s, i + 1, if current == "" then words else words + [current], "")
  {
    SeparatorEndsWord(lex, current, s[i], s[i + 1..]);
    assert current + s[i..] == current + [s[i]] + s[i + 1..];
    assert "" + s[i + 1..] == s[i + 1..];
  }

  lemma ScanEnds(lex: Lexicon, s: string, words: seq<string>, current: string)
    requires Scanned(lex, s, |s|, words, current)
    ensures Words(lex, s) == if current == "" then words else words + [current]
  {
    assert current + s[|s|..] == current;
    WordAlone(lex, current);
  }

  method ScanWords(lex: Lexicon, cleaned: string, limit: nat) returns (out: seq<string>)
    ensures out == Take(Meaningful(lex, Words(lex, cleaned)), limit)
  {
    var current := "";
    out := [];
    ghost var words: seq<string> := [];
    assert current + cleaned[0..] == cleaned;
    for i := 0 to |cleaned|
      invariant Scanned(lex, cleaned, i, words, current)
      invariant out == Take(Meaningful(lex, words), limit)
    {
      var r := cleaned[i];
      if lex.isWordChar(r) {
        ScanWordChar(lex, cleaned, i, words, current);
        current := current + [r];
        continue;
      }
      ScanSeparator(lex, cleaned, i, words, current);
      out := Flush(lex, current, out, limit, words);
      words := if current == "" then words else words + [current];
      current := "";
      if |out| >= limit {
        FullIsFinal(lex, words, Words(lex, "" + cleaned[i + 1..]), limit);
        return;
      }
    }
    ScanEnds(lex, cleaned, words, current);
    out := Flush(lex, current, out, limit, words);
  }

  /**
    The streaming scan takes the first limit lowered words that are not connectors; it may stop early,
    and the wildcards need no stripping.
   */
  method MeaningfulTokens(lex: Lexicon, pattern: string, limit: nat) returns (out: seq<string>)
    requires Separates(lex)
    ensures out == Take(Meaningful(lex, Words(lex, pattern)), limit)
  {
    if pattern == "" {
      return [];
    }
    StrippingIsRedundant(lex, pattern);
    out := ScanWords(lex, StripWildcards(pattern), limit);
  }
}
