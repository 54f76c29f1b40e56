/** Token lists: what counts as variable, similarity and broadening. */
module Tokens {

  import opened Model

  predicate ContainsDigit(s: string) {
    exists i | 0 <= i < |s| :: '0' <= s[i] <= '9'
  }

  /** A token the prefix tree treats as variable. */
  predicate IsWildcard(token: string) {
    token == WILDCARD || ContainsDigit(token)
  }

  /** The first-level bucket of a token count. */
  function TokenCountBucket(n: nat): string {
    if n <= 3 then "short" else if n <= 8 then "medium" else if n <= 15 then "long" else "vlong"
  }

  /** A position on which a pattern and a message do not conflict. */
  predicate Agree(a: string, b: string) {
    a == b || a == WILDCARD || b == WILDCARD
  }

  predicate Compatible(a: seq<string>, b: seq<string>) {
    |a| == |b| && forall i | 0 <= i < |a| :: Agree(a[i], b[i])
  }

  /** The number of agreeing positions among the first n. */
  function Matches(a: seq<string>, b: seq<string>, n: nat): (m: nat)
    requires n <= |a| == |b|
    ensures m <= n
    ensures m == n <==> forall i | 0 <= i < n :: Agree(a[i], b[i])
  {
    if n == 0 then 0 else Matches(a, b, n - 1) + if Agree(a[n - 1], b[n - 1]) then 1 else 0
  }

  /** The fraction of agreeing positions; zero for token lists of different length. */
  function Similarity(a: seq<string>, b: seq<string>): real {
    if |a| != |b| || |a| == 0 then 0.0 else Matches(a, b, |a|) as real / |a| as real
  }

  lemma PositiveProduct(x: real, y: real)
    requires x > 0.0 && y > 0.0
    ensures x * y > 0.0
  {
  }

  /** Multiplying by a positive number keeps a factor on its side of zero and of one. */
  lemma Scale(q: real, y: real)
    requires y > 0.0
    ensures q < 0.0 ==> q * y < 0.0
    ensures q > 1.0 ==> q * y > y
    ensures q == 1.0 ==> q * y == y
  {
    if q < 0.0 {
      PositiveProduct(-q, y);
      assert (-q) * y == -(q * y);
    }
    if q > 1.0 {
      PositiveProduct(q - 1.0, y);
      assert (q - 1.0) * y == q * y - y;
    }
  }

  /** A proper fraction lies in the unit interval and is one only when whole. */
  lemma FractionRange(m: nat, n: nat)
    requires m <= n && n != 0
    ensures 0.0 <= m as real / n as real <= 1.0
    ensures m as real / n as real == 1.0 <==> m == n
  {
    var x, y := m as real, n as real;
    assert x / y * y == x;
    Scale(x / y, y);
  }

  /** Similarity lies in the unit interval and is full exactly for compatible, non-empty lists. */
  lemma SimilarityRange(a: seq<string>, b: seq<string>)
    ensures 0.0 <= Similarity(a, b) <= 1.0
    ensures Similarity(a, b) == 1.0 <==> |a| != 0 && Compatible(a, b)
    ensures |a| != |b| ==> Similarity(a, b) == 0.0
  {
    if |a| == |b| && |a| != 0 {
      FractionRange(Matches(a, b, |a|), |a|);
    }
  }

  /** The positions among the first n on which the lists agree, a wildcard on either side agreeing. */
  ghost function Agreements(a: seq<string>, b: seq<string>, n: nat): set<nat>
    requires n <= |a| == |b|
  {
    set i: nat | i < n && (a[i] == b[i] || a[i] == WILDCARD || b[i] == WILDCARD)
  }

  lemma {:induction false} MatchesCountAgreements(a: seq<string>, b: seq<string>, n: nat)
    requires n <= |a| == |b|
    ensures Matches(a, b, n) == |Agreements(a, b, n)|
  {
    if n == 0 {
      assert Agreements(a, b, 0) == {};
    } else {
      MatchesCountAgreements(a, b, n - 1);
      var k: nat := n - 1;
      assert Agreements(a, b, n) == Agreements(a, b, k) + if Agree(a[k], b[k]) then {k} else {};
    }
  }

  /** Similarity times the length is the number of agreeing positions, wherever in the lists they lie. */
  lemma SimilarityCountsAgreements(a: seq<string>, b: seq<string>)
    requires |a| == |b| && |a| != 0
    ensures Similarity(a, b) * |a| as real
         == |set i: nat | i < |a| && (a[i] == b[i] || a[i] == WILDCARD || b[i] == WILDCARD)| as real
  {
    MatchesCountAgreements(a, b, |a|);
    assert Agreements(a, b, |a|) == set i: nat | i < |a| && (a[i] == b[i] || a[i] == WILDCARD || b[i] == WILDCARD);
    var m, n := Matches(a, b, |a|) as real, |a| as real;
    assert m / n * n == m;
  }

  method ComputeSimilarity(a: seq<string>, b: seq<string>) returns (r: real)
    ensures r == Similarity(a, b)
    ensures |a| == |b| && |a| != 0 ==>
      r * |a| as real == |set i: nat | i < |a| && (a[i] == b[i] || a[i] == WILDCARD || b[i] == WILDCARD)| as real
  {
    if |a| != |b| || |a| == 0 {
      return 0.0;
    }
    var matches := 0;
    for i := 0 to |a|
      invariant matches == Matches(a, b, i)
    {
      if a[i] == b[i] || a[i] == WILDCARD || b[i] == WILDCARD {
        matches := matches + 1;
      }
    }
    SimilarityCountsAgreements(a, b);
    return matches as real / |a| as real;
  }

  /** A template's tokens widened against a message's: each conflicting position becomes the wildcard. */
  function MergeTokens(template: seq<string>, tokens: seq<string>): (r: seq<string>)
    ensures |r| == |template|
    ensures |template| != |tokens| ==> r == template
  {
    if |template| != |tokens| then
      template
    else
      seq(|template|, i requires 0 <= i < |template| =>
        if template[i] == tokens[i] || tokens[i] == WILDCARD then template[i] else WILDCARD)
  }

  method ComputeMerge(template: seq<string>, tokens: seq<string>) returns (r: seq<string>)
    ensures r == MergeTokens(template, tokens)
  {
    if |template| != |tokens| {
      return template;
    }
    r := [];
    for i := 0 to |template|
      invariant r == MergeTokens(template, tokens)[..i]
    {
      if template[i] == tokens[i] || tokens[i] == WILDCARD {
        r := r + [template[i]];
      } else {
        r := r + [WILDCARD];
      }
    }
  }

  /**
    A merge changes nothing exactly when the message was compatible; and every pattern that a merge
    could reproduce was itself compatible with the message.
   */
  lemma MergeFixpoint(a: seq<string>, t: seq<string>)
    requires |a| == |t|
    ensures MergeTokens(a, t) == a <==> Compatible(a, t)
    ensures Compatible(MergeTokens(a, t), t)
  {
    var m := MergeTokens(a, t);
    if Compatible(a, t) {
      assert forall i | 0 <= i < |a| :: m[i] == a[i];
    }
    if m == a {
      assert forall i | 0 <= i < |a| :: Agree(m[i], t[i]);
    }
  }

  /** How many positions are still literal. */
  function Literals(ts: seq<string>): (n: nat)
    ensures n <= |ts|
  {
    if |ts| == 0 then 0 else Literals(ts[..|ts| - 1]) + if ts[|ts| - 1] == WILDCARD then 0 else 1
  }

  lemma MergeSnoc(a: seq<string>, t: seq<string>)
    requires |a| == |t| && |a| != 0
    ensures var n := |a| - 1;
      MergeTokens(a, t) == MergeTokens(a[..n], t[..n]) + [if a[n] == t[n] || t[n] == WILDCARD then a[n] else WILDCARD]
  {
  }

  lemma LiteralsSnoc(ts: seq<string>, x: string)
    ensures Literals(ts + [x]) == Literals(ts) + if x == WILDCARD then 0 else 1
  {
    assert (ts + [x])[..|ts|] == ts;
  }

  /** A merge that changes a pattern loses at least one literal, and none is ever gained. */
  lemma {:induction false} MergeLosesLiterals(a: seq<string>, t: seq<string>)
    ensures Literals(MergeTokens(a, t)) <= Literals(a)
    ensures MergeTokens(a, t) != a ==> Literals(MergeTokens(a, t)) < Literals(a)
  {
    if |a| == |t| && |a| != 0 {
      var n := |a| - 1;
      var x := if a[n] == t[n] || t[n] == WILDCARD then a[n] else WILDCARD;
      MergeSnoc(a, t);
      assert a == a[..n] + [a[n]];
      MergeLosesLiterals(a[..n], t[..n]);
      LiteralsSnoc(MergeTokens(a[..n], t[..n]), x);
      LiteralsSnoc(a[..n], a[n]);
    }
  }

  /** The message's tokens at the template's wildcard positions; empty stands for Go's nil. */
  function ExtractVars(template: seq<string>, msg: seq<string>): seq<string> {
    if |template| != |msg| then [] else VarsUpTo(template, msg, |template|)
  }

  function VarsUpTo(template: seq<string>, msg: seq<string>, n: nat): seq<string>
    requires n <= |template| == |msg|
  {
    if n == 0 then
      []
    else
      VarsUpTo(template, msg, n - 1)
      + (if template[n - 1] == WILDCARD && msg[n - 1] != WILDCARD then [msg[n - 1]] else [])
  }

  method ComputeVars(template: seq<string>, msg: seq<string>) returns (vars: seq<string>)
    ensures vars == ExtractVars(template, msg)
  {
    vars := [];
    if |template| != |msg| {
      return;
    }
    for i := 0 to |template|
      invariant vars == VarsUpTo(template, msg, i)
    {
      if template[i] == WILDCARD && msg[i] != WILDCARD {
        vars := vars + [msg[i]];
      }
    }
  }

  /** A template with its wildcards replaced, in order, by the values. */
  function Fill(template: seq<string>, vars: seq<string>): seq<string> {
    if |template| == 0 then []
    else
      var front, last := template[..|template| - 1], template[|template| - 1];
      if last == WILDCARD && |vars| != 0 then Fill(front, vars[..|vars| - 1]) + [vars[|vars| - 1]]
        else Fill(front, vars) + [last]
  }

  lemma {:induction false} VarsOfPrefix(template: seq<string>, msg: seq<string>, n: nat)
    requires n <= |template| == |msg|
    ensures VarsUpTo(template, msg, n) == VarsUpTo(template[..n], msg[..n], n)
    decreases n
  {
    if n != 0 {
      VarsOfPrefix(template, msg, n - 1);
      VarsOfPrefix(template[..n], msg[..n], n - 1);
      assert template[..n][..n - 1] == template[..n - 1] && msg[..n][..n - 1] == msg[..n - 1];
    }
  }

  lemma VarsSnoc(template: seq<string>, msg: seq<string>)
    requires |template| == |msg| && |template| != 0
    ensures var n := |template| - 1;
      ExtractVars(template, msg) == ExtractVars(template[..n], msg[..n])
        + if template[n] == WILDCARD && msg[n] != WILDCARD then [msg[n]] else []
  {
    VarsOfPrefix(template, msg, |template| - 1);
  }

  /** The captured variables are what the template lost: put back in its wildcards, they give the message. */
  lemma {:induction false} VariablesRestoreMessage(template: seq<string>, msg: seq<string>)
    requires |template| == |msg|
    requires forall i | 0 <= i < |msg| :: msg[i] != WILDCARD && (template[i] == msg[i] || template[i] == WILDCARD)
    ensures Fill(template, ExtractVars(template, msg)) == msg
    decreases |template|
  {
    if |template| != 0 {
      var n := |template| - 1;
      var before := ExtractVars(template[..n], msg[..n]);
      VariablesRestoreMessage(template[..n], msg[..n]);
      VarsSnoc(template, msg);
      assert (before + [msg[n]])[..|before|] == before && before + [] == before;
      assert msg == msg[..n] + [msg[n]];
    }
  }
}
