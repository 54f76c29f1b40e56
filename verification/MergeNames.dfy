/** What the consolidators recognise, and what the templates they merge are called and show. */
module MergeNames {

  import opened Counting
  import opened Strings
  import opened Model
  import opened Sorting
  import opened Consolidation
  import opened ConsolidationTheorems

  // ---- the texts of a group ----------------------------------------------

  /** Each template's text: its first example row, joined, when it has one, else its pattern. */
  predicate AreTexts(group: seq<Template>, texts: seq<string>) {
    |texts| == |group| && forall i | 0 <= i < |group| ::
      texts[i] == if |group[i].exampleVars| > 0 then Join(group[i].exampleVars[0]) else group[i].pattern
  }

  /** Some stretch of the text reads so. */
  ghost predicate Reads(text: string, word: string) {
    exists i, j :: 0 <= i <= j <= |text| && text[i..j] == word
  }

  /** h is the first text that names a traceback. */
  ghost predicate FirstHeader(texts: seq<string>, h: int) {
    0 <= h < |texts| && Reads(texts[h], "Traceback") && forall i | 0 <= i < h :: !Reads(texts[i], "Traceback")
  }

  predicate Raises(rules: Rules, text: string) {
    text != "" && rules.pythonException(text)
  }

  /** k is the first text that names an exception class. */
  predicate FirstException(rules: Rules, texts: seq<string>, k: int) {
    0 <= k < |texts| && Raises(rules, texts[k]) && forall i | 0 <= i < k :: !Raises(rules, texts[i])
  }

  ghost predicate NoHeader(texts: seq<string>) {
    forall i | 0 <= i < |texts| :: !Reads(texts[i], "Traceback")
  }

  predicate NoException(rules: Rules, texts: seq<string>) {
    forall i | 0 <= i < |texts| :: !Raises(rules, texts[i])
  }

  lemma ReadsIsContains(text: string, word: string)
    ensures Contains(text, word) <==> Reads(text, word)
  {
    if Contains(text, word) {
      var i :| 0 <= i <= |text| && word <= text[i..];
      assert text[i..i + |word|] == word;
    }
    if Reads(text, word) {
      var i, j :| 0 <= i <= j <= |text| && text[i..j] == word;
      assert word <= text[i..];
    }
  }

  // ---- Python ------------------------------------------------------------

  lemma NoteReads(rules: Rules, t: Template, text: string, was: (string, string))
    requires AreTexts([t], [text])
    ensures NoteEvidence(rules, t, was).0 == if was.0 == "" && Reads(text, "Traceback") then text else was.0
    ensures NoteEvidence(rules, t, was).1 == if was.1 == "" && Raises(rules, text) then text else was.1
  {
    assert [text][0] == if |[t][0].exampleVars| > 0 then Join([t][0].exampleVars[0]) else [t][0].pattern;
    ReadsIsContains(text, "Traceback");
  }

  lemma TracebackIsSaid(text: string)
    requires Reads(text, "Traceback")
    ensures text != ""
  {
    var i, j :| 0 <= i <= j <= |text| && text[i..j] == "Traceback";
    assert |text[i..j]| == 9;
  }

  /** h is the first marked position below n. */
  predicate IsFirst(marks: seq<bool>, n: nat, h: int)
    requires n <= |marks|
  {
    0 <= h < n && marks[h] && forall i | 0 <= i < h :: !marks[i]
  }

  /** What was found is the text at the first mark below n; empty for none. */
  ghost predicate FoundAt(texts: seq<string>, marks: seq<bool>, n: nat, found: string)
    requires n <= |marks| == |texts|
  {
    && (forall h | IsFirst(marks, n, h) :: found == texts[h])
    && (found == "" <==> forall i | 0 <= i < n :: !marks[i])
  }

  lemma FoundNext(texts: seq<string>, marks: seq<bool>, n: nat, was: string, now: string)
    requires n < |marks| == |texts| && (marks[n] ==> texts[n] != "") && FoundAt(texts, marks, n, was)
    requires now == if was == "" && marks[n] then texts[n] else was
    ensures FoundAt(texts, marks, n + 1, now)
  {
    assert forall h | 0 <= h < n :: IsFirst(marks, n + 1, h) <==> IsFirst(marks, n, h);
  }

  /** The marks at i say whether the i-th template's text names a traceback, and whether an exception class. */
  ghost predicate MarkedAt(rules: Rules, group: seq<Template>, texts: seq<string>, heads: seq<bool>,
      raises: seq<bool>, i: int)
    requires |heads| == |raises| == |texts| == |group|
  {
    0 <= i < |group| ==>
      AreTexts([group[i]], [texts[i]])
      && heads[i] == Reads(texts[i], "Traceback") && raises[i] == Raises(rules, texts[i])
  }

  lemma EvidenceNext(rules: Rules, group: seq<Template>, texts: seq<string>, heads: seq<bool>, raises: seq<bool>,
        n: nat, was: (string, string))
    requires n < |heads| == |raises| == |texts| == |group| && MarkedAt(rules, group, texts, heads, raises, n)
    ensures heads[n] || raises[n] ==> texts[n] != ""
    ensures NoteEvidence(rules, group[n], was).0 == if was.0 == "" && heads[n] then texts[n] else was.0
    ensures NoteEvidence(rules, group[n], was).1 == if was.1 == "" && raises[n] then texts[n] else was.1
  {
    NoteReads(rules, group[n], texts[n], was);
    if heads[n] {
      TracebackIsSaid(texts[n]);
    }
  }

  lemma {:induction false} EvidenceIsFirst(rules: Rules, group: seq<Template>, texts: seq<string>, heads: seq<bool>,
        raises: seq<bool>, n: nat)
    requires n <= |heads| == |raises| == |texts| == |group|
    requires forall i :: MarkedAt(rules, group, texts, heads, raises, i)
    ensures FoundAt(texts, heads, n, Evidence(rules, group, n).0)
    ensures FoundAt(texts, raises, n, Evidence(rules, group, n).1)
  {
    if n != 0 {
      var was, now := Evidence(rules, group, n - 1), Evidence(rules, group, n);
      EvidenceIsFirst(rules, group, texts, heads, raises, n - 1);
      EvidenceNext(rules, group, texts, heads, raises, n - 1, was);
      FoundNext(texts, heads, n - 1, was.0, now.0);
      FoundNext(texts, raises, n - 1, was.1, now.1);
    }
  }

  lemma HeadersAreMarked(texts: seq<string>, heads: seq<bool>, found: string)
    requires |heads| == |texts| && forall i | 0 <= i < |texts| :: heads[i] == Reads(texts[i], "Traceback")
    requires FoundAt(texts, heads, |texts|, found)
    ensures forall h | FirstHeader(texts, h) :: found == texts[h] != ""
    ensures found == "" <==> NoHeader(texts)
  {
    forall h | FirstHeader(texts, h) ensures found == texts[h] != "" {
      assert IsFirst(heads, |texts|, h);
      TracebackIsSaid(texts[h]);
    }
  }

  lemma ExceptionsAreMarked(rules: Rules, texts: seq<string>, raises: seq<bool>, found: string)
    requires |raises| == |texts| && forall i | 0 <= i < |texts| :: raises[i] == Raises(rules, texts[i])
    requires FoundAt(texts, raises, |texts|, found)
    ensures forall k | FirstException(rules, texts, k) :: found == texts[k] != ""
    ensures found == "" <==> NoException(rules, texts)
  {
    forall k | FirstException(rules, texts, k) ensures found == texts[k] != "" {
      assert IsFirst(raises, |texts|, k);
    }
  }

  /** What a whole group's evidence is. */
  lemma EvidenceIs(rules: Rules, group: seq<Template>, texts: seq<string>, evidence: (string, string))
    requires AreTexts(group, texts) && evidence == Evidence(rules, group, |group|)
    ensures forall h | FirstHeader(texts, h) :: evidence.0 == texts[h] != ""
    ensures forall k | FirstException(rules, texts, k) :: evidence.1 == texts[k] != ""
    ensures evidence.0 == "" <==> NoHeader(texts)
    ensures evidence.1 == "" <==> NoException(rules, texts)
  {
    var heads := seq(|texts|, i requires 0 <= i < |texts| => Reads(texts[i], "Traceback"));
    var raises := seq(|texts|, i requires 0 <= i < |texts| => Raises(rules, texts[i]));
    EvidenceIsFirst(rules, group, texts, heads, raises, |group|);
    HeadersAreMarked(texts, heads, evidence.0);
    ExceptionsAreMarked(rules, texts, raises, evidence.1);
  }

  /**
    A Python merge is named after the first text that names a traceback, cut beyond 120 characters; without one,
    after the first that names an exception class; and without either by a bare label.
   */
  lemma PythonMergeIsNamed(rules: Rules, group: seq<Template>, texts: seq<string>)
    requires |group| != 0 && AreTexts(group, texts)
    ensures forall h | FirstHeader(texts, h) ::
      Merge(rules, PythonTraceback, group).pattern
      == "Python exception: " + if |texts[h]| <= 120 then texts[h] else texts[h][..117] + "..."
    ensures NoHeader(texts) ==> forall k | FirstException(rules, texts, k) ::
      Merge(rules, PythonTraceback, group).pattern == "Python exception: " + texts[k]
    ensures NoHeader(texts) && NoException(rules, texts) ==>
      Merge(rules, PythonTraceback, group).pattern == "Python traceback"
  {
    EvidenceIs(rules, group, texts, Evidence(rules, group, |group|));
  }

  /**
    What it shows: the header it found, then the exception unless that is the header; failing both, its first
    template's first row.
   */
  lemma PythonMergeShows(rules: Rules, group: seq<Template>, texts: seq<string>)
    requires |group| != 0 && AreTexts(group, texts)
    ensures var shown := Merge(rules, PythonTraceback, group).exampleVars;
      && (forall h, k | FirstHeader(texts, h) && FirstException(rules, texts, k) ::
            shown == if texts[h] == texts[k] then [[texts[h]]] else [[texts[h]], [texts[k]]])
      && (forall h | FirstHeader(texts, h) && NoException(rules, texts) :: shown == [[texts[h]]])
      && (forall k | NoHeader(texts) && FirstException(rules, texts, k) :: shown == [[texts[k]]])
      && (NoHeader(texts) && NoException(rules, texts) ==>
            shown == if group[0].exampleVars == [] then [] else [group[0].exampleVars[0]])
  {
    EvidenceIs(rules, group, texts, Evidence(rules, group, |group|));
  }

  // ---- Go ----------------------------------------------------------------

  /** The first n positions whose pattern is an example line. */
  ghost function Marks(rules: Rules, group: seq<Template>, n: nat): set<int>
    requires n <= |group|
  {
    set i | 0 <= i < n && rules.goExampleLine(group[i].pattern)
  }

  lemma MarksAreCounted(rules: Rules, group: seq<Template>, n: nat) returns (marks: seq<bool>)
    requires n <= |group|
    ensures |marks| == |group| && forall i | 0 <= i < |group| :: marks[i] == rules.goExampleLine(group[i].pattern)
    ensures forall k: nat | k <= n :: Marks(rules, group, k) == Where(marks, k)
  {
    marks := seq(|group|, i requires 0 <= i < |group| => rules.goExampleLine(group[i].pattern));
  }

  lemma MarksNext(rules: Rules, group: seq<Template>, n: nat)
    requires n < |group|
    ensures |Marks(rules, group, n + 1)|
      == |Marks(rules, group, n)| + if rules.goExampleLine(group[n].pattern) then 1 else 0
  {
    var marks := MarksAreCounted(rules, group, n + 1);
    WhereNext(marks, n);
  }

  /** The rows are the texts of the first three marked members of n, in order. */
  ghost predicate ShowsMarks(rules: Rules, group: seq<Template>, texts: seq<string>, n: nat, rows: seq<seq<string>>)
    requires n <= |group| == |texts|
  {
    && |rows| == (if |Marks(rules, group, n)| < 3 then |Marks(rules, group, n)| else 3)
    && forall i | 0 <= i < n && rules.goExampleLine(group[i].pattern) && |Marks(rules, group, i)| < |rows| ::
         rows[|Marks(rules, group, i)|] == [texts[i]]
  }

  lemma MarksGrow(rules: Rules, group: seq<Template>, i: nat, n: nat)
    requires i < n <= |group| && rules.goExampleLine(group[i].pattern)
    ensures |Marks(rules, group, i)| < |Marks(rules, group, n)|
  {
    var marks := MarksAreCounted(rules, group, n);
    WhereGrows(marks, i, n);
  }

  lemma ShowsNext(rules: Rules, group: seq<Template>, texts: seq<string>, n: nat, rows: seq<seq<string>>,
      next: seq<seq<string>>)
    requires n < |group| == |texts|
    requires ShowsMarks(rules, group, texts, n, rows)
    requires next
      == if |rows| >= 3 || !rules.goExampleLine(group[n].pattern) then rows else rows + [[texts[n]]]
    ensures ShowsMarks(rules, group, texts, n + 1, next)
  {
    MarksNext(rules, group, n);
    forall i: nat | i < n && rules.goExampleLine(group[i].pattern)
      ensures |Marks(rules, group, i)| < |Marks(rules, group, n)|
    {
      MarksGrow(rules, group, i, n);
    }
  }

  lemma CollectsText(rules: Rules, m: Template, t: Template, text: string)
    requires AreTexts([t], [text])
    ensures CollectGoExample(rules, AbsorbInto(m, t), t).pattern == m.pattern
    ensures CollectGoExample(rules, AbsorbInto(m, t), t).exampleVars
      == if |m.exampleVars| >= 3 || !rules.goExampleLine(t.pattern) then m.exampleVars else m.exampleVars + [[text]]
  {
    assert [text][0] == if |[t][0].exampleVars| > 0 then Join([t][0].exampleVars[0]) else [t][0].pattern;
  }

  lemma {:induction false} GoRowsUpTo(rules: Rules, group: seq<Template>, texts: seq<string>, n: nat)
    requires |group| != 0 && n <= |group| && AreTexts(group, texts)
    ensures MergedUpTo(rules, GoStack, group, n).pattern == "Go runtime crash (goroutine dump)"
    ensures ShowsMarks(rules, group, texts, n, MergedUpTo(rules, GoStack, group, n).exampleVars)
  {
    if n == 0 {
      assert Marks(rules, group, n) == {};
    } else {
      GoRowsUpTo(rules, group, texts, n - 1);
      var m, t := MergedUpTo(rules, GoStack, group, n - 1), group[n - 1];
      CollectsText(rules, m, t, texts[n - 1]);
      ShowsNext(rules, group, texts, n - 1, m.exampleVars, MergedUpTo(rules, GoStack, group, n).exampleVars);
    }
  }

  /**
    Every Go merge has the one name, and shows the texts of its first three members whose pattern is an example
    line, in order; without such a member, its first template's first row, or its pattern.
   */
  lemma GoMergeShows(rules: Rules, group: seq<Template>, texts: seq<string>)
    requires |group| != 0 && AreTexts(group, texts)
    ensures Merge(rules, GoStack, group).pattern == "Go runtime crash (goroutine dump)"
    ensures Marks(rules, group, |group|) != {} ==>
      ShowsMarks(rules, group, texts, |group|, Merge(rules, GoStack, group).exampleVars)
    ensures Marks(rules, group, |group|) == {} ==>
      Merge(rules, GoStack, group).exampleVars
      == [if group[0].exampleVars == [] then [group[0].pattern] else group[0].exampleVars[0]]
  {
    GoRowsUpTo(rules, group, texts, |group|);
  }

  // ---- recognition -------------------------------------------------------

  /** Nothing but i white spaces, then the word. */
  predicate LeadsAt(text: string, word: string, i: int) {
    0 <= i <= |text| && (forall k | 0 <= k < i :: IsSpace(text[k])) && word <= text[i..]
  }

  ghost predicate Leads(text: string, word: string) {
    exists i :: LeadsAt(text, word, i)
  }

  lemma {:induction false} TrimRightKeeps(s: string, word: string)
    requires word != "" && !IsSpace(word[|word| - 1])
    ensures word <= TrimRight(s) <==> word <= s
  {
    if s != "" && IsSpace(s[|s| - 1]) {
      TrimRightKeeps(s[..|s| - 1], word);
      if word <= s {
        assert s[|word| - 1] == word[|word| - 1];
      }
    }
  }

  lemma LeadsLater(s: string, word: string, i: int)
    requires s != "" && IsSpace(s[0])
    ensures LeadsAt(s[1..], word, i - 1) <==> i != 0 && LeadsAt(s, word, i)
  {
    if 1 <= i <= |s| {
      assert s[1..][i - 1..] == s[i..];
      assert forall k | 0 <= k < i - 1 :: s[1..][k] == s[k + 1];
      assert forall k | 1 <= k < i :: s[k] == s[1..][k - 1];
    }
  }

  lemma {:induction false} TrimLeftLeads(s: string, word: string)
    requires word != "" && !IsSpace(word[0])
    ensures word <= TrimLeft(s) <==> Leads(s, word)
  {
    assert s[0..] == s;
    if s != "" && IsSpace(s[0]) {
      TrimLeftLeads(s[1..], word);
      if Leads(s[1..], word) {
        var i :| LeadsAt(s[1..], word, i);
        LeadsLater(s, word, i + 1);
      }
      if Leads(s, word) {
        var i :| LeadsAt(s, word, i);
        LeadsLater(s, word, i);
      }
    } else {
      assert LeadsAt(s, word, 0) <==> word <= s;
    }
  }

  /** One of a template's lines, its pattern or a joined row, is one the recogniser accepts. */
  ghost predicate Says(t: Template, line: string -> bool) {
    exists text :: line(text) && (text == t.pattern || exists row | row in t.exampleVars :: text == Join(row))
  }

  lemma SaysIsMatching(t: Template, line: string -> bool)
    ensures LineMatches(t, line) <==> Says(t, line)
  {
  }

  /**
    A Go fragment says a Go line. A Python header's text begins, white space aside, with the traceback line;
    a Python fragment says a Python line without being a header; everything else is left alone.
   */
  lemma RolesAreRecognised(rules: Rules, t: Template, text: string)
    requires AreTexts([t], [text])
    ensures RoleOf(rules, GoStack, t) == if Says(t, rules.goLine) then Fragment else Normal
    ensures RoleOf(rules, PythonTraceback, t)
      == if Leads(text, "Traceback (most recent call last)") then Header
      else if Says(t, rules.pythonLine) then Fragment
      else Normal
  {
    assert [text][0] == if |[t][0].exampleVars| > 0 then Join([t][0].exampleVars[0]) else [t][0].pattern;
    SaysIsMatching(t, rules.goLine);
    SaysIsMatching(t, rules.pythonLine);
    TrimRightKeeps(TrimLeft(text), PYTHON_HEADER);
    TrimLeftLeads(text, PYTHON_HEADER);
  }

  // ---- severity ----------------------------------------------------------

  lemma AbsorbedSeverity(m: Template, t: Template)
    requires m.severity in {"ERROR", "CRITICAL"}
    ensures AbsorbInto(m, t).severity == if t.severity == "CRITICAL" then "CRITICAL" else m.severity
  {
  }

  ghost predicate SomeIsCritical(group: seq<Template>, n: nat)
    requires n <= |group|
  {
    exists i :: 0 <= i < n && group[i].severity == "CRITICAL"
  }

  lemma SomeIsCriticalNext(group: seq<Template>, n: nat)
    requires n < |group|
    ensures SomeIsCritical(group, n + 1) <==> SomeIsCritical(group, n) || group[n].severity == "CRITICAL"
  {
  }

  lemma {:induction false} SeverityUpTo(rules: Rules, family: Family, group: seq<Template>, n: nat)
    requires 0 < |group| && n <= |group|
    ensures MergedUpTo(rules, family, group, n).severity
      == if family.GoStack? || SomeIsCritical(group, n) then "CRITICAL" else "ERROR"
  {
    if n != 0 {
      SeverityUpTo(rules, family, group, n - 1);
      SomeIsCriticalNext(group, n - 1);
      AbsorbedSeverity(MergedUpTo(rules, family, group, n - 1), group[n - 1]);
    }
  }

  /** A Go merge is CRITICAL; a Python merge is ERROR unless a member is CRITICAL. */
  lemma MergesAreSevere(rules: Rules, group: seq<Template>)
    requires 0 < |group|
    ensures Merge(rules, GoStack, group).severity == "CRITICAL"
    ensures Merge(rules, PythonTraceback, group).severity
      == if exists i :: 0 <= i < |group| && group[i].severity == "CRITICAL" then "CRITICAL" else "ERROR"
  {
    SeverityUpTo(rules, GoStack, group, |group|);
    SeverityUpTo(rules, PythonTraceback, group, |group|);
  }

  // ---- which groups merge ------------------------------------------------

  /** Which of the first n templates play the role. */
  ghost function Playing(rules: Rules, family: Family, ts: seq<Template>, role: Role, n: nat): set<int>
    requires n <= |ts|
  {
    set i | 0 <= i < n && RoleOf(rules, family, ts[i]) == role
  }

  lemma {:induction false} SelectCounts(rules: Rules, family: Family, ts: seq<Template>, role: Role, n: nat)
    requires n <= |ts|
    ensures |Select(rules, family, ts[..n], role)| == |Playing(rules, family, ts, role, n)|
  {
    if n == 0 {
      assert Playing(rules, family, ts, role, n) == {};
    } else {
      SelectCounts(rules, family, ts, role, n - 1);
      assert ts[..n][..n - 1] == ts[..n - 1] && ts[..n][n - 1] == ts[n - 1];
      PlayingNext(rules, family, ts, role, n - 1);
    }
  }

  lemma PlayingIsCounted(rules: Rules, family: Family, ts: seq<Template>, role: Role, n: nat)
    returns (marks: seq<bool>)
    requires n <= |ts|
    ensures |marks| == |ts| && forall i | 0 <= i < |ts| :: marks[i] == (RoleOf(rules, family, ts[i]) == role)
    ensures forall k: nat | k <= n :: Playing(rules, family, ts, role, k) == Where(marks, k)
  {
    marks := seq(|ts|, i requires 0 <= i < |ts| => RoleOf(rules, family, ts[i]) == role);
  }

  lemma PlayingNext(rules: Rules, family: Family, ts: seq<Template>, role: Role, n: nat)
    requires n < |ts|
    ensures |Playing(rules, family, ts, role, n + 1)|
      == |Playing(rules, family, ts, role, n)| + if RoleOf(rules, family, ts[n]) == role then 1 else 0
  {
    var marks := PlayingIsCounted(rules, family, ts, role, n + 1);
    WhereNext(marks, n);
  }

  /** What a merged group leaves: its merge's id, and the ids of its members. */
  ghost predicate Absorbs(rules: Rules, family: Family, groups: seq<seq<Template>>, a: Absorption) {
    exists g :: g in groups && |g| >= 3 && a == Absorption(Merge(rules, family, g).id, IdsOf(g))
  }

  lemma AbsorbsNext(rules: Rules, family: Family, front: seq<seq<Template>>, last: seq<Template>, a: Absorption)
    ensures Absorbs(rules, family, front + [last], a)
      <==> Absorbs(rules, family, front, a)
           || (|last| >= 3 && a == Absorption(Merge(rules, family, last).id, IdsOf(last)))
  {
    assert forall g :: g in front + [last] <==> g in front || g == last;
  }

  lemma MergeGroupsNext(rules: Rules, family: Family, normal: seq<Template>, front: seq<seq<Template>>,
        last: seq<Template>)
    requires |last| != 0 && forall i | 0 <= i < |front| :: |front[i]| != 0
    ensures MergeGroups(rules, family, normal, front + [last]).absorptions
      == MergeGroups(rules, family, normal, front).absorptions
        + if |last| >= 3 then [Absorption(Merge(rules, family, last).id, IdsOf(last))] else []
  {
    assert (front + [last])[..|front|] == front;
  }

  lemma MergedGroupAbsorbs(rules: Rules, family: Family, normal: seq<Template>, front: seq<seq<Template>>,
        last: seq<Template>, a: Absorption)
    requires |last| != 0 && forall i | 0 <= i < |front| :: |front[i]| != 0
    requires a in MergeGroups(rules, family, normal, front).absorptions <==> Absorbs(rules, family, front, a)
    ensures a in MergeGroups(rules, family, normal, front + [last]).absorptions
      <==> Absorbs(rules, family, front + [last], a)
  {
    var was := MergeGroups(rules, family, normal, front).absorptions;
    var more := if |last| >= 3 then [Absorption(Merge(rules, family, last).id, IdsOf(last))] else [];
    MergeGroupsNext(rules, family, normal, front, last);
    AbsorbsNext(rules, family, front, last, a);
    InAppended(was, more, a);
  }

  lemma InAppended(was: seq<Absorption>, more: seq<Absorption>, a: Absorption)
    ensures a in was + more <==> a in was || a in more
  {
  }

  lemma {:induction false} MergedGroupsAbsorb(rules: Rules, family: Family, normal: seq<Template>,
        groups: seq<seq<Template>>, a: Absorption)
    requires forall i | 0 <= i < |groups| :: |groups[i]| != 0
    ensures a in MergeGroups(rules, family, normal, groups).absorptions <==> Absorbs(rules, family, groups, a)
    decreases |groups|
  {
    if |groups| != 0 {
      var front, last := groups[..|groups| - 1], groups[|groups| - 1];
      assert groups == front + [last];
      MergedGroupsAbsorb(rules, family, normal, front, a);
      MergedGroupAbsorbs(rules, family, normal, front, last, a);
    }
  }

  /**
    A consolidator leaves the templates as they are when it finds no header and fewer than three fragments.
    Otherwise it merges exactly the bursts of three or more.
   */
  lemma BurstsOfThreeMerge(rules: Rules, family: Family, ts: seq<Template>, a: Absorption)
    ensures var fragments := Playing(rules, family, ts, Fragment, |ts|);
      var headers := Playing(rules, family, ts, Header, |ts|);
      if |fragments| < 3 && headers == {} then Consolidate(rules, family, ts) == Outcome(ts, [])
      else
        a in Consolidate(rules, family, ts).absorptions <==> Absorbs(rules, family, Groups(rules, family, ts), a)
  {
    SelectCounts(rules, family, ts, Fragment, |ts|);
    SelectCounts(rules, family, ts, Header, |ts|);
    assert ts[..|ts|] == ts;
    NoneIsEmpty(Playing(rules, family, ts, Header, |ts|));
    MergedGroupsAbsorb(rules, family, Select(rules, family, ts, Normal), Groups(rules, family, ts), a);
  }

  lemma NoneIsEmpty(s: set<int>)
    ensures |s| == 0 <==> s == {}
  {
  }

  /**
    The bursts are the candidates by the end of their range, headers first among equals, cut wherever one starts
    more than thirty seconds, for Python five, after its predecessor's end.
   */
  lemma GroupsAreBursts(rules: Rules, family: Family, ts: seq<Template>)
    ensures MaximalRuns(Groups(rules, family, ts), if family.GoStack? then 30_000_000_000 else 5_000_000_000)
    ensures var candidates := Select(rules, family, ts, Header) + Select(rules, family, ts, Fragment);
      StablySorted(candidates, Flatten(Groups(rules, family, ts)), (t: Template) => t.lastSeen)
  {
    var candidates := Candidates(rules, family, ts);
    var sorted, window := SortStable(candidates, LastSeenOf), Window(family);
    GroupsAreMaximalRuns(sorted, window);
    GroupsFlatten(sorted, window);
    SortStableCorrect(candidates, LastSeenOf);
    SameKey(candidates, sorted, LastSeenOf, (t: Template) => t.lastSeen);
  }

  lemma {:induction false} SameGroups(s: seq<Template>, f: Template -> int, g: Template -> int, k: int)
    requires forall t :: f(t) == g(t)
    ensures WithKey(s, f, k) == WithKey(s, g, k)
  {
    if |s| != 0 {
      SameGroups(s[..|s| - 1], f, g, k);
    }
  }

  lemma SameKey(s: seq<Template>, t: seq<Template>, f: Template -> int, g: Template -> int)
    requires StablySorted(s, t, f) && forall x :: f(x) == g(x)
    ensures StablySorted(s, t, g)
  {
    forall k ensures WithKey(t, g, k) == WithKey(s, g, k) {
      SameGroups(t, f, g, k);
      SameGroups(s, f, g, k);
    }
  }
}
