/** Lines of log whose templates form a ladder: six on which a collect miscounts, nine on which its runs differ. */
module MimicLines {

  import opened Wrappers
  import opened Strings
  import opened Model
  import opened Sorting
  import opened Tokens
  import opened Drain
  import opened DrainTheorems
  import opened Consolidation
  import opened ConsolidationTheorems
  import opened Bursts
  import opened Pipeline
  import opened Determinism
  import opened StaleMerge

  // ---- a cluster for every message ---------------------------------------

  /** Every message has a cluster of its own, in order. */
  ghost predicate OnePerMessage(rules: Rules, cs: seq<Cluster>, es: seq<LogEntry>) {
    |cs| == |es| && forall i | 0 <= i < |es| ::
      cs[i].tokens == Tokenize(rules, es[i]) && cs[i].template == NewTemplate(rules, Tokenize(rules, es[i]), es[i])
  }

  /** ... which it joined. */
  ghost predicate JoinedInOrder(joined: seq<Option<nat>>) {
    forall i | 0 <= i < |joined| :: joined[i] == Some(i)
  }

  /** No two messages have the same number of tokens, and none has none. */
  ghost predicate AllLengthsDiffer(rules: Rules, es: seq<LogEntry>) {
    && (forall i | 0 <= i < |es| :: Tokenize(rules, es[i]) != [])
    && forall i, j | 0 <= i < j < |es| :: |Tokenize(rules, es[i])| != |Tokenize(rules, es[j])|
  }

  lemma OneMoreCluster(cfg: DrainConfig, rules: Rules, st: State, es: seq<LogEntry>, e: LogEntry)
    requires Sane(cfg) && Shape(st) && OnePerMessage(rules, st.clusters, es) && |es| < cfg.maxClusters
    requires AllLengthsDiffer(rules, es + [e])
    ensures OnePerMessage(rules, Add(cfg, rules, st, e).0.clusters, es + [e])
    ensures Add(cfg, rules, st, e).1 == Some(|es|)
  {
    var tokens := Tokenize(rules, e);
    var all := es + [e];
    assert all[|es|] == e;
    var (grown, leaf) := Arrive(cfg, st, tokens);
    forall i | 0 <= i < |es| ensures Similarity(st.clusters[i].tokens, tokens) == 0.0 {
      assert all[i] == es[i];
    }
    NoMatchCreates(cfg, grown, leaf, tokens);
  }

  lemma JoinedNext(joined: seq<Option<nat>>, n: nat)
    requires JoinedInOrder(joined) && n == |joined|
    ensures JoinedInOrder(joined + [Some(n)])
  {
  }

  lemma {:induction false} ClustersOfTheirOwn(cfg: DrainConfig, rules: Rules, es: seq<LogEntry>)
    requires Sane(cfg) && |es| <= cfg.maxClusters && AllLengthsDiffer(rules, es)
    ensures OnePerMessage(rules, Run(cfg, rules, es).0.clusters, es) && JoinedInOrder(Run(cfg, rules, es).1)
    decreases |es|
  {
    if |es| != 0 {
      var front, e := es[..|es| - 1], es[|es| - 1];
      assert es == front + [e];
      ClustersOfTheirOwn(cfg, rules, front);
      var (was, joined) := Run(cfg, rules, front);
      OneMoreCluster(cfg, rules, was, front, e);
      JoinedNext(joined, |front|);
    }
  }

  function OwnTemplates(rules: Rules, es: seq<LogEntry>): (ts: seq<Template>)
    ensures |ts| == |es|
  {
    seq(|es|, i requires 0 <= i < |es| => NewTemplate(rules, Tokenize(rules, es[i]), es[i]))
  }

  lemma BeforeIsOwn(cfg: DrainConfig, rules: Rules, es: seq<LogEntry>)
    requires Sane(cfg) && |es| <= cfg.maxClusters && AllLengthsDiffer(rules, es)
    ensures Before(cfg, rules, es) == OwnTemplates(rules, es) && JoinedInOrder(Run(cfg, rules, es).1)
  {
    ClustersOfTheirOwn(cfg, rules, es);
  }

  lemma OwnIdsDiffer(rules: Rules, es: seq<LogEntry>)
    requires Injective(rules.templateHash) && AllLengthsDiffer(rules, es)
    ensures DistinctIds(OwnTemplates(rules, es))
  {
    var ts := OwnTemplates(rules, es);
    forall i, j | 0 <= i < j < |ts| ensures ts[i].id != ts[j].id {
      if ts[i].id == ts[j].id {
        JoinInjective(Tokenize(rules, es[i]), Tokenize(rules, es[j]));
      }
    }
  }

  // ---- three lines to a burst --------------------------------------------

  /** The k-th burst of three. */
  predicate AtOnce(es: seq<LogEntry>, k: nat)
    requires 3 * k + 2 < |es|
  {
    es[3 * k].timestamp == es[3 * k + 1].timestamp == es[3 * k + 2].timestamp
  }

  predicate LongBefore(es: seq<LogEntry>, k: nat, l: nat)
    requires 3 * k < |es| && 3 * l < |es|
  {
    es[3 * k].timestamp + Window(PythonTraceback) < es[3 * l].timestamp
  }

  /** Bursts of three at one instant each, more than the Python window apart. */
  predicate InBursts(es: seq<LogEntry>) {
    && |es| % 3 == 0 && es != []
    && (forall k | 0 <= k < |es| / 3 :: AtOnce(es, k))
    && forall k, l | 0 <= k < l < |es| / 3 :: LongBefore(es, k, l)
  }

  function Three(ts: seq<Template>, k: nat): seq<Template>
    requires 3 * k + 2 < |ts|
  {
    [ts[3 * k], ts[3 * k + 1], ts[3 * k + 2]]
  }

  function Threes(ts: seq<Template>): (groups: seq<seq<Template>>)
    requires |ts| % 3 == 0
    ensures |groups| == |ts| / 3
  {
    seq(|ts| / 3, k requires 0 <= k < |ts| / 3 => Three(ts, k))
  }

  lemma LastThree(ts: seq<Template>)
    requires |ts| % 3 == 0 && ts != []
    ensures var n := |ts| / 3 - 1;
      ts == ts[..3 * n] + Three(ts, n) && Threes(ts) == Threes(ts[..3 * n]) + [Three(ts, n)]
  {
    var n := |ts| / 3 - 1;
    assert |ts| == 3 * n + 3;
    forall k | 0 <= k < n ensures Threes(ts)[k] == Threes(ts[..3 * n])[k] {
      assert Three(ts, k) == Three(ts[..3 * n], k);
    }
  }

  lemma {:induction false} ThreesFlatten(ts: seq<Template>)
    requires |ts| % 3 == 0
    ensures Flatten(Threes(ts)) == ts
    decreases |ts|
  {
    if ts != [] {
      var n := |ts| / 3 - 1;
      LastThree(ts);
      ThreesFlatten(ts[..3 * n]);
      assert (Threes(ts[..3 * n]) + [Three(ts, n)])[..n] == Threes(ts[..3 * n]);
    }
  }

  /** The templates were seen when the messages were logged. */
  predicate SeenWith(ts: seq<Template>, es: seq<LogEntry>) {
    |ts| == |es| && forall i | 0 <= i < |ts| :: ts[i].firstSeen == es[i].timestamp == ts[i].lastSeen
  }

  lemma BurstIsARun(es: seq<LogEntry>, ts: seq<Template>, k: nat)
    requires SeenWith(ts, es) && 3 * k + 2 < |ts| && AtOnce(es, k)
    ensures IsRun(Three(ts, k), Window(PythonTraceback))
  {
  }

  lemma BurstsAreApart(es: seq<LogEntry>, ts: seq<Template>, g: nat, k: nat)
    requires SeenWith(ts, es) && 3 * g + 2 < |ts| && 3 * k + 2 < |ts| && AtOnce(es, g) && LongBefore(es, g, k)
    ensures Apart(Three(ts, g), Three(ts, k), Window(PythonTraceback))
  {
  }

  lemma BurstsAreSorted(es: seq<LogEntry>, i: nat, j: nat)
    requires InBursts(es) && i < j < |es|
    ensures es[i].timestamp <= es[j].timestamp
  {
    var k, l := i / 3, j / 3;
    assert AtOnce(es, k) && AtOnce(es, l);
    assert k < l ==> LongBefore(es, k, l);
  }

  lemma BurstsInTime(es: seq<LogEntry>, ts: seq<Template>, groups: seq<seq<Template>>)
    requires InBursts(es) && SeenWith(ts, es) && groups == Threes(ts)
    ensures MaximalRuns(groups, Window(PythonTraceback)) && SortedBy(ts, LastSeenOf)
  {
    forall g | 0 <= g < |groups| ensures IsRun(groups[g], Window(PythonTraceback)) {
      BurstIsARun(es, ts, g);
    }
    forall g, k | 0 <= g && k == g + 1 < |groups| ensures Apart(groups[g], groups[k], Window(PythonTraceback)) {
      BurstsAreApart(es, ts, g, k);
    }
    forall i, j | 0 <= i < j < |ts| ensures LastSeenOf(ts[i]) <= LastSeenOf(ts[j]) {
      BurstsAreSorted(es, i, j);
    }
  }

  function Text(rules: Rules, e: LogEntry): string {
    Join(Tokenize(rules, e))
  }

  /** The line belongs to a traceback but does not begin one, and to no Go dump. */
  predicate TracebackLine(rules: Rules, text: string) {
    rules.pythonLine(text) && !rules.goLine(text) && |text| != 0 && !IsSpace(text[0]) && text[0] != 'T'
  }

  ghost predicate AllTracebackLines(rules: Rules, es: seq<LogEntry>) {
    forall i | 0 <= i < |es| :: TracebackLine(rules, Text(rules, es[i]))
  }

  lemma {:induction false} TrimRightKeepsFirst(s: string)
    ensures TrimRight(s) <= s
    decreases |s|
  {
    if |s| != 0 && IsSpace(s[|s| - 1]) {
      TrimRightKeepsFirst(s[..|s| - 1]);
    }
  }

  lemma LineRoles(rules: Rules, t: Template)
    requires TracebackLine(rules, t.pattern) && t.exampleVars == []
    ensures RoleOf(rules, GoStack, t) == Normal && RoleOf(rules, PythonTraceback, t) == Fragment
  {
    TrimRightKeepsFirst(t.pattern);
    assert PYTHON_HEADER[0] == 'T';
  }

  lemma LinesAreFragments(rules: Rules, es: seq<LogEntry>)
    requires AllTracebackLines(rules, es)
    ensures AllFragments(rules, OwnTemplates(rules, es))
  {
    var ts := OwnTemplates(rules, es);
    forall t | t in ts ensures RoleOf(rules, GoStack, t) == Normal && RoleOf(rules, PythonTraceback, t) == Fragment {
      var i :| 0 <= i < |es| && ts[i] == t;
      assert TracebackLine(rules, Text(rules, es[i]));
      LineRoles(rules, t);
    }
  }

  // ---- what a burst is labelled with -------------------------------------

  /** How the collector labels a burst whose first line names a traceback. */
  function LabelFor(text: string): string {
    "Python exception: " + text
  }

  /** The first text to name a traceback stays the evidence. */
  lemma {:induction false} HeaderStays(rules: Rules, group: seq<Template>, n: nat)
    requires 0 < n <= |group| && Contains(EffectiveText(group[0]), "Traceback")
    ensures EffectiveText(group[0]) != "" && Evidence(rules, group, n).0 == EffectiveText(group[0])
  {
    var text := EffectiveText(group[0]);
    assert text != "" by {
      var i :| 0 <= i <= |text| && "Traceback" <= text[i..];
    }
    if n != 1 {
      HeaderStays(rules, group, n - 1);
    } else {
      assert Evidence(rules, group, 0) == ("", "");
    }
  }

  /** The text names a traceback and is short enough to be quoted whole. */
  predicate Quoted(text: string) {
    Contains(text, "Traceback") && |text| <= HEADER_LIMIT
  }

  /** A burst whose first line names a traceback is labelled with that line. */
  lemma BurstLabel(rules: Rules, group: seq<Template>)
    requires |group| != 0 && group[0].exampleVars == [] && Quoted(group[0].pattern)
    ensures Merge(rules, PythonTraceback, group).id == rules.templateHash(LabelFor(group[0].pattern))
  {
    HeaderStays(rules, group, |group|);
  }

  /** The text of a burst's first line. */
  function Opening(rules: Rules, es: seq<LogEntry>, k: nat): string
    requires k < |es| / 3
  {
    Text(rules, es[3 * k])
  }

  ghost predicate NoneReads(rules: Rules, es: seq<LogEntry>, name: string) {
    forall i | 0 <= i < |es| :: Text(rules, es[i]) != name
  }

  /**
    Each burst begins with a line that names a traceback, and all but the last with what the next burst
    is labelled. No line reads as the first burst is labelled.
   */
  ghost predicate LadderLines(rules: Rules, es: seq<LogEntry>) {
    && InBursts(es) && AllLengthsDiffer(rules, es) && AllTracebackLines(rules, es)
    && (forall k | 0 <= k < |es| / 3 :: Quoted(Opening(rules, es, k)))
    && (forall k, l | 0 <= k && l == k + 1 < |es| / 3 :: Opening(rules, es, k) == LabelFor(Opening(rules, es, l)))
    && NoneReads(rules, es, LabelFor(Opening(rules, es, 0)))
  }

  /** Severities play no part in it. */
  ghost predicate SameButForSeverity(es: seq<LogEntry>, fs: seq<LogEntry>) {
    |es| == |fs| && forall i | 0 <= i < |es| :: fs[i] == es[i].(severity := fs[i].severity)
  }

  lemma LadderIgnoresSeverity(rules: Rules, es: seq<LogEntry>, fs: seq<LogEntry>)
    requires LadderLines(rules, es) && SameButForSeverity(es, fs)
    ensures LadderLines(rules, fs)
  {
    assert forall i | 0 <= i < |es| :: Tokenize(rules, fs[i]) == Tokenize(rules, es[i]);
    forall k | 0 <= k < |es| / 3 ensures AtOnce(fs, k) && Opening(rules, fs, k) == Opening(rules, es, k) {
      assert AtOnce(es, k);
    }
    forall k, l | 0 <= k < l < |es| / 3 ensures LongBefore(fs, k, l) {
      assert LongBefore(es, k, l);
    }
  }

  /** The bursts' first templates, but for the last. */
  function RungsOf(groups: seq<seq<Template>>): (rungs: seq<Template>)
    requires groups != [] && forall k | 0 <= k < |groups| :: groups[k] != []
    ensures |groups| == |rungs| + 1 && forall k | 0 <= k < |rungs| :: rungs[k] == groups[k][0]
  {
    seq(|groups| - 1, k requires 0 <= k < |groups| - 1 => groups[k][0])
  }

  lemma OpeningLabels(rules: Rules, es: seq<LogEntry>, groups: seq<seq<Template>>, k: nat)
    requires LadderLines(rules, es) && groups == Threes(OwnTemplates(rules, es)) && k < |groups|
    ensures groups[k][0].id == rules.templateHash(Opening(rules, es, k))
    ensures Merge(rules, PythonTraceback, groups[k]).id == rules.templateHash(LabelFor(Opening(rules, es, k)))
  {
    assert groups[k][0] == OwnTemplates(rules, es)[3 * k];
    assert groups[k][0].pattern == Opening(rules, es, k);
    BurstLabel(rules, groups[k]);
  }

  lemma ThreesMerge(ts: seq<Template>, groups: seq<seq<Template>>)
    requires |ts| % 3 == 0 && ts != [] && groups == Threes(ts)
    ensures groups != [] && AllMerge(groups) && Flatten(groups) == ts
  {
    ThreesFlatten(ts);
  }

  lemma LinesAreBursts(rules: Rules, es: seq<LogEntry>, groups: seq<seq<Template>>)
    requires Injective(rules.templateHash) && LadderLines(rules, es) && groups == Threes(OwnTemplates(rules, es))
    ensures AreBursts(rules, groups)
  {
    OwnIdsDiffer(rules, es);
    ThreesMerge(OwnTemplates(rules, es), groups);
    BurstsInTime(es, OwnTemplates(rules, es), groups);
    LinesAreFragments(rules, es);
  }

  /** No template is named as the first burst's merge is. */
  lemma LabelIsNew(rules: Rules, es: seq<LogEntry>, name: string)
    requires Injective(rules.templateHash) && NoneReads(rules, es, name)
    ensures rules.templateHash(name) !in IdSet(OwnTemplates(rules, es))
  {
    var ts := OwnTemplates(rules, es);
    forall t | t in ts ensures t.id != rules.templateHash(name) {
      var i :| 0 <= i < |es| && ts[i] == t;
      assert t.pattern == Text(rules, es[i]);
    }
  }

  lemma LinesAreALadder(rules: Rules, es: seq<LogEntry>, groups: seq<seq<Template>>, rungs: seq<Template>)
    requires Injective(rules.templateHash) && LadderLines(rules, es) && groups == Threes(OwnTemplates(rules, es))
    requires rungs == RungsOf(groups)
    ensures Ladder(rules, groups, rungs)
  {
    ThreesFlatten(OwnTemplates(rules, es));
    LinesAreBursts(rules, es, groups);
    LabelIsNew(rules, es, LabelFor(Opening(rules, es, 0)));
    OpeningLabels(rules, es, groups, 0);
    forall k, l | 0 <= k && l == k + 1 < |groups| ensures rungs[k].id == Merge(rules, PythonTraceback, groups[l]).id {
      OpeningLabels(rules, es, groups, k);
      OpeningLabels(rules, es, groups, l);
    }
  }

  // ---- what a collect makes of them --------------------------------------

  lemma LadderOf(cfg: DrainConfig, rules: Rules, es: seq<LogEntry>)
    returns (groups: seq<seq<Template>>, rungs: seq<Template>)
    requires Sane(cfg) && |es| <= cfg.maxClusters && Injective(rules.templateHash) && LadderLines(rules, es)
    ensures groups == Threes(OwnTemplates(rules, es)) && rungs == RungsOf(groups)
    ensures Before(cfg, rules, es) == OwnTemplates(rules, es) == Flatten(groups)
    ensures Ladder(rules, groups, rungs)
  {
    groups := Threes(OwnTemplates(rules, es));
    rungs := RungsOf(groups);
    ThreesFlatten(OwnTemplates(rules, es));
    LinesAreALadder(rules, es, groups, rungs);
    BeforeIsOwn(cfg, rules, es);
  }

  lemma {:induction false} TotalOfOnes(ts: seq<Template>)
    requires forall i | 0 <= i < |ts| :: ts[i].count == 1
    ensures Total(ts) == |ts|
  {
    if |ts| != 0 {
      TotalOfOnes(ts[..|ts| - 1]);
    }
  }

  lemma OwnCounts(rules: Rules, es: seq<LogEntry>, groups: seq<seq<Template>>, rungs: seq<Template>)
    requires |es| == 6 && groups == Threes(OwnTemplates(rules, es)) && rungs == RungsOf(groups)
    ensures rungs[0].count == 1 && Total(groups[1]) == 3
  {
    TotalOfOnes(groups[1]);
  }

  /**
    Six lines, each a cluster of its own, on which a collect publishes a wrong count whatever order its
    map iterations take: the second burst's template counts three entries, and one carries its id.
   */
  lemma PythonMergesCanMiscount(cfg: DrainConfig, rules: Rules, es: seq<LogEntry>, after: seq<Template>,
        ids: seq<string>)
    requires Sane(cfg) && cfg.maxClusters >= 6 && Injective(rules.templateHash) && HashNonEmpty(rules)
    requires LadderLines(rules, es) && |es| == 6 && Processed(cfg, rules, es, after, ids)
    ensures |after| == 2 && after[1].count == 3 && CountId(ids, after[1].id) == 1
  {
    var groups, rungs := LadderOf(cfg, rules, es);
    OwnCounts(rules, es, groups, rungs);
    MimicMiscounts(cfg, rules, es, after, ids, groups, rungs);
  }

  /** Runs over such lines agree, if and only if there are no more than two bursts of them. */
  lemma LinesAreOrderFree(cfg: DrainConfig, rules: Rules, es: seq<LogEntry>)
    requires Sane(cfg) && |es| <= cfg.maxClusters && Injective(rules.templateHash) && LadderLines(rules, es)
    ensures OneOutcome(cfg, rules, es) <==> |es| <= 6
  {
    var groups, rungs := LadderOf(cfg, rules, es);
    LadderIsOrderFree(cfg, rules, es, groups, rungs);
  }

  lemma FirstTwoMerges(rules: Rules, es: seq<LogEntry>, groups: seq<seq<Template>>)
    requires Injective(rules.templateHash) && LadderLines(rules, es) && groups == Threes(OwnTemplates(rules, es))
    requires |groups| >= 2
    ensures Merge(rules, PythonTraceback, groups[0]).id == rules.templateHash(LabelFor(Opening(rules, es, 0)))
    ensures Merge(rules, PythonTraceback, groups[1]).id == rules.templateHash(Opening(rules, es, 0))
    ensures Merge(rules, PythonTraceback, groups[0]).id != Merge(rules, PythonTraceback, groups[1]).id
  {
    OpeningLabels(rules, es, groups, 0);
    OpeningLabels(rules, es, groups, 1);
    assert Opening(rules, es, 0) == LabelFor(Opening(rules, es, 1));
    assert |LabelFor(Opening(rules, es, 0))| > |Opening(rules, es, 0)|;
  }

  lemma InThirdBurst(ts: seq<Template>, i: nat)
    requires |ts| == 9 && 6 <= i < 9
    ensures ts[i] in Threes(ts)[2]
  {
    assert Threes(ts)[2] == [ts[6], ts[7], ts[8]];
    assert i == 6 || i == 7 || i == 8;
  }

  /**
    Nine lines on which two runs of the same collect differ: an entry of the third burst is given the id
    of the first burst's first line in one, and the id of the first burst's merge in the other.
   */
  lemma PythonMergesCanDiverge(cfg: DrainConfig, rules: Rules, es: seq<LogEntry>, i: nat)
    returns (ids: seq<string>, ids': seq<string>)
    requires Sane(cfg) && cfg.maxClusters >= 9 && Injective(rules.templateHash)
    requires LadderLines(rules, es) && |es| == 9 && 6 <= i < 9
    ensures Diverges(cfg, rules, es, ids, ids', i)
    ensures ids[i] == rules.templateHash(Opening(rules, es, 0))
    ensures ids'[i] == rules.templateHash(LabelFor(Opening(rules, es, 0)))
  {
    var groups, rungs := LadderOf(cfg, rules, es);
    BeforeIsOwn(cfg, rules, es);
    InThirdBurst(OwnTemplates(rules, es), i);
    ids, ids' := ThirdBurstDiverges(cfg, rules, es, groups, rungs, i, i);
    FirstTwoMerges(rules, es, groups);
  }

  // ---- the lines themselves ----------------------------------------------

  const CALL := ["x", "=", "await", "Traceback"]

  /** An assignment that awaits a call of so many words. */
  function Awaits(n: nat): (ws: seq<string>)
    ensures |ws| == n + 3
  {
    ["y", "=", "await"] + seq(n, _ => "p")
  }

  /** The call, behind so many labels. */
  function Labelled(n: nat): (ws: seq<string>)
    ensures |ws| == 2 * n + 4
  {
    if n == 0 then CALL else ["Python", "exception:"] + Labelled(n - 1)
  }

  /**
    The first line of each burst is the call behind as many labels as there are bursts to come; the others
    await calls.
   */
  function LineWords(bursts: nat, i: nat): (ws: seq<string>)
    requires i < 3 * bursts
  {
    if i % 3 == 0 then Labelled(bursts - 1 - i / 3) else Awaits(2 * i)
  }

  function LineAt(bursts: nat, i: nat): LogEntry
    requires i < 3 * bursts
  {
    LogEntry(100 * SECOND * (i / 3), INFO, Join(LineWords(bursts, i)), map[])
  }

  /** Three lines to a burst. */
  function Script(bursts: nat): (es: seq<LogEntry>)
    ensures |es| == 3 * bursts
  {
    seq(3 * bursts, i requires 0 <= i < 3 * bursts => LineAt(bursts, i))
  }

  /** What the recognisers and the masks make of each line of the script. */
  ghost predicate Recognised(rules: Rules, bursts: nat) {
    forall e | e in Script(bursts) ::
      rules.mask(e.message) == e.message && rules.pythonLine(e.message) && !rules.goLine(e.message)
  }

  lemma AwaitsWords(n: nat)
    ensures AreWords(Awaits(n)) && Awaits(n)[0] == "y"
  {
    assert IsWord("y") && IsWord("=") && IsWord("await") && IsWord("p");
  }

  lemma CallWords()
    ensures AreWords(CALL) && IsWord("Python") && IsWord("exception:")
  {
    assert IsWord("x") && IsWord("=") && IsWord("await") && IsWord("Traceback");
  }

  lemma TwoMoreWords(u: string, v: string, ws: seq<string>)
    requires IsWord(u) && IsWord(v) && AreWords(ws)
    ensures AreWords([u, v] + ws)
  {
  }

  lemma {:induction false} LabelledWords(n: nat)
    ensures AreWords(Labelled(n)) && Labelled(n)[0] == if n == 0 then "x" else "Python"
  {
    CallWords();
    if n != 0 {
      LabelledWords(n - 1);
      TwoMoreWords("Python", "exception:", Labelled(n - 1));
    }
  }

  /** The lines are words, beginning with one of three; firsts have even numbers of them, others odd. */
  lemma LineWordsAreWords(bursts: nat, i: nat)
    requires i < 3 * bursts
    ensures var ws := LineWords(bursts, i);
      && AreWords(ws) && ws != [] && ws[0] in ["x", "y", "Python"]
      && |ws| == if i % 3 == 0 then 2 * (bursts - 1 - i / 3) + 4 else 2 * i + 3
  {
    if i % 3 == 0 {
      LabelledWords(bursts - 1 - i / 3);
    } else {
      AwaitsWords(2 * i);
    }
  }

  lemma JoinBegins(ws: seq<string>)
    requires |ws| != 0 && |ws[0]| != 0
    ensures |Join(ws)| != 0 && Join(ws)[0] == ws[0][0]
  {
  }

  lemma BeginsALine(w: string)
    requires w in ["x", "y", "Python"]
    ensures |w| != 0 && !IsSpace(w[0]) && w[0] != 'T'
  {
  }

  lemma LineTokens(rules: Rules, bursts: nat, i: nat)
    requires Recognised(rules, bursts) && i < 3 * bursts
    ensures Tokenize(rules, Script(bursts)[i]) == LineWords(bursts, i)
    ensures Text(rules, Script(bursts)[i]) == Join(LineWords(bursts, i))
    ensures TracebackLine(rules, Text(rules, Script(bursts)[i]))
  {
    var e, ws := Script(bursts)[i], LineWords(bursts, i);
    assert e in Script(bursts) && e.message == Join(ws);
    LineWordsAreWords(bursts, i);
    FieldsOfJoin(ws);
    BeginsALine(ws[0]);
    JoinBegins(ws);
  }

  lemma JoinOne(u: string, ws: seq<string>)
    requires |ws| != 0
    ensures Join([u] + ws) == u + " " + Join(ws)
  {
    assert ([u] + ws)[1..] == ws;
  }

  lemma Regroup(u: string, v: string, rest: string)
    ensures u + " " + (v + " " + rest) == u + " " + v + " " + rest
  {
  }

  lemma JoinTwo(all: seq<string>, u: string, v: string, ws: seq<string>)
    requires |ws| != 0 && all == [u, v] + ws
    ensures Join(all) == u + " " + v + " " + Join(ws)
  {
    var tail := [v] + ws;
    assert all == [u] + tail;
    JoinOne(v, ws);
    JoinOne(u, tail);
    Regroup(u, v, Join(ws));
  }

  lemma LabelSplits(text: string)
    ensures LabelFor(text) == "Python" + " " + "exception:" + " " + text
  {
    assert "Python exception: " == "Python" + " " + "exception:" + " ";
  }

  lemma CallIsQuoted()
    ensures Contains(Join(CALL), "Traceback") && |Join(CALL)| == 19
  {
    assert CALL == ["x", "="] + ["await", "Traceback"];
    JoinTwo(CALL, "x", "=", ["await", "Traceback"]);
    var front := "x" + " " + "=" + " " + "await" + " ";
    assert ["await", "Traceback"][1..] == ["Traceback"];
    assert Join(CALL) == front + "Traceback";
    assert Join(CALL)[|front|..] == "Traceback";
  }

  lemma ContainsInTail(p: string, s: string, w: string)
    requires Contains(s, w)
    ensures Contains(p + s, w)
  {
    var i :| 0 <= i <= |s| && w <= s[i..];
    assert (p + s)[|p| + i..] == s[i..];
  }

  /** One more label is one more in front. */
  lemma LabelJoins(n: nat)
    requires n > 0
    ensures Join(Labelled(n)) == LabelFor(Join(Labelled(n - 1)))
  {
    JoinTwo(Labelled(n), "Python", "exception:", Labelled(n - 1));
    LabelSplits(Join(Labelled(n - 1)));
  }

  lemma {:induction false} LabelledIsQuoted(n: nat)
    ensures Contains(Join(Labelled(n)), "Traceback") && |Join(Labelled(n))| == 18 * n + 19
  {
    if n == 0 {
      CallIsQuoted();
    } else {
      LabelledIsQuoted(n - 1);
      LabelJoins(n);
      ContainsInTail("Python exception: ", Join(Labelled(n - 1)), "Traceback");
    }
  }

  lemma ThirdOf(k: nat, i: nat)
    requires 3 * k <= i < 3 * k + 3
    ensures i / 3 == k && i % 3 == i - 3 * k
  {
  }

  lemma ScriptTime(bursts: nat, k: nat, i: nat)
    requires 3 * k <= i < 3 * k + 3 && i < 3 * bursts
    ensures Script(bursts)[i].timestamp == 100 * SECOND * k
  {
    ThirdOf(k, i);
  }

  lemma ScriptIsInBursts(bursts: nat, es: seq<LogEntry>)
    requires bursts > 0 && es == Script(bursts)
    ensures InBursts(es)
  {
    forall k | 0 <= k < |es| / 3 ensures AtOnce(es, k) {
      ScriptTime(bursts, k, 3 * k);
      ScriptTime(bursts, k, 3 * k + 1);
      ScriptTime(bursts, k, 3 * k + 2);
    }
    forall k, l | 0 <= k < l < |es| / 3 ensures LongBefore(es, k, l) {
      ScriptTime(bursts, k, 3 * k);
      ScriptTime(bursts, l, 3 * l);
    }
  }

  lemma WordCountsDiffer(bursts: nat, i: nat, j: nat)
    requires i < j < 3 * bursts
    ensures |LineWords(bursts, i)| != |LineWords(bursts, j)|
  {
    LineWordsAreWords(bursts, i);
    LineWordsAreWords(bursts, j);
  }

  lemma ScriptLengthsDiffer(rules: Rules, bursts: nat, es: seq<LogEntry>)
    requires Recognised(rules, bursts) && es == Script(bursts)
    ensures AllLengthsDiffer(rules, es)
  {
    forall i | 0 <= i < |es| ensures Tokenize(rules, es[i]) != [] {
      LineTokens(rules, bursts, i);
      LineWordsAreWords(bursts, i);
    }
    forall i, j | 0 <= i < j < |es| ensures |Tokenize(rules, es[i])| != |Tokenize(rules, es[j])| {
      LineTokens(rules, bursts, i);
      LineTokens(rules, bursts, j);
      WordCountsDiffer(bursts, i, j);
    }
  }

  lemma ScriptIsTraceback(rules: Rules, bursts: nat, es: seq<LogEntry>)
    requires Recognised(rules, bursts) && es == Script(bursts)
    ensures AllTracebackLines(rules, es)
  {
    forall i | 0 <= i < |es| ensures TracebackLine(rules, Text(rules, es[i])) {
      LineTokens(rules, bursts, i);
    }
  }

  lemma ScriptOpenings(rules: Rules, bursts: nat, es: seq<LogEntry>, k: nat)
    requires Recognised(rules, bursts) && es == Script(bursts) && k < bursts
    ensures Opening(rules, es, k) == Join(Labelled(bursts - 1 - k))
  {
    LineTokens(rules, bursts, 3 * k);
    ThirdOf(k, 3 * k);
  }

  lemma LabelJoinsOnto(n: nat, text: string)
    requires text == Join(Labelled(n))
    ensures LabelFor(text) == Join(Labelled(n + 1))
  {
    LabelJoins(n + 1);
  }

  lemma LineIsNotLabelledSo(bursts: nat, i: nat)
    requires i < 3 * bursts
    ensures Join(LineWords(bursts, i)) != Join(Labelled(bursts))
  {
    LineWordsAreWords(bursts, i);
    LabelledWords(bursts);
    if Join(LineWords(bursts, i)) == Join(Labelled(bursts)) {
      JoinInjective(LineWords(bursts, i), Labelled(bursts));
    }
  }

  /** No line of the script has as many labels as there are bursts. */
  lemma NoLineIsLabelledSo(rules: Rules, bursts: nat, es: seq<LogEntry>, name: string)
    requires Recognised(rules, bursts) && es == Script(bursts) && name == Join(Labelled(bursts))
    ensures NoneReads(rules, es, name)
  {
    forall i | 0 <= i < |es| ensures Text(rules, es[i]) != name {
      LineTokens(rules, bursts, i);
      LineIsNotLabelledSo(bursts, i);
    }
  }

  lemma NoLineIsLabelFor(rules: Rules, bursts: nat, es: seq<LogEntry>, n: nat, text: string, name: string)
    requires Recognised(rules, bursts) && es == Script(bursts) && n + 1 == bursts
    requires text == Join(Labelled(n)) && name == LabelFor(text)
    ensures NoneReads(rules, es, name)
  {
    LabelJoinsOnto(n, text);
    NoLineIsLabelledSo(rules, bursts, es, name);
  }

  lemma ShortIsQuoted(n: nat)
    requires n <= 5
    ensures Quoted(Join(Labelled(n)))
  {
    LabelledIsQuoted(n);
  }

  lemma OpeningIsQuoted(rules: Rules, bursts: nat, es: seq<LogEntry>, k: nat)
    requires Recognised(rules, bursts) && es == Script(bursts) && k < bursts <= 6
    ensures Quoted(Opening(rules, es, k))
  {
    ScriptOpenings(rules, bursts, es, k);
    ShortIsQuoted(bursts - 1 - k);
  }

  lemma OpeningIsALabel(rules: Rules, bursts: nat, es: seq<LogEntry>, k: nat, l: nat)
    requires Recognised(rules, bursts) && es == Script(bursts) && k + 1 == l < bursts
    ensures Opening(rules, es, k) == LabelFor(Opening(rules, es, l))
  {
    ScriptOpenings(rules, bursts, es, k);
    ScriptOpenings(rules, bursts, es, l);
    LabelJoins(bursts - 1 - k);
  }

  lemma TopIsNew(rules: Rules, bursts: nat, es: seq<LogEntry>, top: nat)
    requires Recognised(rules, bursts) && es == Script(bursts) && bursts > 0 && top == 0
    ensures NoneReads(rules, es, LabelFor(Opening(rules, es, top)))
  {
    ScriptOpenings(rules, bursts, es, top);
    var text := Opening(rules, es, top);
    NoLineIsLabelFor(rules, bursts, es, bursts - 1 - top, text, LabelFor(text));
  }

  /**
    There are such lines, for up to six bursts: x = await Traceback to begin the last burst, one more
    Python exception: in front of that for each burst before it, and calls of other lengths in between.
   */
  lemma ScriptMakesALadder(rules: Rules, bursts: nat, es: seq<LogEntry>)
    requires Recognised(rules, bursts) && es == Script(bursts) && 0 < bursts <= 6
    ensures LadderLines(rules, es)
  {
    ScriptIsInBursts(bursts, es);
    ScriptLengthsDiffer(rules, bursts, es);
    ScriptIsTraceback(rules, bursts, es);
    forall k | 0 <= k < |es| / 3 ensures Quoted(Opening(rules, es, k)) {
      OpeningIsQuoted(rules, bursts, es, k);
    }
    forall k, l | 0 <= k && l == k + 1 < |es| / 3 ensures Opening(rules, es, k) == LabelFor(Opening(rules, es, l)) {
      OpeningIsALabel(rules, bursts, es, k, l);
    }
    TopIsNew(rules, bursts, es, 0);
  }
}
