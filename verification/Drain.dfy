/**
  The Drain clustering stage as a state machine on values: what one message does to the prefix tree
  and to the clusters. DrainEngine implements it on the heap; DrainTheorems proves what every run keeps.
 */
module Drain {

  import opened Wrappers
  import opened Strings
  import opened Model
  import opened Tokens
  import opened PrefixTree

  datatype DrainConfig = DrainConfig(simThreshold: real, maxDepth: nat, maxChildren: nat, maxClusters: nat)

  /** Variable rows kept per template. */
  const MAX_EXAMPLE_VARS := 3

  /** How a message came to belong to its cluster. */
  datatype Via = Created | LeafMatch | GlobalMatch | Fallback

  datatype Member = Member(tokens: seq<string>, entry: LogEntry, via: Via)

  /** A cluster with its history: the leaf it hangs off, its members in order, and how often its id moved. */
  datatype Cluster = Cluster(tokens: seq<string>, template: Template, leaf: Path, members: seq<Member>, moves: nat)

  /** strayed records that an overflow merge has broadened some cluster. */
  datatype State = State(tree: Tree, clusters: seq<Cluster>, strayed: bool)

  const EMPTY := State(ROOT_ONLY, [], false)

  // ---- search ------------------------------------------------------------

  predicate Eligible(candidate: seq<string>, tokens: seq<string>, sameLength: bool) {
    !sameLength || |candidate| == |tokens|
  }

  /**
    The first candidate of greatest similarity above the threshold. With sameLength, candidates of
    another token count are passed over.
   */
  function Best(cands: seq<seq<string>>, n: nat, tokens: seq<string>, threshold: real, sameLength: bool)
    : (r: Option<nat>)
    requires n <= |cands|
    ensures r.None? ==> forall i | 0 <= i < n && Eligible(cands[i], tokens, sameLength) ::
      Similarity(cands[i], tokens) <= threshold
    ensures r.Some? ==> r.value < n && Eligible(cands[r.value], tokens, sameLength)
    ensures r.Some? ==> Similarity(cands[r.value], tokens) > threshold
    ensures r.Some? ==> forall i | 0 <= i < n && Eligible(cands[i], tokens, sameLength) ::
      Similarity(cands[i], tokens) <= Similarity(cands[r.value], tokens)
    ensures r.Some? ==> forall i | 0 <= i < r.value && Eligible(cands[i], tokens, sameLength) ::
      Similarity(cands[i], tokens) < Similarity(cands[r.value], tokens)
  {
    if n == 0 then None
    else
      var b := Best(cands, n - 1, tokens, threshold, sameLength);
      var bar := if b.Some? then Similarity(cands[b.value], tokens) else threshold;
      if Eligible(cands[n - 1], tokens, sameLength) && Similarity(cands[n - 1], tokens) > bar then Some(n - 1) else b
  }

  /** at is the best of the first n candidates, and bar what the next one has to exceed. */
  predicate BestSoFar(cands: seq<seq<string>>, n: nat, tokens: seq<string>, threshold: real, sameLength: bool,
        at: Option<nat>, bar: real)
    requires n <= |cands|
  {
    at == Best(cands, n, tokens, threshold, sameLength) && bar == if at.Some? then Similarity(cands[at.value], tokens)
      else threshold
  }

  lemma BestNext(cands: seq<seq<string>>, n: nat, tokens: seq<string>, threshold: real, sameLength: bool,
        at: Option<nat>, bar: real)
    requires n < |cands| && BestSoFar(cands, n, tokens, threshold, sameLength, at, bar)
    ensures var takesOver := Eligible(cands[n], tokens, sameLength) && Similarity(cands[n], tokens) > bar;
      BestSoFar(cands, n + 1, tokens, threshold, sameLength, if takesOver then Some(n) else at,
                if takesOver then Similarity(cands[n], tokens) else bar)
  {
  }

  function TokensOf(cs: seq<Cluster>): (r: seq<seq<string>>)
    ensures |r| == |cs|
  {
    seq(|cs|, i requires 0 <= i < |cs| => cs[i].tokens)
  }

  function TokensAt(cs: seq<Cluster>, idxs: seq<nat>): (r: seq<seq<string>>)
    requires forall i | 0 <= i < |idxs| :: idxs[i] < |cs|
    ensures |r| == |idxs|
  {
    seq(|idxs|, i requires 0 <= i < |idxs| => cs[idxs[i]].tokens)
  }

  // ---- one message -------------------------------------------------------

  /** The clusters attached to a node are exactly the clusters whose leaf it is. */
  ghost predicate Shape(st: State) {
    && (forall p, i | 0 <= i < |st.tree.Attached(p)| ::
      st.tree.Attached(p)[i] < |st.clusters| && st.clusters[st.tree.Attached(p)[i]].leaf == p)
    && (forall j | 0 <= j < |st.clusters| :: j in st.tree.Attached(st.clusters[j].leaf))
  }

  /**
    Where a message goes past the cap: to the best cluster of its token count anywhere, else to the most
    recent one.
   */
  function Overflow(cfg: DrainConfig, cs: seq<Cluster>, tokens: seq<string>): (r: (Via, nat))
    requires |cs| != 0
    ensures r.1 < |cs| && !r.0.Created? && !r.0.LeafMatch?
  {
    var best := Best(TokensOf(cs), |cs|, tokens, cfg.simThreshold, true);
    if best.Some? then (GlobalMatch, best.value) else (Fallback, |cs| - 1)
  }

  /** Where a message goes once its leaf is known: a cluster to join, or a new one. */
  function Place(cfg: DrainConfig, cs: seq<Cluster>, attached: seq<nat>, tokens: seq<string>): (r: (Via, nat))
    requires cfg.maxClusters >= 1
    requires forall i | 0 <= i < |attached| :: attached[i] < |cs|
    ensures if r.0.Created? then r.1 == |cs| < cfg.maxClusters else r.1 < |cs|
  {
    var local := Best(TokensAt(cs, attached), |attached|, tokens, cfg.simThreshold, false);
    if local.Some? then
      (LeafMatch, attached[local.value])
    else if |cs| >= cfg.maxClusters then
      Overflow(cfg, cs, tokens)
    else
      (Created, |cs|)
  }

  function NewTemplate(rules: Rules, tokens: seq<string>, e: LogEntry): Template {
    var pattern := Join(tokens);
    Template(rules.templateHash(pattern), pattern, e.severity, 1, e.timestamp, e.timestamp, [],
      rules.alias(pattern, e.severity))
  }

  function EarlierSeen(first: Instant, ts: Instant): Instant {
    if ts == ZERO_TIME then first else if first == ZERO_TIME || ts < first then ts else first
  }

  function LaterSeen(last: Instant, ts: Instant): Instant {
    if ts == ZERO_TIME then last else if ts > last then ts else last
  }

  function RaisedSeverity(sev: string, other: string): string {
    if SeverityRank(other) > SeverityRank(sev) then other else sev
  }

  /** The template of a cluster that holds `tokens` after an entry whose variables are `vars` joined. */
  function WidenedTemplate(rules: Rules, t: Template, tokens: seq<string>, vars: seq<string>, e: LogEntry): Template {
    var pattern := Join(tokens);
    var sev := RaisedSeverity(t.severity, e.severity);
    Template(rules.templateHash(pattern), pattern, sev, t.count + 1,
             EarlierSeen(t.firstSeen, e.timestamp), LaterSeen(t.lastSeen, e.timestamp),
             if vars != [] && |t.exampleVars| < MAX_EXAMPLE_VARS then t.exampleVars + [vars] else t.exampleVars,
             rules.alias(pattern, sev))
  }

  function NewCluster(rules: Rules, leaf: Path, tokens: seq<string>, e: LogEntry): Cluster {
    Cluster(tokens, NewTemplate(rules, tokens, e), leaf, [Member(tokens, e, Created)], 0)
  }

  function Absorb(rules: Rules, c: Cluster, m: Member): Cluster {
    var tokens := MergeTokens(c.tokens, m.tokens);
    Cluster(tokens, WidenedTemplate(rules, c.template, tokens, ExtractVars(c.tokens, m.tokens), m.entry), c.leaf,
            c.members + [m], if tokens == c.tokens then c.moves else c.moves + 1)
  }

  function Tokenize(rules: Rules, e: LogEntry): (ts: seq<string>)
    ensures AreWords(ts)
  {
    Fields(rules.mask(e.message))
  }

  /** The tokens have descended: the grown tree, and the leaf they reached. */
  function Arrive(cfg: DrainConfig, st: State, tokens: seq<string>): (r: (State, Path))
    requires Shape(st)
    ensures Shape(r.0)
  {
    var keys := RouteKeys(cfg.maxDepth, tokens);
    var (tree, leaf) := Grow(cfg.maxChildren, st.tree, [], keys);
    GrowKeepsAttached(cfg.maxChildren, st.tree, [], keys);
    assert forall p :: tree.Attached(p) == st.tree.Attached(p);
    (State(tree, st.clusters, st.strayed), leaf)
  }

  lemma AttachedGrows(tree: Tree, leaf: Path, n: nat, p: Path)
    ensures tree.Attach(leaf, n).Attached(p) == if p == leaf then tree.Attached(p) + [n] else tree.Attached(p)
  {
  }

  lemma AppendKeepsShape(st: State, c: Cluster)
    requires Shape(st)
    ensures Shape(State(st.tree.Attach(c.leaf, |st.clusters|), st.clusters + [c], st.strayed))
  {
    var n := |st.clusters|;
    var cs, tree := st.clusters + [c], st.tree.Attach(c.leaf, n);
    forall p, i | 0 <= i < |tree.Attached(p)| ensures tree.Attached(p)[i] < |cs| && cs[tree.Attached(p)[i]].leaf == p {
      AttachedGrows(st.tree, c.leaf, n, p);
    }
    forall j | 0 <= j < |cs| ensures j in tree.Attached(cs[j].leaf) {
      AttachedGrows(st.tree, c.leaf, n, cs[j].leaf);
      if j == n {
        assert (st.tree.Attached(c.leaf) + [n])[|st.tree.Attached(c.leaf)|] == n;
      }
    }
  }

  /** A new cluster is appended and attached to its leaf. */
  function Append(st: State, c: Cluster): (r: State)
    requires Shape(st)
    ensures Shape(r)
  {
    AppendKeepsShape(st, c);
    State(st.tree.Attach(c.leaf, |st.clusters|), st.clusters + [c], st.strayed)
  }

  /** Cluster j becomes c, in place. */
  function Replace(st: State, j: nat, c: Cluster, strayed: bool): (r: State)
    requires Shape(st) && j < |st.clusters| && c.leaf == st.clusters[j].leaf
    ensures Shape(r)
  {
    State(st.tree, st.clusters[j := c], strayed)
  }

  /** The tokens of e, arrived at a leaf, are placed: the next state and the cluster joined. */
  function Settle(cfg: DrainConfig, rules: Rules, st: State, leaf: Path, tokens: seq<string>, e: LogEntry)
    : (r: (State, nat))
    requires cfg.maxClusters >= 1
    requires Shape(st)
    ensures Shape(r.0) && r.1 < |r.0.clusters|
  {
    var (via, j) := Place(cfg, st.clusters, st.tree.Attached(leaf), tokens);
    if via.Created? then
      (Append(st, NewCluster(rules, leaf, tokens, e)), j)
    else
      var was := st.clusters[j];
      var c := Absorb(rules, was, Member(tokens, e, via));
      (Replace(st, j, c, st.strayed || (!via.LeafMatch? && c.tokens != was.tokens)), j)
  }

  lemma SettleJoins(cfg: DrainConfig, rules: Rules, st: State, leaf: Path, tokens: seq<string>, e: LogEntry)
    requires cfg.maxClusters >= 1 && Shape(st)
    requires !Place(cfg, st.clusters, st.tree.Attached(leaf), tokens).0.Created?
    ensures var (via, j) := Place(cfg, st.clusters, st.tree.Attached(leaf), tokens);
      var c := Absorb(rules, st.clusters[j], Member(tokens, e, via));
      Settle(cfg, rules, st, leaf, tokens, e)
      == (State(st.tree, st.clusters[j := c], st.strayed || (!via.LeafMatch? && c.tokens != st.clusters[j].tokens)), j)
  {
  }

  /** What a placement makes of the state, branch by branch. */
  ghost predicate Placed(cfg: DrainConfig, rules: Rules, st: State, leaf: Path, tokens: seq<string>, e: LogEntry,
        next: State, j: nat)
    requires cfg.maxClusters >= 1 && Shape(st)
  {
    var (via, k) := Place(cfg, st.clusters, st.tree.Attached(leaf), tokens);
    && j == k
    && if via.Created? then
         next == State(st.tree.Attach(leaf, k), st.clusters + [NewCluster(rules, leaf, tokens, e)], st.strayed)
       else
         var was := st.clusters[k];
         var now := Absorb(rules, was, Member(tokens, e, via));
         next == State(st.tree, st.clusters[k := now], st.strayed || (!via.LeafMatch? && now.tokens != was.tokens))
  }

  lemma PlacedIsSettled(cfg: DrainConfig, rules: Rules, st: State, leaf: Path, tokens: seq<string>, e: LogEntry,
        next: State, j: nat)
    requires cfg.maxClusters >= 1 && Shape(st)
    requires Placed(cfg, rules, st, leaf, tokens, e, next, j)
    ensures (next, j) == Settle(cfg, rules, st, leaf, tokens, e)
  {
  }

  /** One message: the next state, and the index of the cluster it joined or None. */
  function Add(cfg: DrainConfig, rules: Rules, st: State, e: LogEntry): (r: (State, Option<nat>))
    requires cfg.maxClusters >= 1 && Shape(st)
    ensures Shape(r.0)
    ensures r.1.Some? ==> r.1.value < |r.0.clusters|
    ensures r.1.Some? <==> |Tokenize(rules, e)| != 0
  {
    var tokens := Tokenize(rules, e);
    if |tokens| == 0 then
      (st, None)
    else
      var (grown, leaf) := Arrive(cfg, st, tokens);
      var (next, j) := Settle(cfg, rules, grown, leaf, tokens, e);
      (next, Some(j))
  }

  /** A whole run from the empty engine: the final state and the cluster each entry joined. */
  function Run(cfg: DrainConfig, rules: Rules, entries: seq<LogEntry>): (r: (State, seq<Option<nat>>))
    requires cfg.maxClusters >= 1
    ensures Shape(r.0)
    ensures |r.1| == |entries|
  {
    if |entries| == 0 then (EMPTY, [])
    else
      var (st, joined) := Run(cfg, rules, entries[..|entries| - 1]);
      var (next, j) := Add(cfg, rules, st, entries[|entries| - 1]);
      (next, joined + [j])
  }
}
