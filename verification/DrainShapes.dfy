/**
  What clustering amounts to, said of the messages themselves: which are routed alike, when one joins a cluster, and
  what a cluster publishes of its members.
 */
module DrainShapes {

  import opened Wrappers
  import opened Counting
  import opened Strings
  import opened Model
  import opened Tokens
  import opened PrefixTree
  import opened Drain
  import opened DrainTheorems

  // ---- routing -----------------------------------------------------------

  /** The wildcard, or a token that holds a digit anywhere. */
  predicate Variable(token: string) {
    token == "<*>" || exists i | 0 <= i < |token| :: token[i] in "0123456789"
  }

  /** No last count of a bucket, which are 3, 8 and 15, lies between the two. */
  predicate SameBucket(m: nat, n: nat) {
    (m <= 3 <==> n <= 3) && (m <= 8 <==> n <= 8) && (m <= 15 <==> n <= 15)
  }

  /** How many leading tokens of n branch: at most one less than the depth of the tree. */
  function Branching(maxDepth: nat, n: nat): nat {
    if maxDepth == 0 then 0 else if n < maxDepth then n else maxDepth - 1
  }

  /** Equal, or both variable. */
  predicate SameBranch(a: string, b: string) {
    a == b || (Variable(a) && Variable(b))
  }

  /** The counts fall into one bucket, and the leading tokens branch alike. */
  predicate RoutedAlike(maxDepth: nat, a: seq<string>, b: seq<string>) {
    && SameBucket(|a|, |b|) && Branching(maxDepth, |a|) == Branching(maxDepth, |b|)
    && forall i | 0 <= i < Branching(maxDepth, |a|) :: SameBranch(a[i], b[i])
  }

  lemma DigitsAreDigits(c: char)
    ensures '0' <= c <= '9' <==> c in "0123456789"
  {
    var digits := "0123456789";
    if '0' <= c <= '9' {
      assert digits[c as int - '0' as int] == c;
    }
  }

  lemma WildcardsAreVariable(token: string)
    ensures IsWildcard(token) <==> Variable(token)
  {
    forall i | 0 <= i < |token| ensures '0' <= token[i] <= '9' <==> token[i] in "0123456789" {
      DigitsAreDigits(token[i]);
    }
  }

  lemma BranchKeysAreAlike(a: string, b: string)
    ensures BranchKey(a) == BranchKey(b) <==> SameBranch(a, b)
  {
    WildcardsAreVariable(a);
    WildcardsAreVariable(b);
  }

  lemma BucketsAreAlike(m: nat, n: nat)
    ensures TokenCountBucket(m) == TokenCountBucket(n) <==> SameBucket(m, n)
  {
    assert "short"[0] == 's' && "medium"[0] == 'm' && "long"[0] == 'l' && "vlong"[0] == 'v';
  }

  /** Two token lists ask for the same way down exactly when they are routed alike. */
  lemma RoutesAreAlike(maxDepth: nat, a: seq<string>, b: seq<string>)
    ensures RouteKeys(maxDepth, a) == RouteKeys(maxDepth, b) <==> RoutedAlike(maxDepth, a, b)
  {
    var x, y := RouteKeys(maxDepth, a), RouteKeys(maxDepth, b);
    assert Depth(maxDepth, a) == Branching(maxDepth, |a|) && Depth(maxDepth, b) == Branching(maxDepth, |b|);
    BucketsAreAlike(|a|, |b|);
    assert x[0] == TokenCountBucket(|a|) && y[0] == TokenCountBucket(|b|);
    if Branching(maxDepth, |a|) == Branching(maxDepth, |b|) {
      forall k | 0 < k < |x| ensures x[k] == y[k] <==> SameBranch(a[k - 1], b[k - 1]) {
        BranchKeysAreAlike(a[k - 1], b[k - 1]);
      }
      if x == y {
        forall i | 0 <= i < Branching(maxDepth, |a|) ensures SameBranch(a[i], b[i]) {
          assert x[i + 1] == y[i + 1];
        }
      }
    }
  }

  // ---- joining -----------------------------------------------------------

  /** Equally long, and agreeing, wildcards counting, on more than the threshold's share of positions. */
  ghost predicate Resembles(threshold: real, a: seq<string>, b: seq<string>) {
    && |a| == |b|
    && |set i: nat | i < |a| && (a[i] == b[i] || a[i] == "<*>" || b[i] == "<*>")| as real > threshold * |a| as real
  }

  lemma ScoresMore(x: real, y: real, n: nat, count: nat)
    requires n > 0 && x * n as real == count as real
    ensures x > y <==> count as real > y * n as real
  {
    if x > y {
      PositiveProduct(x - y, n as real);
      assert (x - y) * n as real == x * n as real - y * n as real;
    } else if y > x {
      PositiveProduct(y - x, n as real);
      assert (y - x) * n as real == y * n as real - x * n as real;
    }
  }

  lemma ResemblingIsSimilar(threshold: real, a: seq<string>, b: seq<string>)
    requires threshold >= 0.0 && |b| != 0
    ensures Similarity(a, b) > threshold <==> Resembles(threshold, a, b)
  {
    if |a| == |b| {
      SimilarityCountsAgreements(a, b);
      var agreeing := set i: nat | i < |a| && (a[i] == b[i] || a[i] == "<*>" || b[i] == "<*>");
      ScoresMore(Similarity(a, b), threshold, |a|, |agreeing|);
    }
  }

  /** Messages that mask to one text join the same cluster of any state. */
  lemma MaskedAlikeJoinAlike(cfg: DrainConfig, rules: Rules, st: State, e: LogEntry, f: LogEntry)
    requires cfg.maxClusters >= 1 && Shape(st) && rules.mask(e.message) == rules.mask(f.message)
    ensures Add(cfg, rules, st, e).1 == Add(cfg, rules, st, f).1
  {
  }

  /**
    A message that resembles no cluster makes one of its own, while there is room: its words are the pattern, and
    it is the only member.
   */
  lemma UnlikeMakesItsOwn(cfg: DrainConfig, rules: Rules, st: State, e: LogEntry, tokens: seq<string>)
    requires Sane(cfg) && Shape(st) && |st.clusters| < cfg.maxClusters
    requires tokens == Fields(rules.mask(e.message)) != []
    requires forall j | 0 <= j < |st.clusters| :: !Resembles(cfg.simThreshold, st.clusters[j].tokens, tokens)
    ensures var (next, joined) := Add(cfg, rules, st, e);
      && joined == Some(|st.clusters|) && |next.clusters| == |st.clusters| + 1
      && next.clusters[..|st.clusters|] == st.clusters
      && next.clusters[|st.clusters|].tokens == tokens
      && next.clusters[|st.clusters|].template.count == 1
      && next.clusters[|st.clusters|].template.pattern == Join(tokens)
  {
    var (grown, leaf) := Arrive(cfg, st, tokens);
    var attached := grown.tree.Attached(leaf);
    var best := Best(TokensAt(grown.clusters, attached), |attached|, tokens, cfg.simThreshold, false);
    if best.Some? {
      ResemblingIsSimilar(cfg.simThreshold, st.clusters[attached[best.value]].tokens, tokens);
      assert false;
    }
  }

  lemma RoutedAlikeMeet(cfg: DrainConfig, st: State, tokens: seq<string>, j: nat)
    requires Shape(st) && j < |st.clusters| && RoutedAt(cfg, st, j)
    requires RoutedAlike(cfg.maxDepth, st.clusters[j].tokens, tokens)
    ensures j in Arrive(cfg, st, tokens).0.tree.Attached(Arrive(cfg, st, tokens).1)
  {
    var keys := RouteKeys(cfg.maxDepth, tokens);
    var (tree, leaf) := Grow(cfg.maxChildren, st.tree, [], keys);
    RoutesAreAlike(cfg.maxDepth, st.clusters[j].tokens, tokens);
    GrowReaches(cfg.maxChildren, st.tree, [], keys);
    RoutingIsStable(cfg.maxChildren, st.tree, [], keys, [], keys);
    GrowKeepsAttached(cfg.maxChildren, st.tree, [], keys);
  }

  lemma PlacesInLeaf(cfg: DrainConfig, cs: seq<Cluster>, attached: seq<nat>, tokens: seq<string>, j: nat)
    requires cfg.maxClusters >= 1 && (forall i | 0 <= i < |attached| :: attached[i] < |cs|) && j in attached
    requires Similarity(cs[j].tokens, tokens) > cfg.simThreshold
    ensures var (via, k) := Place(cfg, cs, attached, tokens);
      via.LeafMatch? && k < |cs| && Similarity(cs[k].tokens, tokens) >= Similarity(cs[j].tokens, tokens)
  {
    var i: nat :| i < |attached| && attached[i] == j;
    assert TokensAt(cs, attached)[i] == cs[j].tokens;
  }

  lemma JoinsAttached(cfg: DrainConfig, rules: Rules, st: State, leaf: Path, tokens: seq<string>, e: LogEntry, j: nat)
    requires cfg.maxClusters >= 1 && Shape(st) && j < |st.clusters| && j in st.tree.Attached(leaf)
    requires Similarity(st.clusters[j].tokens, tokens) > cfg.simThreshold
    ensures var (next, k) := Settle(cfg, rules, st, leaf, tokens, e);
      && k < |st.clusters| == |next.clusters|
      && Similarity(st.clusters[k].tokens, tokens) >= Similarity(st.clusters[j].tokens, tokens)
      && next.clusters == st.clusters[k := next.clusters[k]]
      && EntriesOf(next.clusters[k].members) == EntriesOf(st.clusters[k].members) + [e]
      && next.clusters[k].tokens == MergeTokens(st.clusters[k].tokens, tokens)
  {
    PlacesInLeaf(cfg, st.clusters, st.tree.Attached(leaf), tokens, j);
    SettleJoins(cfg, rules, st, leaf, tokens, e);
  }

  /**
    A message routed like a cluster it resembles joins a cluster, at least as much alike, and makes none: the one it
    joins gains it as a member, and no other changes.
   */
  lemma AlikeJoins(cfg: DrainConfig, rules: Rules, st: State, e: LogEntry, tokens: seq<string>, j: nat)
    requires Sane(cfg) && Shape(st) && j < |st.clusters| && RoutedAt(cfg, st, j)
    requires tokens == Fields(rules.mask(e.message)) != []
    requires RoutedAlike(cfg.maxDepth, st.clusters[j].tokens, tokens)
    requires Resembles(cfg.simThreshold, st.clusters[j].tokens, tokens)
    ensures var (next, joined) := Add(cfg, rules, st, e);
      && joined.Some? && joined.value < |st.clusters| == |next.clusters|
      && Similarity(st.clusters[joined.value].tokens, tokens) >= Similarity(st.clusters[j].tokens, tokens)
      && next.clusters == st.clusters[joined.value := next.clusters[joined.value]]
      && EntriesOf(next.clusters[joined.value].members) == EntriesOf(st.clusters[joined.value].members) + [e]
      && next.clusters[joined.value].tokens == MergeTokens(st.clusters[joined.value].tokens, tokens)
  {
    ResemblingIsSimilar(cfg.simThreshold, st.clusters[j].tokens, tokens);
    RoutedAlikeMeet(cfg, st, tokens, j);
    var (grown, leaf) := Arrive(cfg, st, tokens);
    JoinsAttached(cfg, rules, grown, leaf, tokens, e, j);
  }

  lemma FirstMessage(cfg: DrainConfig, rules: Rules, e: LogEntry, a: seq<string>)
    requires Sane(cfg) && a == Fields(rules.mask(e.message)) != []
    ensures var st := Run(cfg, rules, [e]).0;
      |st.clusters| == 1 && st.clusters[0].tokens == a && st.clusters[0].template.pattern == Join(a)
    ensures cfg.maxClusters >= 2 ==> RoutedAt(cfg, Run(cfg, rules, [e]).0, 0)
  {
    assert [e][..0] == [];
    assert Run(cfg, rules, []) == (EMPTY, []);
    UnlikeMakesItsOwn(cfg, rules, EMPTY, e, a);
    if cfg.maxClusters >= 2 {
      RunKeepsInv(cfg, rules, [e]);
      BelowCapNothingStrays(cfg, rules, [e]);
    }
  }

  lemma SecondMessage(cfg: DrainConfig, rules: Rules, e: LogEntry, f: LogEntry)
    requires cfg.maxClusters >= 1
    ensures Run(cfg, rules, [e, f]).0 == Add(cfg, rules, Run(cfg, rules, [e]).0, f).0
  {
    assert [e, f][..1] == [e];
  }

  lemma FirstIsAlone(cfg: DrainConfig, rules: Rules, e: LogEntry, a: seq<string>)
    requires Sane(cfg) && a == Fields(rules.mask(e.message)) != []
    ensures |Run(cfg, rules, [e]).0.clusters| == 1 && |Run(cfg, rules, [e]).0.clusters[0].members| == 1
  {
    FirstMessage(cfg, rules, e, a);
    ClustersAreFaithful(cfg, rules, [e], 0);
    assert [e][..0] == [];
    UnlikeMakesItsOwn(cfg, rules, EMPTY, e, a);
  }

  lemma SecondJoins(cfg: DrainConfig, rules: Rules, e: LogEntry, f: LogEntry, a: seq<string>, b: seq<string>)
    requires Sane(cfg) && cfg.maxClusters >= 2 && RoutedAlike(cfg.maxDepth, a, b)
    requires a == Fields(rules.mask(e.message)) != [] && b == Fields(rules.mask(f.message)) != []
    requires Resembles(cfg.simThreshold, a, b)
    ensures |Run(cfg, rules, [e, f]).0.clusters| == 1
    ensures var c := Run(cfg, rules, [e, f]).0.clusters[0];
      c.tokens == MergeTokens(a, b) && |c.members| == |Run(cfg, rules, [e]).0.clusters[0].members| + 1
  {
    FirstMessage(cfg, rules, e, a);
    SecondMessage(cfg, rules, e, f);
    AlikeJoins(cfg, rules, Run(cfg, rules, [e]).0, f, b, 0);
  }

  lemma TwoAlike(cfg: DrainConfig, rules: Rules, e: LogEntry, f: LogEntry, a: seq<string>, b: seq<string>)
    requires Sane(cfg) && cfg.maxClusters >= 2 && RoutedAlike(cfg.maxDepth, a, b)
    requires a == Fields(rules.mask(e.message)) != [] && b == Fields(rules.mask(f.message)) != []
    requires Resembles(cfg.simThreshold, a, b)
    ensures var cs := Run(cfg, rules, [e, f]).0.clusters;
      |cs| == 1 && cs[0].template.count == 2 && cs[0].template.pattern == Join(MergeTokens(a, b))
  {
    FirstIsAlone(cfg, rules, e, a);
    SecondJoins(cfg, rules, e, f, a, b);
    ClustersAreFaithful(cfg, rules, [e, f], 0);
  }

  lemma SecondKeepsApart(cfg: DrainConfig, rules: Rules, st: State, f: LogEntry, a: seq<string>, b: seq<string>)
    requires Sane(cfg) && cfg.maxClusters >= 2 && Shape(st) && |st.clusters| == 1
    requires st.clusters[0].tokens == a && st.clusters[0].template.pattern == Join(a)
    requires b == Fields(rules.mask(f.message)) != [] && !Resembles(cfg.simThreshold, a, b)
    ensures var cs := Add(cfg, rules, st, f).0.clusters;
      |cs| == 2 && cs[0].template.pattern == Join(a) && cs[1].template.pattern == Join(b)
  {
    UnlikeMakesItsOwn(cfg, rules, st, f, b);
    assert Add(cfg, rules, st, f).0.clusters[..1][0] == st.clusters[0];
  }

  lemma TwoUnlike(cfg: DrainConfig, rules: Rules, e: LogEntry, f: LogEntry, a: seq<string>, b: seq<string>)
    requires Sane(cfg) && cfg.maxClusters >= 2 && !Resembles(cfg.simThreshold, a, b)
    requires a == Fields(rules.mask(e.message)) != [] && b == Fields(rules.mask(f.message)) != []
    ensures var cs := Run(cfg, rules, [e, f]).0.clusters;
      |cs| == 2 && cs[0].template.pattern == Join(a) && cs[1].template.pattern == Join(b)
  {
    FirstMessage(cfg, rules, e, a);
    SecondMessage(cfg, rules, e, f);
    SecondKeepsApart(cfg, rules, Run(cfg, rules, [e]).0, f, a, b);
  }

  /**
    Two messages and an empty engine. Routed alike, they end in one cluster exactly when they resemble each other;
    its pattern then is their merge.
   */
  lemma TwoMessages(cfg: DrainConfig, rules: Rules, e: LogEntry, f: LogEntry, a: seq<string>, b: seq<string>)
    requires Sane(cfg) && cfg.maxClusters >= 2 && RoutedAlike(cfg.maxDepth, a, b)
    requires a == Fields(rules.mask(e.message)) != [] && b == Fields(rules.mask(f.message)) != []
    ensures var cs := Run(cfg, rules, [e, f]).0.clusters;
      if Resembles(cfg.simThreshold, a, b) then
        |cs| == 1 && cs[0].template.count == 2 && cs[0].template.pattern == Join(MergeTokens(a, b))
      else
        |cs| == 2 && cs[0].template.pattern == Join(a) && cs[1].template.pattern == Join(b)
  {
    if Resembles(cfg.simThreshold, a, b) {
      TwoAlike(cfg, rules, e, f, a, b);
    } else {
      TwoUnlike(cfg, rules, e, f, a, b);
    }
  }

  // ---- routed apart ------------------------------------------------------

  /** No node n keys down or further is full. */
  ghost predicate RoomFrom(mc: nat, tree: Tree, n: nat) {
    forall q: Path | |q| >= n :: |tree.Kids(q)| < mc
  }

  lemma OpenLeavesRoom(mc: nat, tree: Tree, p: Path, k: string)
    requires RoomFrom(mc, tree, |p|)
    ensures RoomFrom(mc, tree.Open(p, k), |p| + 1)
  {
    KidsOfOpen(tree, p, k);
  }

  lemma GrowNextStraight(mc: nat, tree: Tree, p: Path, keys: Path, k: string, child: Path)
    requires |keys| != 0 && |tree.Kids(p)| < mc && k == keys[0] && child == p + [k]
    ensures Grow(mc, tree, p, keys) == Grow(mc, tree.Open(p, k), child, keys[1..])
    ensures child + keys[1..] == p + keys && |child| == |p| + 1
  {
    assert ChildKey(mc, tree, p, k) == k;
  }

  /** While there is room from p down, the keys are followed as they are. */
  lemma {:induction false} GrowIsStraight(mc: nat, tree: Tree, p: Path, keys: Path)
    requires RoomFrom(mc, tree, |p|)
    ensures Grow(mc, tree, p, keys).1 == p + keys
    decreases |keys|
  {
    if |keys| != 0 {
      GrowNextStraight(mc, tree, p, keys, keys[0], p + [keys[0]]);
      OpenLeavesRoom(mc, tree, p, keys[0]);
      GrowIsStraight(mc, tree.Open(p, keys[0]), p + [keys[0]], keys[1..]);
    }
  }

  /** A descent gives each node at most one more child, and those above p none. */
  lemma {:induction false} GrowAddsOne(mc: nat, tree: Tree, p: Path, keys: Path, q: Path)
    ensures |Grow(mc, tree, p, keys).0.Kids(q)| <= |tree.Kids(q)| + if |q| >= |p| then 1 else 0
    decreases |keys|
  {
    if |keys| != 0 {
      var k := ChildKey(mc, tree, p, keys[0]);
      KidsOfOpen(tree, p, k);
      GrowAddsOne(mc, tree.Open(p, k), p + [k], keys[1..], q);
    }
  }

  /** No node branches. */
  ghost predicate Thin(tree: Tree) {
    forall q: Path :: |tree.Kids(q)| <= 1
  }

  lemma FirstDescentIsThin(mc: nat, keys: Path)
    requires mc >= 2
    ensures Thin(Grow(mc, ROOT_ONLY, [], keys).0) && Grow(mc, ROOT_ONLY, [], keys).1 == keys
  {
    GrowIsStraight(mc, ROOT_ONLY, [], keys);
    assert [] + keys == keys;
    forall q: Path ensures |Grow(mc, ROOT_ONLY, [], keys).0.Kids(q)| <= 1 {
      GrowAddsOne(mc, ROOT_ONLY, [], keys, q);
    }
  }

  lemma SettlesNew(cfg: DrainConfig, rules: Rules, st: State, leaf: Path, tokens: seq<string>, e: LogEntry)
    requires Sane(cfg) && Shape(st) && |st.clusters| < cfg.maxClusters && st.tree.Attached(leaf) == []
    ensures var (next, j) := Settle(cfg, rules, st, leaf, tokens, e);
      next == State(st.tree.Attach(leaf, |st.clusters|), st.clusters + [NewCluster(rules, leaf, tokens, e)], st.strayed)
  {
  }

  lemma AttachKeepsThin(tree: Tree, leaf: Path, j: nat)
    requires Thin(tree)
    ensures Thin(tree.Attach(leaf, j))
  {
    forall q: Path ensures |tree.Attach(leaf, j).Kids(q)| <= 1 {
      assert tree.Attach(leaf, j).Kids(q) == tree.Kids(q);
    }
  }

  lemma FirstTakesItsRoute(cfg: DrainConfig, rules: Rules, e: LogEntry, a: seq<string>)
    requires Sane(cfg) && cfg.maxChildren >= 2 && a == Fields(rules.mask(e.message)) != []
    ensures var st := Add(cfg, rules, EMPTY, e).0;
      |st.clusters| == 1 && st.clusters[0].leaf == RouteKeys(cfg.maxDepth, a) && Thin(st.tree)
  {
    FirstDescentIsThin(cfg.maxChildren, RouteKeys(cfg.maxDepth, a));
    var (grown, leaf) := Arrive(cfg, EMPTY, a);
    GrowKeepsAttached(cfg.maxChildren, ROOT_ONLY, [], RouteKeys(cfg.maxDepth, a));
    SettlesNew(cfg, rules, grown, leaf, a, e);
    AttachKeepsThin(grown.tree, leaf, 0);
  }

  lemma ElsewhereIsEmpty(cfg: DrainConfig, st: State, b: seq<string>)
    requires Shape(st) && |st.clusters| == 1 && st.clusters[0].leaf != RouteKeys(cfg.maxDepth, b)
    requires cfg.maxChildren >= 2 && Thin(st.tree)
    ensures var (grown, leaf) := Arrive(cfg, st, b); grown.clusters == st.clusters && grown.tree.Attached(leaf) == []
  {
    var keys := RouteKeys(cfg.maxDepth, b);
    GrowIsStraight(cfg.maxChildren, st.tree, [], keys);
    assert [] + keys == keys;
    var (grown, leaf) := Arrive(cfg, st, b);
    OnlyAt(grown, keys);
  }

  lemma AttachedAtLeaf(st: State, leaf: Path, i: nat)
    requires Shape(st) && i < |st.tree.Attached(leaf)|
    ensures st.tree.Attached(leaf)[i] < |st.clusters| && st.clusters[st.tree.Attached(leaf)[i]].leaf == leaf
  {
  }

  lemma OnlyAt(st: State, leaf: Path)
    requires Shape(st) && |st.clusters| == 1 && st.clusters[0].leaf != leaf
    ensures st.tree.Attached(leaf) == []
  {
    if st.tree.Attached(leaf) != [] {
      AttachedAtLeaf(st, leaf, 0);
    }
  }

  lemma FirstIsAdded(cfg: DrainConfig, rules: Rules, e: LogEntry)
    requires cfg.maxClusters >= 1
    ensures Run(cfg, rules, [e]).0 == Add(cfg, rules, EMPTY, e).0
  {
    assert [e][..0] == [];
    assert Run(cfg, rules, []) == (EMPTY, []);
  }

  lemma AloneAtItsLeaf(cfg: DrainConfig, rules: Rules, st: State, f: LogEntry, b: seq<string>)
    requires Sane(cfg) && cfg.maxClusters >= 2 && cfg.maxChildren >= 2 && b == Fields(rules.mask(f.message)) != []
    requires Shape(st) && |st.clusters| == 1 && st.clusters[0].leaf != RouteKeys(cfg.maxDepth, b) && Thin(st.tree)
    ensures var cs := Add(cfg, rules, st, f).0.clusters;
      |cs| == 2 && cs[0] == st.clusters[0] && cs[1].template.pattern == Join(b)
  {
    ElsewhereIsEmpty(cfg, st, b);
    var (grown, leaf) := Arrive(cfg, st, b);
    SettlesNew(cfg, rules, grown, leaf, b, f);
  }

  /** Two messages that are not routed alike end in two templates, however alike they read. */
  lemma TwoRoutedApart(cfg: DrainConfig, rules: Rules, e: LogEntry, f: LogEntry, a: seq<string>, b: seq<string>)
    requires Sane(cfg) && cfg.maxClusters >= 2 && cfg.maxChildren >= 2 && !RoutedAlike(cfg.maxDepth, a, b)
    requires a == Fields(rules.mask(e.message)) != [] && b == Fields(rules.mask(f.message)) != []
    ensures var cs := Run(cfg, rules, [e, f]).0.clusters;
      |cs| == 2 && cs[0].template.pattern == Join(a) && cs[1].template.pattern == Join(b)
  {
    FirstMessage(cfg, rules, e, a);
    FirstTakesItsRoute(cfg, rules, e, a);
    FirstIsAdded(cfg, rules, e);
    RoutesAreAlike(cfg.maxDepth, a, b);
    SecondMessage(cfg, rules, e, f);
    AloneAtItsLeaf(cfg, rules, Run(cfg, rules, [e]).0, f, b);
  }

  // ---- what a cluster publishes of its members ---------------------------

  /** The published severity is the first of the highest rank among the members. */
  ghost predicate Outranks(c: Cluster) {
    exists k :: OutranksAt(c.members, c.template.severity, k)
  }

  predicate OutranksAt(members: seq<Member>, severity: string, k: int) {
    && 0 <= k < |members| && members[k].entry.severity == severity
    && (forall i | 0 <= i < k :: SeverityRank(members[i].entry.severity) < SeverityRank(severity))
    && forall i | 0 <= i < |members| :: SeverityRank(members[i].entry.severity) <= SeverityRank(severity)
  }

  /** The pattern as the first k members left it. */
  ghost function PatternAt(members: seq<Member>, k: nat): (tokens: seq<string>)
    requires 0 < k <= |members|
    ensures |tokens| == |members[0].tokens|
  {
    seq(|members[0].tokens|, i requires 0 <= i < |members[0].tokens| =>
      if Unanimous(members[..k], i) then members[0].tokens[i] else WILDCARD)
  }

  /** What member k filled the wildcards of that pattern with. */
  ghost function Row(members: seq<Member>, k: nat): seq<string>
    requires 0 < k < |members|
  {
    ExtractVars(PatternAt(members, k), members[k].tokens)
  }

  /** Which of the first n members filled any. */
  ghost function Filling(members: seq<Member>, n: nat): set<int>
    requires n <= |members|
  {
    set k | 0 < k < n && Row(members, k) != []
  }

  /** The rows shown are those of the first three members that filled any, in order. */
  ghost predicate ShowsRows(members: seq<Member>, n: nat, rows: seq<seq<string>>)
    requires n <= |members|
  {
    && |rows| == (if |Filling(members, n)| < 3 then |Filling(members, n)| else 3)
    && forall k | 0 < k < n && Row(members, k) != [] && |Filling(members, k)| < |rows| ::
         rows[|Filling(members, k)|] == Row(members, k)
  }

  lemma FillingIsCounted(members: seq<Member>, n: nat) returns (marks: seq<bool>)
    requires n <= |members|
    ensures |marks| == |members| && forall k | 0 < k < |members| :: marks[k] == (Row(members, k) != [])
    ensures forall k: nat | k <= n :: Filling(members, k) == Where(marks, k)
  {
    marks := seq(|members|, k requires 0 <= k < |members| => k != 0 && Row(members, k) != []);
  }

  lemma FillingNext(members: seq<Member>, n: nat)
    requires 0 < n < |members|
    ensures |Filling(members, n + 1)| == |Filling(members, n)| + if Row(members, n) != [] then 1 else 0
  {
    var marks := FillingIsCounted(members, n + 1);
    WhereNext(marks, n);
  }

  lemma FillingGrows(members: seq<Member>, k: nat, n: nat)
    requires 0 < k < n <= |members| && Row(members, k) != []
    ensures |Filling(members, k)| < |Filling(members, n)|
  {
    var marks := FillingIsCounted(members, n);
    WhereGrows(marks, k, n);
  }

  lemma RowsNext(members: seq<Member>, n: nat, rows: seq<seq<string>>, next: seq<seq<string>>)
    requires 0 < n < |members| && ShowsRows(members, n, rows)
    requires next == if Row(members, n) != [] && |rows| < 3 then rows + [Row(members, n)] else rows
    ensures ShowsRows(members, n + 1, next)
  {
    FillingNext(members, n);
    forall k: nat | 0 < k < n && Row(members, k) != [] ensures |Filling(members, k)| < |Filling(members, n)| {
      FillingGrows(members, k, n);
    }
  }

  lemma RowsAreEarlier(members: seq<Member>, m: Member, k: nat)
    requires 0 < k <= |members|
    ensures PatternAt(members + [m], k) == PatternAt(members, k)
    ensures k < |members| ==> Row(members + [m], k) == Row(members, k)
  {
    assert (members + [m])[..k] == members[..k];
  }

  lemma FillingIsEarlier(members: seq<Member>, m: Member, n: nat)
    requires n <= |members|
    ensures Filling(members + [m], n) == Filling(members, n)
  {
    forall k: nat | 0 < k < n ensures Row(members + [m], k) == Row(members, k) {
      RowsAreEarlier(members, m, k);
    }
  }

  lemma ShowsEarlier(members: seq<Member>, m: Member, rows: seq<seq<string>>)
    requires ShowsRows(members, |members|, rows)
    ensures ShowsRows(members + [m], |members|, rows)
  {
    FillingIsEarlier(members, m, |members|);
    forall k: nat | 0 < k < |members|
      ensures Row(members + [m], k) == Row(members, k) && Filling(members + [m], k) == Filling(members, k)
    {
      RowsAreEarlier(members, m, k);
      FillingIsEarlier(members, m, k);
    }
  }

  ghost predicate Shown(c: Cluster) {
    Outranks(c) && ShowsRows(c.members, |c.members|, c.template.exampleVars)
  }

  ghost predicate AllShown(cs: seq<Cluster>) {
    forall j | 0 <= j < |cs| :: Shown(cs[j])
  }

  lemma NewIsShown(rules: Rules, leaf: Path, tokens: seq<string>, e: LogEntry)
    ensures Shown(NewCluster(rules, leaf, tokens, e))
  {
    var c := NewCluster(rules, leaf, tokens, e);
    assert OutranksAt(c.members, c.template.severity, 0);
    assert Filling(c.members, 1) == {};
  }

  lemma AbsorbOutranks(rules: Rules, c: Cluster, m: Member)
    requires Outranks(c)
    ensures Outranks(Absorb(rules, c, m))
  {
    var d := Absorb(rules, c, m);
    var k :| OutranksAt(c.members, c.template.severity, k);
    if SeverityRank(m.entry.severity) > SeverityRank(c.template.severity) {
      assert OutranksAt(d.members, d.template.severity, |c.members|);
    } else {
      assert OutranksAt(d.members, d.template.severity, k);
    }
  }

  lemma AbsorbShowsRows(rules: Rules, c: Cluster, m: Member)
    requires BroadenedFrom(c) && ShowsRows(c.members, |c.members|, c.template.exampleVars)
    ensures var d := Absorb(rules, c, m); ShowsRows(d.members, |d.members|, d.template.exampleVars)
  {
    var n, members := |c.members|, c.members + [m];
    ShowsEarlier(c.members, m, c.template.exampleVars);
    assert members[..n] == c.members;
    assert PatternAt(members, n) == c.tokens;
    RowsNext(members, n, c.template.exampleVars, Absorb(rules, c, m).template.exampleVars);
  }

  lemma AppendKeepsAllShown(rules: Rules, cs: seq<Cluster>, leaf: Path, tokens: seq<string>, e: LogEntry)
    requires AllShown(cs)
    ensures AllShown(cs + [NewCluster(rules, leaf, tokens, e)])
  {
    NewIsShown(rules, leaf, tokens, e);
  }

  lemma AbsorbKeepsAllShown(rules: Rules, cs: seq<Cluster>, j: nat, m: Member)
    requires j < |cs| && BroadenedFrom(cs[j]) && AllShown(cs)
    ensures AllShown(cs[j := Absorb(rules, cs[j], m)])
  {
    AbsorbOutranks(rules, cs[j], m);
    AbsorbShowsRows(rules, cs[j], m);
  }

  lemma SettleKeepsShown(cfg: DrainConfig, rules: Rules, st: State, leaf: Path, tokens: seq<string>, e: LogEntry)
    requires cfg.maxClusters >= 1 && Shape(st) && AllFaithful(rules, st.clusters) && AllShown(st.clusters)
    ensures AllShown(Settle(cfg, rules, st, leaf, tokens, e).0.clusters)
  {
    var (via, j) := Place(cfg, st.clusters, st.tree.Attached(leaf), tokens);
    if via.Created? {
      AppendKeepsAllShown(rules, st.clusters, leaf, tokens, e);
    } else {
      SettleJoins(cfg, rules, st, leaf, tokens, e);
      assert Faithful(rules, st.clusters[j]);
      AbsorbKeepsAllShown(rules, st.clusters, j, Member(tokens, e, via));
    }
  }

  /**
    In every run, each cluster's severity is the first of the highest rank among its members, and its example rows
    are what the first three members that filled wildcards of the pattern they met filled them with.
   */
  lemma {:induction false} ClustersShowTheirMembers(cfg: DrainConfig, rules: Rules, entries: seq<LogEntry>)
    requires Sane(cfg)
    ensures AllShown(Run(cfg, rules, entries).0.clusters)
    decreases |entries|
  {
    if |entries| != 0 {
      var front, e := entries[..|entries| - 1], entries[|entries| - 1];
      ClustersShowTheirMembers(cfg, rules, front);
      RunKeepsInv(cfg, rules, front);
      AddKeepsShown(cfg, rules, Run(cfg, rules, front).0, e);
    }
  }

  lemma AddKeepsShown(cfg: DrainConfig, rules: Rules, st: State, e: LogEntry)
    requires cfg.maxClusters >= 1 && Shape(st) && AllFaithful(rules, st.clusters) && AllShown(st.clusters)
    ensures AllShown(Add(cfg, rules, st, e).0.clusters)
  {
    var tokens := Tokenize(rules, e);
    if |tokens| != 0 {
      var (grown, leaf) := Arrive(cfg, st, tokens);
      SettleKeepsShown(cfg, rules, grown, leaf, tokens, e);
    }
  }
}
