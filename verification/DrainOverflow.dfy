/** What an overflow merge leaves behind: a run in which two templates end up with one id. */
module DrainOverflow {

  import opened Strings
  import opened Model
  import opened Tokens
  import opened PrefixTree
  import opened Drain
  import opened DrainTheorems

  // ---- the step, for any state at the cap --------------------------------

  /** Two two-word patterns of one second word, in leaves of their own, among clusters of other token counts. */
  ghost predicate Pair(cs: seq<Cluster>, x: string, y: string, z: string) {
    && |cs| >= 2
    && cs[0].tokens == [x, z] && cs[1].tokens == [y, z]
    && cs[0].leaf != cs[1].leaf
    && forall i | 2 <= i < |cs| :: |cs[i].tokens| != 2 && cs[i].leaf != cs[1].leaf
  }

  lemma Half(x: string, y: string, z: string)
    requires x != y && x != WILDCARD && y != WILDCARD
    ensures Similarity([x, z], [y, z]) == 0.5
    ensures MergeTokens([x, z], [y, z]) == [WILDCARD, z]
  {
    assert Matches([x, z], [y, z], 1) == 0;
  }

  /** At the cap with nothing attached to the leaf, the first of two equally similar clusters wins. */
  lemma FirstWins(cfg: DrainConfig, cs: seq<Cluster>, x: string, y: string, z: string, t: string)
    requires 0.0 <= cfg.simThreshold < 0.5 && |cs| >= cfg.maxClusters >= 1
    requires Pair(cs, x, y, z) && t !in {x, y, WILDCARD} && x != WILDCARD && y != WILDCARD
    ensures Place(cfg, cs, [], [t, z]) == (GlobalMatch, 0)
  {
    Half(x, t, z);
    Half(y, t, z);
    var best := Best(TokensOf(cs), |cs|, [t, z], cfg.simThreshold, true);
    assert Eligible(TokensOf(cs)[0], [t, z], true);
  }

  /** At the second cluster's leaf there is no other cluster to join. */
  lemma SecondWins(cfg: DrainConfig, cs: seq<Cluster>, attached: seq<nat>, y: string, z: string, t: string)
    requires cfg.simThreshold < 0.5 && cfg.maxClusters >= 1
    requires |cs| >= 2 && cs[1].tokens == [y, z] && t !in {y, WILDCARD} && y != WILDCARD
    requires |attached| != 0 && forall i | 0 <= i < |attached| :: attached[i] == 1
    ensures Place(cfg, cs, attached, [t, z]) == (LeafMatch, 1)
  {
    Half(y, t, z);
    assert TokensAt(cs, attached)[0] == [y, z];
  }

  /** The tree changes only by descending: keys that reached a leaf arrive there again. */
  lemma ArrivesWhereRouted(cfg: DrainConfig, st: State, j: nat, tokens: seq<string>)
    requires Shape(st) && j < |st.clusters| && RoutedAt(cfg, st, j)
    requires RouteKeys(cfg.maxDepth, tokens) == RouteKeys(cfg.maxDepth, st.clusters[j].tokens)
    ensures Arrive(cfg, st, tokens).1 == st.clusters[j].leaf
  {
    var keys := RouteKeys(cfg.maxDepth, tokens);
    RoutingIsStable(cfg.maxChildren, st.tree, [], keys, [], keys);
    GrowReaches(cfg.maxChildren, st.tree, [], keys);
  }

  /** The first message overflows into the first cluster, away from every leaf it could be found at. */
  lemma Overflows(cfg: DrainConfig, rules: Rules, st: State, x: string, y: string, z: string, b: string, e: LogEntry)
    requires 0.0 <= cfg.simThreshold < 0.5 && |st.clusters| >= cfg.maxClusters >= 1
    requires Shape(st) && Pair(st.clusters, x, y, z) && RoutedAt(cfg, st, 1)
    requires b !in {x, y, WILDCARD} && x != WILDCARD && y != WILDCARD
    requires Tokenize(rules, e) == [b, z] && st.tree.Attached(Arrive(cfg, st, [b, z]).1) == []
    ensures var next := Add(cfg, rules, st, e).0;
      && Pair(next.clusters, WILDCARD, y, z) && RoutedAt(cfg, next, 1)
      && |next.clusters| == |st.clusters| && next.clusters[0].leaf == st.clusters[0].leaf
        && next.clusters[1] == st.clusters[1]
  {
    var (grown, leaf) := Arrive(cfg, st, [b, z]);
    GrowKeepsAttached(cfg.maxChildren, st.tree, [], RouteKeys(cfg.maxDepth, [b, z]));
    assert grown.tree.Attached(leaf) == [];
    FirstWins(cfg, st.clusters, x, y, z, b);
    Half(x, b, z);
    SettleJoins(cfg, rules, grown, leaf, [b, z], e);
    RoutingIsStable(cfg.maxChildren, st.tree, [], RouteKeys(cfg.maxDepth, [b, z]), [], RouteKeys(cfg.maxDepth, [y, z]));
  }

  /** The second broadens the second cluster into the pattern the first one was broadened to. */
  lemma Meets(cfg: DrainConfig, rules: Rules, st: State, y: string, z: string, c: string, e: LogEntry)
    requires cfg.simThreshold < 0.5 && cfg.maxClusters >= 1
    requires Shape(st) && Pair(st.clusters, WILDCARD, y, z) && RoutedAt(cfg, st, 1)
    requires c !in {y, WILDCARD} && y != WILDCARD
    requires Tokenize(rules, e) == [c, z] && RouteKeys(cfg.maxDepth, [c, z]) == RouteKeys(cfg.maxDepth, [y, z])
    ensures var (grown, leaf) := Arrive(cfg, st, [c, z]); MakesTwins(cfg, grown, leaf, [c, z])
    ensures var next := Add(cfg, rules, st, e).0;
      |next.clusters| == |st.clusters| && next.clusters[0].tokens == [WILDCARD, z] == next.clusters[1].tokens
  {
    var (grown, leaf) := Arrive(cfg, st, [c, z]);
    ArrivesWhereRouted(cfg, st, 1, [c, z]);
    var attached := grown.tree.Attached(leaf);
    assert 1 in attached by {
      assert grown.clusters[1].leaf == leaf;
    }
    forall i | 0 <= i < |attached| ensures attached[i] == 1 {
      assert grown.clusters[attached[i]].leaf == leaf;
    }
    SecondWins(cfg, st.clusters, attached, y, z, c);
    Half(y, c, z);
    SettleJoins(cfg, rules, grown, leaf, [c, z], e);
    assert HeldElsewhere(grown.clusters[0], leaf, [WILDCARD, z]);
  }

  /**
    In any state at the cap: a message that finds no cluster at its leaf broadens the first of two
    clusters, and one routed like the second cluster then makes it the first one's twin.
   */
  lemma TwinsAtTheCap(cfg: DrainConfig, rules: Rules, st: State, x: string, y: string, z: string, b: string, c: string,
        eb: LogEntry, ec: LogEntry)
    requires 0.0 <= cfg.simThreshold < 0.5 && |st.clusters| >= cfg.maxClusters >= 1
    requires Shape(st) && Pair(st.clusters, x, y, z) && RoutedAt(cfg, st, 1)
    requires b !in {x, y, WILDCARD} && c !in {y, WILDCARD} && x != WILDCARD && y != WILDCARD
    requires Tokenize(rules, eb) == [b, z] && st.tree.Attached(Arrive(cfg, st, [b, z]).1) == []
    requires Tokenize(rules, ec) == [c, z] && RouteKeys(cfg.maxDepth, [c, z]) == RouteKeys(cfg.maxDepth, [y, z])
    ensures var cs := Add(cfg, rules, Add(cfg, rules, st, eb).0, ec).0.clusters;
      |cs| == |st.clusters| && cs[0].tokens == cs[1].tokens
  {
    Overflows(cfg, rules, st, x, y, z, b, eb);
    Meets(cfg, rules, Add(cfg, rules, st, eb).0, y, z, c, ec);
  }

  // ---- a run that gets there ---------------------------------------------

  /** The first two keys a descent takes. */
  function FirstKeys(mc: nat, tree: Tree, keys: Path): (string, string)
    requires |keys| >= 2
  {
    var k0 := ChildKey(mc, tree, [], keys[0]);
    (k0, ChildKey(mc, tree, [k0], keys[1]))
  }

  /** What a descent leaves of the two topmost levels. */
  ghost predicate Descended(tree: Tree, k: (string, string), t: Tree) {
    && t.Kids([]) == tree.Kids([]) + {k.0}
    && forall q | |q| == 1 :: t.Kids(q) == if q == [k.0] then tree.Kids(q) + {k.1} else tree.Kids(q)
  }

  lemma OpensTwo(tree: Tree, k: (string, string))
    ensures Descended(tree, k, tree.Open([], k.0).Open([k.0], k.1))
  {
    KidsOfOpen(tree, [], k.0);
    KidsOfOpen(tree.Open([], k.0), [k.0], k.1);
  }

  lemma {:induction false} GrowStaysBelow(mc: nat, tree: Tree, p: Path, keys: Path)
    ensures var (t, leaf) := Grow(mc, tree, p, keys);
      |leaf| == |p| + |keys| && leaf[..|p|] == p && forall q | |q| < |p| :: t.Kids(q) == tree.Kids(q)
    decreases |keys|
  {
    if |keys| != 0 {
      var k := ChildKey(mc, tree, p, keys[0]);
      KidsOfOpen(tree, p, k);
      GrowStaysBelow(mc, tree.Open(p, k), p + [k], keys[1..]);
      var leaf := Grow(mc, tree, p, keys).1;
      assert leaf[..|p|] == leaf[..|p| + 1][..|p|];
    }
  }

  lemma DescendTwo(mc: nat, tree: Tree, keys: Path)
    requires |keys| >= 2
    ensures var k, (t, leaf) := FirstKeys(mc, tree, keys), Grow(mc, tree, [], keys);
      |leaf| >= 2 && leaf[0] == k.0 && leaf[1] == k.1 && Descended(tree, k, t)
  {
    var k := FirstKeys(mc, tree, keys);
    var t0 := tree.Open([], k.0);
    var rest := keys[1..];
    assert Grow(mc, tree, [], keys) == Grow(mc, t0, [k.0], rest) by {
      assert [] + [k.0] == [k.0];
    }
    assert ChildKey(mc, t0, [k.0], keys[1]) == k.1 by {
      assert t0.Kids([k.0]) == tree.Kids([k.0]);
    }
    var t1 := t0.Open([k.0], k.1);
    assert Grow(mc, t0, [k.0], rest) == Grow(mc, t1, [k.0, k.1], rest[1..]) by {
      assert [k.0] + [k.1] == [k.0, k.1];
    }
    OpensTwo(tree, k);
    GrowStaysBelow(mc, t1, [k.0, k.1], rest[1..]);
    var leaf := Grow(mc, t1, [k.0, k.1], rest[1..]).1;
    assert leaf[..2][0] == k.0 && leaf[..2][1] == k.1;
  }

  /** Deep and wide enough to tell the messages apart, and a threshold that half a match exceeds. */
  predicate Roomy(cfg: DrainConfig) {
    0.0 <= cfg.simThreshold < 0.5 && cfg.maxDepth >= 2 && cfg.maxChildren >= 3 && cfg.maxClusters >= 2
  }

  /** The tokens branch on this bucket, then on their first token. */
  lemma KeysOf(cfg: DrainConfig, tokens: seq<string>)
    requires cfg.maxDepth >= 2 && |tokens| != 0
    ensures var keys := RouteKeys(cfg.maxDepth, tokens);
      |keys| >= 2 && keys[0] == TokenCountBucket(|tokens|) && keys[1] == BranchKey(tokens[0])
  {
    RouteKeysAt(cfg.maxDepth, tokens, 0);
  }

  /** No list of more than three tokens shares the bucket of two. */
  lemma LongIsNotShort(n: nat)
    requires n > 3
    ensures TokenCountBucket(n) != TokenCountBucket(2) && WILDCARD != TokenCountBucket(2)
  {
    assert |"short"| == 5 && "short"[0] == 's' && |"medium"| == 6 && "vlong"[0] == 'v' && |"long"| == 4;
  }

  /** First "x z" and "y z", in different leaves; then ever longer lists; at the cap "b z" and "c z". */
  ghost predicate Script(cfg: DrainConfig, rules: Rules, es: seq<LogEntry>, x: string, y: string, z: string, b: string,
        c: string)
  {
    var cap := cfg.maxClusters;
    && |es| == cap + 2 && cap >= 2
    && Tokenize(rules, es[0]) == [x, z] && Tokenize(rules, es[1]) == [y, z]
    && (forall i | 2 <= i < cap :: |Tokenize(rules, es[i])| == i + 2)
    && Tokenize(rules, es[cap]) == [b, z] && Tokenize(rules, es[cap + 1]) == [c, z]
    && !IsWildcard(x) && !IsWildcard(b) && x != b
    && IsWildcard(y) && IsWildcard(c) && y != c && y != WILDCARD && c != WILDCARD
  }

  /** A cluster of these tokens, below these two nodes. */
  predicate Hangs(c: Cluster, k0: string, k1: string) {
    |c.leaf| >= 2 && c.leaf[0] == k0 && c.leaf[1] == k1
  }

  /** Nothing is displaced. */
  ghost predicate Calm(cfg: DrainConfig, rules: Rules, st: State) {
    Inv(cfg, rules, st) && !st.strayed
  }

  /** The first two clusters, both below the node of their bucket, and every other one elsewhere. */
  ghost predicate Laid(cs: seq<Cluster>, short: string, x: string, y: string, z: string) {
    && (|cs| > 0 ==> cs[0].tokens == [x, z] && Hangs(cs[0], short, x))
    && (|cs| > 1 ==> cs[1].tokens == [y, z] && Hangs(cs[1], short, WILDCARD))
    && forall i | 2 <= i < |cs| :: |cs[i].tokens| == i + 2 && |cs[i].leaf| >= 2 && cs[i].leaf[0] != short
  }

  /** The children of that node: the first keys of the short messages so far. */
  ghost predicate Branched(tree: Tree, n: nat, short: string, x: string) {
    && (if n == 0 then tree.Kids([]) == {} else short in tree.Kids([]))
    && tree.Kids([short]) == if n == 0 then {} else if n == 1 then {x} else {x, WILDCARD}
  }

  /** The engine while it fills up. */
  ghost predicate Filled(st: State, n: nat, short: string, x: string, y: string, z: string) {
    |st.clusters| == n && Laid(st.clusters, short, x, y, z) && Branched(st.tree, n, short, x)
  }

  /** The state after a creation. */
  ghost predicate Grew(st: State, tokens: seq<string>, k: (string, string), next: State) {
    && (exists c: Cluster :: next.clusters == st.clusters + [c] && c.tokens == tokens && Hangs(c, k.0, k.1))
    && Descended(st.tree, k, next.tree)
  }

  lemma Creates(cfg: DrainConfig, rules: Rules, st: State, e: LogEntry, tokens: seq<string>, k: (string, string))
    requires Roomy(cfg) && Calm(cfg, rules, st) && |st.clusters| < cfg.maxClusters
    requires Tokenize(rules, e) == tokens != []
    requires |RouteKeys(cfg.maxDepth, tokens)| >= 2
      && k == FirstKeys(cfg.maxChildren, st.tree, RouteKeys(cfg.maxDepth, tokens))
    requires forall i | 0 <= i < |st.clusters| ::
      Hangs(st.clusters[i], k.0, k.1) ==> Similarity(st.clusters[i].tokens, tokens) <= cfg.simThreshold
    ensures Calm(cfg, rules, Add(cfg, rules, st, e).0) && Grew(st, tokens, k, Add(cfg, rules, st, e).0)
  {
    var (grown, leaf) := Arrive(cfg, st, tokens);
    DescendTwo(cfg.maxChildren, st.tree, RouteKeys(cfg.maxDepth, tokens));
    NoMatchCreates(cfg, grown, leaf, tokens);
    AddKeepsInv(cfg, rules, st, e);
    AppendGrows(st, grown, NewCluster(rules, leaf, tokens, e), k);
  }

  lemma AppendGrows(st: State, grown: State, c: Cluster, k: (string, string))
    requires Shape(grown) && grown.clusters == st.clusters && Descended(st.tree, k, grown.tree) && Hangs(c, k.0, k.1)
    ensures Grew(st, c.tokens, k, Append(grown, c))
  {
    assert forall p :: Append(grown, c).tree.Kids(p) == grown.tree.Kids(p);
  }

  lemma FirstKeyOf(mc: nat, tree: Tree, keys: Path, n: nat, short: string, x: string, key: string)
    requires mc >= 3 && n <= 2 && |keys| >= 2 && keys[0] == short && keys[1] == key && Branched(tree, n, short, x)
    ensures FirstKeys(mc, tree, keys) == (short, key)
  {
    assert |{x, WILDCARD}| <= 2;
  }

  lemma BranchesOne(st: State, n: nat, short: string, x: string, key: string, next: Tree)
    requires Branched(st.tree, n, short, x) && n < 2 && key == if n == 0 then x else WILDCARD
    requires Descended(st.tree, (short, key), next)
    ensures Branched(next, n + 1, short, x)
  {
  }

  lemma FillsShort(cfg: DrainConfig, rules: Rules, st: State, n: nat, e: LogEntry, short: string, x: string, y: string,
        z: string)
    requires Roomy(cfg) && n < 2 && Calm(cfg, rules, st) && Filled(st, n, short, x, y, z)
      && short == TokenCountBucket(2)
    requires Tokenize(rules, e) == if n == 0 then [x, z] else [y, z]
    requires !IsWildcard(x) && IsWildcard(y)
    ensures Filled(Add(cfg, rules, st, e).0, n + 1, short, x, y, z)
  {
    var tokens, key := Tokenize(rules, e), if n == 0 then x else WILDCARD;
    KeysOf(cfg, tokens);
    FirstKeyOf(cfg.maxChildren, st.tree, RouteKeys(cfg.maxDepth, tokens), n, short, x, key);
    Creates(cfg, rules, st, e, tokens, (short, key));
    BranchesOne(st, n, short, x, key, Add(cfg, rules, st, e).0.tree);
  }

  lemma BranchesElsewhere(st: State, n: nat, short: string, x: string, k: (string, string), next: Tree)
    requires Branched(st.tree, n, short, x) && n >= 2 && k.0 != short
    requires Descended(st.tree, k, next)
    ensures Branched(next, n + 1, short, x)
  {
    assert [k.0][0] != [short][0];
  }

  /** A token count of its own makes a message unlike every cluster. */
  lemma UnlikeAll(cfg: DrainConfig, cs: seq<Cluster>, short: string, x: string, y: string, z: string,
        tokens: seq<string>)
    requires Laid(cs, short, x, y, z) && |cs| >= 2 && |tokens| == |cs| + 2 && cfg.simThreshold >= 0.0
    ensures forall i | 0 <= i < |cs| :: Similarity(cs[i].tokens, tokens) <= cfg.simThreshold
  {
    forall i | 0 <= i < |cs| ensures Similarity(cs[i].tokens, tokens) <= cfg.simThreshold {
      assert |cs[i].tokens| == if i < 2 then 2 else i + 2;
    }
  }

  lemma ElsewhereFirst(mc: nat, tree: Tree, keys: Path, short: string)
    requires |keys| >= 2 && keys[0] != short && WILDCARD != short
    ensures FirstKeys(mc, tree, keys).0 != short
  {
  }

  lemma LaysMore(st: State, short: string, x: string, y: string, z: string, tokens: seq<string>, k: (string, string),
        next: State)
    requires Laid(st.clusters, short, x, y, z) && |st.clusters| >= 2
    requires Grew(st, tokens, k, next) && |tokens| == |st.clusters| + 2 && k.0 != short
    ensures |next.clusters| == |st.clusters| + 1 && Laid(next.clusters, short, x, y, z)
  {
    var c: Cluster :| next.clusters == st.clusters + [c] && c.tokens == tokens && Hangs(c, k.0, k.1);
  }

  /** Another message of a new length. */
  lemma FillsMore(cfg: DrainConfig, rules: Rules, st: State, n: nat, e: LogEntry, short: string, x: string, y: string,
        z: string)
    requires Roomy(cfg) && 2 <= n < cfg.maxClusters && Calm(cfg, rules, st) && Filled(st, n, short, x, y, z)
      && short == TokenCountBucket(2)
    requires |Tokenize(rules, e)| == n + 2
    ensures Filled(Add(cfg, rules, st, e).0, n + 1, short, x, y, z)
  {
    var tokens := Tokenize(rules, e);
    KeysOf(cfg, tokens);
    var k := FirstKeys(cfg.maxChildren, st.tree, RouteKeys(cfg.maxDepth, tokens));
    LongIsNotShort(n + 2);
    ElsewhereFirst(cfg.maxChildren, st.tree, RouteKeys(cfg.maxDepth, tokens), short);
    UnlikeAll(cfg, st.clusters, short, x, y, z, tokens);
    Creates(cfg, rules, st, e, tokens, k);
    LaysMore(st, short, x, y, z, tokens, k, Add(cfg, rules, st, e).0);
    BranchesElsewhere(st, n, short, x, k, Add(cfg, rules, st, e).0.tree);
  }

  lemma OccupiedLeaf(st: State, leaf: Path)
    requires Shape(st)
    ensures st.tree.Attached(leaf) != [] ==> exists j | 0 <= j < |st.clusters| :: st.clusters[j].leaf == leaf
  {
    if st.tree.Attached(leaf) != [] {
      var j := st.tree.Attached(leaf)[0];
      assert st.clusters[j].leaf == leaf;
    }
  }

  /** No cluster hangs off the node of a third first key. */
  lemma EmptyLeaf(st: State, leaf: Path, short: string, x: string, y: string, z: string, b: string)
    requires Shape(st) && |st.clusters| >= 2 && Laid(st.clusters, short, x, y, z)
    requires |leaf| >= 2 && leaf[0] == short && leaf[1] == b && b !in {x, WILDCARD}
    ensures st.tree.Attached(leaf) == []
  {
    OccupiedLeaf(st, leaf);
  }

  lemma LaidIsPair(cs: seq<Cluster>, short: string, x: string, y: string, z: string)
    requires |cs| >= 2 && Laid(cs, short, x, y, z) && x != WILDCARD
    ensures Pair(cs, x, y, z)
  {
  }

  /** The full engine is one in which two more messages make twins. */
  lemma FullEngine(cfg: DrainConfig, rules: Rules, st: State, n: nat, short: string, x: string, y: string, z: string,
        b: string)
    requires Roomy(cfg) && n >= 2 && Calm(cfg, rules, st) && Filled(st, n, short, x, y, z)
      && short == TokenCountBucket(2)
    requires !IsWildcard(x) && !IsWildcard(b) && x != b
    ensures Pair(st.clusters, x, y, z) && RoutedAt(cfg, st, 1)
    ensures st.tree.Attached(Arrive(cfg, st, [b, z]).1) == []
  {
    var keys := RouteKeys(cfg.maxDepth, [b, z]);
    LaidIsPair(st.clusters, short, x, y, z);
    KeysOf(cfg, [b, z]);
    FirstKeyOf(cfg.maxChildren, st.tree, keys, 2, short, x, b);
    DescendTwo(cfg.maxChildren, st.tree, keys);
    EmptyLeaf(st, Arrive(cfg, st, [b, z]).1, short, x, y, z, b);
  }

  lemma SameRoute(maxDepth: nat, y: string, c: string, z: string)
    requires IsWildcard(y) && IsWildcard(c)
    ensures RouteKeys(maxDepth, [c, z]) == RouteKeys(maxDepth, [y, z])
  {
    assert BranchKey(c) == BranchKey(y);
  }

  /** The step after a state below the cap displaces nothing. */
  lemma CalmAfter(cfg: DrainConfig, rules: Rules, es: seq<LogEntry>, n: nat)
    requires Roomy(cfg) && n < |es| && |StateAt(cfg, rules, es, n).clusters| < cfg.maxClusters
    ensures Calm(cfg, rules, StateAt(cfg, rules, es, n)) && Calm(cfg, rules, StateAt(cfg, rules, es, n + 1))
  {
    RunKeepsInv(cfg, rules, es[..n]);
    RunKeepsInv(cfg, rules, es[..n + 1]);
    BelowCapNothingStrays(cfg, rules, es[..n]);
    StateStep(cfg, rules, es, n);
    ClustersOnlyGrow(cfg, rules, StateAt(cfg, rules, es, n), es[n]);
  }

  lemma FillsNext(cfg: DrainConfig, rules: Rules, es: seq<LogEntry>, n: nat, st: State, short: string, x: string,
        y: string, z: string, b: string, c: string)
    requires Roomy(cfg) && Script(cfg, rules, es, x, y, z, b, c) && n < cfg.maxClusters && short == TokenCountBucket(2)
    requires Calm(cfg, rules, st) && Filled(st, n, short, x, y, z)
    ensures Filled(Add(cfg, rules, st, es[n]).0, n + 1, short, x, y, z)
  {
    if n < 2 {
      FillsShort(cfg, rules, st, n, es[n], short, x, y, z);
    } else {
      FillsMore(cfg, rules, st, n, es[n], short, x, y, z);
    }
  }

  lemma StartsEmpty(short: string, x: string, y: string, z: string)
    ensures Filled(EMPTY, 0, short, x, y, z)
  {
  }

  lemma {:induction false} FillsUp(cfg: DrainConfig, rules: Rules, es: seq<LogEntry>, n: nat, short: string, x: string,
        y: string, z: string, b: string, c: string)
    requires Roomy(cfg) && Script(cfg, rules, es, x, y, z, b, c) && n <= cfg.maxClusters && short == TokenCountBucket(2)
    ensures Filled(StateAt(cfg, rules, es, n), n, short, x, y, z)
  {
    if n == 0 {
      assert es[..0] == [];
      StartsEmpty(short, x, y, z);
    } else {
      FillsUp(cfg, rules, es, n - 1, short, x, y, z, b, c);
      StateStep(cfg, rules, es, n - 1);
      CalmAfter(cfg, rules, es, n - 1);
      FillsNext(cfg, rules, es, n - 1, StateAt(cfg, rules, es, n - 1), short, x, y, z, b, c);
    }
  }

  /** Clusters of equal tokens share their id. */
  lemma SameTokensSameId(cfg: DrainConfig, rules: Rules, entries: seq<LogEntry>, i: nat, j: nat)
    requires Sane(cfg) && i < |Run(cfg, rules, entries).0.clusters| && j < |Run(cfg, rules, entries).0.clusters|
    ensures var cs := Run(cfg, rules, entries).0.clusters;
      cs[i].tokens == cs[j].tokens ==> cs[i].template.id == cs[j].template.id
  {
    ClustersAreFaithful(cfg, rules, entries, i);
    ClustersAreFaithful(cfg, rules, entries, j);
  }

  /** The last two messages of the script, in the engine it has filled. */
  lemma EndsInTwins(cfg: DrainConfig, rules: Rules, es: seq<LogEntry>, st: State, x: string, y: string, z: string,
        b: string, c: string)
    requires Roomy(cfg) && Script(cfg, rules, es, x, y, z, b, c) && st == StateAt(cfg, rules, es, cfg.maxClusters)
    requires |st.clusters| == cfg.maxClusters && Pair(st.clusters, x, y, z) && RoutedAt(cfg, st, 1)
    requires st.tree.Attached(Arrive(cfg, st, [b, z]).1) == []
    ensures TwinStep(cfg, rules, es, cfg.maxClusters + 1)
    ensures var cs := StateAt(cfg, rules, es, cfg.maxClusters + 2).clusters;
      |cs| == cfg.maxClusters && cs[0].tokens == cs[1].tokens
  {
    var cap := cfg.maxClusters;
    StateStep(cfg, rules, es, cap);
    StateStep(cfg, rules, es, cap + 1);
    SameRoute(cfg.maxDepth, y, c, z);
    Overflows(cfg, rules, st, x, y, z, b, es[cap]);
    Meets(cfg, rules, StateAt(cfg, rules, es, cap + 1), y, z, c, es[cap + 1]);
  }

  /**
    Distinctness fails in a run of any configuration of this size: an overflow merge broadens a cluster
    away from its leaf, and a later, ordinary merge gives another cluster the same pattern and id.
   */
  lemma OverflowLeavesTwins(cfg: DrainConfig, rules: Rules, es: seq<LogEntry>, x: string, y: string, z: string,
        b: string, c: string)
    requires Roomy(cfg) && Script(cfg, rules, es, x, y, z, b, c)
    ensures TwinStep(cfg, rules, es, cfg.maxClusters + 1)
    ensures var cs := Run(cfg, rules, es).0.clusters;
      |cs| == cfg.maxClusters && cs[0].tokens == cs[1].tokens && cs[0].template.id == cs[1].template.id
  {
    var st := StateAt(cfg, rules, es, cfg.maxClusters);
    var short := TokenCountBucket(2);
    FillsUp(cfg, rules, es, cfg.maxClusters - 1, short, x, y, z, b, c);
    FillsUp(cfg, rules, es, cfg.maxClusters, short, x, y, z, b, c);
    CalmAfter(cfg, rules, es, cfg.maxClusters - 1);
    FullEngine(cfg, rules, st, cfg.maxClusters, short, x, y, z, b);
    EndsInTwins(cfg, rules, es, st, x, y, z, b, c);
    WholeRun(cfg, rules, es);
    SameTokensSameId(cfg, rules, es, 0, 1);
  }

  lemma WholeRun(cfg: DrainConfig, rules: Rules, es: seq<LogEntry>)
    requires cfg.maxClusters >= 1
    ensures StateAt(cfg, rules, es, |es|) == Run(cfg, rules, es).0
  {
    assert es[..|es|] == es;
  }

  // ---- the words of such a run -------------------------------------------

  function Says(words: seq<string>): LogEntry {
    LogEntry(0, INFO, Join(words), map[])
  }

  /** The token lists of the run, one message each. */
  function WordsOf(cap: nat, i: nat): seq<string> {
    if i == 0 then ["a", "p"]
    else if i == 1 then ["1", "p"]
    else if i == cap then ["b", "p"]
    else if i == cap + 1 then ["2", "p"]
    else seq(i + 2, _ => "w")
  }

  lemma AllAreWords(cap: nat, i: nat)
    ensures AreWords(WordsOf(cap, i))
  {
    assert IsWord("a") && IsWord("b") && IsWord("1") && IsWord("2") && IsWord("p") && IsWord("w");
  }

  lemma WhichAreWildcards()
    ensures !IsWildcard("a") && !IsWildcard("b") && IsWildcard("1") && IsWildcard("2")
    ensures "a" != "b" && "1" != "2" && "1" != WILDCARD && "2" != WILDCARD
  {
    assert '0' <= "1"[0] <= '9' && '0' <= "2"[0] <= '9';
    assert "a"[0] != "b"[0] && "1"[0] != "2"[0] && |WILDCARD| == 3;
  }

  function Messages(cap: nat): (es: seq<LogEntry>)
    ensures |es| == cap + 2
  {
    seq(cap + 2, i requires 0 <= i < cap + 2 => Says(WordsOf(cap, i)))
  }

  /**
    The messages exist: "a p", "1 p", "w w w w" and longer, "b p", "2 p". All that is asked of the
    masking expressions is that they leave these messages alone.
   */
  lemma TwinsAreSaid(cfg: DrainConfig, rules: Rules)
    requires Roomy(cfg) && forall e | e in Messages(cfg.maxClusters) :: rules.mask(e.message) == e.message
    ensures Script(cfg, rules, Messages(cfg.maxClusters), "a", "1", "p", "b", "2")
    ensures !DistinctTokens(Run(cfg, rules, Messages(cfg.maxClusters)).0)
  {
    var cap := cfg.maxClusters;
    var es := Messages(cap);
    forall i | 0 <= i < cap + 2 ensures Tokenize(rules, es[i]) == WordsOf(cap, i) {
      assert es[i] in es;
      AllAreWords(cap, i);
      FieldsOfJoin(WordsOf(cap, i));
    }
    WhichAreWildcards();
    OverflowLeavesTwins(cfg, rules, es, "a", "1", "p", "b", "2");
  }
}
