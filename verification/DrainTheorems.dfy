/** What every run of the Drain engine keeps. */
module DrainTheorems {

  import opened Wrappers
  import opened Strings
  import opened Model
  import opened Tokens
  import opened PrefixTree
  import opened Drain

  // ---- one cluster and its members ---------------------------------------

  /** Every equal-length member has the creator's token at i, or the wildcard. */
  ghost predicate Unanimous(members: seq<Member>, i: nat)
    requires |members| != 0 && i < |members[0].tokens|
  {
    forall m | m in members && |m.tokens| == |members[0].tokens| ::
      m.tokens[i] == members[0].tokens[i] || m.tokens[i] == WILDCARD
  }

  /**
    The closed form of broadening: a position still holds the creator's token exactly when no
    equal-length member ever disagreed with it there.
   */
  ghost predicate BroadenedFrom(c: Cluster) {
    && |c.members| != 0
    && |c.tokens| == |c.members[0].tokens|
    && forall i | 0 <= i < |c.tokens| ::
      c.tokens[i] == if Unanimous(c.members, i) then c.members[0].tokens[i] else WILDCARD
  }

  /** The published fields follow the tokens and the severity. */
  ghost predicate Published(rules: Rules, c: Cluster) {
    && AreWords(c.tokens) && |c.tokens| != 0
    && c.template.pattern == Join(c.tokens)
    && c.template.id == rules.templateHash(c.template.pattern)
    && c.template.alias == rules.alias(c.template.pattern, c.template.severity)
    && |c.template.exampleVars| <= MAX_EXAMPLE_VARS
  }

  /** Only the overflow fallback admits a member of another token count; only the first member created the cluster. */
  ghost predicate Admitted(c: Cluster) {
    && |c.members| != 0
    && (forall i | 0 <= i < |c.members| :: c.members[i].via.Created? <==> i == 0)
    && (forall m | m in c.members && !m.via.Fallback? :: |m.tokens| == |c.tokens|)
  }

  /** Count, severity and the id's moves. */
  ghost predicate Counted(c: Cluster) {
    && |c.members| != 0
    && c.template.count == |c.members|
    && (forall m | m in c.members :: SeverityRank(m.entry.severity) <= SeverityRank(c.template.severity))
    && (exists m | m in c.members :: m.entry.severity == c.template.severity)
    && c.moves + Literals(c.tokens) <= Literals(c.members[0].tokens)
  }

  /** The observed range: the attained bounds of the non-zero timestamps. */
  ghost predicate Timed(c: Cluster) {
    && |c.members| != 0
    && (forall m | m in c.members :: m.entry.timestamp != ZERO_TIME ==>
      c.template.firstSeen <= m.entry.timestamp <= c.template.lastSeen)
    && (exists m | m in c.members :: m.entry.timestamp == c.template.firstSeen)
    && (exists m | m in c.members :: m.entry.timestamp == c.template.lastSeen)
    && (c.template.firstSeen == ZERO_TIME ==> forall m | m in c.members :: m.entry.timestamp == ZERO_TIME)
  }

  ghost predicate Faithful(rules: Rules, c: Cluster) {
    BroadenedFrom(c) && Published(rules, c) && Admitted(c) && Counted(c) && Timed(c)
  }

  lemma NewClusterFaithful(rules: Rules, leaf: Path, tokens: seq<string>, e: LogEntry)
    requires AreWords(tokens) && |tokens| != 0
    ensures Faithful(rules, NewCluster(rules, leaf, tokens, e))
  {
    var c := NewCluster(rules, leaf, tokens, e);
    assert c.members[0] in c.members;
    assert forall m | m in c.members :: m == c.members[0];
  }

  lemma AbsorbBroadens(rules: Rules, c: Cluster, m: Member)
    requires BroadenedFrom(c)
    ensures BroadenedFrom(Absorb(rules, c, m))
  {
    var d := Absorb(rules, c, m);
    assert d.members[0] == c.members[0];
    forall i | 0 <= i < |d.tokens|
      ensures d.tokens[i] == if Unanimous(d.members, i) then d.members[0].tokens[i] else WILDCARD
    {
      var agrees := |m.tokens| == |c.tokens| ==> m.tokens[i] == c.members[0].tokens[i] || m.tokens[i] == WILDCARD;
      assert Unanimous(d.members, i) <==> Unanimous(c.members, i) && agrees by {
        assert forall x :: x in d.members <==> x in c.members || x == m;
      }
    }
  }

  lemma AbsorbPublishes(rules: Rules, c: Cluster, m: Member)
    requires Published(rules, c)
    ensures Published(rules, Absorb(rules, c, m))
  {
    var d := Absorb(rules, c, m);
    forall i | 0 <= i < |d.tokens| ensures IsWord(d.tokens[i]) {
      assert d.tokens[i] == c.tokens[i] || d.tokens[i] == WILDCARD;
    }
  }

  lemma AbsorbAdmits(rules: Rules, c: Cluster, m: Member)
    requires Admitted(c)
    requires !m.via.Created? && (!m.via.Fallback? ==> |m.tokens| == |c.tokens|)
    ensures Admitted(Absorb(rules, c, m))
  {
  }

  lemma AbsorbCounts(rules: Rules, c: Cluster, m: Member)
    requires Counted(c)
    ensures Counted(Absorb(rules, c, m))
  {
    var d := Absorb(rules, c, m);
    MergeLosesLiterals(c.tokens, m.tokens);
    var top :| top in c.members && top.entry.severity == c.template.severity;
    assert d.members[|c.members|] == m;
    assert top in d.members && m in d.members;
  }

  lemma AbsorbTimes(rules: Rules, c: Cluster, m: Member)
    requires Timed(c)
    ensures Timed(Absorb(rules, c, m))
  {
    var d := Absorb(rules, c, m);
    var first :| first in c.members && first.entry.timestamp == c.template.firstSeen;
    var last :| last in c.members && last.entry.timestamp == c.template.lastSeen;
    assert d.members[|c.members|] == m;
    assert first in d.members && last in d.members && m in d.members;
    assert forall x | x in d.members :: x in c.members || x == m;
  }

  lemma AbsorbFaithful(rules: Rules, c: Cluster, m: Member)
    requires Faithful(rules, c)
    requires !m.via.Created? && (!m.via.Fallback? ==> |m.tokens| == |c.tokens|)
    ensures Faithful(rules, Absorb(rules, c, m))
  {
    AbsorbBroadens(rules, c, m);
    AbsorbPublishes(rules, c, m);
    AbsorbAdmits(rules, c, m);
    AbsorbCounts(rules, c, m);
    AbsorbTimes(rules, c, m);
  }

  ghost predicate AllFaithful(rules: Rules, cs: seq<Cluster>) {
    forall j | 0 <= j < |cs| :: Faithful(rules, cs[j])
  }

  lemma AppendKeepsAllFaithful(rules: Rules, cs: seq<Cluster>, leaf: Path, tokens: seq<string>, e: LogEntry)
    requires AllFaithful(rules, cs) && AreWords(tokens) && |tokens| != 0
    ensures AllFaithful(rules, cs + [NewCluster(rules, leaf, tokens, e)])
  {
    NewClusterFaithful(rules, leaf, tokens, e);
  }

  lemma AbsorbKeepsAllFaithful(rules: Rules, cs: seq<Cluster>, j: nat, m: Member)
    requires AllFaithful(rules, cs) && j < |cs|
    requires !m.via.Created? && (!m.via.Fallback? ==> |m.tokens| == |cs[j].tokens|)
    ensures AllFaithful(rules, cs[j := Absorb(rules, cs[j], m)])
  {
    AbsorbFaithful(rules, cs[j], m);
  }

  // ---- the whole state ---------------------------------------------------

  /** Every cluster's own pattern is still routed to the leaf the cluster hangs off. */
  ghost predicate Routed(cfg: DrainConfig, st: State) {
    forall j | 0 <= j < |st.clusters| :: RoutedAt(cfg, st, j)
  }

  /** The cluster's own pattern leads to the leaf the cluster hangs off. */
  ghost predicate RoutedAt(cfg: DrainConfig, st: State, j: nat)
    requires j < |st.clusters|
  {
    Lookup(cfg.maxChildren, st.tree, [], RouteKeys(cfg.maxDepth, st.clusters[j].tokens)) == Some(st.clusters[j].leaf)
  }

  ghost predicate DistinctTokens(st: State) {
    forall i, j | 0 <= i < j < |st.clusters| :: st.clusters[i].tokens != st.clusters[j].tokens
  }

  /** The threshold is one a fully agreeing message exceeds and a message of another length does not. */
  predicate Sane(cfg: DrainConfig) {
    0.0 <= cfg.simThreshold < 1.0 && cfg.maxClusters >= 1
  }

  lemma GrowKeepsRoutes(cfg: DrainConfig, st: State, keys: Path)
    requires Routed(cfg, st)
    ensures Routed(cfg, State(Grow(cfg.maxChildren, st.tree, [], keys).0, st.clusters, st.strayed))
  {
    var tree := Grow(cfg.maxChildren, st.tree, [], keys).0;
    forall j | 0 <= j < |st.clusters| ensures RoutedAt(cfg, State(tree, st.clusters, st.strayed), j) {
      assert RoutedAt(cfg, st, j);
      RoutingIsStable(cfg.maxChildren, st.tree, [], keys, [], RouteKeys(cfg.maxDepth, st.clusters[j].tokens));
    }
  }

  /** Attaching a cluster to a node moves no route. */
  lemma {:induction false} AttachKeepsLookup(mc: nat, tree: Tree, leaf: Path, j: nat, p: Path, keys: Path)
    ensures Lookup(mc, tree.Attach(leaf, j), p, keys) == Lookup(mc, tree, p, keys)
    decreases |keys|
  {
    if |keys| != 0 {
      AttachKeepsLookup(mc, tree, leaf, j, p + [ChildKey(mc, tree, p, keys[0])], keys[1..]);
    }
  }

  /**
    The heart of distinctness: the merge of a message into the best match never reproduces the pattern
    of another candidate, because that candidate would itself have matched the message fully.
   */
  lemma MergeIntoBestCollidesWithNone(cands: seq<seq<string>>, best: nat, other: nat, tokens: seq<string>)
    requires best < |cands| && other < |cands|
    requires |tokens| != 0 && |cands[best]| == |tokens|
    requires Similarity(cands[other], tokens) <= Similarity(cands[best], tokens)
    requires MergeTokens(cands[best], tokens) == cands[other]
    ensures cands[other] == cands[best]
  {
    MergeFixpoint(cands[best], tokens);
    SimilarityRange(cands[other], tokens);
    SimilarityRange(cands[best], tokens);
  }

  /** A full match exists, so the search above a threshold below one cannot come back empty. */
  lemma FullMatchIsFound(cands: seq<seq<string>>, k: nat, tokens: seq<string>, threshold: real, sameLength: bool)
    requires k < |cands| && threshold < 1.0
    requires |tokens| != 0 && Compatible(cands[k], tokens)
    ensures Best(cands, |cands|, tokens, threshold, sameLength).Some?
  {
    SimilarityRange(cands[k], tokens);
  }

  lemma MatchHasSameLength(cands: seq<seq<string>>, tokens: seq<string>, threshold: real, sameLength: bool)
    requires 0.0 <= threshold
    requires Best(cands, |cands|, tokens, threshold, sameLength).Some?
    ensures |cands[Best(cands, |cands|, tokens, threshold, sameLength).value]| == |tokens|
  {
    SimilarityRange(cands[Best(cands, |cands|, tokens, threshold, sameLength).value], tokens);
  }

  /** An entry that joins an existing cluster through a search has that cluster's token count. */
  lemma PlacedLength(cfg: DrainConfig, cs: seq<Cluster>, attached: seq<nat>, tokens: seq<string>)
    requires Sane(cfg) && forall i | 0 <= i < |attached| :: attached[i] < |cs|
    ensures var (via, j) := Place(cfg, cs, attached, tokens);
      via.LeafMatch? || via.GlobalMatch? ==> |cs[j].tokens| == |tokens|
  {
    var (via, j) := Place(cfg, cs, attached, tokens);
    if via.LeafMatch? {
      MatchHasSameLength(TokensAt(cs, attached), tokens, cfg.simThreshold, false);
    }
  }

  /**
    Token counts mix exactly when the leaf has no match, the cap is reached, no cluster of the same
    token count is similar enough, and the most recent cluster has another one.
   */
  lemma LengthsMixOnlyInFallback(cfg: DrainConfig, cs: seq<Cluster>, attached: seq<nat>, tokens: seq<string>)
    requires Sane(cfg) && forall i | 0 <= i < |attached| :: attached[i] < |cs|
    ensures var (via, j) := Place(cfg, cs, attached, tokens);
      (!via.Created? && |cs[j].tokens| != |tokens|)
      <==> (|cs| >= cfg.maxClusters && |cs[|cs| - 1].tokens| != |tokens|
            && (forall i | 0 <= i < |attached| :: Similarity(cs[attached[i]].tokens, tokens) <= cfg.simThreshold)
            && (forall i | 0 <= i < |cs| && |cs[i].tokens| == |tokens| ::
              Similarity(cs[i].tokens, tokens) <= cfg.simThreshold))
  {
    PlacedLength(cfg, cs, attached, tokens);
    var near, all := TokensAt(cs, attached), TokensOf(cs);
    assert forall i | 0 <= i < |attached| :: near[i] == cs[attached[i]].tokens;
    assert forall i | 0 <= i < |cs| :: all[i] == cs[i].tokens;
  }

  // The context of one placement: the tokens have been routed to leaf, and the tree has grown.
  ghost predicate Arrived(cfg: DrainConfig, st: State, leaf: Path, tokens: seq<string>) {
    && Sane(cfg)
    && Shape(st)
    && |tokens| != 0
    && Lookup(cfg.maxChildren, st.tree, [], RouteKeys(cfg.maxDepth, tokens)) == Some(leaf)
  }

  /** A cluster whose pattern equals what the message is or becomes hangs off the message's own leaf. */
  lemma SameTokensSameLeaf(cfg: DrainConfig, st: State, leaf: Path, k: nat, tokens: seq<string>)
    requires Shape(st)
    requires k < |st.clusters| && RoutedAt(cfg, st, k) && st.clusters[k].tokens == tokens
    requires Lookup(cfg.maxChildren, st.tree, [], RouteKeys(cfg.maxDepth, tokens)) == Some(leaf)
    ensures k in st.tree.Attached(leaf)
  {
  }

  /** The message creates a cluster: its tokens are new. */
  lemma CreationIsNew(cfg: DrainConfig, st: State, leaf: Path, tokens: seq<string>, k: nat)
    requires Arrived(cfg, st, leaf, tokens)
    requires Routed(cfg, st)
    requires Place(cfg, st.clusters, st.tree.Attached(leaf), tokens).0.Created?
    requires k < |st.clusters|
    ensures st.clusters[k].tokens != tokens
  {
    if st.clusters[k].tokens == tokens {
      SameTokensSameLeaf(cfg, st, leaf, k, tokens);
      var i :| 0 <= i < |st.tree.Attached(leaf)| && st.tree.Attached(leaf)[i] == k;
      FullMatchIsFound(TokensAt(st.clusters, st.tree.Attached(leaf)), i, tokens, cfg.simThreshold, false);
    }
  }

  /** Below the cap, a message unlike every cluster of its leaf creates a cluster. */
  lemma NoMatchCreates(cfg: DrainConfig, st: State, leaf: Path, tokens: seq<string>)
    requires Sane(cfg) && Shape(st) && |st.clusters| < cfg.maxClusters
    requires forall i | 0 <= i < |st.clusters| && st.clusters[i].leaf == leaf ::
      Similarity(st.clusters[i].tokens, tokens) <= cfg.simThreshold
    ensures Place(cfg, st.clusters, st.tree.Attached(leaf), tokens) == (Created, |st.clusters|)
  {
    var attached := st.tree.Attached(leaf);
    var cands := TokensAt(st.clusters, attached);
    forall i | 0 <= i < |attached| ensures Similarity(cands[i], tokens) <= cfg.simThreshold {
      assert st.clusters[attached[i]].leaf == leaf;
    }
  }

  /** The message joins a cluster of its own leaf: the broadened pattern is still routed there. */
  lemma LeafMergeStaysRouted(cfg: DrainConfig, st: State, leaf: Path, tokens: seq<string>)
    requires Arrived(cfg, st, leaf, tokens)
    requires Place(cfg, st.clusters, st.tree.Attached(leaf), tokens).0.LeafMatch?
    requires RoutedAt(cfg, st, Place(cfg, st.clusters, st.tree.Attached(leaf), tokens).1)
    ensures var j := Place(cfg, st.clusters, st.tree.Attached(leaf), tokens).1;
      Lookup(cfg.maxChildren, st.tree, [], RouteKeys(cfg.maxDepth, MergeTokens(st.clusters[j].tokens, tokens)))
        == Some(leaf)
      && st.clusters[j].leaf == leaf
  {
    var j := Place(cfg, st.clusters, st.tree.Attached(leaf), tokens).1;
    PlacedLength(cfg, st.clusters, st.tree.Attached(leaf), tokens);
    BroadeningStaysInLeaf(cfg.maxChildren, cfg.maxDepth, st.tree, st.clusters[j].tokens, tokens);
  }

  /**
    ... and differs from every other cluster's pattern, as long as neither of the two clusters was
    displaced by an overflow merge.
   */
  lemma LeafMergeIsNew(cfg: DrainConfig, st: State, leaf: Path, tokens: seq<string>, k: nat)
    requires Arrived(cfg, st, leaf, tokens)
    requires DistinctTokens(st)
    requires Place(cfg, st.clusters, st.tree.Attached(leaf), tokens).0.LeafMatch?
    requires k < |st.clusters| && k != Place(cfg, st.clusters, st.tree.Attached(leaf), tokens).1
    requires RoutedAt(cfg, st, k) && RoutedAt(cfg, st, Place(cfg, st.clusters, st.tree.Attached(leaf), tokens).1)
    ensures st.clusters[k].tokens
      != MergeTokens(st.clusters[Place(cfg, st.clusters, st.tree.Attached(leaf), tokens).1].tokens, tokens)
  {
    var j := Place(cfg, st.clusters, st.tree.Attached(leaf), tokens).1;
    var m := MergeTokens(st.clusters[j].tokens, tokens);
    if st.clusters[k].tokens == m {
      LeafMergeStaysRouted(cfg, st, leaf, tokens);
      SameTokensSameLeaf(cfg, st, leaf, k, m);
      PlacedLength(cfg, st.clusters, st.tree.Attached(leaf), tokens);
      var cands := TokensAt(st.clusters, st.tree.Attached(leaf));
      var i :| 0 <= i < |st.tree.Attached(leaf)| && st.tree.Attached(leaf)[i] == k;
      var b := Best(cands, |cands|, tokens, cfg.simThreshold, false).value;
      MergeIntoBestCollidesWithNone(cands, b, i, tokens);
    }
  }

  /**
    An overflow merge never makes two patterns equal: the search it runs first covers every cluster,
    and when that search finds nothing, no cluster could be reproduced at all.
   */
  lemma OverflowMergeIsNew(cfg: DrainConfig, cs: seq<Cluster>, attached: seq<nat>, tokens: seq<string>, k: nat)
    requires Sane(cfg) && |tokens| != 0
    requires forall i | 0 <= i < |attached| :: attached[i] < |cs|
    requires forall i, j | 0 <= i < j < |cs| :: cs[i].tokens != cs[j].tokens
    requires var via := Place(cfg, cs, attached, tokens).0; via.GlobalMatch? || via.Fallback?
    requires k < |cs| && k != Place(cfg, cs, attached, tokens).1
    ensures cs[k].tokens != MergeTokens(cs[Place(cfg, cs, attached, tokens).1].tokens, tokens)
  {
    var (via, j) := Place(cfg, cs, attached, tokens);
    var m := MergeTokens(cs[j].tokens, tokens);
    if cs[k].tokens == m && |cs[j].tokens| == |tokens| {
      MergeFixpoint(cs[j].tokens, tokens);
      FullMatchIsFound(TokensOf(cs), k, tokens, cfg.simThreshold, true);
      MergeIntoBestCollidesWithNone(TokensOf(cs), j, k, tokens);
    }
  }

  // ---- exactly when a message makes twins --------------------------------

  /**
    The message joins a cluster of its own leaf, and a cluster of another leaf already holds the pattern
    that it broadens that cluster to.
   */
  ghost predicate MakesTwins(cfg: DrainConfig, st: State, leaf: Path, tokens: seq<string>)
    requires cfg.maxClusters >= 1 && Shape(st)
  {
    var (via, j) := Place(cfg, st.clusters, st.tree.Attached(leaf), tokens);
    via.LeafMatch? && exists k | 0 <= k < |st.clusters| ::
      HeldElsewhere(st.clusters[k], leaf, MergeTokens(st.clusters[j].tokens, tokens))
  }

  predicate HeldElsewhere(c: Cluster, leaf: Path, pattern: seq<string>) {
    c.leaf != leaf && c.tokens == pattern
  }

  /** Inside a leaf the merge reproduces no pattern, displaced or not: that cluster would have scored 1 and won. */
  lemma NeighboursKeepApart(cfg: DrainConfig, st: State, leaf: Path, tokens: seq<string>, k: nat)
    requires Arrived(cfg, st, leaf, tokens) && DistinctTokens(st)
    requires Place(cfg, st.clusters, st.tree.Attached(leaf), tokens).0.LeafMatch?
    requires k < |st.clusters| && k != Place(cfg, st.clusters, st.tree.Attached(leaf), tokens).1
    requires st.clusters[k].leaf == leaf
    ensures st.clusters[k].tokens
      != MergeTokens(st.clusters[Place(cfg, st.clusters, st.tree.Attached(leaf), tokens).1].tokens, tokens)
  {
    var attached := st.tree.Attached(leaf);
    var j := Place(cfg, st.clusters, attached, tokens).1;
    if st.clusters[k].tokens == MergeTokens(st.clusters[j].tokens, tokens) {
      PlacedLength(cfg, st.clusters, attached, tokens);
      var cands := TokensAt(st.clusters, attached);
      var i :| 0 <= i < |attached| && attached[i] == k;
      MergeIntoBestCollidesWithNone(cands, Best(cands, |cands|, tokens, cfg.simThreshold, false).value, i, tokens);
    }
  }

  /** Twins need a displaced cluster: the one that holds the pattern or the one that is broadened into it. */
  lemma TwinsNeedDisplacement(cfg: DrainConfig, st: State, leaf: Path, tokens: seq<string>, k: nat)
    requires Arrived(cfg, st, leaf, tokens) && DistinctTokens(st)
    requires Place(cfg, st.clusters, st.tree.Attached(leaf), tokens).0.LeafMatch? && k < |st.clusters|
    requires var j := Place(cfg, st.clusters, st.tree.Attached(leaf), tokens).1;
      HeldElsewhere(st.clusters[k], leaf, MergeTokens(st.clusters[j].tokens, tokens))
    ensures !RoutedAt(cfg, st, k) || !RoutedAt(cfg, st, Place(cfg, st.clusters, st.tree.Attached(leaf), tokens).1)
  {
    var j := Place(cfg, st.clusters, st.tree.Attached(leaf), tokens).1;
    assert st.clusters[j].leaf == leaf;
    if RoutedAt(cfg, st, k) && RoutedAt(cfg, st, j) {
      LeafMergeIsNew(cfg, st, leaf, tokens, k);
    }
  }

  /** A message that does not make twins gives the cluster it touches a pattern no other cluster has. */
  lemma NewPattern(cfg: DrainConfig, rules: Rules, st: State, leaf: Path, tokens: seq<string>, e: LogEntry, k: nat)
    requires Arrived(cfg, st, leaf, tokens) && DistinctTokens(st)
    requires |st.clusters| < cfg.maxClusters ==> Routed(cfg, st)
    requires !MakesTwins(cfg, st, leaf, tokens)
    requires k < |st.clusters| && k != Place(cfg, st.clusters, st.tree.Attached(leaf), tokens).1
    ensures var (next, j) := Settle(cfg, rules, st, leaf, tokens, e);
      next.clusters[k] == st.clusters[k] && next.clusters[k].tokens != next.clusters[j].tokens
  {
    var attached := st.tree.Attached(leaf);
    var (via, j) := Place(cfg, st.clusters, attached, tokens);
    if via.Created? {
      CreationIsNew(cfg, st, leaf, tokens, k);
    } else if via.LeafMatch? {
      SettleJoins(cfg, rules, st, leaf, tokens, e);
      assert !HeldElsewhere(st.clusters[k], leaf, MergeTokens(st.clusters[j].tokens, tokens));
      if st.clusters[k].leaf == leaf {
        NeighboursKeepApart(cfg, st, leaf, tokens, k);
      }
    } else {
      SettleJoins(cfg, rules, st, leaf, tokens, e);
      OverflowMergeIsNew(cfg, st.clusters, attached, tokens, k);
    }
  }

  /** The twins a message makes: the cluster it joins and the one that already held the pattern. */
  lemma TwinsAreMade(cfg: DrainConfig, rules: Rules, st: State, leaf: Path, tokens: seq<string>, e: LogEntry)
    requires Sane(cfg) && Shape(st) && MakesTwins(cfg, st, leaf, tokens)
    ensures !DistinctTokens(Settle(cfg, rules, st, leaf, tokens, e).0)
  {
    var (via, j) := Place(cfg, st.clusters, st.tree.Attached(leaf), tokens);
    SettleJoins(cfg, rules, st, leaf, tokens, e);
    assert st.clusters[j].leaf == leaf;
    var k :| 0 <= k < |st.clusters| && HeldElsewhere(st.clusters[k], leaf, MergeTokens(st.clusters[j].tokens, tokens));
    var next := Settle(cfg, rules, st, leaf, tokens, e).0;
    assert next.clusters[k].tokens == next.clusters[j].tokens && k != j;
  }

  /**
    One message keeps the patterns distinct if and only if it does not broaden a cluster of its leaf into
    the pattern of a cluster of another leaf. Neither a creation nor an overflow merge can break it.
   */
  lemma DistinctUnlessTwins(cfg: DrainConfig, rules: Rules, st: State, leaf: Path, tokens: seq<string>, e: LogEntry)
    requires Arrived(cfg, st, leaf, tokens) && DistinctTokens(st)
    requires |st.clusters| < cfg.maxClusters ==> Routed(cfg, st)
    ensures DistinctTokens(Settle(cfg, rules, st, leaf, tokens, e).0) <==> !MakesTwins(cfg, st, leaf, tokens)
  {
    if MakesTwins(cfg, st, leaf, tokens) {
      TwinsAreMade(cfg, rules, st, leaf, tokens, e);
    } else {
      var (next, j) := Settle(cfg, rules, st, leaf, tokens, e);
      forall k | 0 <= k < |next.clusters| && k != j
        ensures next.clusters[k].tokens != next.clusters[j].tokens && next.clusters[k] == st.clusters[k]
      {
        NewPattern(cfg, rules, st, leaf, tokens, e, k);
      }
    }
  }

  /** Where every cluster is still routed to its leaf, as it is below the cap, no message makes twins. */
  lemma RoutedMakesNoTwins(cfg: DrainConfig, st: State, leaf: Path, tokens: seq<string>)
    requires Arrived(cfg, st, leaf, tokens) && DistinctTokens(st) && Routed(cfg, st)
    ensures !MakesTwins(cfg, st, leaf, tokens)
  {
    var (via, j) := Place(cfg, st.clusters, st.tree.Attached(leaf), tokens);
    if MakesTwins(cfg, st, leaf, tokens) {
      var k :| 0 <= k < |st.clusters|
        && HeldElsewhere(st.clusters[k], leaf, MergeTokens(st.clusters[j].tokens, tokens));
      assert RoutedAt(cfg, st, k) && RoutedAt(cfg, st, j);
      TwinsNeedDisplacement(cfg, st, leaf, tokens, k);
    }
  }

  // ---- one step ----------------------------------------------------------

  ghost predicate Inv(cfg: DrainConfig, rules: Rules, st: State) {
    && Shape(st)
    && ChildrenCapped(cfg.maxChildren, st.tree)
    && |st.clusters| <= cfg.maxClusters
    && AllFaithful(rules, st.clusters)
    && (!st.strayed ==> Routed(cfg, st) && DistinctTokens(st))
  }

  lemma SettleKeepsClusters(cfg: DrainConfig, rules: Rules, st: State, leaf: Path, tokens: seq<string>, e: LogEntry)
    requires Sane(cfg) && Shape(st) && AreWords(tokens) && |tokens| != 0
    requires |st.clusters| <= cfg.maxClusters
    requires AllFaithful(rules, st.clusters)
    ensures var next := Settle(cfg, rules, st, leaf, tokens, e).0;
      |next.clusters| <= cfg.maxClusters && AllFaithful(rules, next.clusters)
  {
    var (via, j) := Place(cfg, st.clusters, st.tree.Attached(leaf), tokens);
    if via.Created? {
      AppendKeepsAllFaithful(rules, st.clusters, leaf, tokens, e);
    } else {
      PlacedLength(cfg, st.clusters, st.tree.Attached(leaf), tokens);
      AbsorbKeepsAllFaithful(rules, st.clusters, j, Member(tokens, e, via));
    }
  }

  lemma AttachKeepsRoutes(cfg: DrainConfig, st: State, c: Cluster)
    requires Shape(st) && Routed(cfg, st)
    requires Lookup(cfg.maxChildren, st.tree, [], RouteKeys(cfg.maxDepth, c.tokens)) == Some(c.leaf)
    ensures Routed(cfg, Append(st, c))
  {
    forall k | 0 <= k < |st.clusters| + 1 ensures RoutedAt(cfg, Append(st, c), k) {
      assert k < |st.clusters| ==> RoutedAt(cfg, st, k);
      AttachKeepsLookup(cfg.maxChildren, st.tree, c.leaf, |st.clusters|, [],
        RouteKeys(cfg.maxDepth, Append(st, c).clusters[k].tokens));
    }
  }

  lemma ReplaceKeepsRoutes(cfg: DrainConfig, st: State, j: nat, c: Cluster, strayed: bool)
    requires Shape(st) && Routed(cfg, st) && j < |st.clusters| && c.leaf == st.clusters[j].leaf
    requires Lookup(cfg.maxChildren, st.tree, [], RouteKeys(cfg.maxDepth, c.tokens)) == Some(c.leaf)
    ensures Routed(cfg, Replace(st, j, c, strayed))
  {
    forall k | 0 <= k < |st.clusters| ensures RoutedAt(cfg, Replace(st, j, c, strayed), k) {
      assert RoutedAt(cfg, st, k);
    }
  }

  lemma SettleKeepsRoutes(cfg: DrainConfig, rules: Rules, st: State, leaf: Path, tokens: seq<string>, e: LogEntry)
    requires Arrived(cfg, st, leaf, tokens)
    requires Routed(cfg, st)
    ensures var next := Settle(cfg, rules, st, leaf, tokens, e).0;
      !next.strayed ==> Routed(cfg, next)
  {
    var (via, j) := Place(cfg, st.clusters, st.tree.Attached(leaf), tokens);
    if via.Created? {
      AttachKeepsRoutes(cfg, st, NewCluster(rules, leaf, tokens, e));
    } else {
      var was := st.clusters[j];
      var c := Absorb(rules, was, Member(tokens, e, via));
      var strayed := st.strayed || (!via.LeafMatch? && c.tokens != was.tokens);
      assert RoutedAt(cfg, st, j);
      if via.LeafMatch? {
        LeafMergeStaysRouted(cfg, st, leaf, tokens);
        ReplaceKeepsRoutes(cfg, st, j, c, strayed);
      } else if !strayed {
        ReplaceKeepsRoutes(cfg, st, j, c, strayed);
      }
    }
  }

  lemma SettleKeepsCap(cfg: DrainConfig, rules: Rules, st: State, leaf: Path, tokens: seq<string>, e: LogEntry)
    requires Arrived(cfg, st, leaf, tokens)
    requires ChildrenCapped(cfg.maxChildren, st.tree)
    ensures ChildrenCapped(cfg.maxChildren, Settle(cfg, rules, st, leaf, tokens, e).0.tree)
  {
    var next := Settle(cfg, rules, st, leaf, tokens, e).0.tree;
    assert forall p :: next.Kids(p) == st.tree.Kids(p);
  }

  lemma SettleKeepsInv(cfg: DrainConfig, rules: Rules, st: State, leaf: Path, tokens: seq<string>, e: LogEntry)
    requires Arrived(cfg, st, leaf, tokens) && AreWords(tokens) && Inv(cfg, rules, st)
    ensures Inv(cfg, rules, Settle(cfg, rules, st, leaf, tokens, e).0)
  {
    SettleKeepsClusters(cfg, rules, st, leaf, tokens, e);
    SettleKeepsCap(cfg, rules, st, leaf, tokens, e);
    if !st.strayed {
      RoutedMakesNoTwins(cfg, st, leaf, tokens);
      DistinctUnlessTwins(cfg, rules, st, leaf, tokens, e);
      SettleKeepsRoutes(cfg, rules, st, leaf, tokens, e);
    }
  }

  lemma GrowKeepsInv(cfg: DrainConfig, rules: Rules, st: State, tokens: seq<string>)
    requires Sane(cfg) && Inv(cfg, rules, st) && |tokens| != 0
    ensures var (grown, leaf) := Arrive(cfg, st, tokens);
      Arrived(cfg, grown, leaf, tokens) && Inv(cfg, rules, grown)
  {
    var keys := RouteKeys(cfg.maxDepth, tokens);
    GrowReaches(cfg.maxChildren, st.tree, [], keys);
    GrowKeepsCap(cfg.maxChildren, st.tree, [], keys);
    if !st.strayed {
      GrowKeepsRoutes(cfg, st, keys);
    }
  }

  /** One message, whatever it is, keeps everything. */
  lemma AddKeepsInv(cfg: DrainConfig, rules: Rules, st: State, e: LogEntry)
    requires Sane(cfg) && Inv(cfg, rules, st)
    ensures Inv(cfg, rules, Add(cfg, rules, st, e).0)
  {
    var tokens := Tokenize(rules, e);
    if |tokens| != 0 {
      GrowKeepsInv(cfg, rules, st, tokens);
      var (grown, leaf) := Arrive(cfg, st, tokens);
      SettleKeepsInv(cfg, rules, grown, leaf, tokens, e);
    }
  }

  // ---- whole runs --------------------------------------------------------

  lemma {:induction false} RunKeepsInv(cfg: DrainConfig, rules: Rules, entries: seq<LogEntry>)
    requires Sane(cfg)
    ensures Inv(cfg, rules, Run(cfg, rules, entries).0)
    decreases |entries|
  {
    if |entries| == 0 {
      assert forall p :: EMPTY.tree.Kids(p) == {};
    } else {
      RunKeepsInv(cfg, rules, entries[..|entries| - 1]);
      AddKeepsInv(cfg, rules, Run(cfg, rules, entries[..|entries| - 1]).0, entries[|entries| - 1]);
    }
  }

  /** The state after the first n messages of a run. */
  function StateAt(cfg: DrainConfig, rules: Rules, entries: seq<LogEntry>, n: nat): (st: State)
    requires cfg.maxClusters >= 1 && n <= |entries|
    ensures Shape(st)
  {
    Run(cfg, rules, entries[..n]).0
  }

  ghost predicate DistinctAt(cfg: DrainConfig, rules: Rules, entries: seq<LogEntry>, n: nat)
    requires cfg.maxClusters >= 1 && n <= |entries|
  {
    DistinctTokens(StateAt(cfg, rules, entries, n))
  }

  /** Message n of the run broadens a cluster of its leaf into the pattern of a cluster of another leaf. */
  ghost predicate TwinStep(cfg: DrainConfig, rules: Rules, entries: seq<LogEntry>, n: nat)
    requires cfg.maxClusters >= 1 && n < |entries|
  {
    var tokens := Tokenize(rules, entries[n]);
    var (grown, leaf) := Arrive(cfg, StateAt(cfg, rules, entries, n), tokens);
    tokens != [] && MakesTwins(cfg, grown, leaf, tokens)
  }

  lemma StateStep(cfg: DrainConfig, rules: Rules, entries: seq<LogEntry>, n: nat)
    requires cfg.maxClusters >= 1 && n < |entries|
    ensures StateAt(cfg, rules, entries, n + 1) == Add(cfg, rules, StateAt(cfg, rules, entries, n), entries[n]).0
  {
    assert entries[..n + 1][..n] == entries[..n];
  }

  /** The step of a run at which distinctness is decided. */
  lemma StepIsDecided(cfg: DrainConfig, rules: Rules, entries: seq<LogEntry>, n: nat)
    requires Sane(cfg) && n < |entries| && DistinctAt(cfg, rules, entries, n)
    ensures DistinctAt(cfg, rules, entries, n + 1) <==> !TwinStep(cfg, rules, entries, n)
    ensures |StateAt(cfg, rules, entries, n).clusters| < cfg.maxClusters ==> !TwinStep(cfg, rules, entries, n)
  {
    var st := StateAt(cfg, rules, entries, n);
    var tokens := Tokenize(rules, entries[n]);
    StateStep(cfg, rules, entries, n);
    if tokens != [] {
      RunKeepsInv(cfg, rules, entries[..n]);
      GrowKeepsInv(cfg, rules, st, tokens);
      var (grown, leaf) := Arrive(cfg, st, tokens);
      if |st.clusters| < cfg.maxClusters {
        BelowCapNothingStrays(cfg, rules, entries[..n]);
        RoutedMakesNoTwins(cfg, grown, leaf, tokens);
      }
      DistinctUnlessTwins(cfg, rules, grown, leaf, tokens, entries[n]);
    }
  }

  /** No state up to the n-th holds two clusters of equal tokens. */
  ghost predicate DistinctUpTo(cfg: DrainConfig, rules: Rules, entries: seq<LogEntry>, n: nat)
    requires cfg.maxClusters >= 1 && n <= |entries|
  {
    forall i: nat | i <= n :: DistinctAt(cfg, rules, entries, i)
  }

  /** None of the first n messages makes twins. */
  ghost predicate TwinFree(cfg: DrainConfig, rules: Rules, entries: seq<LogEntry>, n: nat)
    requires cfg.maxClusters >= 1 && n <= |entries|
  {
    forall i: nat | i < n :: !TwinStep(cfg, rules, entries, i)
  }

  /**
    Template distinctness over a whole run: the patterns stay distinct up to every message if and only if
    no message makes twins.
   */
  lemma {:induction false} RunIsDistinctUnlessTwins(cfg: DrainConfig, rules: Rules, entries: seq<LogEntry>, n: nat)
    requires Sane(cfg) && n <= |entries|
    ensures DistinctUpTo(cfg, rules, entries, n) <==> TwinFree(cfg, rules, entries, n)
  {
    if n == 0 {
      StartsDistinct(cfg, rules, entries);
    } else {
      RunIsDistinctUnlessTwins(cfg, rules, entries, n - 1);
      DistinctStep(cfg, rules, entries, n - 1);
    }
  }

  lemma StartsDistinct(cfg: DrainConfig, rules: Rules, entries: seq<LogEntry>)
    requires cfg.maxClusters >= 1
    ensures DistinctUpTo(cfg, rules, entries, 0) && TwinFree(cfg, rules, entries, 0)
  {
    assert entries[..0] == [];
  }

  lemma DistinctStep(cfg: DrainConfig, rules: Rules, entries: seq<LogEntry>, n: nat)
    requires Sane(cfg) && n < |entries|
    requires DistinctUpTo(cfg, rules, entries, n) <==> TwinFree(cfg, rules, entries, n)
    ensures DistinctUpTo(cfg, rules, entries, n + 1) <==> TwinFree(cfg, rules, entries, n + 1)
  {
    if DistinctAt(cfg, rules, entries, n) {
      StepIsDecided(cfg, rules, entries, n);
    }
    OneMore(cfg, rules, entries, n);
  }

  lemma OneMore(cfg: DrainConfig, rules: Rules, entries: seq<LogEntry>, n: nat)
    requires cfg.maxClusters >= 1 && n < |entries|
    ensures DistinctUpTo(cfg, rules, entries, n + 1)
      <==> DistinctUpTo(cfg, rules, entries, n) && DistinctAt(cfg, rules, entries, n + 1)
    ensures DistinctUpTo(cfg, rules, entries, n) ==> DistinctAt(cfg, rules, entries, n)
    ensures TwinFree(cfg, rules, entries, n + 1)
      <==> TwinFree(cfg, rules, entries, n) && !TwinStep(cfg, rules, entries, n)
  {
  }

  /** Patterns, and with an injective hash ids, are as distinct as the tokens. */
  lemma TemplatesAreDistinct(cfg: DrainConfig, rules: Rules, entries: seq<LogEntry>, i: nat, j: nat)
    requires Sane(cfg) && Injective(rules.templateHash)
    requires i < j < |Run(cfg, rules, entries).0.clusters|
    ensures var cs := Run(cfg, rules, entries).0.clusters;
      && (cs[i].template.pattern == cs[j].template.pattern <==> cs[i].tokens == cs[j].tokens)
      && (cs[i].template.id == cs[j].template.id <==> cs[i].tokens == cs[j].tokens)
  {
    RunKeepsInv(cfg, rules, entries);
    var cs := Run(cfg, rules, entries).0.clusters;
    assert Faithful(rules, cs[i]) && Faithful(rules, cs[j]);
    if cs[i].template.pattern == cs[j].template.pattern {
      JoinInjective(cs[i].tokens, cs[j].tokens);
    }
  }

  /** A run that stayed below the cap displaced nothing: a caller can tell from the number of templates. */
  lemma {:induction false} BelowCapNothingStrays(cfg: DrainConfig, rules: Rules, entries: seq<LogEntry>)
    requires cfg.maxClusters >= 1 && |Run(cfg, rules, entries).0.clusters| < cfg.maxClusters
    ensures !Run(cfg, rules, entries).0.strayed
    decreases |entries|
  {
    if |entries| != 0 {
      var was := Run(cfg, rules, entries[..|entries| - 1]).0;
      ClustersOnlyGrow(cfg, rules, was, entries[|entries| - 1]);
      BelowCapNothingStrays(cfg, rules, entries[..|entries| - 1]);
    }
  }

  lemma ClustersOnlyGrow(cfg: DrainConfig, rules: Rules, st: State, e: LogEntry)
    requires cfg.maxClusters >= 1 && Shape(st)
    ensures var next := Add(cfg, rules, st, e).0;
      |st.clusters| <= |next.clusters| && (|st.clusters| < cfg.maxClusters ==> next.strayed == st.strayed)
  {
  }

  /** No run holds more than maxClusters clusters, nor a node with more than maxChildren + 1 children. */
  lemma CapsHold(cfg: DrainConfig, rules: Rules, entries: seq<LogEntry>, p: Path)
    requires Sane(cfg)
    ensures |Run(cfg, rules, entries).0.clusters| <= cfg.maxClusters
    ensures |Run(cfg, rules, entries).0.tree.Kids(p)| <= cfg.maxChildren + 1
  {
    RunKeepsInv(cfg, rules, entries);
    CapBoundsChildren(cfg.maxChildren, Run(cfg, rules, entries).0.tree, p);
  }

  /** In every run each cluster's tokens, count, severity and times are exact functions of its members. */
  lemma ClustersAreFaithful(cfg: DrainConfig, rules: Rules, entries: seq<LogEntry>, j: nat)
    requires Sane(cfg)
    requires j < |Run(cfg, rules, entries).0.clusters|
    ensures Faithful(rules, Run(cfg, rules, entries).0.clusters[j])
  {
    RunKeepsInv(cfg, rules, entries);
  }

  /** The entries a run assigned to cluster j, in order. */
  function Joined(entries: seq<LogEntry>, joined: seq<Option<nat>>, j: nat): seq<LogEntry>
    requires |entries| == |joined|
  {
    if |entries| == 0 then []
    else
      var n := |entries| - 1;
      Joined(entries[..n], joined[..n], j) + if joined[n] == Some(j) then [entries[n]] else []
  }

  function EntriesOf(ms: seq<Member>): (es: seq<LogEntry>)
    ensures |es| == |ms|
  {
    seq(|ms|, i requires 0 <= i < |ms| => ms[i].entry)
  }

  /** The members of a cluster are exactly the entries whose message was reported to join it. */
  lemma {:induction false} MembersAreTheJoined(cfg: DrainConfig, rules: Rules, entries: seq<LogEntry>, j: nat)
    requires cfg.maxClusters >= 1
    ensures var (st, joined) := Run(cfg, rules, entries);
      Joined(entries, joined, j) == MembersAt(st, j)
    decreases |entries|
  {
    if |entries| != 0 {
      var n := |entries| - 1;
      MembersAreTheJoined(cfg, rules, entries[..n], j);
      var (was, joined) := Run(cfg, rules, entries[..n]);
      assert Run(cfg, rules, entries).1[..n] == joined;
      AddExtendsMembers(cfg, rules, was, entries[n], j);
    }
  }

  lemma AddExtendsMembers(cfg: DrainConfig, rules: Rules, st: State, e: LogEntry, j: nat)
    requires cfg.maxClusters >= 1 && Shape(st)
    ensures var (next, joined) := Add(cfg, rules, st, e);
      MembersAt(next, j) == MembersAt(st, j) + if joined == Some(j) then [e] else []
  {
    var tokens := Tokenize(rules, e);
    if |tokens| != 0 {
      var (grown, leaf) := Arrive(cfg, st, tokens);
      SettleExtendsMembers(cfg, rules, grown, leaf, tokens, e, j);
    }
  }

  function MembersAt(st: State, j: nat): seq<LogEntry> {
    if j < |st.clusters| then EntriesOf(st.clusters[j].members) else []
  }

  lemma SettleExtendsMembers(cfg: DrainConfig, rules: Rules, st: State, leaf: Path, tokens: seq<string>, e: LogEntry,
        j: nat)
    requires cfg.maxClusters >= 1 && Shape(st)
    ensures var (next, k) := Settle(cfg, rules, st, leaf, tokens, e);
      MembersAt(next, j) == MembersAt(st, j) + if k == j then [e] else []
  {
    var (via, k) := Place(cfg, st.clusters, st.tree.Attached(leaf), tokens);
    if !via.Created? {
      SettleJoins(cfg, rules, st, leaf, tokens, e);
      var m := Member(tokens, e, via);
      assert EntriesOf(st.clusters[k].members + [m]) == EntriesOf(st.clusters[k].members) + [e];
    }
  }

  function TotalCount(cs: seq<Cluster>): int {
    if |cs| == 0 then 0 else TotalCount(cs[..|cs| - 1]) + cs[|cs| - 1].template.count
  }

  function Clustered(joined: seq<Option<nat>>): nat {
    if |joined| == 0 then 0 else Clustered(joined[..|joined| - 1]) + if joined[|joined| - 1].Some? then 1 else 0
  }

  lemma {:induction false} TotalCountAfterReplace(cs: seq<Cluster>, j: nat, c: Cluster)
    requires j < |cs|
    ensures TotalCount(cs[j := c]) == TotalCount(cs) - cs[j].template.count + c.template.count
  {
    var n := |cs| - 1;
    if j < n {
      assert cs[j := c][..n] == cs[..n][j := c];
      TotalCountAfterReplace(cs[..n], j, c);
    } else {
      assert cs[j := c][..n] == cs[..n];
    }
  }

  lemma AddCountsOne(cfg: DrainConfig, rules: Rules, st: State, e: LogEntry)
    requires cfg.maxClusters >= 1 && Shape(st)
    ensures var (next, joined) := Add(cfg, rules, st, e);
      TotalCount(next.clusters) == TotalCount(st.clusters) + if joined.Some? then 1 else 0
  {
    var tokens := Tokenize(rules, e);
    if |tokens| != 0 {
      var (grown, leaf) := Arrive(cfg, st, tokens);
      var (via, k) := Place(cfg, grown.clusters, grown.tree.Attached(leaf), tokens);
      if via.Created? {
        assert (st.clusters + [NewCluster(rules, leaf, tokens, e)])[..|st.clusters|] == st.clusters;
      } else {
        TotalCountAfterReplace(st.clusters, k, Absorb(rules, st.clusters[k], Member(tokens, e, via)));
      }
    }
  }

  /** Count conservation: overflow included, the counts add up to the entries that joined a cluster. */
  lemma {:induction false} CountsAreConserved(cfg: DrainConfig, rules: Rules, entries: seq<LogEntry>)
    requires cfg.maxClusters >= 1
    ensures var (st, joined) := Run(cfg, rules, entries); TotalCount(st.clusters) == Clustered(joined)
    decreases |entries|
  {
    if |entries| != 0 {
      var n := |entries| - 1;
      CountsAreConserved(cfg, rules, entries[..n]);
      var (was, joined) := Run(cfg, rules, entries[..n]);
      assert Run(cfg, rules, entries).1[..n] == joined;
      AddCountsOne(cfg, rules, was, entries[n]);
    }
  }

  /** ... and those are exactly the entries that tokenized to something: no message is lost at the cap. */
  lemma {:induction false} EveryMessageJoins(cfg: DrainConfig, rules: Rules, entries: seq<LogEntry>, i: nat)
    requires cfg.maxClusters >= 1 && i < |entries|
    ensures Run(cfg, rules, entries).1[i].Some? <==> Tokenize(rules, entries[i]) != []
    decreases |entries|
  {
    var n := |entries| - 1;
    var (was, joined) := Run(cfg, rules, entries[..n]);
    assert Run(cfg, rules, entries).1 == joined + [Add(cfg, rules, was, entries[n]).1];
    if i < n {
      EveryMessageJoins(cfg, rules, entries[..n], i);
    }
  }
}
