/** The Drain engine on the heap; every method is proved against the state machine of module Drain. */
module DrainEngines {

  import opened Wrappers
  import opened Strings
  import opened Model
  import opened Tokens
  import opened PrefixTree
  import opened Drain
  import opened Templates

  class DrainCluster {
    var tokens: seq<string>
    const template: LogTemplate
    ghost const index: nat

    constructor (tokens: seq<string>, template: LogTemplate, ghost index: nat)
      ensures this.tokens == tokens && this.template == template && this.index == index
    {
      this.tokens, this.template := tokens, template;
      this.index := index;
    }
  }

  class DrainNode {
    var children: map<string, DrainNode>
    var clusters: seq<DrainCluster>
    ghost const path: Path

    constructor (ghost path: Path)
      ensures children == map[] && clusters == [] && this.path == path
    {
      children, clusters := map[], [];
      this.path := path;
    }
  }

  class DrainEngine {
    const root: DrainNode
    const config: DrainConfig
    const rules: Rules
    var clusters: seq<DrainCluster>

    /** The nodes reachable from the root, and the abstract state they and the clusters represent. */
    ghost var nodes: set<DrainNode>
    ghost var nodeAt: map<Path, DrainNode>
    ghost var tree: Tree
    ghost var history: seq<Cluster>
    ghost var strayed: bool
    ghost var ownerOf: map<LogTemplate, nat>

    ghost function St(): State
      reads `tree, `history, `strayed
    {
      State(tree, history, strayed)
    }

    /** A node with these children agrees with the tree about them, and leads to their nodes. */
    static ghost predicate Fits(tree: Tree, nodes: set<DrainNode>, nodeAt: map<Path, DrainNode>, n: DrainNode,
          children: map<string, DrainNode>)
    {
      && n.path in nodeAt && nodeAt[n.path] == n
      && (n.path == [] || Last(n.path) in tree.Kids(Front(n.path)))
      && children.Keys == tree.Kids(n.path)
      && forall k | k in children :: children[k] in nodes && children[k].path == n.path + [k]
    }

    ghost predicate Linked(n: DrainNode)
      reads `tree, `nodes, `nodeAt, n`children
    {
      Fits(tree, nodes, nodeAt, n, n.children)
    }

    ghost predicate ValidTree()
      reads `tree, `nodes, `nodeAt, nodes`children
    {
      root in nodes && root.path == [] && Anchored(tree) && forall n | n in nodes :: Linked(n)
    }

    /** The clusters listed at a node are those the tree attaches there, in order. */
    ghost predicate Listed(n: DrainNode)
      reads `tree, `clusters, n`clusters
    {
      var attached := tree.Attached(n.path);
      |n.clusters| == |attached|
      && forall i | 0 <= i < |attached| :: attached[i] < |clusters| && n.clusters[i] == clusters[attached[i]]
    }

    ghost predicate ValidAttachments()
      reads `tree, `nodes, `clusters, nodes`clusters
    {
      forall n | n in nodes :: Listed(n)
    }

    /** Cluster j holds what the history says, and shares neither itself nor its template with another. */
    ghost predicate Mirrored(j: nat)
      requires j < |clusters| == |history|
      reads `clusters, `history, `ownerOf, clusters[j], clusters[j].template
    {
      var c := clusters[j];
      && c.index == j && c.template in ownerOf && ownerOf[c.template] == j
      && c.tokens == history[j].tokens && c.template.Value() == history[j].template
    }

    ghost predicate ValidClusters()
      reads `clusters, `history, `ownerOf, clusters, set c | c in clusters :: c.template
    {
      |clusters| == |history| && forall j | 0 <= j < |clusters| :: Mirrored(j)
    }

    ghost predicate Valid()
      reads this, nodes, clusters, set c | c in clusters :: c.template
    {
      ValidTree() && ValidAttachments() && ValidClusters() && Shape(St()) && config.maxClusters >= 1
    }

    constructor (cfg: DrainConfig, rules: Rules)
      requires cfg.maxClusters >= 1
      ensures Valid() && St() == EMPTY && config == cfg && this.rules == rules
      ensures fresh(nodes) && clusters == []
    {
      root := new DrainNode([]);
      config, this.rules := cfg, rules;
      clusters := [];
      tree, history, strayed, ownerOf := ROOT_ONLY, [], false, map[];
      new;
      nodes := {root};
      nodeAt := map[[] := root];
    }

    /** Linking a child changes the parent's links as the tree's, and nobody else's. */
    static lemma FitsAfterLink(tree: Tree, nodes: set<DrainNode>, nodeAt: map<Path, DrainNode>, parent: DrainNode,
          siblings: map<string, DrainNode>, key: string, child: DrainNode, n: DrainNode,
          children: map<string, DrainNode>)
      requires Fits(tree, nodes, nodeAt, parent, siblings) && Fits(tree, nodes, nodeAt, n, children)
      requires key !in siblings && child.path == parent.path + [key]
      ensures var grown, more, at := tree.Open(parent.path, key), nodes + {child}, nodeAt[child.path := child];
        && Fits(grown, more, at, parent, siblings[key := child])
        && (n != parent ==> Fits(grown, more, at, n, children))
    {
      var q := child.path;
      assert Front(q) == parent.path && Last(q) == key && |q| != |parent.path|;
      KidsOfOpen(tree, parent.path, key);
      assert n.path != q;
    }

    method LinkChild(parent: DrainNode, key: string) returns (child: DrainNode)
      requires ValidTree() && parent in nodes && key !in parent.children
      modifies this`tree, this`nodes, this`nodeAt, parent`children
      ensures ValidTree() && tree == old(tree).Open(parent.path, key)
      ensures child.clusters == [] && tree.Attached(child.path) == []
      ensures nodes == old(nodes) + {child} && fresh(child)
      ensures child.path == parent.path + [key]
    {
      ghost var q := parent.path + [key];
      ghost var was, before, at, siblings := tree, nodes, nodeAt, parent.children;
      assert Front(q) == parent.path && Last(q) == key;
      assert Linked(parent);
      OpenKeepsAnchored(tree, parent.path, key);
      KidsOfOpen(tree, parent.path, key);
      child := new DrainNode(q);
      parent.children := parent.children[key := child];
      tree := tree.Open(parent.path, key);
      nodes := nodes + {child};
      nodeAt := nodeAt[q := child];
      forall n | n in before ensures Linked(n) {
        assert old(Linked(n));
        FitsAfterLink(was, before, at, parent, siblings, key, child, n, old(n.children));
      }
      assert Linked(child);
    }

    method AddChild(parent: DrainNode, key: string) returns (child: DrainNode)
      requires ValidTree() && ValidAttachments() && parent in nodes && key !in parent.children
      modifies this`tree, this`nodes, this`nodeAt, parent`children
      ensures ValidTree() && ValidAttachments() && (forall n | n in nodes :: n in old(nodes) || fresh(n))
        && child in nodes
      ensures tree == old(tree).Open(parent.path, key) && child.path == parent.path + [key]
    {
      child := LinkChild(parent, key);
      forall n | n in nodes ensures Listed(n) {
        assert n != child ==> old(Listed(n));
      }
    }

    /** The key actually used: past the node's cap every new key collapses onto the wildcard. */
    method CollapsedKey(parent: DrainNode, key: string) returns (k: string)
      requires Linked(parent)
      ensures k == ChildKey(config.maxChildren, tree, parent.path, key)
    {
      assert |parent.children| == |parent.children.Keys|;
      k := key;
      if key !in parent.children && |parent.children| >= config.maxChildren {
        k := WILDCARD;
      }
    }

    /** A node already there is simply followed. */
    method ExistingChild(parent: DrainNode, key: string) returns (child: DrainNode)
      requires Linked(parent) && key in parent.children
      ensures child in nodes && child.path == parent.path + [key] && tree.Open(parent.path, key) == tree
    {
      child := parent.children[key];
      OpenExisting(tree, parent.path, key);
    }

    /** The child for a key, collapsing onto the wildcard child once the node is at its cap. */
    method EnsureChild(parent: DrainNode, key: string) returns (child: DrainNode)
      requires ValidTree() && ValidAttachments() && parent in nodes
      modifies this`tree, this`nodes, this`nodeAt, parent`children
      ensures ValidTree() && ValidAttachments() && (forall n | n in nodes :: n in old(nodes) || fresh(n))
        && child in nodes
      ensures var k := ChildKey(config.maxChildren, old(tree), parent.path, key);
        tree == old(tree).Open(parent.path, k) && child.path == parent.path + [k]
    {
      assert Linked(parent);
      var k := CollapsedKey(parent, key);
      if k in parent.children {
        child := ExistingChild(parent, k);
      } else {
        child := AddChild(parent, k);
      }
    }

    /** One level down, along keys[d]: what is left of the descent is unchanged. */
    method StepDown(node: DrainNode, key: string, ghost keys: Path, ghost d: nat) returns (next: DrainNode)
      requires ValidTree() && ValidAttachments() && node in nodes && d < |keys| && keys[d] == key
      modifies this`tree, this`nodes, this`nodeAt, node`children
      ensures ValidTree() && ValidAttachments() && (forall n | n in nodes :: n in old(nodes) || fresh(n))
        && next in nodes
      ensures Grow(config.maxChildren, tree, next.path, keys[d + 1..])
        == Grow(config.maxChildren, old(tree), node.path, keys[d..])
    {
      GrowStep(config.maxChildren, tree, node.path, keys, d);
      next := EnsureChild(node, key);
    }

    /** Descends to the leaf for these tokens, creating the path. */
    method WalkTree(tokens: seq<string>) returns (leaf: DrainNode)
      requires ValidTree() && ValidAttachments()
      modifies this`tree, this`nodes, this`nodeAt, nodes`children
      ensures ValidTree() && ValidAttachments() && (forall n | n in nodes :: n in old(nodes) || fresh(n))
        && leaf in nodes
      ensures (tree, leaf.path) == Grow(config.maxChildren, old(tree), [], RouteKeys(config.maxDepth, tokens))
    {
      ghost var keys := RouteKeys(config.maxDepth, tokens);
      assert keys[0..] == keys;
      forall i: nat | i < Depth(config.maxDepth, tokens) ensures keys[i + 1] == BranchKey(tokens[i]) {
        RouteKeysAt(config.maxDepth, tokens, i);
      }
      leaf := StepDown(root, TokenCountBucket(|tokens|), keys, 0);
      leaf := WalkTokens(leaf, tokens, keys);
    }

    /** The part of the descent that branches on tokens. */
    method WalkTokens(bucket: DrainNode, tokens: seq<string>, ghost keys: Path) returns (leaf: DrainNode)
      requires ValidTree() && ValidAttachments() && bucket in nodes
      requires |keys| == 1 + Depth(config.maxDepth, tokens)
      requires forall i: nat | i < Depth(config.maxDepth, tokens) :: keys[i + 1] == BranchKey(tokens[i])
      modifies this`tree, this`nodes, this`nodeAt, nodes`children
      ensures ValidTree() && ValidAttachments() && (forall n | n in nodes :: n in old(nodes) || fresh(n))
        && leaf in nodes
      ensures (tree, leaf.path) == Grow(config.maxChildren, old(tree), bucket.path, keys[1..])
    {
      leaf := bucket;
      var depth := 0;
      while depth + 1 < config.maxDepth && depth < |tokens|
        invariant 0 <= depth <= Depth(config.maxDepth, tokens)
        invariant ValidTree() && ValidAttachments() && (forall n | n in nodes :: n in old(nodes) || fresh(n))
          && leaf in nodes
        invariant Grow(config.maxChildren, tree, leaf.path, keys[depth + 1..])
          == Grow(config.maxChildren, old(tree), bucket.path, keys[1..])
      {
        var token := tokens[depth];
        if IsWildcard(token) {
          token := WILDCARD;
        }
        leaf := StepDown(leaf, token, keys, depth + 1);
        depth := depth + 1;
      }
      assert keys[depth + 1..] == [];
    }

    /** The leaf's most similar cluster above the threshold, or null. */
    method FindMatchingCluster(node: DrainNode, tokens: seq<string>)
      returns (best: DrainCluster?, ghost at: Option<nat>)
      requires ValidAttachments() && ValidClusters() && node in nodes
      ensures var attached := tree.Attached(node.path);
        && (forall i | 0 <= i < |attached| :: attached[i] < |history|)
        && at == Best(TokensAt(history, attached), |attached|, tokens, config.simThreshold, false)
        && (at.Some? ==> best == clusters[attached[at.value]])
      ensures at.None? <==> best == null
    {
      ghost var attached := tree.Attached(node.path);
      assert Listed(node);
      ghost var cands := TokensAt(history, attached);
      best, at := null, None;
      var bestSim := config.simThreshold;
      for i := 0 to |node.clusters|
        invariant BestSoFar(cands, i, tokens, config.simThreshold, false, at, bestSim)
        invariant at.None? <==> best == null
        invariant at.Some? ==> best == node.clusters[at.value]
      {
        var c := node.clusters[i];
        assert Mirrored(attached[i]);
        assert c.tokens == cands[i];
        BestNext(cands, i, tokens, config.simThreshold, false, at, bestSim);
        var sim := ComputeSimilarity(c.tokens, tokens);
        if sim > bestSim {
          bestSim, best, at := sim, c, Some(i);
        }
      }
    }

    /** The same scoring over every cluster of equal token count. */
    method FindBestGlobalMatch(tokens: seq<string>) returns (best: DrainCluster?, ghost at: Option<nat>)
      requires ValidClusters()
      ensures at == Best(TokensOf(history), |history|, tokens, config.simThreshold, true)
      ensures at.Some? ==> best == clusters[at.value]
      ensures at.None? <==> best == null
    {
      ghost var cands := TokensOf(history);
      best, at := null, None;
      var bestSim := config.simThreshold;
      for i := 0 to |clusters|
        invariant BestSoFar(cands, i, tokens, config.simThreshold, true, at, bestSim)
        invariant at.None? <==> best == null
        invariant at.Some? ==> best == clusters[at.value]
      {
        var c := clusters[i];
        assert Mirrored(i);
        assert c.tokens == cands[i];
        BestNext(cands, i, tokens, config.simThreshold, true, at, bestSim);
        if |c.tokens| != |tokens| {
          continue;
        }
        var sim := ComputeSimilarity(c.tokens, tokens);
        if sim > bestSim {
          bestSim, best, at := sim, c, Some(i);
        }
      }
    }

    /** Absorbs one entry into an existing cluster: pattern, id, count, times, severity, alias and examples move. */
    method UpdateCluster(c: DrainCluster, tokens: seq<string>, e: LogEntry, ghost j: nat, ghost via: Via)
      requires ValidTree() && ValidAttachments() && ValidClusters() && j < |clusters| && clusters[j] == c
      modifies c`tokens, c.template, `history
      ensures ValidTree() && ValidAttachments()
      ensures ValidClusters() && history == old(history)[j := Absorb(rules, old(history)[j], Member(tokens, e, via))]
    {
      ghost var now := Absorb(rules, history[j], Member(tokens, e, via));
      assert Mirrored(j);
      var vars := ComputeVars(c.tokens, tokens);
      var merged := ComputeMerge(c.tokens, tokens);
      c.tokens := merged;
      WidenTemplate(rules, c.template, merged, vars, e);
      history := history[j := now];
      forall n | n in nodes ensures Linked(n) && Listed(n) {
        assert old(Linked(n)) && old(Listed(n));
      }
      forall k | 0 <= k < |clusters| ensures Mirrored(k) {
        assert old(Mirrored(k));
      }
    }

    /** An update, remembered when it broadened a cluster from outside its leaf. */
    method JoinCluster(c: DrainCluster, tokens: seq<string>, e: LogEntry, ghost j: nat, ghost via: Via)
      requires ValidTree() && ValidAttachments() && ValidClusters() && j < |clusters| && clusters[j] == c
      modifies c`tokens, c.template, `history, `strayed
      ensures ValidTree() && ValidAttachments()
      ensures ValidClusters() && Moved(old(St()), St(), j, Member(tokens, e, via))
    {
      UpdateCluster(c, tokens, e, j, via);
      strayed := strayed || (!via.LeafMatch? && history[j].tokens != old(history)[j].tokens);
    }

    /** Seeds a new cluster and its template from one entry, and attaches it to its leaf. */
    method CreateCluster(node: DrainNode, tokens: seq<string>, e: LogEntry)
      returns (t: LogTemplate, ghost c: DrainCluster)
      requires ValidTree() && ValidAttachments() && ValidClusters() && node in nodes
      modifies node`clusters, `clusters, `tree, `history, `ownerOf
      ensures ValidTree() && ValidAttachments() && ValidClusters()
      ensures tree == old(tree).Attach(node.path, |old(history)|)
      ensures history == old(history) + [NewCluster(rules, node.path, tokens, e)]
      ensures clusters == old(clusters) + [c] && c.template == t && fresh(t) && fresh(c)
    {
      var pattern := Join(tokens);
      t := new LogTemplate(Template(rules.templateHash(pattern), pattern, e.severity, 1, e.timestamp, e.timestamp, [],
                                    rules.alias(pattern, e.severity)));
      var cluster := new DrainCluster(tokens, t, |clusters|);
      c := cluster;
      RecordCluster(node, cluster, NewCluster(rules, node.path, tokens, e));
    }

    /** Appends a cluster that no other shares anything with, and hangs it off its leaf. */
    method RecordCluster(node: DrainNode, c: DrainCluster, ghost value: Cluster)
      requires ValidTree() && ValidAttachments() && ValidClusters() && node in nodes
      requires c.index == |clusters| && c.template !in ownerOf && c !in clusters
      requires c.tokens == value.tokens && c.template.Value() == value.template
      modifies node`clusters, `clusters, `tree, `history, `ownerOf
      ensures ValidTree() && ValidAttachments() && ValidClusters()
      ensures tree == old(tree).Attach(node.path, |old(history)|)
      ensures history == old(history) + [value] && clusters == old(clusters) + [c]
    {
      ghost var n := |history|;
      AttachCluster(node, c);
      history := history + [value];
      ownerOf := ownerOf[c.template := n];
      forall k | 0 <= k < |clusters| ensures Mirrored(k) {
        if k < n {
          assert old(Mirrored(k));
        }
      }
    }

    method AttachCluster(node: DrainNode, c: DrainCluster)
      requires ValidTree() && ValidAttachments() && node in nodes
      modifies node`clusters, `clusters, `tree
      ensures ValidTree() && ValidAttachments()
      ensures tree == old(tree).Attach(node.path, |old(clusters)|) && clusters == old(clusters) + [c]
    {
      assert Linked(node);
      AttachKeepsAnchored(tree, node.path, |clusters|);
      tree := tree.Attach(node.path, |clusters|);
      node.clusters := node.clusters + [c];
      clusters := clusters + [c];
      forall n | n in nodes ensures Linked(n) {
        assert old(Linked(n));
      }
      forall n | n in nodes ensures Listed(n) {
        assert old(Linked(n)) && old(Linked(node));
        assert old(Listed(n));
      }
    }

    /**
      Clusters one entry and returns the template it joined, or null for a message that tokenizes to
      nothing. Clusters and templates are only ever appended, so the pointer stays valid.
     */
    method AddMessage(e: LogEntry) returns (t: LogTemplate?, ghost joined: Option<nat>, ghost added: DrainCluster?)
      requires Valid()
      modifies this, nodes, clusters, set c | c in clusters :: c.template
      ensures Valid() && (St(), joined) == Add(config, rules, old(St()), e)
      ensures joined.None? <==> t == null
      ensures joined.Some? ==> t == clusters[joined.value].template
      ensures forall n | n in nodes :: n in old(nodes) || fresh(n)
      ensures |clusters| == |old(clusters)| ==> clusters == old(clusters)
      ensures |clusters| != |old(clusters)| ==>
        added != null && fresh(added) && fresh(added.template) && clusters == old(clusters) + [added]
    {
      var tokens := Fields(rules.mask(e.message));
      if |tokens| == 0 {
        return null, None, null;
      }
      ghost var j;
      t, j, added := AddTokens(tokens, e);
      joined := Some(j);
    }

    /** The current templates in cluster-creation order. */
    method CurrentTemplates() returns (ts: seq<LogTemplate>)
      requires ValidClusters()
      ensures |ts| == |clusters| == |history| && Unaliased(ts)
      ensures forall j | 0 <= j < |ts| :: ts[j] == clusters[j].template && ts[j].Value() == history[j].template
    {
      ts := [];
      for j := 0 to |clusters|
        invariant |ts| == j && forall k | 0 <= k < j :: ts[k] == clusters[k].template
      {
        ts := ts + [clusters[j].template];
      }
      forall j | 0 <= j < |ts| ensures ts[j] in ownerOf && ownerOf[ts[j]] == j && ts[j].Value() == history[j].template {
        assert Mirrored(j);
      }
    }

    method AddTokens(tokens: seq<string>, e: LogEntry) returns (t: LogTemplate, ghost j: nat, ghost added: DrainCluster)
      requires Valid()
      modifies this, nodes, clusters, set c | c in clusters :: c.template
      ensures Valid()
      ensures var (grown, leaf) := Arrive(config, old(St()), tokens);
        (St(), j) == Settle(config, rules, grown, leaf, tokens, e)
      ensures j < |clusters| && t == clusters[j].template
      ensures forall n | n in nodes :: n in old(nodes) || fresh(n)
      ensures Extended(old(clusters), clusters, added)
      ensures |clusters| != |old(clusters)| ==> fresh(added) && fresh(added.template)
    {
      var node := ReachLeaf(tokens);
      ghost var st := St();
      t, j, added := PlaceAt(node, tokens, e);
      assert |clusters| != |old(clusters)| ==> fresh(added) && fresh(added.template);
      PlacedIsSettled(config, rules, st, node.path, tokens, e, St(), j);
    }

    /** The descent, seen from the whole engine: only the tree grows. */
    method ReachLeaf(tokens: seq<string>) returns (leaf: DrainNode)
      requires Valid()
      modifies this`tree, this`nodes, this`nodeAt, nodes`children
      ensures Valid() && leaf in nodes && forall n | n in nodes :: n in old(nodes) || fresh(n)
      ensures (St(), leaf.path) == Arrive(config, old(St()), tokens)
    {
      leaf := WalkTree(tokens);
      assert (St(), leaf.path) == Arrive(config, old(St()), tokens);
    }

    /** Past the cap: the entry is absorbed by the best cluster anywhere, or by the most recent one. */
    method HandleOverflow(tokens: seq<string>, e: LogEntry) returns (t: LogTemplate, ghost j: nat, ghost via: Via)
      requires ValidTree() && ValidAttachments() && ValidClusters() && |clusters| != 0
      modifies this`history, this`strayed, clusters`tokens, set c | c in clusters :: c.template
      ensures ValidTree() && ValidAttachments() && ValidClusters()
      ensures (via, j) == Overflow(config, old(history), tokens)
      ensures j < |clusters| && t == clusters[j].template
      ensures Moved(old(St()), St(), j, Member(tokens, e, via))
    {
      var best;
      best, j, via := OverflowTarget(tokens);
      JoinCluster(best, tokens, e, j, via);
      t := best.template;
    }

    /** The best cluster anywhere, or the most recent one. */
    method OverflowTarget(tokens: seq<string>) returns (c: DrainCluster, ghost j: nat, ghost via: Via)
      requires ValidClusters() && |clusters| != 0
      ensures (via, j) == Overflow(config, history, tokens)
      ensures j < |clusters| && c == clusters[j]
    {
      var best; ghost var at;
      best, at := FindBestGlobalMatch(tokens);
      if best == null {
        return clusters[|clusters| - 1], |clusters| - 1, Fallback;
      }
      return best, at.value, GlobalMatch;
    }

    /** Cluster j absorbed the member, and nothing else moved. */
    ghost predicate Moved(was: State, now: State, j: nat, m: Member) {
      && j < |was.clusters|
      && var c := Absorb(rules, was.clusters[j], m);
      now == State(was.tree, was.clusters[j := c],
        was.strayed || (!m.via.LeafMatch? && c.tokens != was.clusters[j].tokens))
    }

    /** A cluster moved in the place chosen for the message: that is its placement. */
    lemma MovedIsPlaced(was: State, now: State, leaf: Path, tokens: seq<string>, e: LogEntry, via: Via, j: nat)
      requires config.maxClusters >= 1 && Shape(was)
      requires Place(config, was.clusters, was.tree.Attached(leaf), tokens) == (via, j) && !via.Created?
      requires Moved(was, now, j, Member(tokens, e, via))
      ensures Placed(config, rules, was, leaf, tokens, e, now, j)
    {
    }

    /** Below the cap, with no match in the leaf, so is a new cluster. */
    lemma CreationIsPlaced(was: State, now: State, leaf: Path, tokens: seq<string>, e: LogEntry)
      requires config.maxClusters >= 1 && Shape(was) && |was.clusters| < config.maxClusters
      requires var attached := was.tree.Attached(leaf);
        Best(TokensAt(was.clusters, attached), |attached|, tokens, config.simThreshold, false).None?
      requires now == State(was.tree.Attach(leaf, |was.clusters|), was.clusters + [NewCluster(rules, leaf, tokens, e)],
        was.strayed)
      ensures Placed(config, rules, was, leaf, tokens, e, now, |was.clusters|)
    {
    }

    /** The clusters are those there were, and at most one more, which is new. */
    static ghost predicate Extended(was: seq<DrainCluster>, now: seq<DrainCluster>, added: DrainCluster) {
      now == was || now == was + [added]
    }

    /** The leaf's best match absorbs the entry. */
    method JoinLeaf(node: DrainNode, cluster: DrainCluster, tokens: seq<string>, e: LogEntry, ghost at: nat)
      returns (t: LogTemplate, ghost j: nat)
      requires ValidTree() && ValidAttachments() && ValidClusters() && Shape(St()) && config.maxClusters >= 1
      requires var attached := tree.Attached(node.path);
        && at < |attached| && attached[at] < |clusters| && cluster == clusters[attached[at]]
        && Best(TokensAt(history, attached), |attached|, tokens, config.simThreshold, false) == Some(at)
      modifies this`history, this`strayed, clusters`tokens, set c | c in clusters :: c.template
      ensures ValidTree() && ValidAttachments() && ValidClusters()
      ensures Placed(config, rules, old(St()), node.path, tokens, e, St(), j)
      ensures j < |clusters| && t == clusters[j].template
    {
      ghost var st := St();
      j := tree.Attached(node.path)[at];
      assert Place(config, st.clusters, st.tree.Attached(node.path), tokens) == (LeafMatch, j);
      JoinCluster(cluster, tokens, e, j, LeafMatch);
      MovedIsPlaced(st, St(), node.path, tokens, e, LeafMatch, j);
      t := cluster.template;
    }

    /** No cluster of the leaf is similar enough. */
    ghost predicate NoMatchAt(leaf: Path, tokens: seq<string>)
      requires Shape(St())
      reads `tree, `history, `strayed
    {
      var attached := tree.Attached(leaf);
      Best(TokensAt(history, attached), |attached|, tokens, config.simThreshold, false).None?
    }

    method OverflowAt(node: DrainNode, tokens: seq<string>, e: LogEntry) returns (t: LogTemplate, ghost j: nat)
      requires ValidTree() && ValidAttachments() && ValidClusters() && Shape(St()) && config.maxClusters >= 1
      requires NoMatchAt(node.path, tokens) && |clusters| >= config.maxClusters
      modifies this`history, this`strayed, clusters`tokens, set c | c in clusters :: c.template
      ensures ValidTree() && ValidAttachments() && ValidClusters()
      ensures Placed(config, rules, old(St()), node.path, tokens, e, St(), j)
      ensures j < |clusters| && t == clusters[j].template
    {
      ghost var st := St();
      ghost var via;
      assert Place(config, st.clusters, st.tree.Attached(node.path), tokens) == Overflow(config, st.clusters, tokens);
      t, j, via := HandleOverflow(tokens, e);
      MovedIsPlaced(st, St(), node.path, tokens, e, via, j);
    }

    method CreateAt(node: DrainNode, tokens: seq<string>, e: LogEntry)
      returns (t: LogTemplate, ghost j: nat, ghost c: DrainCluster)
      requires ValidTree() && ValidAttachments() && ValidClusters() && Shape(St()) && config.maxClusters >= 1
      requires node in nodes && NoMatchAt(node.path, tokens) && |clusters| < config.maxClusters
      modifies node`clusters, `clusters, `tree, `history, `ownerOf
      ensures ValidTree() && ValidAttachments() && ValidClusters()
      ensures Placed(config, rules, old(St()), node.path, tokens, e, St(), j)
      ensures clusters == old(clusters) + [c] && j == |old(clusters)| && t == c.template && fresh(t) && fresh(c)
    {
      ghost var st := St();
      j := |clusters|;
      t, c := CreateCluster(node, tokens, e);
      CreationIsPlaced(st, St(), node.path, tokens, e);
    }

    /** The branches of AddMessage: a match in the leaf, overflow past the cap, or a new cluster. */
    method PlaceAt(node: DrainNode, tokens: seq<string>, e: LogEntry)
      returns (t: LogTemplate, ghost j: nat, ghost added: DrainCluster)
      requires ValidTree() && ValidAttachments() && ValidClusters() && Shape(St()) && config.maxClusters >= 1
      requires node in nodes
      modifies this`clusters, this`tree, this`history, this`ownerOf, this`strayed, nodes`clusters
      modifies clusters`tokens, set c | c in clusters :: c.template
      ensures ValidTree() && ValidAttachments() && ValidClusters()
      ensures Placed(config, rules, old(St()), node.path, tokens, e, St(), j)
      ensures j < |clusters| && t == clusters[j].template
      ensures Extended(old(clusters), clusters, added)
      ensures |clusters| != |old(clusters)| ==> fresh(added) && fresh(added.template)
    {
      var cluster; ghost var at;
      cluster, at := FindMatchingCluster(node, tokens);
      if cluster != null {
        t, j := JoinLeaf(node, cluster, tokens, e, at.value);
        added := cluster;
      } else if |clusters| >= config.maxClusters {
        t, j := OverflowAt(node, tokens, e);
        added := clusters[j];
      } else {
        t, j, added := CreateAt(node, tokens, e);
      }
    }
  }

  /** The four things that move when a cluster absorbs an entry, and the example rows. */
  method WidenTemplate(rules: Rules, t: LogTemplate, tokens: seq<string>, vars: seq<string>, e: LogEntry)
    modifies t
    ensures t.Value() == WidenedTemplate(rules, old(t.Value()), tokens, vars, e)
  {
    t.pattern := Join(tokens);
    t.id := rules.templateHash(t.pattern);
    t.count := t.count + 1;
    UpdateTimeRange(t, e.timestamp);
    if SeverityRank(e.severity) > SeverityRank(t.severity) {
      t.severity := e.severity;
    }
    t.alias := rules.alias(t.pattern, t.severity);
    if vars != [] && |t.exampleVars| < MAX_EXAMPLE_VARS {
      t.exampleVars := t.exampleVars + [vars];
    }
  }

  /** Widens a template's observed range; a zero timestamp is not an observation. */
  method UpdateTimeRange(t: LogTemplate, ts: Instant)
    modifies t`firstSeen, t`lastSeen
    ensures t.firstSeen == EarlierSeen(old(t.firstSeen), ts) && t.lastSeen == LaterSeen(old(t.lastSeen), ts)
  {
    if ts == ZERO_TIME {
      return;
    }
    if t.firstSeen == ZERO_TIME || ts < t.firstSeen {
      t.firstSeen := ts;
    }
    if ts > t.lastSeen {
      t.lastSeen := ts;
    }
  }
}
