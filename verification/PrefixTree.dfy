/**
  The routing half of the Drain engine: a prefix tree whose nodes have a bounded number of children.

  A node is named by the keys that lead to it from the root. The tree gives each node the keys of its
  children and the indices of the clusters attached to it, in attachment order.
 */
module PrefixTree {

  import opened Wrappers
  import opened Model
  import opened Tokens

  type Path = seq<string>

  datatype Tree = Tree(kids: map<Path, set<string>>, attached: map<Path, seq<nat>>) {
    function Kids(p: Path): set<string> {
      if p in kids then kids[p] else {}
    }

    function Attached(p: Path): seq<nat> {
      if p in attached then attached[p] else []
    }

    function Open(p: Path, k: string): Tree {
      Tree(kids[p := Kids(p) + {k}], attached)
    }

    function Attach(p: Path, j: nat): Tree {
      Tree(kids, attached[p := Attached(p) + [j]])
    }
  }

  const ROOT_ONLY := Tree(map[], map[])

  /** The key a token branches on. */
  function BranchKey(token: string): string {
    if IsWildcard(token) then WILDCARD else token
  }

  function Depth(maxDepth: nat, tokens: seq<string>): nat {
    if maxDepth <= 1 then 0 else if maxDepth - 1 < |tokens| then maxDepth - 1 else |tokens|
  }

  /** The keys a token list asks for on its way down: its count bucket, then its first tokens. */
  function RouteKeys(maxDepth: nat, tokens: seq<string>): (keys: Path)
    ensures |keys| == 1 + Depth(maxDepth, tokens)
  {
    [TokenCountBucket(|tokens|)]
    + seq(Depth(maxDepth, tokens), i requires 0 <= i < Depth(maxDepth, tokens) => BranchKey(tokens[i]))
  }

  lemma RouteKeysAt(maxDepth: nat, tokens: seq<string>, i: nat)
    requires i < Depth(maxDepth, tokens)
    ensures RouteKeys(maxDepth, tokens)[i + 1] == BranchKey(tokens[i])
  {
  }

  /** The child actually used for a key: past the cap every new key collapses onto the wildcard. */
  function ChildKey(maxChildren: nat, tree: Tree, p: Path, key: string): (k: string)
    ensures k == key || k == WILDCARD
  {
    if key !in tree.Kids(p) && |tree.Kids(p)| >= maxChildren then WILDCARD else key
  }

  /** Descends from p along the keys, creating the missing nodes; gives the tree and the leaf reached. */
  function Grow(maxChildren: nat, tree: Tree, p: Path, keys: Path): (Tree, Path)
    decreases |keys|
  {
    if |keys| == 0 then
      (tree, p)
    else
      var k := ChildKey(maxChildren, tree, p, keys[0]);
      Grow(maxChildren, tree.Open(p, k), p + [k], keys[1..])
  }

  lemma GrowStep(mc: nat, tree: Tree, p: Path, keys: Path, i: nat)
    requires i < |keys|
    ensures var k := ChildKey(mc, tree, p, keys[i]);
      Grow(mc, tree, p, keys[i..]) == Grow(mc, tree.Open(p, k), p + [k], keys[i + 1..])
  {
    assert keys[i..][0] == keys[i] && keys[i..][1..] == keys[i + 1..];
  }

  /** Where the keys lead in the tree as it stands, or None when a node on the way is missing. */
  function Lookup(maxChildren: nat, tree: Tree, p: Path, keys: Path): (r: Option<Path>)
    decreases |keys|
  {
    if |keys| == 0 then
      Some(p)
    else
      var k := ChildKey(maxChildren, tree, p, keys[0]);
      if k in tree.Kids(p) then Lookup(maxChildren, tree, p + [k], keys[1..]) else None
  }

  lemma KidsOfOpen(tree: Tree, p: Path, k: string)
    ensures forall q :: tree.Open(p, k).Kids(q) == if q == p then tree.Kids(p) + {k} else tree.Kids(q)
  {
  }

  lemma OpenExisting(tree: Tree, p: Path, k: string)
    requires k in tree.Kids(p)
    ensures tree.Open(p, k) == tree
  {
    assert tree.Kids(p) + {k} == tree.Kids(p);
  }

  function Front(p: Path): Path
    requires p != []
  {
    p[..|p| - 1]
  }

  function Last(p: Path): string
    requires p != []
  {
    p[|p| - 1]
  }

  /** Only a node that its parent lists has children or clusters. */
  ghost predicate Anchored(tree: Tree) {
    forall p | p != [] && Last(p) !in tree.Kids(Front(p)) :: tree.Kids(p) == {} && tree.Attached(p) == []
  }

  lemma AttachKeepsAnchored(tree: Tree, p: Path, j: nat)
    requires Anchored(tree) && (p == [] || Last(p) in tree.Kids(Front(p)))
    ensures Anchored(tree.Attach(p, j))
    ensures forall q :: tree.Attach(p, j).Kids(q) == tree.Kids(q)
    ensures forall q :: tree.Attach(p, j).Attached(q) == if q == p then tree.Attached(p) + [j] else tree.Attached(q)
  {
  }

  lemma OpenKeepsAnchored(tree: Tree, p: Path, k: string)
    requires Anchored(tree) && (p == [] || Last(p) in tree.Kids(Front(p))) && k !in tree.Kids(p)
    ensures Anchored(tree.Open(p, k))
    ensures tree.Open(p, k).Kids(p + [k]) == {} && tree.Attached(p + [k]) == []
  {
    KidsOfOpen(tree, p, k);
    assert Front(p + [k]) == p && Last(p + [k]) == k;
  }

  // ---- routing is stable -------------------------------------------------

  lemma Cardinality<T>(a: set<T>, b: set<T>)
    requires a <= b
    ensures |a| <= |b|
  {
    assert b == a + (b - a);
  }

  /** One creation step does not redirect a key that already had a child. */
  lemma ChildKeyStable(mc: nat, tree: Tree, at: Path, created: string, p: Path, key: string)
    requires ChildKey(mc, tree, p, key) in tree.Kids(p)
    ensures ChildKey(mc, tree.Open(at, ChildKey(mc, tree, at, created)), p, key) == ChildKey(mc, tree, p, key)
  {
    // at the cap nothing but the wildcard is created under p
    Cardinality(tree.Kids(p), tree.Open(at, ChildKey(mc, tree, at, created)).Kids(p));
  }

  lemma {:induction false} LookupStableStep(mc: nat, tree: Tree, at: Path, created: string, p: Path, keys: Path)
    requires Lookup(mc, tree, p, keys).Some?
    ensures Lookup(mc, tree.Open(at, ChildKey(mc, tree, at, created)), p, keys) == Lookup(mc, tree, p, keys)
    decreases |keys|
  {
    if |keys| != 0 {
      ChildKeyStable(mc, tree, at, created, p, keys[0]);
      LookupStableStep(mc, tree, at, created, p + [ChildKey(mc, tree, p, keys[0])], keys[1..]);
    }
  }

  /**
    Routing stability: whatever nodes a later message creates, keys that reached a leaf keep reaching
    the same leaf.
   */
  lemma {:induction false} RoutingIsStable(mc: nat, tree: Tree, at: Path, created: Path, p: Path, keys: Path)
    requires Lookup(mc, tree, p, keys).Some?
    ensures Lookup(mc, Grow(mc, tree, at, created).0, p, keys) == Lookup(mc, tree, p, keys)
    decreases |created|
  {
    if |created| != 0 {
      var k := ChildKey(mc, tree, at, created[0]);
      LookupStableStep(mc, tree, at, created[0], p, keys);
      RoutingIsStable(mc, tree.Open(at, k), at + [k], created[1..], p, keys);
    }
  }

  /**
    A key the cap once sent to the wildcard child never gets a child of its own afterwards, although
    other messages keep growing the tree.
   */
  lemma CollapsedKeyStaysCollapsed(mc: nat, tree: Tree, p: Path, key: string, at: Path, created: Path)
    requires key != WILDCARD && ChildKey(mc, tree, p, key) == WILDCARD && WILDCARD in tree.Kids(p)
    ensures key !in Grow(mc, tree, at, created).0.Kids(p)
    ensures ChildKey(mc, Grow(mc, tree, at, created).0, p, key) == WILDCARD
  {
    assert Lookup(mc, tree, p, [key]) == Some(p + [WILDCARD]);
    RoutingIsStable(mc, tree, at, created, p, [key]);
    var t := Grow(mc, tree, at, created).0;
    var k := ChildKey(mc, t, p, key);
    assert Lookup(mc, t, p, [key]) == Some(p + [k]);
    assert (p + [k])[|p|] == (p + [WILDCARD])[|p|];
  }

  /** The leaf a descent creates or finds is the leaf a later lookup of the same keys finds. */
  lemma {:induction false} GrowReaches(mc: nat, tree: Tree, p: Path, keys: Path)
    ensures var (t, leaf) := Grow(mc, tree, p, keys); Lookup(mc, t, p, keys) == Some(leaf)
    decreases |keys|
  {
    if |keys| != 0 {
      var k := ChildKey(mc, tree, p, keys[0]);
      var tree1 := tree.Open(p, k);
      GrowReaches(mc, tree1, p + [k], keys[1..]);
      Cardinality(tree.Kids(p), tree1.Kids(p));
      assert Lookup(mc, tree1, p, [keys[0]]) == Some(p + [k]);
      RoutingIsStable(mc, tree1, p + [k], keys[1..], p, [keys[0]]);
      var t := Grow(mc, tree1, p + [k], keys[1..]).0;
      assert (p + [ChildKey(mc, t, p, keys[0])])[|p|] == (p + [k])[|p|];
    }
  }

  lemma {:induction false} LookupExtends(mc: nat, tree: Tree, p: Path, keys: Path)
    requires Lookup(mc, tree, p, keys).Some?
    ensures var q := Lookup(mc, tree, p, keys).value; |q| == |p| + |keys| && q[..|p|] == p
    decreases |keys|
  {
    if |keys| != 0 {
      var p1 := p + [ChildKey(mc, tree, p, keys[0])];
      LookupExtends(mc, tree, p1, keys[1..]);
      var q := Lookup(mc, tree, p, keys).value;
      assert q[..|p|] == q[..|p1|][..|p|] == p;
    }
  }

  // ---- broadening stays in its leaf --------------------------------------

  /** The keys of a broadened pattern: unchanged, or the wildcard where the two key lists differ. */
  ghost predicate Broadens(a: Path, b: Path, m: Path) {
    |a| == |b| == |m| && forall i | 0 <= i < |a| :: m[i] == a[i] || (m[i] == WILDCARD && a[i] != b[i])
  }

  lemma {:induction false} BroadenedKeysStay(mc: nat, tree: Tree, p: Path, a: Path, b: Path, m: Path)
    requires Broadens(a, b, m)
    requires Lookup(mc, tree, p, a).Some? && Lookup(mc, tree, p, a) == Lookup(mc, tree, p, b)
    ensures Lookup(mc, tree, p, m) == Lookup(mc, tree, p, a)
    decreases |a|
  {
    if |a| != 0 {
      var ka, kb := ChildKey(mc, tree, p, a[0]), ChildKey(mc, tree, p, b[0]);
      LookupExtends(mc, tree, p + [ka], a[1..]);
      LookupExtends(mc, tree, p + [kb], b[1..]);
      var q := Lookup(mc, tree, p, a).value;
      assert ka == kb by {
        assert q[..|p| + 1] == p + [ka] == p + [kb];
        assert (p + [ka])[|p|] == (p + [kb])[|p|];
      }
      assert ChildKey(mc, tree, p, m[0]) == ka;
      BroadenedKeysStay(mc, tree, p + [ka], a[1..], b[1..], m[1..]);
    }
  }

  /**
    A pattern broadened by a message of its own leaf is still routed to that leaf, although its first
    tokens may have become wildcards.
   */
  lemma BroadeningStaysInLeaf(mc: nat, maxDepth: nat, tree: Tree, a: seq<string>, t: seq<string>)
    requires |a| == |t|
    requires Lookup(mc, tree, [], RouteKeys(maxDepth, a)).Some?
    requires Lookup(mc, tree, [], RouteKeys(maxDepth, a)) == Lookup(mc, tree, [], RouteKeys(maxDepth, t))
    ensures Lookup(mc, tree, [], RouteKeys(maxDepth, MergeTokens(a, t))) == Lookup(mc, tree, [], RouteKeys(maxDepth, a))
  {
    var m := MergeTokens(a, t);
    var ka, kt, km := RouteKeys(maxDepth, a), RouteKeys(maxDepth, t), RouteKeys(maxDepth, m);
    forall i | 0 <= i < |ka| ensures km[i] == ka[i] || (km[i] == WILDCARD && ka[i] != kt[i]) {
    }
    BroadenedKeysStay(mc, tree, [], ka, kt, km);
  }

  // ---- the child cap -----------------------------------------------------

  /** No node has more than maxChildren children besides the wildcard child. */
  ghost predicate ChildrenCapped(mc: nat, tree: Tree) {
    forall p :: |tree.Kids(p) - {WILDCARD}| <= mc
  }

  lemma InsertUnderCap(was: set<string>, k: string, mc: nat)
    requires |was - {WILDCARD}| <= mc
    requires k == WILDCARD || k in was || |was| < mc
    ensures |was + {k} - {WILDCARD}| <= mc
  {
    if k == WILDCARD || k in was {
      assert was + {k} - {WILDCARD} == was - {WILDCARD};
    } else {
      Cardinality(was - {WILDCARD}, was);
      assert was + {k} - {WILDCARD} == (was - {WILDCARD}) + {k};
    }
  }

  lemma {:induction false} GrowKeepsCap(mc: nat, tree: Tree, p: Path, keys: Path)
    requires ChildrenCapped(mc, tree)
    ensures ChildrenCapped(mc, Grow(mc, tree, p, keys).0)
    decreases |keys|
  {
    if |keys| != 0 {
      var k := ChildKey(mc, tree, p, keys[0]);
      InsertUnderCap(tree.Kids(p), k, mc);
      KidsOfOpen(tree, p, k);
      GrowKeepsCap(mc, tree.Open(p, k), p + [k], keys[1..]);
    }
  }

  /** The cap as the configuration states it: at most maxChildren + 1 children. */
  lemma CapBoundsChildren(mc: nat, tree: Tree, p: Path)
    requires ChildrenCapped(mc, tree)
    ensures |tree.Kids(p)| <= mc + 1
  {
    var ks := tree.Kids(p);
    if WILDCARD in ks {
      assert ks == (ks - {WILDCARD}) + {WILDCARD};
    } else {
      assert ks == ks - {WILDCARD};
    }
  }

  /** Growing attaches and detaches nothing. */
  lemma {:induction false} GrowKeepsAttached(mc: nat, tree: Tree, p: Path, keys: Path)
    ensures Grow(mc, tree, p, keys).0.attached == tree.attached
    decreases |keys|
  {
    if |keys| != 0 {
      var k := ChildKey(mc, tree, p, keys[0]);
      GrowKeepsAttached(mc, tree.Open(p, k), p + [k], keys[1..]);
    }
  }
}
