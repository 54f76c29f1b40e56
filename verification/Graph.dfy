/** The emitted graph: nodes, edges, and the guarantee that no edge dangles. */
module Graph {

  import opened Strings
  import opened Model
  import opened Sorting
  import opened Streams
  import opened Chunks
  import opened Resolve
  import Correlations

  /** A node, with the value it is rendered from. */
  datatype Node = TemplateNode(template: Template)
                | StreamNode(source: Stream)
                | ChunkNode(chunk: Chunk)
                | LabelNode(key: string, value: string)
                | ProxyNode(resolution: Resolution)

  /** A correlation edge carries the result its confidence and evidence are rendered from. */
  datatype EdgeKind = HasLabel | BelongsTo | Contains | EmittedBy | CorrelatesWith(result: Correlations.Correlation)

  datatype Edge = Edge(from: string, to: string, kind: EdgeKind)

  function LabelNodeId(key: string, value: string): string {
    "log-label:" + key + "=" + value
  }

  function ProxyId(r: Resolution): string {
    "proxy:cloud:" + r.account + ":" + r.resource
  }

  function NodeId(n: Node): string {
    match n
    case TemplateNode(t) => t.id
    case StreamNode(s) => s.id
    case ChunkNode(c) => c.id
    case LabelNode(k, v) => LabelNodeId(k, v)
    case ProxyNode(r) => ProxyId(r)
  }

  /** What each kind of edge may join. */
  predicate Joins(kind: EdgeKind, from: Node, to: Node) {
    match kind
    case HasLabel => from.StreamNode? && to.LabelNode?
    case BelongsTo => from.ChunkNode? && to.StreamNode?
    case Contains => from.TemplateNode? && to.ChunkNode?
    case EmittedBy => from.LabelNode? && to.ProxyNode?
    case CorrelatesWith(_) => from.TemplateNode? && to.TemplateNode?
  }

  /** Both endpoints of the edge are among the nodes, and of the right kinds. */
  ghost predicate Anchored(nodes: seq<Node>, e: Edge) {
    exists a, b :: a in nodes && b in nodes && NodeId(a) == e.from && NodeId(b) == e.to && Joins(e.kind, a, b)
  }

  /** Referential integrity. */
  ghost predicate Closed(nodes: seq<Node>, edges: seq<Edge>) {
    forall e | e in edges :: Anchored(nodes, e)
  }

  lemma AnchoredAt(nodes: seq<Node>, a: Node, b: Node, kind: EdgeKind)
    requires a in nodes && b in nodes && Joins(kind, a, b)
    ensures Anchored(nodes, Edge(NodeId(a), NodeId(b), kind))
  {
  }

  lemma AnchoredBy(nodes: seq<Node>, e: Edge, a: Node, b: Node)
    requires a in nodes && b in nodes && NodeId(a) == e.from && NodeId(b) == e.to && Joins(e.kind, a, b)
    ensures Anchored(nodes, e)
  {
  }

  // ---- each id once ------------------------------------------------------

  /** A node with this id is among the nodes. */
  ghost predicate HasNode(nodes: seq<Node>, id: string) {
    exists n :: n in nodes && NodeId(n) == id
  }

  /** The first node of each id, in order. */
  ghost function FirstNodes(ns: seq<Node>): seq<Node> {
    if |ns| == 0 then []
    else
      var front, n := FirstNodes(ns[..|ns| - 1]), ns[|ns| - 1];
      if HasNode(front, NodeId(n)) then front else front + [n]
  }

  lemma FirstNodesSnoc(ns: seq<Node>, n: Node)
    ensures FirstNodes(ns + [n]) == if HasNode(FirstNodes(ns), NodeId(n)) then FirstNodes(ns) else FirstNodes(ns) + [n]
  {
    assert (ns + [n])[..|ns|] == ns;
  }

  lemma HasNodeSnoc(nodes: seq<Node>, n: Node, id: string)
    ensures HasNode(nodes + [n], id) <==> HasNode(nodes, id) || NodeId(n) == id
  {
    assert (nodes + [n])[|nodes|] == n;
    assert forall m :: m in nodes + [n] <==> m in nodes || m == n;
  }

  predicate DistinctNodes(nodes: seq<Node>) {
    forall i, j | 0 <= i < j < |nodes| :: NodeId(nodes[i]) != NodeId(nodes[j])
  }

  lemma NewIdStaysDistinct(nodes: seq<Node>, n: Node)
    requires DistinctNodes(nodes) && !HasNode(nodes, NodeId(n))
    ensures DistinctNodes(nodes + [n])
  {
    assert forall i | 0 <= i < |nodes| :: nodes[i] in nodes;
  }

  /** They have distinct ids, are among the nodes, and every node's id is still there. */
  lemma {:induction false} FirstNodesKeepIds(ns: seq<Node>)
    ensures DistinctNodes(FirstNodes(ns))
    ensures forall n | n in FirstNodes(ns) :: n in ns
    ensures forall n | n in ns :: HasNode(FirstNodes(ns), NodeId(n))
  {
    if |ns| != 0 {
      var rest, n := ns[..|ns| - 1], ns[|ns| - 1];
      assert ns == rest + [n];
      FirstNodesKeepIds(rest);
      FirstNodesStep(FirstNodes(rest), rest, n, ns, FirstNodes(ns));
    }
  }

  lemma FirstNodesStep(front: seq<Node>, rest: seq<Node>, n: Node, ns: seq<Node>, nodes: seq<Node>)
    requires ns == rest + [n] && nodes == if HasNode(front, NodeId(n)) then front else front + [n]
    requires DistinctNodes(front) && (forall m | m in front :: m in rest)
    requires forall m | m in rest :: HasNode(front, NodeId(m))
    ensures DistinctNodes(nodes) && (forall m | m in nodes :: m in ns)
    ensures forall m | m in ns :: HasNode(nodes, NodeId(m))
  {
    if !HasNode(front, NodeId(n)) {
      NewIdStaysDistinct(front, n);
    }
    forall m | m in ns ensures HasNode(nodes, NodeId(m)) {
      HasNodeSnoc(front, n, NodeId(m));
    }
  }

  /** seen holds exactly the ids of the nodes. */
  ghost predicate SeenIds(seen: set<string>, nodes: seq<Node>) {
    forall id :: id in seen <==> HasNode(nodes, id)
  }

  lemma SeenSnoc(seen: set<string>, nodes: seq<Node>, n: Node)
    requires SeenIds(seen, nodes)
    ensures SeenIds(seen + {NodeId(n)}, nodes + [n])
  {
    forall id ensures id in seen + {NodeId(n)} <==> HasNode(nodes + [n], id) {
      HasNodeSnoc(nodes, n, id);
    }
  }

  /** The nodes gathered are the first of each id, and their ids are known. */
  ghost predicate Gathered(nodes: seq<Node>, seen: set<string>, ns: seq<Node>) {
    nodes == FirstNodes(ns) && SeenIds(seen, nodes)
  }

  /** Appends a node whose id has not been seen. */
  method AddNode(nodes: seq<Node>, seen: set<string>, n: Node, ghost ns: seq<Node>)
    returns (nodes': seq<Node>, seen': set<string>)
    requires Gathered(nodes, seen, ns)
    ensures Gathered(nodes', seen', ns + [n])
  {
    FirstNodesSnoc(ns, n);
    nodes', seen' := nodes, seen;
    if NodeId(n) !in seen {
      SeenSnoc(seen, nodes, n);
      nodes', seen' := nodes + [n], seen + {NodeId(n)};
    }
  }

  // ---- labels ------------------------------------------------------------

  /** The nodes of the pairs at these keys, in order. */
  function PairNodes(labels: map<string, string>, keys: seq<string>): (nodes: seq<Node>)
    requires forall k | k in keys :: k in labels
    ensures |nodes| == |keys|
  {
    seq(|keys|, i requires 0 <= i < |keys| => LabelNode(keys[i], labels[keys[i]]))
  }

  /** Every low-cardinality pair of every stream, stream by stream and in ascending order of the keys. */
  ghost function LabelPairs(streams: seq<Stream>): seq<Node> {
    if |streams| == 0 then []
    else
      var low := streams[|streams| - 1].lowCard;
      LabelPairs(streams[..|streams| - 1]) + PairNodes(low, Ordered(low.Keys))
  }

  /** One node per distinct pair, in first-observed order. */
  ghost function LabelNodesOf(streams: seq<Stream>): seq<Node> {
    FirstNodes(LabelPairs(streams))
  }

  /** The next key's node is listed after those before it. */
  lemma PairNodesNext(ns: seq<Node>, labels: map<string, string>, keys: seq<string>, i: nat)
    requires i < |keys| && forall k | k in keys :: k in labels
    ensures ns + PairNodes(labels, keys[..i + 1]) == ns + PairNodes(labels, keys[..i])
      + [LabelNode(keys[i], labels[keys[i]])]
  {
    var more, front := PairNodes(labels, keys[..i + 1]), PairNodes(labels, keys[..i]);
    assert more == front + [LabelNode(keys[i], labels[keys[i]])];
  }

  method AddLabels(nodes: seq<Node>, seen: set<string>, low: map<string, string>, ghost ns: seq<Node>)
    returns (nodes': seq<Node>, seen': set<string>)
    requires Gathered(nodes, seen, ns)
    ensures Gathered(nodes', seen', ns + PairNodes(low, Ordered(low.Keys)))
  {
    var keys := SortedKeys(low);
    nodes', seen' := nodes, seen;
    assert ns + PairNodes(low, keys[..0]) == ns;
    for i := 0 to |keys|
      invariant Gathered(nodes', seen', ns + PairNodes(low, keys[..i]))
    {
      assert keys[i] in keys;
      PairNodesNext(ns, low, keys, i);
      nodes', seen' := AddNode(nodes', seen', LabelNode(keys[i], low[keys[i]]), ns + PairNodes(low, keys[..i]));
    }
    assert keys[..|keys|] == keys;
  }

  lemma LabelPairsNext(streams: seq<Stream>, i: nat)
    requires i < |streams|
    ensures var low := streams[i].lowCard;
      LabelPairs(streams[..i + 1]) == LabelPairs(streams[..i]) + PairNodes(low, Ordered(low.Keys))
  {
    assert streams[..i + 1][..i] == streams[..i];
  }

  /** One node per distinct low-cardinality pair across every stream, in first-observed order. */
  method LabelNodes(streams: seq<Stream>) returns (nodes: seq<Node>)
    ensures nodes == LabelNodesOf(streams)
  {
    var seen: set<string> := {};
    nodes := [];
    for i := 0 to |streams|
      invariant Gathered(nodes, seen, LabelPairs(streams[..i]))
    {
      LabelPairsNext(streams, i);
      nodes, seen := AddLabels(nodes, seen, streams[i].lowCard, LabelPairs(streams[..i]));
    }
    assert streams[..|streams|] == streams;
  }

  /** A pair is listed exactly when one of the streams carries it. */
  lemma {:induction false} PairsListed(streams: seq<Stream>, n: Node)
    ensures n in LabelPairs(streams)
      <==> n.LabelNode? && exists s :: s in streams && n.key in s.lowCard && s.lowCard[n.key] == n.value
  {
    if |streams| != 0 {
      var front, s := streams[..|streams| - 1], streams[|streams| - 1];
      assert forall t :: t in streams <==> t in front || t == s;
      PairsListed(front, n);
      PairListed(s.lowCard, n);
    }
  }

  lemma PairListed(low: map<string, string>, n: Node)
    ensures n in PairNodes(low, Ordered(low.Keys)) <==> n.LabelNode? && n.key in low && low[n.key] == n.value
  {
    var keys := Ordered(low.Keys);
    if n.LabelNode? && n.key in low && low[n.key] == n.value {
      assert n.key in keys;
      var i :| 0 <= i < |keys| && keys[i] == n.key;
      assert PairNodes(low, keys)[i] == n;
    }
    if n in PairNodes(low, keys) {
      var i :| 0 <= i < |keys| && PairNodes(low, keys)[i] == n;
      assert keys[i] in keys;
    }
  }

  /**
    The label nodes have distinct ids, stand for pairs the streams carry, and leave none of those pairs
    without a node.
   */
  lemma LabelNodesAreExact(streams: seq<Stream>)
    ensures DistinctNodes(LabelNodesOf(streams))
    ensures forall n | n in LabelNodesOf(streams) ::
      n.LabelNode? && exists s :: s in streams && n.key in s.lowCard && s.lowCard[n.key] == n.value
    ensures forall s, k | s in streams && k in s.lowCard :: HasNode(LabelNodesOf(streams), LabelNodeId(k, s.lowCard[k]))
  {
    FirstNodesKeepIds(LabelPairs(streams));
    forall n | n in LabelNodesOf(streams)
      ensures n.LabelNode? && exists s :: s in streams && n.key in s.lowCard && s.lowCard[n.key] == n.value
    {
      PairsListed(streams, n);
    }
    forall s, k | s in streams && k in s.lowCard ensures HasNode(LabelNodesOf(streams), LabelNodeId(k, s.lowCard[k])) {
      PairsListed(streams, LabelNode(k, s.lowCard[k]));
    }
  }

  // ---- the log half ------------------------------------------------------

  function TemplateNodes(ts: seq<Template>): (nodes: seq<Node>)
    ensures |nodes| == |ts|
  {
    seq(|ts|, i requires 0 <= i < |ts| => TemplateNode(ts[i]))
  }

  function StreamNodes(ss: seq<Stream>): (nodes: seq<Node>)
    ensures |nodes| == |ss|
  {
    seq(|ss|, i requires 0 <= i < |ss| => StreamNode(ss[i]))
  }

  function ChunkNodes(cs: seq<Chunk>): (nodes: seq<Node>)
    ensures |nodes| == |cs|
  {
    seq(|cs|, i requires 0 <= i < |cs| => ChunkNode(cs[i]))
  }

  /** The edges from an id to the label nodes of these pairs. */
  function LabelEdges(from: string, pairs: seq<Node>): (edges: seq<Edge>)
    ensures |edges| == |pairs|
  {
    seq(|pairs|, i requires 0 <= i < |pairs| => Edge(from, NodeId(pairs[i]), HasLabel))
  }

  /** A stream's label edges, in key order. */
  ghost function StreamEdges(s: Stream): seq<Edge> {
    LabelEdges(s.id, PairNodes(s.lowCard, Ordered(s.lowCard.Keys)))
  }

  /** One chunk's two edges, which run in opposite directions. */
  function ChunkEdges(c: Chunk): seq<Edge> {
    [Edge(c.id, c.stream, BelongsTo), Edge(c.template, c.id, Contains)]
  }

  ghost function EdgesOfStreams(streams: seq<Stream>): seq<Edge> {
    if |streams| == 0 then [] else EdgesOfStreams(streams[..|streams| - 1]) + StreamEdges(streams[|streams| - 1])
  }

  function EdgesOfChunks(chunks: seq<Chunk>): seq<Edge> {
    if |chunks| == 0 then [] else EdgesOfChunks(chunks[..|chunks| - 1]) + ChunkEdges(chunks[|chunks| - 1])
  }

  /** The edges of the log half: stream by stream, then chunk by chunk. */
  ghost function LogEdges(streams: seq<Stream>, chunks: seq<Chunk>): seq<Edge> {
    EdgesOfStreams(streams) + EdgesOfChunks(chunks)
  }

  /** Links a stream to each of its low-cardinality label nodes, in key order. */
  method HasLabelEdges(s: Stream) returns (edges: seq<Edge>)
    ensures edges == StreamEdges(s)
    ensures |edges| == |s.lowCard.Keys|
  {
    var keys := SortedKeys(s.lowCard);
    edges := [];
    for i := 0 to |keys|
      invariant edges == LabelEdges(s.id, PairNodes(s.lowCard, keys))[..i]
    {
      assert keys[i] in keys;
      edges := edges + [Edge(s.id, LabelNodeId(keys[i], s.lowCard[keys[i]]), HasLabel)];
    }
    OrderedSize(s.lowCard.Keys);
  }

  /** Each key is listed once. */
  lemma OrderedSize(keys: set<string>)
    ensures |Ordered(keys)| == |keys|
  {
    ListingSize(Ordered(keys), keys);
  }

  lemma {:induction false} ListingSize(list: seq<string>, keys: set<string>)
    requires Ascending(list) && forall k :: k in list <==> k in keys
    ensures |list| == |keys|
    decreases |list|
  {
    if |list| == 0 {
      assert keys == {};
    } else {
      var front, k := list[..|list| - 1], list[|list| - 1];
      assert list == front + [k];
      assert k in keys;
      forall x ensures x in front <==> x in keys - {k} {
        if x in front {
          var i :| 0 <= i < |front| && front[i] == x;
          assert Less(list[i], k);
          LessIrreflexive(k);
        }
      }
      ListingSize(front, keys - {k});
    }
  }

  lemma EdgesOfStreamsNext(streams: seq<Stream>, i: nat)
    requires i < |streams|
    ensures EdgesOfStreams(streams[..i + 1]) == EdgesOfStreams(streams[..i]) + StreamEdges(streams[i])
  {
    assert streams[..i + 1][..i] == streams[..i];
  }

  /** The log half of the graph: four kinds of node and the three kinds of edge among them, in this order. */
  method AssembleGraph(templates: seq<Template>, streams: seq<Stream>, chunks: seq<Chunk>)
    returns (nodes: seq<Node>, edges: seq<Edge>)
    ensures nodes == TemplateNodes(templates) + StreamNodes(streams) + ChunkNodes(chunks) + LabelNodesOf(streams)
    ensures edges == LogEdges(streams, chunks)
  {
    nodes := TemplateNodes(templates) + StreamNodes(streams) + ChunkNodes(chunks);
    var labels := LabelNodes(streams);
    nodes := nodes + labels;
    edges := [];
    for i := 0 to |streams|
      invariant edges == EdgesOfStreams(streams[..i])
    {
      EdgesOfStreamsNext(streams, i);
      var more := HasLabelEdges(streams[i]);
      edges := edges + more;
    }
    assert streams[..|streams|] == streams;
    for i := 0 to |chunks|
      invariant edges == EdgesOfStreams(streams) + EdgesOfChunks(chunks[..i])
    {
      assert chunks[..i + 1][..i] == chunks[..i];
      edges := edges + ChunkEdges(chunks[i]);
    }
    assert chunks[..|chunks|] == chunks;
  }

  /** An edge from the stream to one of its low-cardinality labels. */
  ghost predicate IsLabelEdge(streams: seq<Stream>, e: Edge) {
    exists s, k :: s in streams && k in s.lowCard && e == Edge(s.id, LabelNodeId(k, s.lowCard[k]), HasLabel)
  }

  ghost predicate IsChunkEdge(chunks: seq<Chunk>, e: Edge) {
    exists c :: c in chunks && e in ChunkEdges(c)
  }

  lemma StreamEdgeListed(s: Stream, e: Edge)
    ensures e in StreamEdges(s)
       <==> exists k :: k in s.lowCard && e == Edge(s.id, LabelNodeId(k, s.lowCard[k]), HasLabel)
  {
    var keys := Ordered(s.lowCard.Keys);
    if e in StreamEdges(s) {
      var i :| 0 <= i < |keys| && StreamEdges(s)[i] == e;
      assert keys[i] in keys;
    }
    if k :| k in s.lowCard && e == Edge(s.id, LabelNodeId(k, s.lowCard[k]), HasLabel) {
      assert k in keys;
      var i :| 0 <= i < |keys| && keys[i] == k;
      assert StreamEdges(s)[i] == e;
    }
  }

  lemma {:induction false} StreamEdgesListed(streams: seq<Stream>, e: Edge)
    ensures e in EdgesOfStreams(streams) <==> IsLabelEdge(streams, e)
  {
    if |streams| != 0 {
      var front, s := streams[..|streams| - 1], streams[|streams| - 1];
      assert forall t :: t in streams <==> t in front || t == s;
      StreamEdgesListed(front, e);
      StreamEdgeListed(s, e);
    }
  }

  lemma {:induction false} ChunkEdgesListed(chunks: seq<Chunk>, e: Edge)
    ensures e in EdgesOfChunks(chunks) <==> IsChunkEdge(chunks, e)
  {
    if |chunks| != 0 {
      var front, c := chunks[..|chunks| - 1], chunks[|chunks| - 1];
      assert forall d :: d in chunks <==> d in front || d == c;
      ChunkEdgesListed(front, e);
    }
  }

  /** The edges of the log half are the label edges of the streams and the two edges of each chunk, and no others. */
  lemma LogEdgesAreExact(streams: seq<Stream>, chunks: seq<Chunk>, e: Edge)
    ensures e in LogEdges(streams, chunks) <==> IsLabelEdge(streams, e) || IsChunkEdge(chunks, e)
  {
    StreamEdgesListed(streams, e);
    ChunkEdgesListed(chunks, e);
  }

  // ---- the cloud half ----------------------------------------------------

  function EmittedByEdge(r: Resolution): Edge {
    Edge(LabelNodeId(r.key, r.value), ProxyId(r), EmittedBy)
  }

  /** A proxy for every resolution. */
  function AllProxies(rs: seq<Resolution>): (nodes: seq<Node>)
    ensures |nodes| == |rs|
  {
    seq(|rs|, i requires 0 <= i < |rs| => ProxyNode(rs[i]))
  }

  /** One proxy per distinct resource, built from the first resolution that names it. */
  ghost function ProxiesOf(rs: seq<Resolution>): seq<Node> {
    FirstNodes(AllProxies(rs))
  }

  function ProxyEdges(rs: seq<Resolution>): (edges: seq<Edge>)
    ensures |edges| == |rs|
  {
    seq(|rs|, i requires 0 <= i < |rs| => EmittedByEdge(rs[i]))
  }

  lemma AllProxiesNext(rs: seq<Resolution>, i: nat)
    requires i < |rs|
    ensures AllProxies(rs[..i + 1]) == AllProxies(rs[..i]) + [ProxyNode(rs[i])]
  {
  }

  /** The first i resolutions' proxies. */
  ghost predicate ProxiesUpTo(rs: seq<Resolution>, i: nat, nodes: seq<Node>)
    requires i <= |rs|
  {
    nodes == FirstNodes(AllProxies(rs[..i]))
  }

  /** The first n resolutions' edges; only an edge's own term unfolds it. */
  ghost predicate EdgesUpTo(rs: seq<Resolution>, n: nat, edges: seq<Edge>)
    requires n <= |rs|
  {
    |edges| == n && forall k {:trigger EmittedByEdge(rs[k])} | 0 <= k < n :: edges[k] == EmittedByEdge(rs[k])
  }

  method AddProxy(rs: seq<Resolution>, i: nat, nodes: seq<Node>, seen: set<string>)
    returns (nodes': seq<Node>, seen': set<string>)
    requires i < |rs| && ProxiesUpTo(rs, i, nodes) && SeenIds(seen, nodes)
    ensures ProxiesUpTo(rs, i + 1, nodes') && SeenIds(seen', nodes')
  {
    AllProxiesNext(rs, i);
    nodes', seen' := AddNode(nodes, seen, ProxyNode(rs[i]), AllProxies(rs[..i]));
  }

  method AddEdge(rs: seq<Resolution>, i: nat, edges: seq<Edge>) returns (edges': seq<Edge>)
    requires i < |rs| && EdgesUpTo(rs, i, edges)
    ensures EdgesUpTo(rs, i + 1, edges')
  {
    edges' := edges + [EmittedByEdge(rs[i])];
  }

  lemma AllUpTo(rs: seq<Resolution>, nodes: seq<Node>, edges: seq<Edge>)
    requires ProxiesUpTo(rs, |rs|, nodes) && EdgesUpTo(rs, |rs|, edges)
    ensures nodes == ProxiesOf(rs) && edges == ProxyEdges(rs)
  {
    assert rs[..|rs|] == rs;
    assert forall k | 0 <= k < |rs| :: ProxyEdges(rs)[k] == EmittedByEdge(rs[k]);
  }

  lemma NoneYet(rs: seq<Resolution>)
    ensures ProxiesUpTo(rs, 0, [])
  {
  }

  /** One node per distinct resolved resource, and one edge per resolution: the edges are not deduplicated. */
  method MaterializeProxies(rs: seq<Resolution>) returns (nodes: seq<Node>, edges: seq<Edge>)
    ensures nodes == ProxiesOf(rs) && edges == ProxyEdges(rs)
  {
    nodes, edges := [], [];
    var seen: set<string> := {};
    NoneYet(rs);
    for i := 0 to |rs|
      invariant ProxiesUpTo(rs, i, nodes) && SeenIds(seen, nodes)
      invariant EdgesUpTo(rs, i, edges)
    {
      nodes, seen := AddProxy(rs, i, nodes, seen);
      edges := AddEdge(rs, i, edges);
    }
    AllUpTo(rs, nodes, edges);
  }

  /** The proxies have distinct ids, each stands for a resolution, and every resolution has one. */
  lemma ProxiesAreExact(rs: seq<Resolution>)
    ensures DistinctNodes(ProxiesOf(rs))
    ensures forall n | n in ProxiesOf(rs) :: n.ProxyNode? && n.resolution in rs
    ensures forall r | r in rs :: HasNode(ProxiesOf(rs), ProxyId(r))
  {
    var all := AllProxies(rs);
    FirstNodesKeepIds(all);
    forall n | n in ProxiesOf(rs) ensures n.ProxyNode? && n.resolution in rs {
      var i := MemberAt(all, n);
    }
    forall r | r in rs ensures HasNode(ProxiesOf(rs), ProxyId(r)) {
      var i := MemberAt(rs, r);
      assert all[i] == ProxyNode(r) && all[i] in all;
    }
  }

  // ---- no edge dangles ---------------------------------------------------

  ghost predicate HasTemplate(ts: seq<Template>, id: string) {
    exists t :: t in ts && t.id == id
  }

  lemma MemberAt<T>(s: seq<T>, x: T) returns (i: nat)
    requires x in s
    ensures i < |s| && s[i] == x
  {
    i :| 0 <= i < |s| && s[i] == x;
  }

  lemma InTemplates(ts: seq<Template>, t: Template)
    requires t in ts
    ensures TemplateNode(t) in TemplateNodes(ts)
  {
    var i := MemberAt(ts, t);
    assert TemplateNodes(ts)[i] == TemplateNode(t);
  }

  lemma InStreams(ss: seq<Stream>, s: Stream)
    requires s in ss
    ensures StreamNode(s) in StreamNodes(ss)
  {
    var i := MemberAt(ss, s);
    assert StreamNodes(ss)[i] == StreamNode(s);
  }

  lemma InChunks(cs: seq<Chunk>, c: Chunk)
    requires c in cs
    ensures ChunkNode(c) in ChunkNodes(cs)
  {
    var i := MemberAt(cs, c);
    assert ChunkNodes(cs)[i] == ChunkNode(c);
  }

  lemma LabelOf(streams: seq<Stream>, key: string, value: string) returns (n: Node)
    requires exists s :: s in streams && key in s.lowCard && s.lowCard[key] == value
    ensures n in LabelNodesOf(streams) && n.LabelNode? && NodeId(n) == LabelNodeId(key, value)
  {
    LabelNodesAreExact(streams);
    n :| n in LabelNodesOf(streams) && NodeId(n) == LabelNodeId(key, value);
  }

  lemma ProxyOf(rs: seq<Resolution>, r: Resolution) returns (n: Node)
    requires r in rs
    ensures n in ProxiesOf(rs) && n.ProxyNode? && NodeId(n) == ProxyId(r)
  {
    ProxiesAreExact(rs);
    n :| n in ProxiesOf(rs) && NodeId(n) == ProxyId(r);
  }

  lemma LabelEdgesAnchor(streams: seq<Stream>, nodes: seq<Node>, e: Edge)
    requires IsLabelEdge(streams, e)
    requires (forall n | n in StreamNodes(streams) :: n in nodes)
      && (forall n | n in LabelNodesOf(streams) :: n in nodes)
    ensures Anchored(nodes, e)
  {
    var s, k :| s in streams && k in s.lowCard && e == Edge(s.id, LabelNodeId(k, s.lowCard[k]), HasLabel);
    InStreams(streams, s);
    var n := LabelOf(streams, k, s.lowCard[k]);
    AnchoredBy(nodes, e, StreamNode(s), n);
  }

  lemma ChunkEdgesAnchor(templates: seq<Template>, streams: seq<Stream>, chunks: seq<Chunk>, nodes: seq<Node>, e: Edge)
    requires IsChunkEdge(chunks, e)
    requires forall c | c in chunks :: IsNamed(streams, c.stream) && HasTemplate(templates, c.template)
    requires forall n | n in TemplateNodes(templates) || n in StreamNodes(streams) || n in ChunkNodes(chunks) ::
      n in nodes
    ensures Anchored(nodes, e)
  {
    var c :| c in chunks && e in ChunkEdges(c);
    InChunks(chunks, c);
    var s :| s in streams && s.id == c.stream;
    InStreams(streams, s);
    var t :| t in templates && t.id == c.template;
    InTemplates(templates, t);
    AnchoredAt(nodes, ChunkNode(c), StreamNode(s), BelongsTo);
    AnchoredAt(nodes, TemplateNode(t), ChunkNode(c), Contains);
  }

  lemma ProxyEdgesAnchor(streams: seq<Stream>, rs: seq<Resolution>, nodes: seq<Node>, r: Resolution)
    requires r in rs && exists s :: s in streams && r.key in s.lowCard && s.lowCard[r.key] == r.value
    requires forall n | n in LabelNodesOf(streams) || n in ProxiesOf(rs) :: n in nodes
    ensures Anchored(nodes, EmittedByEdge(r))
  {
    var a := LabelOf(streams, r.key, r.value);
    var b := ProxyOf(rs, r);
    AnchoredBy(nodes, EmittedByEdge(r), a, b);
  }

  /** Every node of both halves, in the order they are emitted. */
  ghost function GraphNodes(templates: seq<Template>, streams: seq<Stream>, chunks: seq<Chunk>, rs: seq<Resolution>)
    : seq<Node>
  {
    TemplateNodes(templates) + StreamNodes(streams) + ChunkNodes(chunks) + LabelNodesOf(streams) + ProxiesOf(rs)
  }

  /** Every edge of both halves, in the order they are emitted. */
  ghost function GraphEdges(streams: seq<Stream>, chunks: seq<Chunk>, rs: seq<Resolution>): seq<Edge> {
    LogEdges(streams, chunks) + ProxyEdges(rs)
  }

  lemma LogEdgeAnchors(templates: seq<Template>, streams: seq<Stream>, chunks: seq<Chunk>, nodes: seq<Node>, e: Edge)
    requires e in LogEdges(streams, chunks)
    requires forall c | c in chunks :: IsNamed(streams, c.stream) && HasTemplate(templates, c.template)
    requires forall n | n in TemplateNodes(templates) || n in StreamNodes(streams) || n in ChunkNodes(chunks)
      || n in LabelNodesOf(streams) :: n in nodes
    ensures Anchored(nodes, e)
  {
    LogEdgesAreExact(streams, chunks, e);
    if IsLabelEdge(streams, e) {
      LabelEdgesAnchor(streams, nodes, e);
    } else {
      ChunkEdgesAnchor(templates, streams, chunks, nodes, e);
    }
  }

  /**
    Referential integrity: when every chunk names a stream and a template that are emitted, every edge
    of the graph joins two emitted nodes of the right kinds.
   */
  lemma GraphIsClosed(templates: seq<Template>, streams: seq<Stream>, chunks: seq<Chunk>, rs: seq<Resolution>)
    requires forall c | c in chunks :: IsNamed(streams, c.stream) && HasTemplate(templates, c.template)
    requires forall r | r in rs :: exists s :: s in streams && r.key in s.lowCard && s.lowCard[r.key] == r.value
    ensures Closed(GraphNodes(templates, streams, chunks, rs), GraphEdges(streams, chunks, rs))
  {
    var nodes := GraphNodes(templates, streams, chunks, rs);
    forall e | e in GraphEdges(streams, chunks, rs) ensures Anchored(nodes, e) {
      if e in LogEdges(streams, chunks) {
        LogEdgeAnchors(templates, streams, chunks, nodes, e);
      } else {
        var i := MemberAt(ProxyEdges(rs), e);
        assert e == EmittedByEdge(rs[i]) && rs[i] in rs;
        ProxyEdgesAnchor(streams, rs, nodes, rs[i]);
      }
    }
  }

  // ---- correlations ------------------------------------------------------

  function CorrelationEdge(r: Correlations.Correlation): Edge {
    Edge(r.templateA, r.templateB, CorrelatesWith(r))
  }

  /** One edge for each confirmed result, in order. */
  function CorrelationEdges(rs: seq<Correlations.Correlation>): seq<Edge> {
    if |rs| == 0 then []
    else CorrelationEdges(rs[..|rs| - 1]) + if rs[|rs| - 1].confirmed then [CorrelationEdge(rs[|rs| - 1])] else []
  }

  method MaterializeCorrelations(rs: seq<Correlations.Correlation>) returns (edges: seq<Edge>)
    ensures edges == CorrelationEdges(rs)
  {
    edges := [];
    for i := 0 to |rs|
      invariant edges == CorrelationEdges(rs[..i])
    {
      assert rs[..i + 1][..i] == rs[..i];
      if !rs[i].confirmed {
        continue;
      }
      edges := edges + [CorrelationEdge(rs[i])];
    }
    assert rs[..|rs|] == rs;
  }

  /** The edge of a confirmed one of these results. */
  predicate IsCorrelationEdge(rs: seq<Correlations.Correlation>, e: Edge) {
    e.kind.CorrelatesWith? && e.kind.result in rs && e.kind.result.confirmed && e == CorrelationEdge(e.kind.result)
  }

  lemma {:induction false} CorrelationEdgesAre(rs: seq<Correlations.Correlation>, e: Edge)
    ensures e in CorrelationEdges(rs) <==> IsCorrelationEdge(rs, e)
    decreases |rs|
  {
    if |rs| != 0 {
      CorrelationEdgesAre(rs[..|rs| - 1], e);
      assert rs == rs[..|rs| - 1] + [rs[|rs| - 1]];
    }
  }

  /** However ties are ranked, the same edges are emitted. */
  lemma RankingKeepsEdges(rs: seq<Correlations.Correlation>, ranked: seq<Correlations.Correlation>, e: Edge)
    requires Correlations.IsRanking(rs, ranked)
    ensures e in CorrelationEdges(ranked) <==> IsCorrelationEdge(rs, e)
  {
    CorrelationEdgesAre(ranked, e);
    assert forall r :: r in rs <==> r in multiset(rs);
    assert forall r :: r in ranked <==> r in multiset(ranked);
  }

  lemma LogHalfHasNoCorrelations(streams: seq<Stream>, chunks: seq<Chunk>, rs: seq<Resolution>, e: Edge)
    requires e in GraphEdges(streams, chunks, rs)
    ensures !e.kind.CorrelatesWith?
  {
    if e in LogEdges(streams, chunks) {
      LogEdgesAreExact(streams, chunks, e);
    } else {
      var i := MemberAt(ProxyEdges(rs), e);
    }
  }

  lemma CorrelationAnchors(templates: seq<Template>, nodes: seq<Node>, r: Correlations.Correlation, a: Template,
        b: Template)
    requires a in templates && b in templates && a.id == r.templateA && b.id == r.templateB
    requires forall n | n in TemplateNodes(templates) :: n in nodes
    ensures Anchored(nodes, CorrelationEdge(r))
  {
    var i :| 0 <= i < |templates| && templates[i] == a;
    var j :| 0 <= j < |templates| && templates[j] == b;
    assert TemplateNodes(templates)[i] == TemplateNode(a) && TemplateNodes(templates)[j] == TemplateNode(b);
    AnchoredBy(nodes, CorrelationEdge(r), TemplateNode(a), TemplateNode(b));
  }
}
