/** What the emitted ids identify: labels, resources, and which nodes each kind of edge joins. */
module GraphIdentity {

  import opened Strings
  import opened Model
  import opened Streams
  import opened Chunks
  import opened Resolve
  import opened Graph
  import Correlations

  // ---- ids ---------------------------------------------------------------

  /** No key holds the separator. */
  predicate PlainKeys(streams: seq<Stream>) {
    forall s, k | s in streams && k in s.lowCard :: '=' !in k
  }

  /** No account holds a colon. */
  predicate PlainAccounts(rs: seq<Resolution>) {
    forall r | r in rs :: ':' !in r.account
  }

  lemma IdRests(head: string, a: string, b: string)
    requires head + a == head + b
    ensures a == b
  {
    assert a == (head + a)[|head|..] && b == (head + b)[|head|..];
  }

  /** While keys hold no '=', a label node's id identifies its pair ... */
  lemma LabelIdIdentifies(k: string, v: string, l: string, w: string)
    requires '=' !in k && '=' !in l
    ensures LabelNodeId(k, v) == LabelNodeId(l, w) <==> k == l && v == w
  {
    if LabelNodeId(k, v) == LabelNodeId(l, w) {
      var head := "log-label:";
      assert head + (k + "=" + v) == LabelNodeId(k, v);
      assert head + (l + "=" + w) == LabelNodeId(l, w);
      IdRests(head, k + "=" + v, l + "=" + w);
      CutIsUnique(k, l, v, w, '=');
    }
  }

  /** ... which it does not once a key may hold one. */
  lemma SeparatorInKeySharesAnId(k: string, v: string, w: string)
    ensures LabelNodeId(k + "=" + v, w) == LabelNodeId(k, v + "=" + w)
  {
    var head := "log-label:" + k;
    assert LabelNodeId(k + "=" + v, w) == head + ("=" + v + "=" + w);
    assert LabelNodeId(k, v + "=" + w) == head + ("=" + v + "=" + w);
  }

  /** While accounts hold no colon, a proxy's id identifies its resource within its account. */
  lemma ProxyIdIdentifies(r: Resolution, q: Resolution)
    requires ':' !in r.account && ':' !in q.account
    ensures ProxyId(r) == ProxyId(q) <==> r.account == q.account && r.resource == q.resource
  {
    if ProxyId(r) == ProxyId(q) {
      var head := "proxy:cloud:";
      assert head + (r.account + ":" + r.resource) == ProxyId(r);
      assert head + (q.account + ":" + q.resource) == ProxyId(q);
      IdRests(head, r.account + ":" + r.resource, q.account + ":" + q.resource);
      CutIsUnique(r.account, q.account, r.resource, q.resource, ':');
    }
  }

  /** Ids name their kind, so a label node and a proxy never share one. */
  lemma IdsNameTheirKind(k: string, v: string, r: Resolution)
    ensures "log-label:" <= LabelNodeId(k, v) && "proxy:cloud:" <= ProxyId(r)
    ensures LabelNodeId(k, v) != ProxyId(r)
  {
    assert LabelNodeId(k, v)[0] == 'l' && ProxyId(r)[0] == 'p';
  }

  // ---- nodes -------------------------------------------------------------

  /** A label node for a pair that some stream carries. */
  ghost predicate Stands(streams: seq<Stream>, n: Node) {
    n.LabelNode? && exists s :: s in streams && n.key in s.lowCard && s.lowCard[n.key] == n.value
  }

  ghost predicate StandFor(streams: seq<Stream>, nodes: seq<Node>) {
    DistinctNodes(nodes) && (forall n | n in nodes :: Stands(streams, n))
    && forall n | Stands(streams, n) :: HasNode(nodes, NodeId(n))
  }

  lemma ExactStand(streams: seq<Stream>, nodes: seq<Node>)
    requires DistinctNodes(nodes) && forall n | n in nodes :: Stands(streams, n)
    requires forall s, k | s in streams && k in s.lowCard :: HasNode(nodes, LabelNodeId(k, s.lowCard[k]))
    ensures StandFor(streams, nodes)
  {
    forall n | Stands(streams, n) ensures HasNode(nodes, NodeId(n)) {
      var s :| s in streams && n.key in s.lowCard && s.lowCard[n.key] == n.value;
      assert HasNode(nodes, LabelNodeId(n.key, s.lowCard[n.key]));
    }
  }

  lemma LabelNodesStand(streams: seq<Stream>)
    ensures StandFor(streams, LabelNodesOf(streams))
  {
    LabelNodesAreExact(streams);
    ExactStand(streams, LabelNodesOf(streams));
  }

  lemma StandingIsListed(streams: seq<Stream>, nodes: seq<Node>, n: Node)
    requires PlainKeys(streams) && StandFor(streams, nodes) && Stands(streams, n)
    ensures n in nodes
  {
    var m :| m in nodes && NodeId(m) == NodeId(n);
    assert Stands(streams, m);
    LabelIdIdentifies(m.key, m.value, n.key, n.value);
  }

  lemma ListedOnce(nodes: seq<Node>)
    requires DistinctNodes(nodes)
    ensures forall i, j | 0 <= i < j < |nodes| :: nodes[i] != nodes[j]
  {
  }

  /** Every pair a stream carries has its own node, and there are no others: one node for each distinct pair. */
  lemma EveryPairHasItsNode(streams: seq<Stream>, n: Node)
    requires PlainKeys(streams)
    ensures n in LabelNodesOf(streams) <==> Stands(streams, n)
    ensures forall i, j | 0 <= i < j < |LabelNodesOf(streams)| :: LabelNodesOf(streams)[i] != LabelNodesOf(streams)[j]
  {
    LabelNodesStand(streams);
    ListedOnce(LabelNodesOf(streams));
    if Stands(streams, n) {
      StandingIsListed(streams, LabelNodesOf(streams), n);
    }
  }

  /** Some resolution names the resource. */
  ghost predicate Named(rs: seq<Resolution>, account: string, resource: string) {
    exists r :: r in rs && r.account == account && r.resource == resource
  }

  /** Some proxy stands for the resource. */
  ghost predicate Proxied(nodes: seq<Node>, account: string, resource: string) {
    exists r :: ProxyNode(r) in nodes && r.account == account && r.resource == resource
  }

  /** The resources that have a proxy are exactly those the resolutions name. */
  lemma EveryResourceHasItsProxy(rs: seq<Resolution>, account: string, resource: string)
    requires PlainAccounts(rs)
    ensures Proxied(ProxiesOf(rs), account, resource) <==> Named(rs, account, resource)
  {
    ProxiesStand(rs, ProxiesOf(rs), account, resource) by {
      ProxiesAreExact(rs);
    }
  }

  lemma ProxiesStand(rs: seq<Resolution>, nodes: seq<Node>, account: string, resource: string)
    requires PlainAccounts(rs)
    requires (forall n | n in nodes :: n.ProxyNode? && n.resolution in rs)
      && forall r | r in rs :: HasNode(nodes, ProxyId(r))
    ensures Proxied(nodes, account, resource) <==> Named(rs, account, resource)
  {
    if Named(rs, account, resource) {
      var r :| r in rs && r.account == account && r.resource == resource;
      var n :| n in nodes && NodeId(n) == ProxyId(r);
      ProxyIdIdentifies(n.resolution, r);
      assert ProxyNode(n.resolution) in nodes;
    }
  }

  // ---- edges -------------------------------------------------------------

  lemma LabelEdgeIsCarried(streams: seq<Stream>, s: Stream, n: Node)
    requires PlainKeys(streams) && DistinctStreams(streams) && s in streams && Stands(streams, n)
    ensures IsLabelEdge(streams, Edge(s.id, NodeId(n), HasLabel))
      <==> n.key in s.lowCard && s.lowCard[n.key] == n.value
  {
    var e := Edge(s.id, NodeId(n), HasLabel);
    if IsLabelEdge(streams, e) {
      var t, k :| t in streams && k in t.lowCard && e == Edge(t.id, LabelNodeId(k, t.lowCard[k]), HasLabel);
      SameStream(streams, s, t);
      LabelIdIdentifies(n.key, n.value, k, t.lowCard[k]);
    }
    if n.key in s.lowCard && s.lowCard[n.key] == n.value {
      assert e == Edge(s.id, LabelNodeId(n.key, s.lowCard[n.key]), HasLabel);
    }
  }

  /** A label edge runs from a stream to a label node exactly when the stream carries the pair. */
  lemma LabelEdgesMeanCarrying(streams: seq<Stream>, chunks: seq<Chunk>, s: Stream, n: Node)
    requires PlainKeys(streams) && DistinctStreams(streams) && s in streams && n in LabelNodesOf(streams)
    ensures n.LabelNode?
    ensures Edge(s.id, NodeId(n), HasLabel) in LogEdges(streams, chunks)
      <==> n.key in s.lowCard && s.lowCard[n.key] == n.value
  {
    EveryPairHasItsNode(streams, n);
    LabelEdgeIsCarried(streams, s, n);
    LogEdgesAreExact(streams, chunks, Edge(s.id, NodeId(n), HasLabel));
  }

  lemma SameStream(streams: seq<Stream>, s: Stream, t: Stream)
    requires DistinctStreams(streams) && s in streams && t in streams && s.id == t.id
    ensures s == t
  {
    var i := MemberAt(streams, s);
    var j := MemberAt(streams, t);
  }

  predicate DistinctChunks(chunks: seq<Chunk>) {
    forall i, j | 0 <= i < j < |chunks| :: chunks[i].id != chunks[j].id
  }

  lemma SameChunk(chunks: seq<Chunk>, c: Chunk, d: Chunk)
    requires DistinctChunks(chunks) && c in chunks && d in chunks && c.id == d.id
    ensures c == d
  {
    var i := MemberAt(chunks, c);
    var j := MemberAt(chunks, d);
  }

  /** A chunk belongs to the one stream, and is contained in the one template, that its entries were given. */
  lemma ChunkEdgesMeanOwnership(streams: seq<Stream>, chunks: seq<Chunk>, c: Chunk, id: string)
    requires DistinctChunks(chunks) && c in chunks
    ensures Edge(c.id, id, BelongsTo) in LogEdges(streams, chunks) <==> id == c.stream
    ensures Edge(id, c.id, Contains) in LogEdges(streams, chunks) <==> id == c.template
  {
    var up, down := Edge(c.id, id, BelongsTo), Edge(id, c.id, Contains);
    LogEdgesAreExact(streams, chunks, up);
    LogEdgesAreExact(streams, chunks, down);
    if IsChunkEdge(chunks, up) {
      var d :| d in chunks && up in ChunkEdges(d);
      SameChunk(chunks, c, d);
    }
    if IsChunkEdge(chunks, down) {
      var d :| d in chunks && down in ChunkEdges(d);
      SameChunk(chunks, c, d);
    }
    assert ChunkEdges(c)[0] == Edge(c.id, c.stream, BelongsTo);
    assert ChunkEdges(c)[1] == Edge(c.template, c.id, Contains);
  }

  /** A label is emitted by a resource exactly when it was resolved to it. */
  lemma EmittedByMeansResolved(rs: seq<Resolution>, k: string, v: string, q: Resolution)
    requires PlainAccounts(rs) && (forall r | r in rs :: '=' !in r.key) && '=' !in k && ':' !in q.account
    ensures Edge(LabelNodeId(k, v), ProxyId(q), EmittedBy) in ProxyEdges(rs)
      <==> Resolution(k, v, q.account, q.resource) in rs
  {
    var e := Edge(LabelNodeId(k, v), ProxyId(q), EmittedBy);
    if e in ProxyEdges(rs) {
      var i := MemberAt(ProxyEdges(rs), e);
      assert rs[i] in rs && e == EmittedByEdge(rs[i]);
      LabelIdIdentifies(rs[i].key, rs[i].value, k, v);
      ProxyIdIdentifies(rs[i], q);
    }
    var r := Resolution(k, v, q.account, q.resource);
    if r in rs {
      var i := MemberAt(rs, r);
      assert ProxyEdges(rs)[i] == EmittedByEdge(r);
    }
  }

  /** A correlation edge runs from the first template of a confirmed result to its second. */
  lemma CorrelationEdgesMeanConfirmed(rs: seq<Correlations.Correlation>, e: Edge)
    ensures e in CorrelationEdges(rs)
      <==> (e.kind.CorrelatesWith? && e.kind.result in rs && e.kind.result.confirmed
            && e.from == e.kind.result.templateA && e.to == e.kind.result.templateB)
  {
    CorrelationEdgesAre(rs, e);
  }
}
