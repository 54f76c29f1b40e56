/** The stage order: reclassify, cluster, consolidate, stream, chunk, assemble and resolve. */
module Collect {

  import opened Wrappers
  import Strings
  import opened Model
  import opened Drain
  import opened DrainTheorems
  import opened DrainShapes
  import opened DrainOverflow
  import opened Templates
  import opened Attribution
  import opened Pipeline
  import opened Determinism
  import opened Ranges
  import opened Processing
  import Fetch
  import Normalize
  import Ingest
  import MimicLines
  import Correlations
  import Streams
  import Chunks
  import Resolve
  import opened Graph

  /** The configuration every collect clusters with. */
  const DEFAULT_CONFIG := DrainConfig(0.4, 4, 100, 200)

  const CARDINALITY_THRESHOLD := 500

  // ---- severity from the body --------------------------------------------

  /** An entry without a severity, or with the default one, takes the level its message embeds, if any. */
  function Reclassify(rules: Rules, e: LogEntry): (r: LogEntry)
    ensures r.severity == e.severity || (e.severity == "" || e.severity == INFO)
    ensures r == e.(severity := r.severity)
  {
    if e.severity != "" && e.severity != INFO then e
    else
      var detected := rules.embeddedSeverity(e.message);
      if detected != "" then e.(severity := detected) else e
  }

  function Reclassified(rules: Rules, entries: seq<LogEntry>): (r: seq<LogEntry>)
    ensures |r| == |entries|
    ensures forall i | 0 <= i < |entries| :: r[i].labels == entries[i].labels
  {
    seq(|entries|, i requires 0 <= i < |entries| => Reclassify(rules, entries[i]))
  }

  /**
    The level a message embeds replaces a missing or default severity, and nothing else is touched; reclassifying
    again changes nothing.
   */
  lemma ReclassifyTakesEmbedded(rules: Rules, e: LogEntry)
    ensures var level := rules.embeddedSeverity(e.message);
      Reclassify(rules, e) == if e.severity in {"", "INFO"} && level != "" then e.(severity := level) else e
    ensures Reclassify(rules, Reclassify(rules, e)) == Reclassify(rules, e)
  {
  }

  /** Canonical levels stay canonical. */
  lemma ReclassifyKeepsWellFormed(rules: Rules, entries: seq<LogEntry>)
    requires WellFormed(entries) && forall s :: rules.embeddedSeverity(s) == "" || Canonical(rules.embeddedSeverity(s))
    ensures WellFormed(Reclassified(rules, entries))
  {
    var after := Reclassified(rules, entries);
    forall e | e in after ensures e.timestamp != ZERO_TIME && Canonical(e.severity) {
      var i :| 0 <= i < |after| && after[i] == e;
      assert entries[i] in entries;
    }
  }

  /** Labels are left alone. */
  lemma ReclassifyKeepsClean(rules: Rules, entries: seq<LogEntry>)
    requires Streams.AllClean(entries)
    ensures Streams.AllClean(Reclassified(rules, entries))
  {
    var after := Reclassified(rules, entries);
    forall e | e in after ensures Streams.Clean(e.labels) {
      var i :| 0 <= i < |after| && after[i] == e;
      assert entries[i] in entries;
    }
  }

  /** The same entries reclassify to the same entries. */
  lemma ReclassifyKeepsMembers(rules: Rules, a: seq<LogEntry>, b: seq<LogEntry>, e: LogEntry)
    requires forall x :: x in a <==> x in b
    requires e in Reclassified(rules, a)
    ensures e in Reclassified(rules, b)
  {
    var i :| 0 <= i < |a| && Reclassified(rules, a)[i] == e;
    assert a[i] in b;
    var j :| 0 <= j < |b| && b[j] == a[i];
    assert Reclassified(rules, b)[j] == e;
  }

  method ReclassifySeverity(rules: Rules, entries: array<LogEntry>)
    modifies entries
    ensures entries[..] == Reclassified(rules, old(entries[..]))
    ensures forall i | 0 <= i < entries.Length ::
      var e, level := old(entries[i]), rules.embeddedSeverity(old(entries[i]).message);
      entries[i] == if e.severity in {"", "INFO"} && level != "" then e.(severity := level) else e
  {
    for i := 0 to entries.Length
      invariant forall k | 0 <= k < i :: entries[k] == Reclassify(rules, old(entries[k]))
      invariant forall k | i <= k < entries.Length :: entries[k] == old(entries[k])
    {
      var s := entries[i].severity;
      if s != "" && s != INFO {
        continue;
      }
      var detected := rules.embeddedSeverity(entries[i].message);
      if detected != "" {
        entries[i] := entries[i].(severity := detected);
      }
    }
  }

  // ---- what a collect emits ----------------------------------------------

  /** The intermediate results of one collect that map iteration could have touched. */
  datatype Stages = Stages(templates: seq<Template>, ids: seq<string>, chunks: seq<Chunks.Chunk>)

  ghost function StreamsFor(rules: Rules, entries: seq<LogEntry>): seq<Streams.Stream> {
    Streams.StreamsOf(rules, entries, CARDINALITY_THRESHOLD)
  }

  ghost function ResolutionsFor(rules: Rules, entries: seq<LogEntry>, resources: seq<Resolve.Resource>)
    : seq<Resolve.Resolution>
  {
    Resolve.ResolutionsOf(rules, resources, Resolve.PairsOf(StreamsFor(rules, entries)))
  }

  /** Templates and final ids from clustering and consolidation, and the chunks over them. */
  ghost predicate Assembled(rules: Rules, render: Chunks.Rendering, entries: seq<LogEntry>, st: Stages) {
    && Processed(DEFAULT_CONFIG, rules, entries, st.templates, st.ids)
    && |st.ids| == |entries|
    && Chunks.IsChunking(render, entries, Streams.StreamIds(rules, entries), st.ids, st.chunks)
  }

  ghost function EmittedNodes(rules: Rules, entries: seq<LogEntry>, resources: seq<Resolve.Resource>, st: Stages)
    : seq<Node>
  {
    GraphNodes(st.templates, StreamsFor(rules, entries), st.chunks, ResolutionsFor(rules, entries, resources))
  }

  /** All edges but the correlations'. */
  ghost function EmittedEdges(rules: Rules, entries: seq<LogEntry>, resources: seq<Resolve.Resource>, st: Stages)
    : seq<Edge>
  {
    GraphEdges(StreamsFor(rules, entries), st.chunks, ResolutionsFor(rules, entries, resources))
  }

  /** What the correlation detector scores, before it ranks. */
  ghost function ScoredPairs(rules: Rules, entries: seq<LogEntry>, cloud: Correlations.Cloud, st: Stages)
    : seq<Correlations.Correlation>
  {
    Correlations.Correlated(rules, st.templates, st.chunks, StreamsFor(rules, entries),
                            Correlations.ProxiesByValue(ResolutionsFor(rules, entries, cloud.resources)), cloud)
  }

  /** The edges of the log half, the proxies' and, in some ranking, the correlations'. */
  ghost predicate Emits(rules: Rules, entries: seq<LogEntry>, cloud: Correlations.Cloud, st: Stages, edges: seq<Edge>) {
    exists ranked :: Correlations.IsRanking(ScoredPairs(rules, entries, cloud, st), ranked)
      && edges == EmittedEdges(rules, entries, cloud.resources, st) + CorrelationEdges(ranked)
  }

  lemma SameIdsSameStages(rules: Rules, render: Chunks.Rendering, entries: seq<LogEntry>, a: Stages, b: Stages)
    requires Assembled(rules, render, entries, a) && Assembled(rules, render, entries, b) && a.ids == b.ids
    ensures a == b
  {
    Chunks.ChunkingIsDeterministic(render, entries, Streams.StreamIds(rules, entries), a.ids, a.chunks, b.chunks);
  }

  /** Whatever ids processing returns, a collect can go on from them. */
  lemma StagesFrom(rules: Rules, render: Chunks.Rendering, entries: seq<LogEntry>, ids: seq<string>)
    returns (st: Stages)
    requires Processed(DEFAULT_CONFIG, rules, entries, Survivors(DEFAULT_CONFIG, rules, entries), ids)
    requires |ids| == |entries|
    ensures Assembled(rules, render, entries, st) && st.ids == ids
    ensures st.templates == Survivors(DEFAULT_CONFIG, rules, entries)
  {
    var chunks := Chunks.ChunkingExists(render, entries, Streams.StreamIds(rules, entries), ids);
    st := Stages(Survivors(DEFAULT_CONFIG, rules, entries), ids, chunks);
  }

  /**
    Determinism of a whole collect: every run over the same entries assembles the same stages, if and
    only if every absorbed id that did not survive lands on one template.
   */
  lemma CollectIsDeterministic(rules: Rules, render: Chunks.Rendering, entries: seq<LogEntry>)
    ensures (forall a, b | Assembled(rules, render, entries, a) && Assembled(rules, render, entries, b) :: a == b)
       <==> OneOutcome(DEFAULT_CONFIG, rules, entries)
  {
    if OneOutcome(DEFAULT_CONFIG, rules, entries) {
      forall a, b | Assembled(rules, render, entries, a) && Assembled(rules, render, entries, b) ensures a == b {
        ResultsAgree(DEFAULT_CONFIG, rules, entries, a.templates, a.ids, b.templates, b.ids);
        SameIdsSameStages(rules, render, entries, a, b);
      }
    } else {
      var ids, ids', i := TwoOutcomes(DEFAULT_CONFIG, rules, entries);
      var a := StagesFrom(rules, render, entries, ids);
      var b := StagesFrom(rules, render, entries, ids');
      assert a.ids[i] != b.ids[i];
    }
  }

  /** Lists that differ in one way do not give the first id equally often. */
  lemma {:induction false} OneWayCounts(ids: seq<string>, ids': seq<string>, p: string, q: string)
    requires OneWay(ids, ids', p, q) && p != q
    ensures CountId(ids, p) >= CountId(ids', p)
    ensures ids != ids' ==> CountId(ids, p) > CountId(ids', p)
  {
    if |ids| != 0 {
      var n := |ids| - 1;
      OneWayCounts(ids[..n], ids'[..n], p, q);
      assert ids == ids[..n] + [ids[n]] && ids' == ids'[..n] + [ids'[n]];
    }
  }

  /** Equal graphs over the same templates, streams and resolutions have equal chunks. */
  lemma NodesShowChunks(templates: seq<Template>, streams: seq<Streams.Stream>, a: seq<Chunks.Chunk>,
        b: seq<Chunks.Chunk>, rs: seq<Resolve.Resolution>)
    requires GraphNodes(templates, streams, a, rs) == GraphNodes(templates, streams, b, rs)
    ensures a == b
  {
    var from := |templates| + |streams|;
    assert |a| == |b|;
    forall i | 0 <= i < |a| ensures a[i] == b[i] {
      assert GraphNodes(templates, streams, a, rs)[from + i] == ChunkNode(a[i]);
      assert GraphNodes(templates, streams, b, rs)[from + i] == ChunkNode(b[i]);
    }
  }

  lemma DivergingIdIsReal(rules: Rules, entries: seq<LogEntry>, ids: seq<string>, ids': seq<string>, i: nat)
    requires HashNonEmpty(rules) && Diverges(DEFAULT_CONFIG, rules, entries, ids, ids', i)
    ensures ids[i] != "" && FallbackOf(Survivors(DEFAULT_CONFIG, rules, entries)) != ""
  {
    var after := Survivors(DEFAULT_CONFIG, rules, entries);
    EveryEntryFindsASurvivor(DEFAULT_CONFIG, rules, entries, after, ids, i);
    EveryEntryFindsASurvivor(DEFAULT_CONFIG, rules, entries, after, ids', i);
    var t :| t in after && t.id == FallbackOf(after);
    SurvivorIdNonEmpty(DEFAULT_CONFIG, rules, entries, t);
  }

  /** The same nodes and edges in the same order, but for the ranking of tied correlations. */
  ghost predicate SameGraph(rules: Rules, entries: seq<LogEntry>, cloud: Correlations.Cloud, a: Stages, b: Stages) {
    && EmittedNodes(rules, entries, cloud.resources, a) == EmittedNodes(rules, entries, cloud.resources, b)
    && EmittedEdges(rules, entries, cloud.resources, a) == EmittedEdges(rules, entries, cloud.resources, b)
    && ScoredPairs(rules, entries, cloud, a) == ScoredPairs(rules, entries, cloud, b)
  }

  lemma ChunksCountIds(rules: Rules, render: Chunks.Rendering, entries: seq<LogEntry>, st: Stages, x: string)
    requires Assembled(rules, render, entries, st) && (forall s :: rules.labelHash(s) != "") && x != ""
    ensures Chunks.CountIn(st.chunks, x) == CountId(st.ids, x)
  {
    Chunks.ChunksCountTheirEntries(render, entries, Streams.StreamIds(rules, entries), st.ids, st.chunks, x);
  }

  /** Two runs over the same entries whose chunks count a template's entries differently. */
  lemma TwoGraphs(rules: Rules, render: Chunks.Rendering, entries: seq<LogEntry>)
    returns (a: Stages, b: Stages, x: string)
    requires HashNonEmpty(rules) && (forall s :: rules.labelHash(s) != "")
    requires !OneOutcome(DEFAULT_CONFIG, rules, entries)
    ensures Assembled(rules, render, entries, a) && Assembled(rules, render, entries, b)
    ensures a.templates == b.templates && Chunks.CountIn(a.chunks, x) != Chunks.CountIn(b.chunks, x)
    ensures NeverTheSameGraph(rules, entries, a, b)
  {
    var ids, ids', i := TwoOutcomes(DEFAULT_CONFIG, rules, entries);
    DivergingIdIsReal(rules, entries, ids, ids', i);
    x := ids[i];
    OneWayCounts(ids, ids', x, ids'[i]);
    a := StagesFrom(rules, render, entries, ids);
    b := StagesFrom(rules, render, entries, ids');
    ChunksCountIds(rules, render, entries, a, x);
    ChunksCountIds(rules, render, entries, b, x);
    forall cloud ensures !SameGraph(rules, entries, cloud, a, b) {
      OtherChunksOtherGraph(rules, entries, cloud, a, b);
    }
  }

  lemma OtherChunksOtherGraph(rules: Rules, entries: seq<LogEntry>, cloud: Correlations.Cloud, a: Stages, b: Stages)
    requires a.templates == b.templates && a.chunks != b.chunks
    ensures !SameGraph(rules, entries, cloud, a, b)
  {
    if SameGraph(rules, entries, cloud, a, b) {
      NodesShowChunks(a.templates, StreamsFor(rules, entries), a.chunks, b.chunks,
                      ResolutionsFor(rules, entries, cloud.resources));
    }
  }

  /** Whatever the cloud declares. */
  ghost predicate NeverTheSameGraph(rules: Rules, entries: seq<LogEntry>, a: Stages, b: Stages) {
    forall cloud :: !SameGraph(rules, entries, cloud, a, b)
  }

  lemma SameStagesSameGraph(rules: Rules, render: Chunks.Rendering, entries: seq<LogEntry>, cloud: Correlations.Cloud,
        a: Stages, b: Stages)
    requires OneOutcome(DEFAULT_CONFIG, rules, entries)
    requires Assembled(rules, render, entries, a) && Assembled(rules, render, entries, b)
    ensures SameGraph(rules, entries, cloud, a, b)
  {
    CollectIsDeterministic(rules, render, entries);
  }

  /**
    ... and so for what is emitted: under that condition and no other, all runs over the same entries and
    cloud context emit the same nodes and edges in the same order.
   */
  lemma GraphIsDeterministic(rules: Rules, render: Chunks.Rendering, entries: seq<LogEntry>, cloud: Correlations.Cloud)
    requires HashNonEmpty(rules) && forall s :: rules.labelHash(s) != ""
    ensures (forall a, b | Assembled(rules, render, entries, a) && Assembled(rules, render, entries, b)
               :: SameGraph(rules, entries, cloud, a, b))
       <==> OneOutcome(DEFAULT_CONFIG, rules, entries)
  {
    if OneOutcome(DEFAULT_CONFIG, rules, entries) {
      forall a, b | Assembled(rules, render, entries, a) && Assembled(rules, render, entries, b)
        ensures SameGraph(rules, entries, cloud, a, b)
      {
        SameStagesSameGraph(rules, render, entries, cloud, a, b);
      }
    } else {
      var a, b, x := TwoGraphs(rules, render, entries);
      assert !SameGraph(rules, entries, cloud, a, b);
    }
  }

  /**
    Nine lines over which two collects emit different graphs, whatever their severities are reclassified
    to and whatever the cloud declares: the chunks of some template differ in number of entries.
   */
  lemma NineLinesGiveTwoGraphs(rules: Rules, render: Chunks.Rendering, entries: seq<LogEntry>)
    returns (a: Stages, b: Stages, x: string)
    requires Injective(rules.templateHash) && HashNonEmpty(rules) && (forall s :: rules.labelHash(s) != "")
    requires MimicLines.Recognised(rules, 3) && entries == Reclassified(rules, MimicLines.Script(3))
    ensures Assembled(rules, render, entries, a) && Assembled(rules, render, entries, b)
    ensures a.templates == b.templates && Chunks.CountIn(a.chunks, x) != Chunks.CountIn(b.chunks, x)
    ensures NeverTheSameGraph(rules, entries, a, b)
  {
    var lines := MimicLines.Script(3);
    MimicLines.ScriptMakesALadder(rules, 3, lines);
    MimicLines.LadderIgnoresSeverity(rules, lines, entries);
    MimicLines.LinesAreOrderFree(DEFAULT_CONFIG, rules, entries);
    a, b, x := TwoGraphs(rules, render, entries);
  }

  // ---- no edge dangles ---------------------------------------------------

  /** Every chunk hangs off an emitted template and an emitted stream, however the template moved or was absorbed. */
  lemma ChunksHaveOwners(rules: Rules, render: Chunks.Rendering, entries: seq<LogEntry>, st: Stages, c: Chunks.Chunk)
    requires Assembled(rules, render, entries, st) && HashNonEmpty(rules) && c in st.chunks
    ensures Streams.IsNamed(StreamsFor(rules, entries), c.stream) && HasTemplate(st.templates, c.template)
  {
    var streams := Streams.StreamIds(rules, entries);
    Chunks.ChunkShowsItsEntries(render, entries, streams, st.ids, st.chunks, c);
    var i: nat :| i < |entries| && Chunks.Holds(c, entries, streams, st.ids, i) && entries[i].timestamp == c.start;
    EveryEntryFindsASurvivor(DEFAULT_CONFIG, rules, entries, st.templates, st.ids, i);
    var t :| t in st.templates && t.id == st.ids[i];
    EntryHasStream(rules, entries, i);
  }

  lemma EntryHasStream(rules: Rules, entries: seq<LogEntry>, i: nat)
    requires i < |entries|
    ensures Streams.IsNamed(StreamsFor(rules, entries), Streams.StreamIds(rules, entries)[i])
  {
    var wanted := Streams.Wanted(rules, entries, CARDINALITY_THRESHOLD);
    Streams.FirstOfEachKeepsIds(wanted);
    assert Streams.IsNamed(Streams.FirstOfEach(wanted), wanted[i].id);
  }

  lemma ResolutionsHaveLabels(rules: Rules, entries: seq<LogEntry>, resources: seq<Resolve.Resource>,
        r: Resolve.Resolution)
    requires r in ResolutionsFor(rules, entries, resources)
    ensures exists s :: s in StreamsFor(rules, entries) && r.key in s.lowCard && s.lowCard[r.key] == r.value
  {
    var streams := StreamsFor(rules, entries);
    Resolve.ResolutionsAreExact(rules, resources, streams, r);
    Resolve.PairsAreEligible(streams, Resolve.Pair(r.key, r.value));
  }

  lemma LogHalfIsClosed(rules: Rules, render: Chunks.Rendering, entries: seq<LogEntry>,
        resources: seq<Resolve.Resource>, st: Stages)
    requires Assembled(rules, render, entries, st) && HashNonEmpty(rules)
    ensures Closed(EmittedNodes(rules, entries, resources, st), EmittedEdges(rules, entries, resources, st))
  {
    forall c | c in st.chunks
      ensures Streams.IsNamed(StreamsFor(rules, entries), c.stream) && HasTemplate(st.templates, c.template)
    {
      ChunksHaveOwners(rules, render, entries, st, c);
    }
    var rs := ResolutionsFor(rules, entries, resources);
    forall r | r in rs
      ensures exists s :: s in StreamsFor(rules, entries) && r.key in s.lowCard && s.lowCard[r.key] == r.value
    {
      ResolutionsHaveLabels(rules, entries, resources, r);
    }
    GraphIsClosed(st.templates, StreamsFor(rules, entries), st.chunks, rs);
  }

  lemma CorrelationIsAnchored(rules: Rules, entries: seq<LogEntry>, cloud: Correlations.Cloud, st: Stages,
        ranked: seq<Correlations.Correlation>, e: Edge)
    requires Correlations.IsRanking(ScoredPairs(rules, entries, cloud, st), ranked) && e in CorrelationEdges(ranked)
    ensures Anchored(EmittedNodes(rules, entries, cloud.resources, st), e)
  {
    var streams := StreamsFor(rules, entries);
    var proxies := Correlations.ProxiesByValue(ResolutionsFor(rules, entries, cloud.resources));
    RankingKeepsEdges(ScoredPairs(rules, entries, cloud, st), ranked, e);
    var r := e.kind.result;
    Correlations.ResultsJoinTemplates(rules, st.templates, st.chunks, streams, proxies, cloud, r);
    var a, b :| a in st.templates && b in st.templates && a.id == r.templateA && b.id == r.templateB;
    CorrelationAnchors(st.templates, EmittedNodes(rules, entries, cloud.resources, st), r, a, b);
  }

  /**
    Referential integrity of a whole collect: every edge, correlations included, joins two emitted nodes of
    the right kinds.
   */
  lemma EmittedGraphIsClosed(rules: Rules, render: Chunks.Rendering, entries: seq<LogEntry>, cloud: Correlations.Cloud,
        st: Stages, edges: seq<Edge>)
    requires Assembled(rules, render, entries, st) && HashNonEmpty(rules) && Emits(rules, entries, cloud, st, edges)
    ensures Closed(EmittedNodes(rules, entries, cloud.resources, st), edges)
  {
    LogHalfIsClosed(rules, render, entries, cloud.resources, st);
    var ranked :| Correlations.IsRanking(ScoredPairs(rules, entries, cloud, st), ranked)
      && edges == EmittedEdges(rules, entries, cloud.resources, st) + CorrelationEdges(ranked);
    forall e | e in edges ensures Anchored(EmittedNodes(rules, entries, cloud.resources, st), e) {
      if e !in EmittedEdges(rules, entries, cloud.resources, st) {
        CorrelationIsAnchored(rules, entries, cloud, st, ranked, e);
      }
    }
  }

  // ---- what a correlation edge says --------------------------------------

  /**
    Two error templates of this collect that burned together in services that depend on each other, and the
    edge for them.
   */
  ghost predicate Correlates(rules: Rules, entries: seq<LogEntry>, cloud: Correlations.Cloud, st: Stages, e: Edge,
        a: Template, b: Template)
  {
    var streams := StreamsFor(rules, entries);
    && Correlations.Cooccur(st.templates, st.chunks, streams, a, b)
    && Correlations.Depend(rules, cloud, Correlations.ServiceFor(st.templates, st.chunks, streams, a.id).value,
                           Correlations.ServiceFor(st.templates, st.chunks, streams, b.id).value)
    && e == CorrelationEdge(Correlations.ResultOf(rules, st.templates, st.chunks, streams,
              Correlations.ProxiesByValue(ResolutionsFor(rules, entries, cloud.resources)), cloud, a, b))
  }

  /**
    Exactly which correlations a collect emits: an edge for each pair of emitted error templates whose ranges
    meet within the window and whose owning services are different and depend on each other, and no other.
   */
  lemma EmittedCorrelationsAreExact(rules: Rules, entries: seq<LogEntry>, cloud: Correlations.Cloud, st: Stages,
        edges: seq<Edge>, e: Edge)
    requires Emits(rules, entries, cloud, st, edges) && e.kind.CorrelatesWith?
    ensures e in edges <==> exists a, b :: Correlates(rules, entries, cloud, st, e, a, b)
  {
    var streams := StreamsFor(rules, entries);
    var proxies := Correlations.ProxiesByValue(ResolutionsFor(rules, entries, cloud.resources));
    var ranked :| Correlations.IsRanking(ScoredPairs(rules, entries, cloud, st), ranked)
      && edges == EmittedEdges(rules, entries, cloud.resources, st) + CorrelationEdges(ranked);
    if e in EmittedEdges(rules, entries, cloud.resources, st) {
      LogHalfHasNoCorrelations(streams, st.chunks, ResolutionsFor(rules, entries, cloud.resources), e);
      assert false;
    }
    RankingKeepsEdges(ScoredPairs(rules, entries, cloud, st), ranked, e);
    var r := e.kind.result;
    Correlations.CorrelationsAreExact(rules, st.templates, st.chunks, streams, proxies, cloud, r);
    if e in edges {
      var a, b :| Correlations.Cooccur(st.templates, st.chunks, streams, a, b)
        && r == Correlations.ResultOf(rules, st.templates, st.chunks, streams, proxies, cloud, a, b);
      assert Correlates(rules, entries, cloud, st, e, a, b);
    }
  }

  // ---- what the correlation detector refuses -----------------------------

  /** No empty template or stream id, and no time range that ends before it starts. */
  ghost predicate Acceptable(templates: seq<Template>, streams: seq<Streams.Stream>, chunks: seq<Chunks.Chunk>) {
    && (forall t | t in templates :: t.id != "" && t.firstSeen <= t.lastSeen)
    && (forall s | s in streams :: s.id != "")
    && (forall c | c in chunks :: c.template != "" && c.stream != "" && c.start <= c.end)
  }

  lemma StreamsAreNamed(rules: Rules, entries: seq<LogEntry>, s: Streams.Stream)
    requires s in StreamsFor(rules, entries) && forall t :: rules.labelHash(t) != ""
    ensures s.id != ""
  {
    Streams.FirstOfEachKeepsIds(Streams.Wanted(rules, entries, CARDINALITY_THRESHOLD));
  }

  lemma AcceptableIsNotRefused(templates: seq<Template>, streams: seq<Streams.Stream>, chunks: seq<Chunks.Chunk>)
    requires Acceptable(templates, streams, chunks)
    ensures !Correlations.Malformed(templates, streams)
  {
  }

  /**
    Whatever the entries, zero timestamps, overflow and stale merges included, a collect emits nothing the
    detector refuses.
   */
  lemma NothingIsRefused(rules: Rules, render: Chunks.Rendering, entries: seq<LogEntry>, st: Stages)
    requires Assembled(rules, render, entries, st) && HashNonEmpty(rules) && forall s :: rules.labelHash(s) != ""
    ensures Acceptable(st.templates, StreamsFor(rules, entries), st.chunks)
    ensures !Correlations.Malformed(st.templates, StreamsFor(rules, entries))
  {
    forall t | t in st.templates ensures t.id != "" && t.firstSeen <= t.lastSeen {
      TemplatesAreWellFormed(DEFAULT_CONFIG, rules, entries, t);
    }
    forall s | s in StreamsFor(rules, entries) ensures s.id != "" {
      StreamsAreNamed(rules, entries, s);
    }
    forall c | c in st.chunks ensures c.template != "" && c.stream != "" && c.start <= c.end {
      ChunkIsAcceptable(render, entries, Streams.StreamIds(rules, entries), st.ids, st.chunks, c);
    }
    AcceptableIsNotRefused(st.templates, StreamsFor(rules, entries), st.chunks);
  }

  lemma ChunkIsAcceptable(render: Chunks.Rendering, entries: seq<LogEntry>, streams: seq<string>,
        templates: seq<string>, chunks: seq<Chunks.Chunk>, c: Chunks.Chunk)
    requires |entries| == |streams| == |templates|
    requires Chunks.IsChunking(render, entries, streams, templates, chunks) && c in chunks
    ensures c.template != "" && c.stream != "" && c.start <= c.end
  {
    Chunks.ChunkShowsItsEntries(render, entries, streams, templates, chunks, c);
    var i: nat :| i < |entries| && Chunks.Holds(c, entries, streams, templates, i) && entries[i].timestamp == c.start;
  }

  // ---- counts, all the way to the graph ----------------------------------

  /**
    End to end: undisturbed, the count on every emitted template node is the number of entries
    attributed to it, and the sum of the entry counts of the chunks it contains.
   */
  lemma TemplateCountsMatchTheirChunks(rules: Rules, render: Chunks.Rendering, entries: seq<LogEntry>,
        resources: seq<Resolve.Resource>, st: Stages, i: nat)
    requires Assembled(rules, render, entries, st) && i < |st.templates|
    requires Undisturbed(DEFAULT_CONFIG, rules, entries) && HashNonEmpty(rules) && forall s :: rules.labelHash(s) != ""
    ensures var t := st.templates[i];
      && t.count == CountId(st.ids, t.id)
      && t.count == Chunks.CountIn(st.chunks, t.id)
      && forall c | c in st.chunks && c.template == t.id ::
        Edge(t.id, c.id, Contains) in EmittedEdges(rules, entries, resources, st)
  {
    var t := st.templates[i];
    CountsAgree(DEFAULT_CONFIG, rules, entries, st.templates, st.ids, i);
    SurvivorIdNonEmpty(DEFAULT_CONFIG, rules, entries, t);
    Chunks.ChunksCountTheirEntries(render, entries, Streams.StreamIds(rules, entries), st.ids, st.chunks, t.id);
    forall c | c in st.chunks && c.template == t.id
      ensures Edge(t.id, c.id, Contains) in EmittedEdges(rules, entries, resources, st)
    {
      ContainsIsEmitted(StreamsFor(rules, entries), st.chunks, c);
    }
  }

  lemma ContainsIsEmitted(streams: seq<Streams.Stream>, chunks: seq<Chunks.Chunk>, c: Chunks.Chunk)
    requires c in chunks
    ensures Edge(c.template, c.id, Contains) in LogEdges(streams, chunks)
  {
    assert ChunkEdges(c)[1] == Edge(c.template, c.id, Contains);
    LogEdgesAreExact(streams, chunks, Edge(c.template, c.id, Contains));
  }

  // ---- from the walk to the graph ----------------------------------------

  /** The entries a collect builds its graph from: those of an error-free walk, reclassified. */
  function Collected(rules: Rules, rd: Normalize.Reader, src: Fetch.Source, p: Fetch.Params, w: Fetch.TimeWindow)
    : seq<LogEntry>
  {
    Reclassified(rules, Ingest.Walked(rd, src, p, w))
  }

  /**
    Exact ranges for what a collect emits: undisturbed, each template's range is the attained minimum and
    maximum over the walked entries attributed to it, and its severity the attained maximum of their
    levels and of what their merges start from. Nothing is asked of the entries but that the events have
    real times and the levels read are canonical.
   */
  lemma CollectedRangesAreExact(rules: Rules, render: Chunks.Rendering, rd: Normalize.Reader, src: Fetch.Source,
        p: Fetch.Params, w: Fetch.TimeWindow, st: Stages, i: nat)
    requires Normalize.CanonicalReader(rd) && Ingest.AllRealTimes(src)
    requires forall s :: rules.embeddedSeverity(s) == "" || Canonical(rules.embeddedSeverity(s))
    requires var entries := Collected(rules, rd, src, p, w);
      Undisturbed(DEFAULT_CONFIG, rules, entries) && Assembled(rules, render, entries, st)
    requires HashNonEmpty(rules) && i < |st.templates|
    ensures var entries := Collected(rules, rd, src, p, w);
      Exact(st.templates[i], entries,
        FloorsOf(rules, Before(DEFAULT_CONFIG, rules, entries), Run(DEFAULT_CONFIG, rules, entries).1),
            st.ids, st.templates[i].id)
  {
    Ingest.WalkIsWellFormed(rd, src, p, w);
    ReclassifyKeepsWellFormed(rules, Ingest.Walked(rd, src, p, w));
    RangesAreExact(DEFAULT_CONFIG, rules, Collected(rules, rd, src, p, w), st.templates, st.ids, i);
  }

  /** Stream identity for what a collect walks: two entries share a stream exactly when their label sets are equal. */
  lemma CollectedStreamsAreLabelSets(rules: Rules, rd: Normalize.Reader, src: Fetch.Source, p: Fetch.Params,
        w: Fetch.TimeWindow, i: nat, j: nat)
    requires Injective(rules.labelHash) && Ingest.PlainNames(src, p)
    requires i < |Ingest.Walked(rd, src, p, w)| && j < |Ingest.Walked(rd, src, p, w)|
    ensures var ids := Streams.StreamIds(rules, Collected(rules, rd, src, p, w));
      ids[i] == ids[j] <==> Ingest.Walked(rd, src, p, w)[i].labels == Ingest.Walked(rd, src, p, w)[j].labels
    ensures Streams.DistinctStreams(StreamsFor(rules, Collected(rules, rd, src, p, w)))
  {
    var walked, entries := Ingest.Walked(rd, src, p, w), Collected(rules, rd, src, p, w);
    Ingest.WalkIsClean(rd, src, p, w);
    ReclassifyKeepsClean(rules, walked);
    Streams.SameStreamIffSameLabels(rules, entries, i, j);
    Streams.OneStreamPerLabelSet(rules, entries, CARDINALITY_THRESHOLD,
      Streams.Wanted(rules, entries, CARDINALITY_THRESHOLD)[i]);
  }

  /**
    Evidence for what a collect walks: the resource that a correlation's evidence names for a service is the one
    its dependency was confirmed for, since no walk writes a namespace label.
   */
  lemma CollectedEvidenceAgrees(rules: Rules, rd: Normalize.Reader, src: Fetch.Source, p: Fetch.Params,
        w: Fetch.TimeWindow, cloud: Correlations.Cloud, service: string)
    ensures Correlations.EvidenceAgrees(rules, cloud, StreamsFor(rules, Collected(rules, rd, src, p, w)), service)
  {
    var walked, entries := Ingest.Walked(rd, src, p, w), Collected(rules, rd, src, p, w);
    var streams := StreamsFor(rules, entries);
    Ingest.WalkLabelsAreKnown(rd, src, p, w);
    forall s | s in streams ensures "namespace" !in s.lowCard {
      var e := Streams.StreamLabelsAreEntries(rules, entries, CARDINALITY_THRESHOLD, s);
      var i :| 0 <= i < |entries| && entries[i] == e;
      assert walked[i] in walked;
    }
    Correlations.NoNamespaceNoDisagreement(rules, cloud, streams, service);
  }

  /** Two walks that meet the same entries, in whatever order, emit the same streams with the same label split. */
  lemma CollectedStreamsAreOrderFree(rules: Rules, rd: Normalize.Reader, src: Fetch.Source, p: Fetch.Params,
        w: Fetch.TimeWindow, src': Fetch.Source, p': Fetch.Params, w': Fetch.TimeWindow, s: Streams.Stream)
    requires Injective(rules.labelHash) && Ingest.PlainNames(src, p)
    requires forall e :: e in Ingest.Walked(rd, src, p, w) <==> e in Ingest.Walked(rd, src', p', w')
    ensures s in StreamsFor(rules, Collected(rules, rd, src, p, w))
      <==> s in StreamsFor(rules, Collected(rules, rd, src', p', w'))
  {
    var a, b := Ingest.Walked(rd, src, p, w), Ingest.Walked(rd, src', p', w');
    Ingest.WalkIsClean(rd, src, p, w);
    ReclassifyKeepsClean(rules, a);
    forall e ensures e in Reclassified(rules, a) <==> e in Reclassified(rules, b) {
      if e in Reclassified(rules, a) {
        ReclassifyKeepsMembers(rules, a, b, e);
      }
      if e in Reclassified(rules, b) {
        ReclassifyKeepsMembers(rules, b, a, e);
      }
    }
    Streams.StreamsAreOrderFree(rules, Reclassified(rules, a), Reclassified(rules, b), CARDINALITY_THRESHOLD, s);
  }

  /** The collector's own configuration is one in which overflow leaves twins, on messages its masks leave alone. */
  lemma DefaultConfigLeavesTwins(rules: Rules)
    requires forall e | e in Messages(DEFAULT_CONFIG.maxClusters) :: rules.mask(e.message) == e.message
    ensures !DistinctTokens(Run(DEFAULT_CONFIG, rules, Messages(DEFAULT_CONFIG.maxClusters)).0)
  {
    TwinsAreSaid(DEFAULT_CONFIG, rules);
  }

  /**
    Clustering as every collect is configured: two messages end in one template exactly when their first three tokens
    branch alike and they are equally long and agree on more than two fifths of their positions.
   */
  lemma TwoMessagesByDefault(rules: Rules, e: LogEntry, f: LogEntry, a: seq<string>, b: seq<string>)
    requires a == Strings.Fields(rules.mask(e.message)) != [] && b == Strings.Fields(rules.mask(f.message)) != []
    ensures |Run(DEFAULT_CONFIG, rules, [e, f]).0.clusters|
      == if |a| == |b| && (forall i | 0 <= i < 3 && i < |a| :: SameBranch(a[i], b[i])) && MostlyAgree(a, b) then 1
         else 2
  {
    assert Branching(DEFAULT_CONFIG.maxDepth, |a|) == if |a| < 3 then |a| else 3;
    assert Branching(DEFAULT_CONFIG.maxDepth, |b|) == if |b| < 3 then |b| else 3;
    if RoutedAlike(DEFAULT_CONFIG.maxDepth, a, b) {
      TwoMessages(DEFAULT_CONFIG, rules, e, f, a, b);
      MostlyIsResembling(a, b);
    } else {
      TwoRoutedApart(DEFAULT_CONFIG, rules, e, f, a, b);
    }
  }

  /** They agree, a wildcard on either side counting, on more than two fifths of the positions. */
  ghost predicate MostlyAgree(a: seq<string>, b: seq<string>)
    requires |a| == |b|
  {
    5 * |set i: nat | i < |a| && (a[i] == b[i] || a[i] == "<*>" || b[i] == "<*>")| > 2 * |a|
  }

  lemma MostlyIsResembling(a: seq<string>, b: seq<string>)
    ensures Resembles(DEFAULT_CONFIG.simThreshold, a, b) <==> |a| == |b| && MostlyAgree(a, b)
  {
  }

  /** No collect clusters into more than 200 templates, nor branches a node more than 101 ways. */
  lemma DefaultLimits(rules: Rules, entries: seq<LogEntry>, p: seq<string>)
    ensures |Run(DEFAULT_CONFIG, rules, entries).0.clusters| <= 200
    ensures |Run(DEFAULT_CONFIG, rules, entries).0.tree.Kids(p)| <= 101
  {
    CapsHold(DEFAULT_CONFIG, rules, entries, p);
  }

  // ---- the stages in order -----------------------------------------------

  /** The stages before assembly. The id lists are as long as the entries, so assembling the chunks cannot fail. */
  method BuildLogHalf(rules: Rules, render: Chunks.Rendering, entries: seq<LogEntry>)
    returns (templates: seq<Template>, streams: seq<Streams.Stream>, chunks: Result<seq<Chunks.Chunk>, string>,
      ghost st: Stages)
    ensures chunks.Success? && streams == StreamsFor(rules, entries)
    ensures Assembled(rules, render, entries, st) && st.templates == templates && st.chunks == chunks.value
  {
    var survivors, ids := ProcessEntries(DEFAULT_CONFIG, rules, entries);
    ghost var absorbedBy, fallback :| Attributes(DEFAULT_CONFIG, rules, entries, absorbedBy, fallback, ids);
    templates := Values(survivors);
    var streamIds;
    streams, streamIds := Streams.BuildStreams(rules, entries, CARDINALITY_THRESHOLD);
    chunks := Chunks.AssembleChunks(render, entries, streamIds, ids);
    st := Stages(templates, ids, chunks.value);
  }

  /** Everything after the chunks: assembly, proxies, and the correlations or the detector's refusal. */
  method BuildCloudHalf(rules: Rules, entries: seq<LogEntry>, templates: seq<Template>, streams: seq<Streams.Stream>,
        chunks: seq<Chunks.Chunk>, cloud: Correlations.Cloud, ghost st: Stages)
    returns (r: Result<(seq<Node>, seq<Edge>), string>)
    requires streams == StreamsFor(rules, entries) && st.templates == templates && st.chunks == chunks
    ensures r.Failure? <==> Correlations.Malformed(templates, streams)
    ensures r.Success? ==>
      r.value.0 == EmittedNodes(rules, entries, cloud.resources, st) && Emits(rules, entries, cloud, st, r.value.1)
  {
    var nodes, edges := AssembleGraph(templates, streams, chunks);
    var resolutions := Resolve.ResolveStreams(rules, streams, cloud.resources);
    var proxyNodes, proxyEdges := MaterializeProxies(resolutions);
    nodes, edges := nodes + proxyNodes, edges + proxyEdges;
    var proxies := Correlations.ProxyMapFrom(resolutions);
    var found := Correlations.FindCorrelations(rules, templates, chunks, streams, proxies, cloud);
    if found.Failure? {
      return Failure(found.error);
    }
    var correlations := MaterializeCorrelations(found.value);
    return Success((nodes, edges + correlations));
  }

  /**
    Turns normalized entries and the supplied cloud context into nodes and edges. The entries' severities are
    rewritten in place first; the detector's refusal is the collect's, which with non-empty hashes never
    happens, and then no edge dangles.
   */
  method BuildGraph(rules: Rules, render: Chunks.Rendering, entries: array<LogEntry>, cloud: Correlations.Cloud)
    returns (r: Result<(seq<Node>, seq<Edge>), string>, ghost st: Stages)
    modifies entries
    ensures entries[..] == Reclassified(rules, old(entries[..]))
    ensures Assembled(rules, render, entries[..], st)
    ensures r.Failure? <==> Correlations.Malformed(st.templates, StreamsFor(rules, entries[..]))
    ensures r.Success? ==>
      && r.value.0 == EmittedNodes(rules, entries[..], cloud.resources, st)
      && Emits(rules, entries[..], cloud, st, r.value.1)
    ensures HashNonEmpty(rules) && (forall s :: rules.labelHash(s) != "") ==> r.Success?
    ensures HashNonEmpty(rules) && r.Success? ==> Closed(r.value.0, r.value.1)
  {
    ReclassifySeverity(rules, entries);
    var templates, streams, chunks;
    templates, streams, chunks, st := BuildLogHalf(rules, render, entries[..]);
    r := BuildCloudHalf(rules, entries[..], templates, streams, chunks.value, cloud, st);
    if HashNonEmpty(rules) {
      if forall s :: rules.labelHash(s) != "" {
        NothingIsRefused(rules, render, entries[..], st);
      }
      if r.Success? {
        EmittedGraphIsClosed(rules, render, entries[..], cloud, st, r.value.1);
      }
    }
  }
}
