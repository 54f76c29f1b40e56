/** One collect from end to end: reading the log groups, then building the graph, all of it or nothing. */
module Walks {

  import opened Wrappers
  import opened Model
  import opened Graph
  import opened Collect
  import Chunks
  import Correlations
  import Fetch
  import Ingest
  import Normalize
  import Pipeline

  /** What a collect returns; complete says that the source held nothing more. */
  datatype Collection = Collection(nodes: seq<Node>, edges: seq<Edge>, complete: bool)

  datatype WalkError = ReadFailed(cause: Fetch.FetchError) | Refused(reason: string)

  /** The graph is built from exactly these entries, and while template ids are never empty no edge of it dangles. */
  ghost predicate GraphOf(rules: Rules, render: Chunks.Rendering, entries: seq<LogEntry>, cloud: Correlations.Cloud,
      st: Stages, c: Collection)
  {
    && Assembled(rules, render, entries, st)
    && c.nodes == EmittedNodes(rules, entries, cloud.resources, st)
    && Emits(rules, entries, cloud, st, c.edges)
    && (Pipeline.HashNonEmpty(rules) ==> Closed(c.nodes, c.edges))
  }

  /** Some entry the filters keep was left unread: the bound is set and the groups hold more. */
  ghost predicate HeldMore(rd: Normalize.Reader, src: Fetch.Source, p: Fetch.Params, w: Fetch.TimeWindow) {
    p.maxEntries.Some?
    && 0 < p.maxEntries.value < |Fetch.KeptFrom(Ingest.ParserOf(rd), src, p, w, p.logGroups)|
  }

  /** What a walk returns are the entries the later stages reason about. */
  lemma WalkedIsFetched(rd: Normalize.Reader, src: Fetch.Source, p: Fetch.Params, w: Fetch.TimeWindow,
        entries: seq<LogEntry>)
    requires var held := Fetch.KeptFrom(Ingest.ParserOf(rd), src, p, w, p.logGroups);
      entries == if p.maxEntries.Some? && 0 < p.maxEntries.value < |held| then held[..p.maxEntries.value] else held
    ensures entries == Ingest.Walked(rd, src, p, w)
  {
  }

  /**
    A collect against any honest server, however it pages. It fails to read only when a legal request fails or an
    event has no timestamp, and it is refused by the detector only if some hash is empty. Otherwise it returns the
    graph of the entries walked, reclassified, and says that it is complete exactly when the source held no further
    entry that it would have kept.
   */
  method Walk(serve: Fetch.Server, rd: Normalize.Reader, rules: Rules, render: Chunks.Rendering, p: Fetch.Params,
        w: Fetch.TimeWindow, cloud: Correlations.Cloud, ghost src: Fetch.Source)
    returns (r: Result<Collection, WalkError>, ghost st: Stages)
    requires Fetch.Honest(serve, src)
    ensures r.Failure? && r.error.ReadFailed? ==> !Fetch.Flawless(serve, src)
    ensures Pipeline.HashNonEmpty(rules) && (forall s :: rules.labelHash(s) != "") ==>
      !(r.Failure? && r.error.Refused?)
    ensures r.Success? ==> GraphOf(rules, render, Collected(rules, rd, src, p, w), cloud, st, r.value)
    ensures r.Success? ==> (r.value.complete <==> !HeldMore(rd, src, p, w))
  {
    st := Stages([], [], []);
    var fetched := Fetch.FetchAll(serve, Ingest.ParserOf(rd), p, w, src);
    if fetched.Failure? {
      return Failure(ReadFailed(fetched.error)), st;
    }
    var walked := fetched.value.entries;
    WalkedIsFetched(rd, src, p, w, walked);
    var entries := new LogEntry[|walked|](i requires 0 <= i < |walked| => walked[i]);
    assert entries[..] == walked;
    var graph;
    graph, st := BuildGraph(rules, render, entries, cloud);
    if graph.Failure? {
      return Failure(Refused(graph.error)), st;
    }
    return Success(Collection(graph.value.0, graph.value.1, !fetched.value.truncated)), st;
  }
}
