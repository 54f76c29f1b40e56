/** Clustering, consolidation and attribution as the collector drives them: processEntries. */
module Processing {

  import opened Wrappers
  import opened Model
  import opened Drain
  import opened Templates
  import opened DrainEngines
  import opened Consolidation
  import opened ConsolidationTheorems
  import opened Absorptions
  import opened Attribution
  import opened Remapping
  import opened Pipeline

  /** Entry k points at the template of the cluster it joined, or at nothing. */
  ghost predicate PointsTo(clusters: seq<DrainCluster>, pointers: seq<LogTemplate?>, joined: seq<Option<nat>>) {
    |pointers| == |joined| && forall k | 0 <= k < |joined| ::
      if joined[k].None? then pointers[k] == null
      else joined[k].value < |clusters| && pointers[k] == clusters[joined[k].value].template
  }

  ghost predicate PointsAt(engine: DrainEngine, pointers: seq<LogTemplate?>, joined: seq<Option<nat>>)
    reads engine`clusters
  {
    PointsTo(engine.clusters, pointers, joined)
  }

  /** The pointers kept before stay valid, since clusters are only appended. */
  lemma PointsOn(was: seq<DrainCluster>, now: seq<DrainCluster>, pointers: seq<LogTemplate?>, joined: seq<Option<nat>>,
        t: LogTemplate?, j: Option<nat>)
    requires PointsTo(was, pointers, joined) && was <= now
    requires if j.None? then t == null else j.value < |now| && t == now[j.value].template
    ensures PointsTo(now, pointers + [t], joined + [j])
  {
  }

  /** The nodes, the clusters and their templates. */
  ghost function Reached(nodes: set<DrainNode>, clusters: seq<DrainCluster>): (reach: set<object>)
    ensures forall n | n in nodes :: n in reach
    ensures forall c | c in clusters :: c in reach && c.template in reach
  {
    (set n | n in nodes :: n as object) + (set c | c in clusters :: c as object)
      + (set c | c in clusters :: c.template as object)
  }

  /** The engine stands where a run over these entries leads, and each of them points at its template. */
  ghost predicate HasRun(engine: DrainEngine, cfg: DrainConfig, rules: Rules, entries: seq<LogEntry>,
        pointers: seq<LogTemplate?>)
    requires cfg.maxClusters >= 1
    reads engine, engine.nodes, engine.clusters, set c | c in engine.clusters :: c.template
  {
    var (st, joined) := Run(cfg, rules, entries);
    engine.Valid() && engine.config == cfg && engine.rules == rules && engine.St() == st
      && PointsAt(engine, pointers, joined)
  }

  method ClusterNext(engine: DrainEngine, cfg: DrainConfig, rules: Rules, entries: seq<LogEntry>, i: nat,
        pointers: seq<LogTemplate?>, ghost reach: set<object>)
    returns (pointers': seq<LogTemplate?>, ghost reach': set<object>)
    requires cfg.maxClusters >= 1 && i < |entries| && HasRun(engine, cfg, rules, entries[..i], pointers)
    requires reach == Reached(engine.nodes, engine.clusters)
    modifies engine, reach
    ensures HasRun(engine, cfg, rules, entries[..i + 1], pointers')
    ensures reach' == Reached(engine.nodes, engine.clusters) && fresh(reach' - reach)
  {
    ghost var joined := Run(cfg, rules, entries[..i]).1;
    ghost var j;
    RunNext(cfg, rules, entries, i);
    pointers', j := PointNext(engine, entries[i], pointers, joined);
    reach' := Reached(engine.nodes, engine.clusters);
  }

  /** Clusters one entry and keeps its pointer; the pointers kept before stay valid. */
  method PointNext(engine: DrainEngine, e: LogEntry, pointers: seq<LogTemplate?>, ghost joined: seq<Option<nat>>)
    returns (pointers': seq<LogTemplate?>, ghost j: Option<nat>)
    requires engine.Valid() && PointsAt(engine, pointers, joined)
    modifies engine, engine.nodes, engine.clusters, set c | c in engine.clusters :: c.template
    ensures engine.Valid() && (engine.St(), j) == Add(engine.config, engine.rules, old(engine.St()), e)
    ensures PointsAt(engine, pointers', joined + [j])
    ensures forall n | n in engine.nodes :: n in old(engine.nodes) || fresh(n)
    ensures forall c | c in engine.clusters :: c in old(engine.clusters) || (fresh(c) && fresh(c.template))
  {
    ghost var was := engine.clusters;
    var t; ghost var added;
    t, j, added := engine.AddMessage(e);
    pointers' := pointers + [t];
    PointsOn(was, engine.clusters, pointers, joined, t, j);
  }

  lemma RunNext(cfg: DrainConfig, rules: Rules, entries: seq<LogEntry>, i: nat)
    requires cfg.maxClusters >= 1 && i < |entries|
    ensures var (st, joined) := Run(cfg, rules, entries[..i]);
      var (next, j) := Add(cfg, rules, st, entries[i]);
      Run(cfg, rules, entries[..i + 1]) == (next, joined + [j])
  {
    assert entries[..i + 1][..i] == entries[..i];
  }

  /** Entry k points at the template at the index it joined, or at nothing. */
  ghost predicate PointInto(pointers: seq<LogTemplate?>, templates: seq<LogTemplate>, joined: seq<Option<nat>>) {
    |pointers| == |joined| && forall k | 0 <= k < |joined| ::
      if joined[k].None? then pointers[k] == null
      else joined[k].value < |templates| && pointers[k] == templates[joined[k].value]
  }

  /** Clusters every entry, keeping for each the pointer to the template it joined. */
  method ClusterEntries(cfg: DrainConfig, rules: Rules, entries: seq<LogEntry>)
    returns (engine: DrainEngine, pointers: seq<LogTemplate?>)
    requires cfg.maxClusters >= 1
    ensures HasRun(engine, cfg, rules, entries, pointers)
    ensures forall k | 0 <= k < |engine.clusters| :: fresh(engine.clusters[k].template)
  {
    engine := new DrainEngine(cfg, rules);
    pointers := [];
    ghost var reach := Reached(engine.nodes, engine.clusters);
    for i := 0 to |entries|
      invariant HasRun(engine, cfg, rules, entries[..i], pointers)
      invariant fresh(engine) && fresh(reach) && reach == Reached(engine.nodes, engine.clusters)
    {
      pointers, reach := ClusterNext(engine, cfg, rules, entries, i, pointers, reach);
    }
    assert entries[..|entries|] == entries;
  }

  method ReadTemplates(engine: DrainEngine, ghost cfg: DrainConfig, ghost rules: Rules, ghost entries: seq<LogEntry>,
        ghost pointers: seq<LogTemplate?>)
    returns (templates: seq<LogTemplate>)
    requires cfg.maxClusters >= 1 && HasRun(engine, cfg, rules, entries, pointers)
    ensures Hold(templates, Before(cfg, rules, entries)) && Unaliased(templates)
    ensures PointInto(pointers, templates, Run(cfg, rules, entries).1)
    ensures |templates| == |engine.clusters| && forall k | 0 <= k < |templates| ::
      templates[k] == engine.clusters[k].template
  {
    templates := engine.CurrentTemplates();
    PointersCarryOver(engine, pointers, Run(cfg, rules, entries).1, templates);
  }

  lemma PointersCarryOver(engine: DrainEngine, pointers: seq<LogTemplate?>, joined: seq<Option<nat>>,
        templates: seq<LogTemplate>)
    requires PointsAt(engine, pointers, joined)
    requires |templates| == |engine.clusters| && forall k | 0 <= k < |templates| ::
      templates[k] == engine.clusters[k].template
    ensures PointInto(pointers, templates, joined)
  {
  }

  /** The clustering stage: the templates, all of them new, and for each entry the pointer to the one it joined. */
  method ClusterTemplates(cfg: DrainConfig, rules: Rules, entries: seq<LogEntry>)
    returns (templates: seq<LogTemplate>, pointers: seq<LogTemplate?>)
    requires cfg.maxClusters >= 1
    ensures Hold(templates, Before(cfg, rules, entries)) && Unaliased(templates)
    ensures forall k | 0 <= k < |templates| :: fresh(templates[k])
    ensures PointInto(pointers, templates, Run(cfg, rules, entries).1)
  {
    var engine;
    engine, pointers := ClusterEntries(cfg, rules, entries);
    templates := ReadTemplates(engine, cfg, rules, entries, pointers);
  }

  /** Reads each entry's final id through the pointer it kept, and remaps it. */
  method ResolveIds(pointers: seq<LogTemplate?>, remap: map<string, string>, ghost joined: seq<Option<nat>>,
                    ghost templates: seq<LogTemplate>, ghost vs: seq<Template>)
    returns (ids: seq<string>)
    requires PointInto(pointers, templates, joined)
    requires |templates| == |vs| && forall i | 0 <= i < |templates| :: templates[i].id == vs[i].id
    ensures ids == FinalIds(joined, vs, remap)
  {
    ids := [];
    for i := 0 to |pointers|
      invariant |ids| == i && ids == FinalIds(joined, vs, remap)[..i]
    {
      var tpl := pointers[i];
      if tpl == null {
        ids := ids + [""];
        continue;
      }
      var id := tpl.id;
      if id in remap {
        id := remap[id];
      }
      ids := ids + [id];
    }
  }

  /** Builds the remap and reads every entry's final id through it. */
  method RemapIds(before: seq<LogTemplate>, after: seq<LogTemplate>, absorbedBy: map<string, string>,
        pointers: seq<LogTemplate?>, ghost joined: seq<Option<nat>>, ghost vs: seq<Template>,
        ghost survivors: seq<Template>)
    returns (ids: seq<string>, ghost fallback: string)
    requires Hold(after, survivors) && PointInto(pointers, before, joined)
    requires |before| == |vs| && forall i | 0 <= i < |before| :: before[i].id == vs[i].id
    ensures IsFallback(survivors, fallback)
    ensures (forall i | 0 <= i < |joined| && joined[i].Some? :: joined[i].value < |vs|)
    ensures ids == FinalIds(joined, vs, Remap(IdsOf(vs), IdSet(survivors), absorbedBy, fallback))
  {
    var remap := BuildTemplateRemap(before, after, absorbedBy, IdsOf(vs), survivors);
    fallback :| IsFallback(survivors, fallback) && remap == Remap(IdsOf(vs), IdSet(survivors), absorbedBy, fallback);
    ids := ResolveIds(pointers, remap, joined, before, vs);
  }

  /** Survivors, relation, fallback and ids that fit together are a result of processing. */
  lemma AreProcessed(cfg: DrainConfig, rules: Rules, entries: seq<LogEntry>, absorbedBy: map<string, string>,
        fallback: string, ids: seq<string>)
    requires cfg.maxClusters >= 1
    requires var before, joined := Before(cfg, rules, entries), Run(cfg, rules, entries).1;
      && Computed(Maps(rules, DEFAULT_FAMILIES, before), absorbedBy)
      && IsFallback(Survivors(cfg, rules, entries), fallback)
      && (forall i | 0 <= i < |joined| && joined[i].Some? :: joined[i].value < |before|)
      && ids == FinalIds(joined, before,
        Remap(IdsOf(before), IdSet(Survivors(cfg, rules, entries)), absorbedBy, fallback))
    ensures Processed(cfg, rules, entries, Survivors(cfg, rules, entries), ids)
  {
    assert Attributes(cfg, rules, entries, absorbedBy, fallback, ids);
  }

  /**
    Clusters every entry, consolidates the templates and names each entry's final template, read only
    once all clustering and merging is over.
   */
  method ProcessEntries(cfg: DrainConfig, rules: Rules, entries: seq<LogEntry>)
    returns (after: seq<LogTemplate>, ids: seq<string>)
    requires cfg.maxClusters >= 1
    ensures Unaliased(after) && Processed(cfg, rules, entries, Values(after), ids)
  {
    ghost var vs, joined := Before(cfg, rules, entries), Run(cfg, rules, entries).1;
    var before, pointers := ClusterTemplates(cfg, rules, entries);
    var absorbedBy;
    after, absorbedBy := RunConsolidators(rules, DEFAULT_FAMILIES, before, vs);
    ghost var survivors := Survivors(cfg, rules, entries);
    assert forall i | 0 <= i < |before| :: before[i].id == vs[i].id;
    ghost var fallback;
    ids, fallback := RemapIds(before, after, absorbedBy, pointers, joined, vs, survivors);
    AreProcessed(cfg, rules, entries, absorbedBy, fallback, ids);
    assert Values(after) == survivors;
  }
}
