/**
  When what a collect emits depends on the iteration orders of the maps it re-points: exactly when, and
  nothing else does.
 */
module Determinism {

  import opened Wrappers
  import opened Model
  import opened Drain
  import opened DrainTheorems
  import opened Consolidation
  import opened ConsolidationTheorems
  import opened Absorptions
  import opened IterationOrder
  import opened Attribution
  import opened Pipeline

  // ---- what the default consolidators record -----------------------------

  /** What a round records of a fragment is the id of a merge it emits. */
  lemma {:induction false} MergesAreEmitted(rules: Rules, family: Family, normal: seq<Template>,
        groups: seq<seq<Template>>, f: string)
    requires forall i | 0 <= i < |groups| :: |groups[i]| != 0
    requires f in Record(map[], MergeGroups(rules, family, normal, groups).absorptions)
    ensures Record(map[], MergeGroups(rules, family, normal, groups).absorptions)[f]
         in IdSet(MergeGroups(rules, family, normal, groups).templates)
    decreases |groups|
  {
    if |groups| != 0 {
      var front, group := groups[..|groups| - 1], groups[|groups| - 1];
      var was := MergeGroups(rules, family, normal, front);
      if f in Record(map[], was.absorptions) {
        MergesAreEmitted(rules, family, normal, front, f);
      }
      if |group| < MIN_GROUP {
        IdSetGrows(was.templates, group);
      } else {
        var m := Merge(rules, family, group);
        var a := Absorption(m.id, IdsOf(group));
        assert (was.absorptions + [a])[..|was.absorptions|] == was.absorptions;
        AssignGives(Record(map[], was.absorptions), a.fragments, a.survivor);
        IdSetLast(was.templates, m);
        var h := Assign(Record(map[], was.absorptions), a.fragments, a.survivor);
        assert Follow(h, f) == h[f];
      }
    }
  }

  lemma IdSetGrows(a: seq<Template>, b: seq<Template>)
    ensures IdSet(a) <= IdSet(a + b)
  {
    forall id | id in IdSet(a) ensures id in IdSet(a + b) {
      var t :| t in a && t.id == id;
      assert t in a + b;
    }
  }

  lemma RoundValuesSurvive(rules: Rules, family: Family, ts: seq<Template>, f: string)
    requires f in RoundMap(rules, family, ts)
    ensures RoundMap(rules, family, ts)[f] in IdSet(Consolidate(rules, family, ts).templates)
  {
    var normal, groups := Select(rules, family, ts, Normal), Groups(rules, family, ts);
    MergesAreEmitted(rules, family, normal, groups, f);
    DedupeKeeps(rules, MergeGroups(rules, family, normal, groups).templates, map[], "");
  }

  /** Every value recorded is a survivor's id, but for the Go merge's, which the Python round may have absorbed. */
  lemma RecordingIsLive(rules: Rules, ts: seq<Template>)
    ensures LiveBut(Recording(rules, ts), IdSet(After(rules, DEFAULT_FAMILIES, ts)), rules.templateHash(GO_PATTERN))
  {
    var go := Consolidate(rules, GoStack, ts).templates;
    var m := Recording(rules, ts);
    MapsOfDefault(rules, ts);
    forall f | f in m
      ensures m[f] in IdSet(After(rules, DEFAULT_FAMILIES, ts)) || m[f] == rules.templateHash(GO_PATTERN)
    {
      if f in RoundMap(rules, PythonTraceback, go) {
        RoundValuesSurvive(rules, PythonTraceback, go, f);
      } else {
        GoRoundHasOneValue(rules, ts, f);
      }
    }
  }

  lemma RelationsAgree(rules: Rules, ts: seq<Template>, a: Relation, b: Relation)
    requires Shallow(Recording(rules, ts)) && CanCompute(rules, ts, a) && CanCompute(rules, ts, b)
    ensures a == b
  {
    var m := Recording(rules, ts);
    DefaultIsOnePass(rules, ts, a);
    DefaultIsOnePass(rules, ts, b);
    var p :| Enumerates(p, m.Keys) && a == Pass(m, p);
    var q :| Enumerates(q, m.Keys) && b == Pass(m, q);
    PassOverAll(m, p, q);
  }

  lemma TwoRelations(rules: Rules, ts: seq<Template>) returns (a: Relation, b: Relation)
    requires !Shallow(Recording(rules, ts))
    ensures CanCompute(rules, ts, a) && CanCompute(rules, ts, b) && a != b
  {
    var m := Recording(rules, ts);
    var f :| f in m && Chained(m, f);
    var p, q := TwoOrders(m, f);
    a, b := Pass(m, p), Pass(m, q);
    assert OnePass(m, a) && OnePass(m, b);
    DefaultIsOnePass(rules, ts, a);
    DefaultIsOnePass(rules, ts, b);
  }

  /**
    For any templates, the relation the default chain computes is the same for all iteration orders, if
    and only if nothing it records is chained.
   */
  lemma RelationIsDeterministic(rules: Rules, ts: seq<Template>)
    ensures (forall a, b | CanCompute(rules, ts, a) && CanCompute(rules, ts, b) :: a == b)
       <==> Shallow(Recording(rules, ts))
  {
    if Shallow(Recording(rules, ts)) {
      forall a, b | CanCompute(rules, ts, a) && CanCompute(rules, ts, b) ensures a == b {
        RelationsAgree(rules, ts, a, b);
      }
    } else {
      var a, b := TwoRelations(rules, ts);
    }
  }

  // ---- the ids the entries are given -------------------------------------

  /** Every entry that joined, joined one of the first n. */
  ghost predicate JoinedBelow(joined: seq<Option<nat>>, n: nat) {
    forall i | 0 <= i < |joined| && joined[i].Some? :: joined[i].value < n
  }

  lemma JoinedOneMore(joined: seq<Option<nat>>, o: Option<nat>, n: nat, m: nat)
    requires JoinedBelow(joined, n) && n <= m && (o.Some? ==> o.value < m)
    ensures JoinedBelow(joined + [o], m)
  {
  }

  lemma {:induction false} JoinedInRange(cfg: DrainConfig, rules: Rules, entries: seq<LogEntry>)
    requires cfg.maxClusters >= 1
    ensures JoinedBelow(Run(cfg, rules, entries).1, |Run(cfg, rules, entries).0.clusters|)
    decreases |entries|
  {
    if |entries| != 0 {
      var front, e := entries[..|entries| - 1], entries[|entries| - 1];
      var (was, joined) := Run(cfg, rules, front);
      var (next, o) := Add(cfg, rules, was, e);
      JoinedInRange(cfg, rules, front);
      ClustersOnlyGrow(cfg, rules, was, e);
      JoinedOneMore(joined, o, |was.clusters|, |next.clusters|);
    }
  }

  lemma NewClusterIsJoined(cfg: DrainConfig, rules: Rules, st: State, e: LogEntry, j: nat)
    requires cfg.maxClusters >= 1 && Shape(st) && |st.clusters| <= j < |Add(cfg, rules, st, e).0.clusters|
    ensures Add(cfg, rules, st, e).1 == Some(j)
  {
    var tokens := Tokenize(rules, e);
    var (grown, leaf) := Arrive(cfg, st, tokens);
    var placed := Place(cfg, grown.clusters, grown.tree.Attached(leaf), tokens);
    assert placed.0.Created?;
  }

  /** No cluster is without an entry. */
  lemma {:induction false} SomeEntryJoined(cfg: DrainConfig, rules: Rules, entries: seq<LogEntry>, j: nat)
    returns (i: nat)
    requires cfg.maxClusters >= 1 && j < |Run(cfg, rules, entries).0.clusters|
    ensures i < |entries| && Run(cfg, rules, entries).1[i] == Some(j)
    decreases |entries|
  {
    var n := |entries| - 1;
    var (was, joined) := Run(cfg, rules, entries[..n]);
    assert Run(cfg, rules, entries).1 == joined + [Add(cfg, rules, was, entries[n]).1];
    if j < |was.clusters| {
      i := SomeEntryJoined(cfg, rules, entries[..n], j);
    } else {
      i := n;
      NewClusterIsJoined(cfg, rules, was, entries[n], j);
    }
  }

  /** A remap gives an original id what its absorber, its survival and the fallback say. */
  lemma {:induction false} RemapGivesEach(before: seq<string>, live: set<string>, r: Relation, fallback: string,
        id: string)
    ensures Follow(Remap(before, live, r, fallback), id)
         == if id in before then Given(live, fallback, r, id) else id
  {
    if |before| != 0 {
      assert before == before[..|before| - 1] + [before[|before| - 1]];
      RemapGivesEach(before[..|before| - 1], live, r, fallback, id);
    }
  }

  /** The ids of entries that joined these templates, when the pass leaves the relation r. */
  function GivenIds(joined: seq<Option<nat>>, before: seq<Template>, live: set<string>, fallback: string, r: Relation)
    : (ids: seq<string>)
    requires JoinedBelow(joined, |before|)
    ensures |ids| == |joined|
  {
    seq(|joined|, i requires 0 <= i < |joined| =>
      if joined[i].None? then "" else Given(live, fallback, r, before[joined[i].value].id))
  }

  lemma FinalIdsAreGiven(joined: seq<Option<nat>>, before: seq<Template>, live: set<string>, fallback: string,
        r: Relation)
    requires JoinedBelow(joined, |before|)
    ensures FinalIds(joined, before, Remap(IdsOf(before), live, r, fallback))
         == GivenIds(joined, before, live, fallback, r)
  {
    forall i | 0 <= i < |joined| && joined[i].Some?
      ensures Follow(Remap(IdsOf(before), live, r, fallback), before[joined[i].value].id)
           == Given(live, fallback, r, before[joined[i].value].id)
    {
      RemapGivesEach(IdsOf(before), live, r, fallback, before[joined[i].value].id);
      assert IdsOf(before)[joined[i].value] == before[joined[i].value].id;
    }
  }

  /** The ids the entries are given when the consolidation pass leaves the relation r. */
  ghost function IdsFrom(cfg: DrainConfig, rules: Rules, entries: seq<LogEntry>, r: Relation): (ids: seq<string>)
    requires cfg.maxClusters >= 1
    ensures |ids| == |entries|
  {
    var before, after := Before(cfg, rules, entries), Survivors(cfg, rules, entries);
    JoinedInRange(cfg, rules, entries);
    GivenIds(Run(cfg, rules, entries).1, before, IdSet(after), FallbackOf(after), r)
  }

  /** The lists of ids that processing can return are those that some order of one pass gives. */
  ghost predicate CanGive(cfg: DrainConfig, rules: Rules, entries: seq<LogEntry>, ids: seq<string>)
    requires cfg.maxClusters >= 1
  {
    exists r :: OnePass(Recording(rules, Before(cfg, rules, entries)), r) && ids == IdsFrom(cfg, rules, entries, r)
  }

  lemma AttributesGive(cfg: DrainConfig, rules: Rules, entries: seq<LogEntry>, r: Relation, fallback: string,
        ids: seq<string>)
    requires cfg.maxClusters >= 1 && Attributes(cfg, rules, entries, r, fallback, ids)
    ensures OnePass(Recording(rules, Before(cfg, rules, entries)), r) && ids == IdsFrom(cfg, rules, entries, r)
  {
    var before, after := Before(cfg, rules, entries), Survivors(cfg, rules, entries);
    FallbackIsOrderFree(after, after, fallback, FallbackOf(after));
    DefaultIsOnePass(rules, before, r);
    JoinedInRange(cfg, rules, entries);
    FinalIdsAreGiven(Run(cfg, rules, entries).1, before, IdSet(after), fallback, r);
  }

  lemma OnePassAttributes(cfg: DrainConfig, rules: Rules, entries: seq<LogEntry>, r: Relation)
    requires cfg.maxClusters >= 1 && OnePass(Recording(rules, Before(cfg, rules, entries)), r)
    ensures Attributes(cfg, rules, entries, r, FallbackOf(Survivors(cfg, rules, entries)),
                       IdsFrom(cfg, rules, entries, r))
  {
    var before, after := Before(cfg, rules, entries), Survivors(cfg, rules, entries);
    DefaultIsOnePass(rules, before, r);
    JoinedInRange(cfg, rules, entries);
    FinalIdsAreGiven(Run(cfg, rules, entries).1, before, IdSet(after), FallbackOf(after), r);
  }

  lemma OnePassIsProcessed(cfg: DrainConfig, rules: Rules, entries: seq<LogEntry>, r: Relation)
    requires cfg.maxClusters >= 1 && OnePass(Recording(rules, Before(cfg, rules, entries)), r)
    ensures Processed(cfg, rules, entries, Survivors(cfg, rules, entries), IdsFrom(cfg, rules, entries, r))
  {
    OnePassAttributes(cfg, rules, entries, r);
  }

  /** Processing returns the survivors, and the ids that some order of one pass gives. */
  lemma ProcessedByOnePass(cfg: DrainConfig, rules: Rules, entries: seq<LogEntry>, after: seq<Template>,
        ids: seq<string>)
    requires cfg.maxClusters >= 1
    ensures Processed(cfg, rules, entries, after, ids)
       <==> after == Survivors(cfg, rules, entries) && CanGive(cfg, rules, entries, ids)
  {
    if Processed(cfg, rules, entries, after, ids) {
      var r, fallback :| Attributes(cfg, rules, entries, r, fallback, ids);
      AttributesGive(cfg, rules, entries, r, fallback, ids);
    }
    if CanGive(cfg, rules, entries, ids) {
      var r :| OnePass(Recording(rules, Before(cfg, rules, entries)), r) && ids == IdsFrom(cfg, rules, entries, r);
      OnePassAttributes(cfg, rules, entries, r);
    }
  }

  // ---- determinism, exactly ----------------------------------------------

  /**
    Each original id that was absorbed and did not survive lands on one template, however far along its
    chain of survivors the pass takes it: a condition on what the consolidators record and emit.
   */
  ghost predicate OneOutcome(cfg: DrainConfig, rules: Rules, entries: seq<LogEntry>)
    requires cfg.maxClusters >= 1
  {
    var before, after := Before(cfg, rules, entries), Survivors(cfg, rules, entries);
    Settled(Recording(rules, before), IdSet(after), FallbackOf(after), IdSet(before))
  }

  lemma SameGivenIds(joined: seq<Option<nat>>, before: seq<Template>, live: set<string>, fallback: string,
        r: Relation, r': Relation)
    requires JoinedBelow(joined, |before|)
    requires forall i | 0 <= i < |before| ::
      Given(live, fallback, r, before[i].id) == Given(live, fallback, r', before[i].id)
    ensures GivenIds(joined, before, live, fallback, r) == GivenIds(joined, before, live, fallback, r')
  {
  }

  lemma SettledGivesEach(m: Relation, live: set<string>, fallback: string, dead: string, before: seq<Template>,
        a: seq<string>, b: seq<string>)
    requires LiveBut(m, live, dead) && Settled(m, live, fallback, IdSet(before))
    requires Enumerates(a, m.Keys) && Enumerates(b, m.Keys)
    ensures forall i | 0 <= i < |before| ::
      Given(live, fallback, Pass(m, a), before[i].id) == Given(live, fallback, Pass(m, b), before[i].id)
  {
    forall i | 0 <= i < |before|
      ensures Given(live, fallback, Pass(m, a), before[i].id) == Given(live, fallback, Pass(m, b), before[i].id)
    {
      assert before[i] in before;
      if before[i].id !in live && before[i].id in m {
        SettledIsGivenOne(m, live, fallback, dead, before[i].id, a, b);
      }
    }
  }

  lemma SettledGivesOne(cfg: DrainConfig, rules: Rules, entries: seq<LogEntry>, m: Relation, a: seq<string>,
        b: seq<string>)
    requires cfg.maxClusters >= 1 && OneOutcome(cfg, rules, entries)
    requires m == Recording(rules, Before(cfg, rules, entries)) && Enumerates(a, m.Keys) && Enumerates(b, m.Keys)
    ensures IdsFrom(cfg, rules, entries, Pass(m, a)) == IdsFrom(cfg, rules, entries, Pass(m, b))
  {
    var before, after := Before(cfg, rules, entries), Survivors(cfg, rules, entries);
    RecordingIsLive(rules, before);
    SettledGivesEach(m, IdSet(after), FallbackOf(after), rules.templateHash(GO_PATTERN), before, a, b);
    JoinedInRange(cfg, rules, entries);
    SameGivenIds(Run(cfg, rules, entries).1, before, IdSet(after), FallbackOf(after), Pass(m, a), Pass(m, b));
  }

  lemma ResultsAgree(cfg: DrainConfig, rules: Rules, entries: seq<LogEntry>,
        after: seq<Template>, ids: seq<string>, after': seq<Template>, ids': seq<string>)
    requires cfg.maxClusters >= 1 && OneOutcome(cfg, rules, entries)
    requires Processed(cfg, rules, entries, after, ids) && Processed(cfg, rules, entries, after', ids')
    ensures after == after' && ids == ids'
  {
    var m := Recording(rules, Before(cfg, rules, entries));
    ProcessedByOnePass(cfg, rules, entries, after, ids);
    ProcessedByOnePass(cfg, rules, entries, after', ids');
    var r :| OnePass(m, r) && ids == IdsFrom(cfg, rules, entries, r);
    var r' :| OnePass(m, r') && ids' == IdsFrom(cfg, rules, entries, r');
    var a :| Enumerates(a, m.Keys) && r == Pass(m, a);
    var b :| Enumerates(b, m.Keys) && r' == Pass(m, b);
    SettledGivesOne(cfg, rules, entries, m, a, b);
  }

  /** Wherever the lists differ, the first says p and the second q. */
  ghost predicate OneWay(ids: seq<string>, ids': seq<string>, p: string, q: string) {
    |ids| == |ids'| && forall k | 0 <= k < |ids| :: ids[k] == ids'[k] || (ids[k] == p && ids'[k] == q)
  }

  /** What two relations that differ in one way give an id. */
  lemma GivenDiffer(live: set<string>, fallback: string, a: Relation, b: Relation, u: string, v: string, id: string)
    requires Differ(a, b, u, v) && fallback != ""
    ensures var p, q := Land(live, fallback, "", u), Land(live, fallback, "", v);
      var x, y := Given(live, fallback, a, id), Given(live, fallback, b, id);
      x == y || (x == p && y == q)
  {
  }

  lemma GivenIdsDiffer(joined: seq<Option<nat>>, before: seq<Template>, live: set<string>, fallback: string,
        a: Relation, b: Relation, u: string, v: string)
    requires JoinedBelow(joined, |before|) && Differ(a, b, u, v) && fallback != ""
    ensures OneWay(GivenIds(joined, before, live, fallback, a), GivenIds(joined, before, live, fallback, b),
                   Land(live, fallback, "", u), Land(live, fallback, "", v))
  {
    forall i | 0 <= i < |joined| && joined[i].Some?
      ensures var x, y := Given(live, fallback, a, before[joined[i].value].id),
        Given(live, fallback, b, before[joined[i].value].id);
        x == y || (x == Land(live, fallback, "", u) && y == Land(live, fallback, "", v))
    {
      GivenDiffer(live, fallback, a, b, u, v, before[joined[i].value].id);
    }
  }

  lemma GivenIdsAt(joined: seq<Option<nat>>, before: seq<Template>, live: set<string>, fallback: string,
        a: Relation, b: Relation, i: nat, j: nat)
    requires JoinedBelow(joined, |before|) && i < |joined| && joined[i] == Some(j) && j < |before|
    requires var id := before[j].id;
      && id !in live && id in a && id in b
      && Land(live, fallback, id, a[id]) != Land(live, fallback, id, b[id])
    ensures GivenIds(joined, before, live, fallback, a)[i] != GivenIds(joined, before, live, fallback, b)[i]
  {
  }

  lemma SomeEntryCarries(cfg: DrainConfig, rules: Rules, entries: seq<LogEntry>, id: string) returns (i: nat, j: nat)
    requires cfg.maxClusters >= 1 && id in IdSet(Before(cfg, rules, entries))
    ensures i < |entries| && j < |Before(cfg, rules, entries)|
    ensures Before(cfg, rules, entries)[j].id == id && Run(cfg, rules, entries).1[i] == Some(j)
  {
    var before := Before(cfg, rules, entries);
    var t :| t in before && t.id == id;
    j :| 0 <= j < |before| && before[j] == t;
    i := SomeEntryJoined(cfg, rules, entries, j);
  }

  /** The id is absorbed, and the orders send it to more than one template. */
  ghost predicate Unsettled(cfg: DrainConfig, rules: Rules, entries: seq<LogEntry>, id: string)
    requires cfg.maxClusters >= 1
  {
    var before, after := Before(cfg, rules, entries), Survivors(cfg, rules, entries);
    var m := Recording(rules, before);
    && id in IdSet(before) && id !in IdSet(after) && id in m
    && !LandsOnce(m, IdSet(after), FallbackOf(after), id)
  }

  /** Two orders that give some entry different ids. */
  lemma UnsettledGivesTwo(cfg: DrainConfig, rules: Rules, entries: seq<LogEntry>, id: string)
    returns (a: Relation, b: Relation, u: string, v: string, i: nat)
    requires cfg.maxClusters >= 1 && Unsettled(cfg, rules, entries, id)
    ensures var m := Recording(rules, Before(cfg, rules, entries)); OnePass(m, a) && OnePass(m, b)
    ensures Differ(a, b, u, v) && i < |entries|
    ensures IdsFrom(cfg, rules, entries, a)[i] != IdsFrom(cfg, rules, entries, b)[i]
  {
    var after := Survivors(cfg, rules, entries);
    var m := Recording(rules, Before(cfg, rules, entries));
    var p, q;
    p, q, u, v := UnsettledIsGivenTwo(m, IdSet(after), FallbackOf(after), id);
    a, b := Pass(m, p), Pass(m, q);
    var j;
    i, j := SomeEntryCarries(cfg, rules, entries, id);
    JoinedInRange(cfg, rules, entries);
    GivenIdsAt(Run(cfg, rules, entries).1, Before(cfg, rules, entries), IdSet(after), FallbackOf(after), a, b, i, j);
  }

  /** Processing can give some entry two ids. */
  ghost predicate Diverges(cfg: DrainConfig, rules: Rules, entries: seq<LogEntry>, ids: seq<string>,
        ids': seq<string>, i: nat)
    requires cfg.maxClusters >= 1
  {
    && Processed(cfg, rules, entries, Survivors(cfg, rules, entries), ids)
    && Processed(cfg, rules, entries, Survivors(cfg, rules, entries), ids')
    && |ids| == |ids'| == |entries| && i < |entries| && ids[i] != ids'[i]
  }

  lemma SomeIdIsUnsettled(cfg: DrainConfig, rules: Rules, entries: seq<LogEntry>) returns (id: string)
    requires cfg.maxClusters >= 1 && !OneOutcome(cfg, rules, entries)
    ensures Unsettled(cfg, rules, entries, id)
  {
    var before, after := Before(cfg, rules, entries), Survivors(cfg, rules, entries);
    var m, live, fallback := Recording(rules, before), IdSet(after), FallbackOf(after);
    id :| id in IdSet(before) && id !in live && id in m && !LandsOnce(m, live, fallback, id);
  }

  lemma IdsDifferOneWay(cfg: DrainConfig, rules: Rules, entries: seq<LogEntry>, a: Relation, b: Relation,
        u: string, v: string)
    requires cfg.maxClusters >= 1 && Differ(a, b, u, v) && FallbackOf(Survivors(cfg, rules, entries)) != ""
    ensures var live, fallback := IdSet(Survivors(cfg, rules, entries)), FallbackOf(Survivors(cfg, rules, entries));
      OneWay(IdsFrom(cfg, rules, entries, a), IdsFrom(cfg, rules, entries, b),
             Land(live, fallback, "", u), Land(live, fallback, "", v))
  {
    var after := Survivors(cfg, rules, entries);
    JoinedInRange(cfg, rules, entries);
    GivenIdsDiffer(Run(cfg, rules, entries).1, Before(cfg, rules, entries), IdSet(after), FallbackOf(after), a, b, u,
      v);
  }

  lemma OneWayAt(ids: seq<string>, ids': seq<string>, p: string, q: string, i: nat)
    requires OneWay(ids, ids', p, q) && i < |ids| && ids[i] != ids'[i]
    ensures OneWay(ids, ids', ids[i], ids'[i])
  {
  }

  /** ... and wherever the two lists differ, they differ in the same way. */
  lemma TwoOutcomes(cfg: DrainConfig, rules: Rules, entries: seq<LogEntry>)
    returns (ids: seq<string>, ids': seq<string>, i: nat)
    requires cfg.maxClusters >= 1 && !OneOutcome(cfg, rules, entries)
    ensures Diverges(cfg, rules, entries, ids, ids', i)
    ensures FallbackOf(Survivors(cfg, rules, entries)) != "" ==> OneWay(ids, ids', ids[i], ids'[i])
  {
    var id := SomeIdIsUnsettled(cfg, rules, entries);
    var a, b, u, v;
    a, b, u, v, i := UnsettledGivesTwo(cfg, rules, entries, id);
    ids, ids' := IdsFrom(cfg, rules, entries, a), IdsFrom(cfg, rules, entries, b);
    OnePassIsProcessed(cfg, rules, entries, a);
    OnePassIsProcessed(cfg, rules, entries, b);
    var after := Survivors(cfg, rules, entries);
    var live, fallback := IdSet(after), FallbackOf(after);
    if fallback != "" {
      IdsDifferOneWay(cfg, rules, entries, a, b, u, v);
      OneWayAt(ids, ids', Land(live, fallback, "", u), Land(live, fallback, "", v), i);
    }
  }

  /** Two results of processing are the same. */
  ghost predicate AlwaysTheSame(cfg: DrainConfig, rules: Rules, entries: seq<LogEntry>)
    requires cfg.maxClusters >= 1
  {
    forall after, ids, after', ids' | Processed(cfg, rules, entries, after, ids)
      && Processed(cfg, rules, entries, after', ids')
      :: after == after' && ids == ids'
  }

  /**
    Determinism: survivors and per-entry ids are the same for all map iteration orders, if and only if
    every absorbed id that did not survive lands on one template. Nothing is asked of the hash, of the
    clusters or of the merges.
   */
  lemma ProcessingIsDeterministic(cfg: DrainConfig, rules: Rules, entries: seq<LogEntry>)
    requires cfg.maxClusters >= 1
    ensures AlwaysTheSame(cfg, rules, entries) <==> OneOutcome(cfg, rules, entries)
  {
    if OneOutcome(cfg, rules, entries) {
      forall after, ids, after', ids' | Processed(cfg, rules, entries, after, ids)
        && Processed(cfg, rules, entries, after', ids')
        ensures after == after' && ids == ids'
      {
        ResultsAgree(cfg, rules, entries, after, ids, after', ids');
      }
    } else {
      var ids, ids', i := TwoOutcomes(cfg, rules, entries);
    }
  }

  /** A run whose merges are fresh has one outcome, and so has every run that is undisturbed. */
  lemma UndisturbedHasOneOutcome(cfg: DrainConfig, rules: Rules, entries: seq<LogEntry>)
    requires Undisturbed(cfg, rules, entries)
    ensures OneOutcome(cfg, rules, entries)
  {
    var before := Before(cfg, rules, entries);
    BeforeIsDistinct(cfg, rules, entries);
    forall a, b | CanCompute(rules, before, a) && CanCompute(rules, before, b) ensures a == b {
      FreshIsExact(rules, before, a);
      FreshIsExact(rules, before, b);
    }
    RelationIsDeterministic(rules, before);
  }
}
