/** Aggregate exactness: what a surviving template's range and severity say about the entries attributed to it. */
module Ranges {

  import opened Wrappers
  import opened Model
  import opened Sorting
  import opened Drain
  import opened DrainTheorems
  import opened Consolidation
  import opened ConsolidationTheorems
  import opened Absorptions
  import opened Attribution
  import opened Pipeline

  /** A template's severity, raised to what it passed through on the route. */
  function RaisedIndex(t: Template, r: Route): nat {
    Max(SeverityIndex(t.severity), Lead(r, t.id).floor)
  }

  /** The summary's range and severity are attained by, and bound, the templates it selects. */
  ghost predicate Bounds(ts: seq<Template>, r: Route, x: string, s: Aggregate) {
    && (s.Nothing? ==> forall t | t in ts :: Lead(r, t.id).id != x)
    && (s.Aggregate? ==>
          && (forall t | t in ts && Lead(r, t.id).id == x ::
                s.first <= t.firstSeen && t.lastSeen <= s.last && RaisedIndex(t, r) <= s.severity)
          && (exists t :: t in ts && Lead(r, t.id).id == x && t.firstSeen == s.first)
          && (exists t :: t in ts && Lead(r, t.id).id == x && t.lastSeen == s.last)
          && (exists t :: t in ts && Lead(r, t.id).id == x && RaisedIndex(t, r) == s.severity))
  }

  lemma {:induction false} SummaryBounds(ts: seq<Template>, r: Route, x: string)
    ensures Bounds(ts, r, x, Summary(ts, r, x))
  {
    if |ts| != 0 {
      var front, t := ts[..|ts| - 1], ts[|ts| - 1];
      SummaryBounds(front, r, x);
      BoundsStep(front, t, r, x, Summary(front, r, x));
      assert ts == front + [t];
    }
  }

  lemma BoundsStep(front: seq<Template>, t: Template, r: Route, x: string, s: Aggregate)
    requires Bounds(front, r, x, s)
    ensures Bounds(front + [t], r, x,
      if Lead(r, t.id).id == x then Combine(s, Raise(Of(t), Lead(r, t.id).floor)) else s)
  {
    var ts := front + [t];
    assert forall u :: u in ts <==> u in front || u == t;
    if s.Aggregate? {
      var a :| a in front && Lead(r, a.id).id == x && a.firstSeen == s.first;
      var b :| b in front && Lead(r, b.id).id == x && b.lastSeen == s.last;
      var c :| c in front && Lead(r, c.id).id == x && RaisedIndex(c, r) == s.severity;
      assert a in ts && b in ts && c in ts;
    }
    assert t in ts;
  }

  /** The entries assigned to a cluster are the positions that report it. */
  lemma {:induction false} JoinedAt(entries: seq<LogEntry>, joined: seq<Option<nat>>, j: nat, e: LogEntry)
    requires |entries| == |joined|
    ensures e in Joined(entries, joined, j)
      <==> exists k :: 0 <= k < |entries| && entries[k] == e && joined[k] == Some(j)
  {
    if |entries| != 0 {
      var n := |entries| - 1;
      JoinedAt(entries[..n], joined[..n], j, e);
      if e in Joined(entries[..n], joined[..n], j) {
        var k :| 0 <= k < n && entries[..n][k] == e && joined[..n][k] == Some(j);
        assert entries[k] == e && joined[k] == Some(j);
      }
      if k :| 0 <= k < |entries| && entries[k] == e && joined[k] == Some(j) {
        if k < n {
          assert entries[..n][k] == e && joined[..n][k] == Some(j);
        }
      }
    }
  }

  /** A member of cluster j is an entry that joined it, and the other way round. */
  lemma MembersJoined(cfg: DrainConfig, rules: Rules, entries: seq<LogEntry>, j: nat, e: LogEntry)
    requires cfg.maxClusters >= 1
    requires j < |Run(cfg, rules, entries).0.clusters|
    ensures var (st, joined) := Run(cfg, rules, entries);
      (exists m :: m in st.clusters[j].members && m.entry == e)
      <==> exists k :: 0 <= k < |entries| && entries[k] == e && joined[k] == Some(j)
  {
    var (st, joined) := Run(cfg, rules, entries);
    MembersAreTheJoined(cfg, rules, entries, j);
    JoinedAt(entries, joined, j, e);
    var ms := st.clusters[j].members;
    if m :| m in ms && m.entry == e {
      var i :| 0 <= i < |ms| && ms[i] == m;
      assert EntriesOf(ms)[i] == e;
    }
    if e in EntriesOf(ms) {
      var i :| 0 <= i < |ms| && EntriesOf(ms)[i] == e;
      assert ms[i] in ms;
    }
  }

  /** Every entry carries a time and one of the canonical levels. */
  ghost predicate WellFormed(entries: seq<LogEntry>) {
    forall e | e in entries :: e.timestamp != ZERO_TIME && Canonical(e.severity)
  }

  /** What an entry adds to a severity: its own level, or the floor of the merges it went through. */
  function LevelOf(e: LogEntry, floor: nat): nat {
    Max(SeverityIndex(e.severity), floor)
  }

  /**
    t's range is the attained minimum and maximum over the entries marked x, and its severity the
    attained maximum of their levels.
   */
  ghost predicate Exact<T>(t: Template, entries: seq<LogEntry>, floors: seq<nat>, marks: seq<T>, x: T)
    requires |marks| == |entries| == |floors|
  {
    && (forall k | 0 <= k < |entries| && marks[k] == x :: Within(t, entries[k], floors[k]))
    && (exists k :: 0 <= k < |entries| && marks[k] == x && entries[k].timestamp == t.firstSeen)
    && (exists k :: 0 <= k < |entries| && marks[k] == x && entries[k].timestamp == t.lastSeen)
    && (exists k :: 0 <= k < |entries| && marks[k] == x && LevelOf(entries[k], floors[k]) == SeverityIndex(t.severity))
  }

  predicate Within(t: Template, e: LogEntry, floor: nat) {
    t.firstSeen <= e.timestamp <= t.lastSeen && LevelOf(e, floor) <= SeverityIndex(t.severity)
  }

  function NoFloors(n: nat): (floors: seq<nat>)
    ensures |floors| == n && forall k | 0 <= k < n :: floors[k] == 0
  {
    seq(n, k => 0)
  }

  /** A cluster's severity is one of its entries', so it is canonical. */
  lemma ClusterIsCanonical(cfg: DrainConfig, rules: Rules, entries: seq<LogEntry>, j: nat)
    requires Sane(cfg) && WellFormed(entries) && j < |Run(cfg, rules, entries).0.clusters|
    ensures Canonical(Run(cfg, rules, entries).0.clusters[j].template.severity)
  {
    var c := Run(cfg, rules, entries).0.clusters[j];
    ClustersAreFaithful(cfg, rules, entries, j);
    var top :| top in c.members && top.entry.severity == c.template.severity;
    MembersJoined(cfg, rules, entries, j, top.entry);
  }

  lemma FaithfulMember(rules: Rules, c: Cluster, m: Member)
    requires Faithful(rules, c) && m in c.members && m.entry.timestamp != ZERO_TIME
    ensures c.template.firstSeen <= m.entry.timestamp <= c.template.lastSeen
    ensures SeverityRank(m.entry.severity) <= SeverityRank(c.template.severity)
  {
  }

  lemma MemberIsWithin(cfg: DrainConfig, rules: Rules, entries: seq<LogEntry>, j: nat, e: LogEntry)
    requires Sane(cfg) && WellFormed(entries) && j < |Run(cfg, rules, entries).0.clusters|
    requires exists m :: m in Run(cfg, rules, entries).0.clusters[j].members && m.entry == e
    requires e in entries
    ensures Within(Run(cfg, rules, entries).0.clusters[j].template, e, 0)
  {
    var c := Run(cfg, rules, entries).0.clusters[j];
    ClustersAreFaithful(cfg, rules, entries, j);
    var m :| m in c.members && m.entry == e;
    FaithfulMember(rules, c, m);
    ClusterIsCanonical(cfg, rules, entries, j);
    ScalesAgree(e.severity, c.template.severity);
  }

  lemma ClusterIsExact(cfg: DrainConfig, rules: Rules, entries: seq<LogEntry>, j: nat)
    requires Sane(cfg) && WellFormed(entries) && j < |Run(cfg, rules, entries).0.clusters|
    ensures var (st, joined) := Run(cfg, rules, entries);
      Exact(st.clusters[j].template, entries, NoFloors(|entries|), joined, Some(j))
  {
    var (st, joined) := Run(cfg, rules, entries);
    var c := st.clusters[j];
    forall k | 0 <= k < |entries| && joined[k] == Some(j) ensures Within(c.template, entries[k], 0) {
      MembersJoined(cfg, rules, entries, j, entries[k]);
      MemberIsWithin(cfg, rules, entries, j, entries[k]);
    }
    ClustersAreFaithful(cfg, rules, entries, j);
    var first :| first in c.members && first.entry.timestamp == c.template.firstSeen;
    MembersJoined(cfg, rules, entries, j, first.entry);
    var last :| last in c.members && last.entry.timestamp == c.template.lastSeen;
    MembersJoined(cfg, rules, entries, j, last.entry);
    var top :| top in c.members && top.entry.severity == c.template.severity;
    MembersJoined(cfg, rules, entries, j, top.entry);
  }

  ghost predicate AllExact(before: seq<Template>, entries: seq<LogEntry>, joined: seq<Option<nat>>)
    requires |joined| == |entries|
  {
    forall j | 0 <= j < |before| :: Exact(before[j], entries, NoFloors(|entries|), joined, Some(j))
  }

  lemma BeforeIsExact(cfg: DrainConfig, rules: Rules, entries: seq<LogEntry>)
    requires Sane(cfg) && WellFormed(entries)
    ensures AllExact(Before(cfg, rules, entries), entries, Run(cfg, rules, entries).1)
  {
    var before, joined := Before(cfg, rules, entries), Run(cfg, rules, entries).1;
    forall j | 0 <= j < |before| ensures Exact(before[j], entries, NoFloors(|entries|), joined, Some(j)) {
      ClusterIsExact(cfg, rules, entries, j);
    }
  }

  /** Each entry's final id is where r leads the template it joined; empty when it joined none. */
  ghost predicate LedBy(before: seq<Template>, joined: seq<Option<nat>>, ids: seq<string>, floors: seq<nat>, r: Route)
    requires |joined| == |ids| == |floors|
  {
    forall k | 0 <= k < |joined| ::
      if joined[k].None? then ids[k] == ""
      else joined[k].value < |before| && Stop(ids[k], floors[k]) == Lead(r, before[joined[k].value].id)
  }

  /** The severity floor of each entry: what the merges of the template it joined start from. */
  function FloorsOf(rules: Rules, before: seq<Template>, joined: seq<Option<nat>>): (floors: seq<nat>)
    ensures |floors| == |joined|
  {
    seq(|joined|, k requires 0 <= k < |joined| =>
      if joined[k].Some? && joined[k].value < |before| then
        FloorOf(rules, DEFAULT_FAMILIES, before, before[joined[k].value].id) else 0)
  }

  lemma EntriesAreLedByRoute(cfg: DrainConfig, rules: Rules, entries: seq<LogEntry>, absorbedBy: Relation,
        fallback: string, ids: seq<string>)
    requires Undisturbed(cfg, rules, entries) && Attributes(cfg, rules, entries, absorbedBy, fallback, ids)
    ensures var before, joined := Before(cfg, rules, entries), Run(cfg, rules, entries).1;
      |ids| == |entries| && LedBy(before, joined, ids, FloorsOf(rules, before, joined), DefaultRoute(rules, before))
  {
    var before, joined := Before(cfg, rules, entries), Run(cfg, rules, entries).1;
    var floors := FloorsOf(rules, before, joined);
    forall k | 0 <= k < |joined| && joined[k].Some?
      ensures Stop(ids[k], floors[k]) == Lead(DefaultRoute(rules, before), before[joined[k].value].id)
    {
      var t := before[joined[k].value];
      IdsAreTrue(cfg, rules, entries, absorbedBy, fallback, ids, t);
      RouteIsTruth(rules, DEFAULT_FAMILIES, before, map[], t.id);
    }
  }

  /** An entry's part in its cluster is its part in the survivor its cluster leads to. */
  lemma WithinSurvivor(t: Template, c: Template, s: Aggregate, e: LogEntry, floor: nat)
    requires Within(c, e, 0) && Of(t) == s
    requires s.first <= c.firstSeen && c.lastSeen <= s.last && Max(SeverityIndex(c.severity), floor) <= s.severity
    ensures Within(t, e, floor)
  {
  }

  /** Ranges and severities that are exact per cluster are exact per final id. */
  lemma RangesCompose(before: seq<Template>, entries: seq<LogEntry>, joined: seq<Option<nat>>, ids: seq<string>,
        floors: seq<nat>, r: Route, t: Template, s: Aggregate)
    requires |joined| == |entries| == |ids| == |floors| && t.id != ""
    requires LedBy(before, joined, ids, floors, r) && AllExact(before, entries, joined)
    requires Bounds(before, r, t.id, s) && Of(t) == s
    ensures Exact(t, entries, floors, ids, t.id)
  {
    var none := NoFloors(|entries|);
    forall k | 0 <= k < |entries| && ids[k] == t.id ensures Within(t, entries[k], floors[k]) {
      var c := before[joined[k].value];
      assert Exact(c, entries, none, joined, joined[k]) && c in before;
      assert Within(c, entries[k], none[k]);
      WithinSurvivor(t, c, s, entries[k], floors[k]);
    }
    FirstIsAttained(before, entries, joined, ids, floors, r, t, s);
    LastIsAttained(before, entries, joined, ids, floors, r, t, s);
    SeverityIsAttained(before, entries, joined, ids, floors, r, t, s);
  }

  /** An entry that joined a template is marked with where the template's id leads, under its floor. */
  lemma JoinedIsLed(before: seq<Template>, joined: seq<Option<nat>>, ids: seq<string>, floors: seq<nat>, r: Route,
        k: nat, j: nat)
    requires |joined| == |ids| == |floors| && LedBy(before, joined, ids, floors, r)
    requires k < |joined| && joined[k] == Some(j)
    ensures j < |before| && Stop(ids[k], floors[k]) == Lead(r, before[j].id)
  {
  }

  lemma FirstIsAttained(before: seq<Template>, entries: seq<LogEntry>, joined: seq<Option<nat>>, ids: seq<string>,
        floors: seq<nat>, r: Route, t: Template, s: Aggregate)
    requires |joined| == |entries| == |ids| == |floors|
    requires LedBy(before, joined, ids, floors, r) && AllExact(before, entries, joined)
    requires Bounds(before, r, t.id, s) && Of(t) == s
    ensures exists k :: 0 <= k < |entries| && ids[k] == t.id && entries[k].timestamp == t.firstSeen
  {
    var a :| a in before && Lead(r, a.id).id == t.id && a.firstSeen == s.first;
    var j :| 0 <= j < |before| && before[j] == a;
    var k := FirstOf(before, entries, joined, j);
    JoinedIsLed(before, joined, ids, floors, r, k, j);
  }

  lemma LastIsAttained(before: seq<Template>, entries: seq<LogEntry>, joined: seq<Option<nat>>, ids: seq<string>,
        floors: seq<nat>, r: Route, t: Template, s: Aggregate)
    requires |joined| == |entries| == |ids| == |floors|
    requires LedBy(before, joined, ids, floors, r) && AllExact(before, entries, joined)
    requires Bounds(before, r, t.id, s) && Of(t) == s
    ensures exists k :: 0 <= k < |entries| && ids[k] == t.id && entries[k].timestamp == t.lastSeen
  {
    var b :| b in before && Lead(r, b.id).id == t.id && b.lastSeen == s.last;
    var j :| 0 <= j < |before| && before[j] == b;
    var k := LastOf(before, entries, joined, j);
    JoinedIsLed(before, joined, ids, floors, r, k, j);
  }

  lemma SeverityIsAttained(before: seq<Template>, entries: seq<LogEntry>, joined: seq<Option<nat>>, ids: seq<string>,
        floors: seq<nat>, r: Route, t: Template, s: Aggregate)
    requires |joined| == |entries| == |ids| == |floors|
    requires LedBy(before, joined, ids, floors, r) && AllExact(before, entries, joined)
    requires Bounds(before, r, t.id, s) && Of(t) == s
    ensures exists k ::
      0 <= k < |entries| && ids[k] == t.id && LevelOf(entries[k], floors[k]) == SeverityIndex(t.severity)
  {
    var c :| c in before && Lead(r, c.id).id == t.id && RaisedIndex(c, r) == s.severity;
    var j :| 0 <= j < |before| && before[j] == c;
    var k := TopOf(before, entries, joined, j);
    JoinedIsLed(before, joined, ids, floors, r, k, j);
  }

  // The entries at which an exact template's bounds are attained.

  lemma FirstOf(before: seq<Template>, entries: seq<LogEntry>, joined: seq<Option<nat>>, j: nat) returns (k: nat)
    requires |joined| == |entries| && AllExact(before, entries, joined) && j < |before|
    ensures k < |entries| && joined[k] == Some(j) && entries[k].timestamp == before[j].firstSeen
  {
    assert Exact(before[j], entries, NoFloors(|entries|), joined, Some(j));
    k :| 0 <= k < |entries| && joined[k] == Some(j) && entries[k].timestamp == before[j].firstSeen;
  }

  lemma LastOf(before: seq<Template>, entries: seq<LogEntry>, joined: seq<Option<nat>>, j: nat) returns (k: nat)
    requires |joined| == |entries| && AllExact(before, entries, joined) && j < |before|
    ensures k < |entries| && joined[k] == Some(j) && entries[k].timestamp == before[j].lastSeen
  {
    assert Exact(before[j], entries, NoFloors(|entries|), joined, Some(j));
    k :| 0 <= k < |entries| && joined[k] == Some(j) && entries[k].timestamp == before[j].lastSeen;
  }

  lemma TopOf(before: seq<Template>, entries: seq<LogEntry>, joined: seq<Option<nat>>, j: nat) returns (k: nat)
    requires |joined| == |entries| && AllExact(before, entries, joined) && j < |before|
    ensures k < |entries| && joined[k] == Some(j)
      && SeverityIndex(entries[k].severity) == SeverityIndex(before[j].severity)
  {
    var none := NoFloors(|entries|);
    assert Exact(before[j], entries, none, joined, Some(j));
    k :| 0 <= k < |entries| && joined[k] == Some(j)
      && LevelOf(entries[k], none[k]) == SeverityIndex(before[j].severity);
  }

  /**
    Aggregate exactness end to end: undisturbed, every survivor's range is the attained minimum and
    maximum over the entries finally attributed to it, and its severity the attained maximum of their
    levels and of what their merges start from. Where nothing was merged, that is the entries' maximum.
   */
  lemma RangesAreExact(cfg: DrainConfig, rules: Rules, entries: seq<LogEntry>, after: seq<Template>, ids: seq<string>,
        i: nat)
    requires Undisturbed(cfg, rules, entries) && HashNonEmpty(rules) && WellFormed(entries)
    requires Processed(cfg, rules, entries, after, ids) && i < |after|
    ensures |ids| == |entries|
    ensures Exact(after[i], entries, FloorsOf(rules, Before(cfg, rules, entries), Run(cfg, rules, entries).1), ids,
      after[i].id)
  {
    var before, joined := Before(cfg, rules, entries), Run(cfg, rules, entries).1;
    var absorbedBy, fallback :| Attributes(cfg, rules, entries, absorbedBy, fallback, ids);
    var r := DefaultRoute(rules, before);
    SurvivorIdNonEmpty(cfg, rules, entries, after[i]);
    SurvivorIsExact(cfg, rules, entries, i);
    SummaryBounds(before, r, after[i].id);
    EntriesAreLedByRoute(cfg, rules, entries, absorbedBy, fallback, ids);
    BeforeIsExact(cfg, rules, entries);
    RangesCompose(before, entries, joined, ids, FloorsOf(rules, before, joined), r, after[i],
      Summary(before, r, after[i].id));
  }

  // ---- what the correlation detector would refuse ------------------------

  /** No range ends before it starts. */
  predicate AllRanged(ts: seq<Template>) {
    forall t | t in ts :: t.firstSeen <= t.lastSeen
  }

  lemma {:induction false} MergedUpToRanged(rules: Rules, family: Family, group: seq<Template>, n: nat)
    requires 0 < |group| && n <= |group| && AllRanged(group)
    ensures var m := MergedUpTo(rules, family, group, n); m.firstSeen <= m.lastSeen
  {
    if n == 0 {
      assert group[0] in group;
    } else {
      MergedUpToRanged(rules, family, group, n - 1);
    }
  }

  lemma {:induction false} DedupeRanged(rules: Rules, ts: seq<Template>)
    requires AllRanged(ts)
    ensures AllRanged(Dedupe(rules, ts))
  {
    if |ts| != 0 {
      DedupeRanged(rules, ts[..|ts| - 1]);
      var kept, t := Dedupe(rules, ts[..|ts| - 1]), ts[|ts| - 1];
      forall u | u in FoldIn(rules, kept, t) ensures u.firstSeen <= u.lastSeen {
        var at := Find(kept, t.id);
        if at.Some? {
          assert kept[at.value] in kept;
        }
      }
    }
  }

  lemma {:induction false} MergeGroupsRanged(rules: Rules, family: Family, normal: seq<Template>,
        groups: seq<seq<Template>>)
    requires forall i | 0 <= i < |groups| :: |groups[i]| != 0
    requires AllRanged(normal + Flatten(groups))
    ensures AllRanged(MergeGroups(rules, family, normal, groups).templates)
  {
    if |groups| == 0 {
      assert normal + Flatten(groups) == normal;
    } else {
      var front, group := groups[..|groups| - 1], groups[|groups| - 1];
      assert normal + Flatten(groups) == (normal + Flatten(front)) + group;
      MergeGroupsRanged(rules, family, normal, front);
      MergedUpToRanged(rules, family, group, |group|);
    }
  }

  lemma ConsolidateRanged(rules: Rules, family: Family, ts: seq<Template>)
    requires AllRanged(ts)
    ensures AllRanged(Consolidate(rules, family, ts).templates)
  {
    if !TooFew(rules, family, ts) {
      var normal, candidates := Select(rules, family, ts, Normal), Candidates(rules, family, ts);
      var sorted := SortStable(candidates, LastSeenOf);
      GroupsFlatten(sorted, Window(family));
      PartitionMultiset(rules, family, ts);
      SortStableCorrect(candidates, LastSeenOf);
      forall t: Template | t in normal + sorted ensures t.firstSeen <= t.lastSeen {
        assert t in multiset(normal) || t in multiset(sorted);
        assert t in multiset(ts);
      }
      MergeGroupsRanged(rules, family, normal, Groups(rules, family, ts));
      DedupeRanged(rules, MergeGroups(rules, family, normal, Groups(rules, family, ts)).templates);
    }
  }

  lemma {:induction false} ChainRanged(rules: Rules, families: seq<Family>, ts: seq<Template>)
    requires AllRanged(ts)
    ensures AllRanged(After(rules, families, ts))
    decreases |families|
  {
    if |families| != 0 {
      ChainRanged(rules, families[..|families| - 1], ts);
      ConsolidateRanged(rules, families[|families| - 1], After(rules, families[..|families| - 1], ts));
    }
  }

  /**
    Whatever the entries, zero timestamps and overflow included, every emitted template has an id and a
    range that does not end before it starts.
   */
  lemma TemplatesAreWellFormed(cfg: DrainConfig, rules: Rules, entries: seq<LogEntry>, t: Template)
    requires Sane(cfg) && HashNonEmpty(rules) && t in Survivors(cfg, rules, entries)
    ensures t.id != "" && t.firstSeen <= t.lastSeen
  {
    var before := Before(cfg, rules, entries);
    SurvivorIdNonEmpty(cfg, rules, entries, t);
    forall u | u in before ensures u.firstSeen <= u.lastSeen {
      var j :| 0 <= j < |before| && before[j] == u;
      ClustersAreFaithful(cfg, rules, entries, j);
      assert Timed(Run(cfg, rules, entries).0.clusters[j]);
    }
    ChainRanged(rules, DEFAULT_FAMILIES, before);
  }
}
