/**
  Templates whose own patterns mimic merged ones make the re-pointing go wrong: with two bursts in every
  iteration order alike, with more in ways that depend on the order.
 */
module StaleMerge {

  import opened Wrappers
  import opened Model
  import opened Drain
  import opened DrainTheorems
  import opened Consolidation
  import opened ConsolidationTheorems
  import opened Absorptions
  import opened IterationOrder
  import opened Attribution
  import opened Bursts
  import opened Pipeline
  import opened Determinism

  // ---- a ladder of bursts ------------------------------------------------

  /**
    Each burst's merge takes the id of a template that the burst before it absorbed, its rung; the first
    burst's merge takes no absorbed id.
   */
  ghost predicate Ladder(rules: Rules, groups: seq<seq<Template>>, rungs: seq<Template>) {
    && AreBursts(rules, groups) && |groups| == |rungs| + 1
    && (forall k | 0 <= k < |rungs| :: rungs[k] in groups[k])
    && (forall k, l | 0 <= k && l == k + 1 < |groups| :: rungs[k].id == Merge(rules, PythonTraceback, groups[l]).id)
    && Merge(rules, PythonTraceback, groups[0]).id !in IdSet(Flatten(groups))
  }

  /** The id that a burst's fragments are absorbed into. */
  function AbsorberOf(rules: Rules, groups: seq<seq<Template>>, rungs: seq<Template>, k: nat): string
    requires k < |groups| == |rungs| + 1 && groups[0] != []
  {
    if k == 0 then Merge(rules, PythonTraceback, groups[0]).id else rungs[k - 1].id
  }

  lemma LadderAbsorbs(rules: Rules, groups: seq<seq<Template>>, rungs: seq<Template>, m: Relation, k: nat, t: Template)
    requires Ladder(rules, groups, rungs) && m == Recording(rules, Flatten(groups))
    requires k < |groups| && t in groups[k]
    ensures t.id in m && m[t.id] == AbsorberOf(rules, groups, rungs, k)
  {
    BurstAbsorbs(rules, groups, k, t);
    if k > 0 {
      assert rungs[k - 1] in groups[k - 1];
    }
  }

  /** Fragments have other ids than what they are absorbed into, and the first merge's is absorbed nowhere. */
  lemma LadderRises(rules: Rules, groups: seq<seq<Template>>, rungs: seq<Template>, m: Relation, k: nat, t: Template)
    requires Ladder(rules, groups, rungs) && m == Recording(rules, Flatten(groups))
    requires k < |groups| && t in groups[k]
    ensures t.id != AbsorberOf(rules, groups, rungs, k) && t.id != AbsorberOf(rules, groups, rungs, 0)
    ensures AbsorberOf(rules, groups, rungs, 0) !in m
  {
    FlattenHolds(groups, k, t);
    OnlyFragmentsAreRecorded(rules, groups, Flatten(groups));
    if k > 0 {
      BurstsShareNoId(groups, k - 1, k, rungs[k - 1], t);
    }
  }

  /** Where the relation takes a fragment of burst k: to the first merge, or to the rung below. */
  predicate StandsOn(m: Relation, rungs: seq<Template>, first: string, k: nat, t: Template)
    requires k <= |rungs|
  {
    var below := if k == 0 then first else rungs[k - 1].id;
    t.id in m && m[t.id] == below && t.id != below
  }

  /** The relation is a ladder: all fragments stand on the rung below them, and the first merge on nothing. */
  ghost predicate Climbs(m: Relation, groups: seq<seq<Template>>, rungs: seq<Template>, first: string) {
    && |groups| == |rungs| + 1 && first !in m
    && (forall k | 0 <= k < |rungs| :: rungs[k] in groups[k])
    && (forall k, t | 0 <= k < |groups| && t in groups[k] :: StandsOn(m, rungs, first, k, t))
  }

  lemma LadderClimbs(rules: Rules, groups: seq<seq<Template>>, rungs: seq<Template>, m: Relation, first: string)
    requires Ladder(rules, groups, rungs) && m == Recording(rules, Flatten(groups))
    requires first == AbsorberOf(rules, groups, rungs, 0)
    ensures Climbs(m, groups, rungs, first)
  {
    assert groups[0][0] in groups[0];
    LadderRises(rules, groups, rungs, m, 0, groups[0][0]);
    forall k, t | 0 <= k < |groups| && t in groups[k] ensures StandsOn(m, rungs, first, k, t) {
      LadderAbsorbs(rules, groups, rungs, m, k, t);
      LadderRises(rules, groups, rungs, m, k, t);
    }
  }

  /** Where the pass takes a fragment depends on the order from the third burst on, and only there. */
  lemma LadderChains(m: Relation, groups: seq<seq<Template>>, rungs: seq<Template>, first: string, k: nat, t: Template)
    requires Climbs(m, groups, rungs, first) && k < |groups| && t in groups[k]
    ensures Chained(m, t.id) <==> k >= 2
  {
    assert StandsOn(m, rungs, first, k, t);
    if k > 0 {
      assert StandsOn(m, rungs, first, k - 1, rungs[k - 1]);
    }
    if k > 1 {
      assert StandsOn(m, rungs, first, k - 2, rungs[k - 2]);
    }
  }

  /** Some fragment of the third burst is no rung. */
  ghost predicate OffTheLadder(groups: seq<seq<Template>>, rungs: seq<Template>, t: Template)
    requires |groups| == |rungs| + 1
  {
    |groups| >= 3 && t in groups[2] && (|rungs| > 2 ==> t.id != rungs[2].id)
  }

  lemma SomeFragmentIsOff(rules: Rules, groups: seq<seq<Template>>, rungs: seq<Template>) returns (t: Template)
    requires Ladder(rules, groups, rungs) && |groups| >= 3
    ensures OffTheLadder(groups, rungs, t)
  {
    var u, v := groups[2][0], groups[2][1];
    GroupIsDistinct(groups, 2);
    t := if |rungs| > 2 && u.id == rungs[2].id then v else u;
  }

  lemma {:induction false} GroupIsDistinct(groups: seq<seq<Template>>, k: nat)
    requires DistinctIds(Flatten(groups)) && k < |groups|
    ensures DistinctIds(groups[k])
    decreases |groups|
  {
    var n := |groups| - 1;
    var front := Flatten(groups[..n]);
    DistinctPrefix(front, groups[n]);
    if k < n {
      GroupIsDistinct(groups[..n], k);
    } else {
      assert forall i | 0 <= i < |groups[n]| :: (front + groups[n])[|front| + i] == groups[n][i];
    }
  }

  /** What is live after the ladder is what its bursts are absorbed into. */
  lemma LadderSurvives(rules: Rules, groups: seq<seq<Template>>, rungs: seq<Template>, k: nat)
    requires Ladder(rules, groups, rungs) && k < |groups|
    ensures AbsorberOf(rules, groups, rungs, k) in IdSet(After(rules, DEFAULT_FAMILIES, Flatten(groups)))
  {
    var ts := Flatten(groups);
    OnlyFragmentsAreRecorded(rules, groups, ts);
    var t := groups[k][0];
    assert t in groups[k];
    FlattenHolds(groups, k, t);
    LadderAbsorbs(rules, groups, rungs, Recording(rules, ts), k, t);
    assert Follow(Recording(rules, ts), t.id) in Image(ts, Recording(rules, ts));
  }

  lemma OffTheLadderIsGone(rules: Rules, groups: seq<seq<Template>>, rungs: seq<Template>, t: Template)
    requires Ladder(rules, groups, rungs) && OffTheLadder(groups, rungs, t)
    ensures t.id !in IdSet(After(rules, DEFAULT_FAMILIES, Flatten(groups)))
  {
    var ts := Flatten(groups);
    var m := Recording(rules, ts);
    OnlyFragmentsAreRecorded(rules, groups, ts);
    forall u | u in ts ensures Follow(m, u.id) != t.id {
      var l := InSomeGroup(groups, u);
      LadderAbsorbs(rules, groups, rungs, m, l, u);
      NoRung(rules, groups, rungs, t, l);
    }
  }

  lemma NoRung(rules: Rules, groups: seq<seq<Template>>, rungs: seq<Template>, t: Template, l: nat)
    requires Ladder(rules, groups, rungs) && OffTheLadder(groups, rungs, t) && l < |groups|
    ensures AbsorberOf(rules, groups, rungs, l) != t.id
  {
    if l == 0 {
      FlattenHolds(groups, 2, t);
    } else if l - 1 < 2 {
      BurstsShareNoId(groups, l - 1, 2, rungs[l - 1], t);
    } else if l - 1 > 2 {
      BurstsShareNoId(groups, 2, l - 1, t, rungs[l - 1]);
    }
  }

  /** A fragment of the third burst can be led to the second merge or to the first, and both are live. */
  lemma ThirdBurstIsUnsettled(rules: Rules, groups: seq<seq<Template>>, rungs: seq<Template>, m: Relation,
        live: set<string>, fallback: string, t: Template)
    requires Ladder(rules, groups, rungs) && OffTheLadder(groups, rungs, t)
    requires m == Recording(rules, Flatten(groups)) && live == IdSet(After(rules, DEFAULT_FAMILIES, Flatten(groups)))
    ensures Chained(m, t.id) && t.id !in live && !LandsOnce(m, live, fallback, t.id)
    ensures m[m[t.id]] == rungs[0].id && m[rungs[0].id] == AbsorberOf(rules, groups, rungs, 0)
    ensures rungs[0].id in live && m[rungs[0].id] in live
  {
    var first := AbsorberOf(rules, groups, rungs, 0);
    LadderClimbs(rules, groups, rungs, m, first);
    LadderSurvives(rules, groups, rungs, 0);
    LadderSurvives(rules, groups, rungs, 1);
    OffTheLadderIsGone(rules, groups, rungs, t);
    ThirdBurstClimbs(m, groups, rungs, first, live, fallback, t);
  }

  lemma ThirdBurstClimbs(m: Relation, groups: seq<seq<Template>>, rungs: seq<Template>, first: string,
        live: set<string>, fallback: string, t: Template)
    requires Climbs(m, groups, rungs, first) && |groups| >= 3 && t in groups[2]
    requires first in live && rungs[0].id in live
    ensures Chained(m, t.id) && !LandsOnce(m, live, fallback, t.id)
    ensures m[m[t.id]] == rungs[0].id && m[rungs[0].id] == first
  {
    LadderChains(m, groups, rungs, first, 2, t);
    assert StandsOn(m, rungs, first, 2, t);
    assert StandsOn(m, rungs, first, 1, rungs[1]);
    assert StandsOn(m, rungs, first, 0, rungs[0]);
  }

  lemma ShallowClimb(m: Relation, groups: seq<seq<Template>>, rungs: seq<Template>, first: string)
    requires Climbs(m, groups, rungs, first) && |groups| <= 2
    requires forall id | id in m :: id in IdSet(Flatten(groups))
    ensures Shallow(m)
  {
    forall id | id in m ensures !Chained(m, id) {
      var t :| t in Flatten(groups) && t.id == id;
      var k := InSomeGroup(groups, t);
      LadderChains(m, groups, rungs, first, k, t);
    }
  }

  lemma ShortLadderIsShallow(rules: Rules, groups: seq<seq<Template>>, rungs: seq<Template>)
    requires Ladder(rules, groups, rungs) && |groups| <= 2
    ensures Shallow(Recording(rules, Flatten(groups)))
  {
    var m, first := Recording(rules, Flatten(groups)), AbsorberOf(rules, groups, rungs, 0);
    OnlyFragmentsAreRecorded(rules, groups, Flatten(groups));
    LadderClimbs(rules, groups, rungs, m, first);
    ShallowClimb(m, groups, rungs, first);
  }

  lemma LongLadderIsUnsettled(cfg: DrainConfig, rules: Rules, entries: seq<LogEntry>, groups: seq<seq<Template>>,
        rungs: seq<Template>) returns (id: string)
    requires cfg.maxClusters >= 1 && Before(cfg, rules, entries) == Flatten(groups) && Ladder(rules, groups, rungs)
    requires |groups| > 2
    ensures Unsettled(cfg, rules, entries, id)
  {
    var ts, after := Flatten(groups), Survivors(cfg, rules, entries);
    var t := SomeFragmentIsOff(rules, groups, rungs);
    FlattenHolds(groups, 2, t);
    ThirdBurstIsUnsettled(rules, groups, rungs, Recording(rules, ts), IdSet(after), FallbackOf(after), t);
    id := t.id;
    assert id in IdSet(ts);
  }

  /** A ladder has one outcome, if and only if it has at most two bursts. */
  lemma LadderIsOrderFree(cfg: DrainConfig, rules: Rules, entries: seq<LogEntry>, groups: seq<seq<Template>>,
        rungs: seq<Template>)
    requires cfg.maxClusters >= 1 && Before(cfg, rules, entries) == Flatten(groups) && Ladder(rules, groups, rungs)
    ensures OneOutcome(cfg, rules, entries) <==> |groups| <= 2
  {
    if |groups| <= 2 {
      ShortLadderIsShallow(rules, groups, rungs);
    } else {
      var id := LongLadderIsUnsettled(cfg, rules, entries, groups, rungs);
    }
  }

  // ---- three bursts: what an entry gets depends on the order -------------

  /** A relation the pass can leave gives an entry whose id is gone its live absorber. */
  lemma IdGivenLive(cfg: DrainConfig, rules: Rules, entries: seq<LogEntry>, r: Relation, i: nat, j: nat)
    requires cfg.maxClusters >= 1 && i < |entries| && j < |Before(cfg, rules, entries)|
    requires OnePass(Recording(rules, Before(cfg, rules, entries)), r) && Run(cfg, rules, entries).1[i] == Some(j)
    requires var id, live := Before(cfg, rules, entries)[j].id, IdSet(Survivors(cfg, rules, entries));
      id !in live && id in r && r[id] in live
    ensures Processed(cfg, rules, entries, Survivors(cfg, rules, entries), IdsFrom(cfg, rules, entries, r))
    ensures IdsFrom(cfg, rules, entries, r)[i] == r[Before(cfg, rules, entries)[j].id]
  {
    OnePassIsProcessed(cfg, rules, entries, r);
    JoinedInRange(cfg, rules, entries);
  }

  /**
    Two relations that the pass can leave: a third-burst fragment's absorber is the second merge in one, the
    first in the other.
   */
  lemma ThirdBurstRelations(rules: Rules, groups: seq<seq<Template>>, rungs: seq<Template>, m: Relation,
        live: set<string>, t: Template) returns (a: Relation, b: Relation)
    requires Ladder(rules, groups, rungs) && OffTheLadder(groups, rungs, t)
    requires m == Recording(rules, Flatten(groups)) && live == IdSet(After(rules, DEFAULT_FAMILIES, Flatten(groups)))
    ensures OnePass(m, a) && OnePass(m, b) && t.id !in live && t.id in a && t.id in b
    ensures a[t.id] in live && a[t.id] == Merge(rules, PythonTraceback, groups[1]).id
    ensures b[t.id] in live && b[t.id] == Merge(rules, PythonTraceback, groups[0]).id
  {
    ThirdBurstIsUnsettled(rules, groups, rungs, m, live, "", t);
    var p, q := TwoOrders(m, t.id);
    a, b := Pass(m, p), Pass(m, q);
  }

  /**
    An entry of a third-burst fragment is given the second merge's id if its fragment is visited first,
    and the first merge's if that rung is: processing returns both.
   */
  lemma ThirdBurstDiverges(cfg: DrainConfig, rules: Rules, entries: seq<LogEntry>, groups: seq<seq<Template>>,
        rungs: seq<Template>, i: nat, j: nat) returns (ids: seq<string>, ids': seq<string>)
    requires cfg.maxClusters >= 1 && Before(cfg, rules, entries) == Flatten(groups) && Ladder(rules, groups, rungs)
    requires i < |entries| && j < |Before(cfg, rules, entries)| && Run(cfg, rules, entries).1[i] == Some(j)
    requires OffTheLadder(groups, rungs, Before(cfg, rules, entries)[j])
    ensures Processed(cfg, rules, entries, Survivors(cfg, rules, entries), ids)
    ensures Processed(cfg, rules, entries, Survivors(cfg, rules, entries), ids')
    ensures |ids| == |ids'| == |entries|
    ensures ids[i] == Merge(rules, PythonTraceback, groups[1]).id
    ensures ids'[i] == Merge(rules, PythonTraceback, groups[0]).id
  {
    var ts, after := Before(cfg, rules, entries), Survivors(cfg, rules, entries);
    var a, b := ThirdBurstRelations(rules, groups, rungs, Recording(rules, ts), IdSet(after), ts[j]);
    ids, ids' := IdsFrom(cfg, rules, entries, a), IdsFrom(cfg, rules, entries, b);
    IdGivenLive(cfg, rules, entries, a, i, j);
    IdGivenLive(cfg, rules, entries, b, i, j);
  }

  // ---- two bursts: every order goes wrong alike --------------------------

  /** In a ladder of two, a visited fragment ends on the first merge. */
  lemma TwoBurstsFall(m: Relation, groups: seq<seq<Template>>, rungs: seq<Template>, first: string, order: seq<string>,
        k: nat, t: Template)
    requires Climbs(m, groups, rungs, first) && |groups| == 2 && k < 2 && t in groups[k]
    requires Enumerates(order, m.Keys)
    ensures t.id in Pass(m, order) && Pass(m, order)[t.id] == first
  {
    LadderChains(m, groups, rungs, first, k, t);
    assert StandsOn(m, rungs, first, k, t);
    assert StandsOn(m, rungs, first, 0, rungs[0]);
    PassHops(m, order, t.id);
  }

  /**
    Of two bursts, every iteration order sends every fragment of the second to the first burst's merge,
    which never held it.
   */
  lemma MimicMisleadsEveryOrder(rules: Rules, groups: seq<seq<Template>>, rungs: seq<Template>, r: Relation,
        t: Template)
    requires Ladder(rules, groups, rungs) && |groups| == 2 && CanCompute(rules, Flatten(groups), r)
    requires t in Flatten(groups)
    ensures t.id in r && r[t.id] == Merge(rules, PythonTraceback, groups[0]).id
  {
    var m, first := Recording(rules, Flatten(groups)), AbsorberOf(rules, groups, rungs, 0);
    DefaultIsOnePass(rules, Flatten(groups), r);
    var order :| Enumerates(order, m.Keys) && r == Pass(m, order);
    var k := InSomeGroup(groups, t);
    LadderClimbs(rules, groups, rungs, m, first);
    TwoBurstsFall(m, groups, rungs, first, order, k, t);
  }

  // ---- and what the counts make of it ------------------------------------

  lemma TwoMerges(rules: Rules, groups: seq<seq<Template>>)
    requires AllMerge(groups) && |groups| == 2
    ensures MergesOf(rules, groups)
         == [Merge(rules, PythonTraceback, groups[0]), Merge(rules, PythonTraceback, groups[1])]
  {
    assert groups[..1][..0] == [];
    assert MergesOf(rules, groups[..1]) == [Merge(rules, PythonTraceback, groups[0])];
  }

  lemma TwoAreKept(rules: Rules, ms: seq<Template>, m: Template, n: Template)
    requires ms == [m, n] && m.id != n.id
    ensures Dedupe(rules, ms) == ms
  {
    NothingToFold(rules, ms);
  }

  lemma RungIsAFragment(rules: Rules, groups: seq<seq<Template>>, rungs: seq<Template>)
    requires Ladder(rules, groups, rungs) && |groups| == 2
    ensures rungs[0] in Flatten(groups) && rungs[0].id == Merge(rules, PythonTraceback, groups[1]).id
    ensures rungs[0].id != Merge(rules, PythonTraceback, groups[0]).id
  {
    FlattenHolds(groups, 0, rungs[0]);
  }

  /** Both merges survive, the second under the id of the first burst's rung. */
  lemma TwoSurvive(rules: Rules, groups: seq<seq<Template>>, rungs: seq<Template>, after: seq<Template>)
    requires Ladder(rules, groups, rungs) && |groups| == 2 && after == After(rules, DEFAULT_FAMILIES, Flatten(groups))
    ensures after == [Merge(rules, PythonTraceback, groups[0]), Merge(rules, PythonTraceback, groups[1])]
  {
    RungIsAFragment(rules, groups, rungs);
    BurstsConsolidate(rules, groups, Flatten(groups));
    TwoMerges(rules, groups);
    TwoAreKept(rules, MergesOf(rules, groups), Merge(rules, PythonTraceback, groups[0]),
      Merge(rules, PythonTraceback, groups[1]));
  }

  /** With two survivors, one of which keeps an original's id: that original stays, and the others follow r. */
  lemma RemapToTwo(before: seq<string>, live: set<string>, m: string, n: string, r: Relation, fallback: string,
        id: string)
    requires live == {m, n} && id in before && id != m && id in r && r[id] == m
    ensures Follow(Remap(before, live, r, fallback), id) == if id == n then n else m
  {
    RemapGivesEach(before, live, r, fallback, id);
  }

  lemma IdsOfTwo(after: seq<Template>, m: Template, n: Template)
    requires after == [m, n]
    ensures IdSet(after) == {m.id, n.id}
  {
    assert after[0] == m && after[1] == n;
  }

  /**
    The ids entries end up with: the rung keeps its own, which the second merge carries; all others get the
    first merge's.
   */
  lemma MimicRemap(rules: Rules, groups: seq<seq<Template>>, rungs: seq<Template>, ts: seq<Template>,
        after: seq<Template>, r: Relation, fallback: string, t: Template)
    requires Ladder(rules, groups, rungs) && |groups| == 2 && ts == Flatten(groups)
    requires after == After(rules, DEFAULT_FAMILIES, ts) && CanCompute(rules, ts, r) && t in ts
    ensures Follow(Remap(IdsOf(ts), IdSet(after), r, fallback), t.id)
         == if t.id == rungs[0].id then rungs[0].id else Merge(rules, PythonTraceback, groups[0]).id
  {
    TwoSurvive(rules, groups, rungs, after);
    RungIsAFragment(rules, groups, rungs);
    IdsOfTwo(after, after[0], after[1]);
    IdsInList(ts, t);
    MimicMisleadsEveryOrder(rules, groups, rungs, r, t);
    assert t.id in IdSet(ts);
    RemapToTwo(IdsOf(ts), IdSet(after), after[0].id, after[1].id, r, fallback, t.id);
  }

  /** The total count of the templates led to x's id is x's own. */
  lemma {:induction false} OnlyOneLeads(ts: seq<Template>, h: Relation, i: nat)
    requires DistinctIds(ts) && i < |ts|
    requires forall t | t in ts :: Follow(h, t.id) == ts[i].id <==> t.id == ts[i].id
    ensures CountLead(ts, h, ts[i].id) == ts[i].count
  {
    var n := |ts| - 1;
    assert ts[n] in ts;
    if i < n {
      OnlyOneLeads(ts[..n], h, i);
    } else {
      NoneLeads(ts[..n], h, ts[i].id);
    }
  }

  lemma {:induction false} NoneLeads(ts: seq<Template>, h: Relation, x: string)
    requires forall t | t in ts :: Follow(h, t.id) != x
    ensures CountLead(ts, h, x) == 0
  {
    if |ts| != 0 {
      NoneLeads(ts[..|ts| - 1], h, x);
      assert ts[|ts| - 1] in ts;
    }
  }

  /** Counting the entries given an id is counting those of the templates remapped to it. */
  lemma CountsByRemap(cfg: DrainConfig, rules: Rules, entries: seq<LogEntry>, r: Relation, fallback: string,
        ids: seq<string>, x: string)
    requires Sane(cfg) && Attributes(cfg, rules, entries, r, fallback, ids) && x != ""
    ensures var before := Before(cfg, rules, entries);
      CountId(ids, x) == CountLead(before, Remap(IdsOf(before), IdSet(Survivors(cfg, rules, entries)), r, fallback), x)
  {
    var before, joined := Before(cfg, rules, entries), Run(cfg, rules, entries).1;
    var remap := Remap(IdsOf(before), IdSet(Survivors(cfg, rules, entries)), r, fallback);
    CountLedIsCountId(joined, before, remap, remap, x);
    forall j | 0 <= j < |before| ensures before[j].count == CountJoined(joined, j) {
      BeforeCounts(cfg, rules, entries, j);
    }
    LeadIsLed(before, joined, remap, x);
  }

  /** What every remap makes of the ladder: the rung alone has its id. */
  ghost predicate OnlyKeeps(remap: map<string, string>, ts: seq<Template>, x: string) {
    forall t | t in ts :: Follow(remap, t.id) == x <==> t.id == x
  }

  lemma OnlyTheRungKeeps(rules: Rules, groups: seq<seq<Template>>, rungs: seq<Template>, ts: seq<Template>,
        after: seq<Template>, r: Relation, fallback: string)
    requires Ladder(rules, groups, rungs) && |groups| == 2 && ts == Flatten(groups)
    requires after == After(rules, DEFAULT_FAMILIES, ts) && CanCompute(rules, ts, r)
    ensures OnlyKeeps(Remap(IdsOf(ts), IdSet(after), r, fallback), ts, rungs[0].id)
  {
    TwoSurvive(rules, groups, rungs, after);
    RungIsAFragment(rules, groups, rungs);
    forall t | t in ts
      ensures Follow(Remap(IdsOf(ts), IdSet(after), r, fallback), t.id) == rungs[0].id <==> t.id == rungs[0].id
    {
      MimicRemap(rules, groups, rungs, ts, after, r, fallback, t);
    }
  }

  lemma OnlyItsCount(ts: seq<Template>, remap: map<string, string>, x: Template)
    requires DistinctIds(ts) && x in ts && OnlyKeeps(remap, ts, x.id)
    ensures CountLead(ts, remap, x.id) == x.count
  {
    var i :| 0 <= i < |ts| && ts[i] == x;
    OnlyOneLeads(ts, remap, i);
  }

  lemma MergeCounts(rules: Rules, group: seq<Template>)
    requires group != []
    ensures Merge(rules, PythonTraceback, group).count == Total(group)
  {
    MergedUpToTotal(rules, PythonTraceback, group, |group|);
    assert group[..|group|] == group;
  }

  /**
    End to end, whatever the iteration orders: the second burst's template publishes its own burst's
    count, but only the rung's entries are given its id, so count and attribution agree just when the
    rung happens to have as many entries as the whole second burst.
   */
  lemma MimicMiscounts(cfg: DrainConfig, rules: Rules, entries: seq<LogEntry>, after: seq<Template>, ids: seq<string>,
        groups: seq<seq<Template>>, rungs: seq<Template>)
    requires Sane(cfg) && HashNonEmpty(rules) && Processed(cfg, rules, entries, after, ids)
    requires Before(cfg, rules, entries) == Flatten(groups) && Ladder(rules, groups, rungs) && |groups| == 2
    ensures |after| == 2 && after[1].id == rungs[0].id
    ensures after[1].count == Total(groups[1]) && CountId(ids, after[1].id) == rungs[0].count
    ensures after[1].count == CountId(ids, after[1].id) <==> rungs[0].count == Total(groups[1])
  {
    var ts := Before(cfg, rules, entries);
    var r, fallback :| Attributes(cfg, rules, entries, r, fallback, ids);
    TwoSurvive(rules, groups, rungs, after);
    RungIsAFragment(rules, groups, rungs);
    MergeCounts(rules, groups[1]);
    SurvivorIdNonEmpty(cfg, rules, entries, after[1]);
    CountsByRemap(cfg, rules, entries, r, fallback, ids, rungs[0].id);
    OnlyTheRungKeeps(rules, groups, rungs, ts, after, r, fallback);
    OnlyItsCount(ts, Remap(IdsOf(ts), IdSet(after), r, fallback), rungs[0]);
  }
}
