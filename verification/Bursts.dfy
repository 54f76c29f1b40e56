/** Bursts of traceback fragments, far apart in time: what the default consolidators make of any number of them. */
module Bursts {

  import opened Model
  import opened Sorting
  import opened Consolidation
  import opened ConsolidationTheorems
  import opened Absorptions
  import opened Attribution

  // ---- splitting in time -------------------------------------------------

  /** One more template joins the last group or starts the next. */
  lemma GroupNext(front: seq<Template>, t: Template, window: int, groups: seq<seq<Template>>, current: seq<Template>)
    requires front != [] && GroupByTime(front, window) == groups + [current] && current != []
    ensures GroupByTime(front + [t], window)
         == if t.firstSeen - current[|current| - 1].lastSeen <= window then groups + [current + [t]]
            else groups + [current] + [[t]]
  {
    assert (front + [t])[..|front|] == front;
    assert (groups + [current])[..|groups|] == groups;
  }

  /** A run without its last template is a run, which that template joins. */
  lemma RunPrefix(a: seq<Template>, window: int)
    requires IsRun(a, window) && |a| > 1
    ensures IsRun(a[..|a| - 1], window) && a == a[..|a| - 1] + [a[|a| - 1]]
    ensures a[|a| - 1].firstSeen - a[..|a| - 1][|a| - 2].lastSeen <= window
  {
    var i, j := |a| - 2, |a| - 1;
    assert a[j].firstSeen - a[i].lastSeen <= window;
  }

  lemma GroupStarts(ts: seq<Template>, groups: seq<seq<Template>>, t: Template, window: int)
    requires GroupByTime(ts, window) == groups && (groups != [] ==> Apart(groups[|groups| - 1], [t], window))
    ensures GroupByTime(ts + [t], window) == groups + [[t]]
  {
    if ts == [] {
      assert ts + [t] == [t];
    } else {
      var current := groups[|groups| - 1];
      assert groups == groups[..|groups| - 1] + [current];
      GroupNext(ts, t, window, groups[..|groups| - 1], current);
    }
  }

  /** A run beyond the window of the last group is a group of its own. */
  lemma {:induction false} RunIsAGroup(ts: seq<Template>, groups: seq<seq<Template>>, b: seq<Template>, window: int)
    requires GroupByTime(ts, window) == groups && IsRun(b, window)
    requires groups != [] ==> Apart(groups[|groups| - 1], b, window)
    ensures GroupByTime(ts + b, window) == groups + [b]
    decreases |b|
  {
    if |b| == 1 {
      assert b == [b[0]];
      GroupStarts(ts, groups, b[0], window);
    } else {
      var front, t := b[..|b| - 1], b[|b| - 1];
      RunPrefix(b, window);
      RunIsAGroup(ts, groups, front, window);
      assert ts + b == ts + front + [t];
      GroupNext(ts + front, t, window, groups, front);
    }
  }

  /** Maximal runs are the groups of their concatenation: there is one way to split a list into them. */
  lemma {:induction false} MaximalRunsAreTheGroups(groups: seq<seq<Template>>, window: int)
    requires MaximalRuns(groups, window)
    ensures GroupByTime(Flatten(groups), window) == groups
    decreases |groups|
  {
    if |groups| != 0 {
      var n := |groups| - 1;
      MaximalRunsAreTheGroups(groups[..n], window);
      if n > 0 {
        assert Apart(groups[n - 1], groups[n], window);
      }
      RunIsAGroup(Flatten(groups[..n]), groups[..n], groups[n], window);
      assert groups == groups[..n] + [groups[n]];
    }
  }

  // ---- bursts ------------------------------------------------------------

  /** Runs far apart, each large enough to merge, of fragments that no Go dump claims. */
  ghost predicate AreBursts(rules: Rules, groups: seq<seq<Template>>) {
    && MaximalRuns(groups, Window(PythonTraceback)) && groups != [] && AllMerge(groups)
    && SortedBy(Flatten(groups), LastSeenOf) && DistinctIds(Flatten(groups))
    && AllFragments(rules, Flatten(groups))
  }

  predicate AllMerge(groups: seq<seq<Template>>) {
    forall k | 0 <= k < |groups| :: |groups[k]| >= MIN_GROUP
  }

  predicate AllFragments(rules: Rules, ts: seq<Template>) {
    forall t | t in ts :: RoleOf(rules, GoStack, t) == Normal && RoleOf(rules, PythonTraceback, t) == Fragment
  }

  lemma {:induction false} AllOfOneRole(rules: Rules, family: Family, ts: seq<Template>, role: Role)
    requires forall t | t in ts :: RoleOf(rules, family, t) == role
    ensures Select(rules, family, ts, role) == ts
    ensures forall other: Role | other != role :: Select(rules, family, ts, other) == []
    decreases |ts|
  {
    if |ts| != 0 {
      var front, t := ts[..|ts| - 1], ts[|ts| - 1];
      assert ts == front + [t];
      AllOfOneRole(rules, family, front, role);
    }
  }

  lemma GoLeavesAlone(rules: Rules, ts: seq<Template>)
    requires AllFragments(rules, ts)
    ensures Consolidate(rules, GoStack, ts) == Outcome(ts, [])
  {
    AllOfOneRole(rules, GoStack, ts, Normal);
  }

  lemma FragmentsAreCandidates(rules: Rules, ts: seq<Template>)
    requires |ts| >= MIN_GROUP && AllFragments(rules, ts)
    ensures !TooFew(rules, PythonTraceback, ts) && Select(rules, PythonTraceback, ts, Normal) == []
    ensures Candidates(rules, PythonTraceback, ts) == ts
  {
    AllOfOneRole(rules, PythonTraceback, ts, Fragment);
    assert Normal != Fragment && Header != Fragment;
    assert Select(rules, PythonTraceback, ts, Header) == [];
    assert [] + ts == ts;
  }

  lemma SortedStays(ts: seq<Template>)
    requires SortedBy(ts, LastSeenOf)
    ensures SortStable(ts, LastSeenOf) == ts
  {
    SortStableCorrect(ts, LastSeenOf);
    StablySortedUnique(ts, SortStable(ts, LastSeenOf), ts, LastSeenOf);
  }

  // ---- one merge for each ------------------------------------------------

  function MergesOf(rules: Rules, groups: seq<seq<Template>>): (ms: seq<Template>)
    requires AllMerge(groups)
    ensures |ms| == |groups|
  {
    if |groups| == 0 then []
    else
      MergesOf(rules, groups[..|groups| - 1]) + [Merge(rules, PythonTraceback, groups[|groups| - 1])]
  }

  function AbsorbedBy(rules: Rules, group: seq<Template>): Absorption
    requires group != []
  {
    Absorption(Merge(rules, PythonTraceback, group).id, IdsOf(group))
  }

  function AbsorptionsOf(rules: Rules, groups: seq<seq<Template>>): (abs: seq<Absorption>)
    requires AllMerge(groups)
    ensures |abs| == |groups|
  {
    if |groups| == 0 then []
    else AbsorptionsOf(rules, groups[..|groups| - 1]) + [AbsorbedBy(rules, groups[|groups| - 1])]
  }

  lemma {:induction false} EachMerges(rules: Rules, groups: seq<seq<Template>>)
    requires AllMerge(groups)
    ensures var o := MergeGroups(rules, PythonTraceback, [], groups);
      o.templates == MergesOf(rules, groups) && o.absorptions == AbsorptionsOf(rules, groups)
    decreases |groups|
  {
    if |groups| != 0 {
      EachMerges(rules, groups[..|groups| - 1]);
    }
  }

  lemma {:induction false} FlattenHolds(groups: seq<seq<Template>>, k: nat, t: Template)
    requires k < |groups| && t in groups[k]
    ensures t in Flatten(groups)
    decreases |groups|
  {
    if k < |groups| - 1 {
      FlattenHolds(groups[..|groups| - 1], k, t);
    }
  }

  lemma {:induction false} FlattenIsLong(groups: seq<seq<Template>>, k: nat)
    requires k < |groups|
    ensures |Flatten(groups)| >= |groups[k]|
    decreases |groups|
  {
    if k < |groups| - 1 {
      FlattenIsLong(groups[..|groups| - 1], k);
    }
  }

  lemma BurstsAreGroups(rules: Rules, groups: seq<seq<Template>>, ts: seq<Template>)
    requires AreBursts(rules, groups) && ts == Flatten(groups)
    ensures !TooFew(rules, PythonTraceback, ts) && Select(rules, PythonTraceback, ts, Normal) == []
    ensures Groups(rules, PythonTraceback, ts) == groups
  {
    FlattenIsLong(groups, 0);
    FragmentsAreCandidates(rules, ts);
    SortedStays(ts);
    MaximalRunsAreTheGroups(groups, Window(PythonTraceback));
  }

  lemma PythonRound(rules: Rules, groups: seq<seq<Template>>, ts: seq<Template>)
    requires AreBursts(rules, groups) && ts == Flatten(groups)
    ensures Consolidate(rules, PythonTraceback, ts).templates == Dedupe(rules, MergesOf(rules, groups))
    ensures Consolidate(rules, PythonTraceback, ts).absorptions == AbsorptionsOf(rules, groups)
  {
    BurstsAreGroups(rules, groups, ts);
    EachMerges(rules, groups);
  }

  /** The consolidators leave the merges, and record where they took their fragments. */
  lemma BurstsConsolidate(rules: Rules, groups: seq<seq<Template>>, ts: seq<Template>)
    requires AreBursts(rules, groups) && ts == Flatten(groups)
    ensures Recording(rules, ts) == RoundMap(rules, PythonTraceback, ts) == Record(map[], AbsorptionsOf(rules, groups))
    ensures After(rules, DEFAULT_FAMILIES, ts) == Consolidate(rules, PythonTraceback, ts).templates
    ensures After(rules, DEFAULT_FAMILIES, ts) == Dedupe(rules, MergesOf(rules, groups))
  {
    GoLeavesAlone(rules, ts);
    PythonRound(rules, groups, ts);
    MapsOfDefault(rules, ts);
    assert Recorded(map[], RoundMap(rules, PythonTraceback, ts)) == RoundMap(rules, PythonTraceback, ts);
  }

  // ---- where the fragments go --------------------------------------------

  lemma AbsentId(a: seq<Template>, b: seq<Template>, t: Template)
    requires DistinctIds(a + b) && t in a
    ensures t.id !in IdsOf(b)
  {
    DistinctPrefix(a, b);
    IdsAreIds(b, t.id);
  }

  lemma {:induction false} RecordOfBurst(rules: Rules, groups: seq<seq<Template>>, k: nat, t: Template)
    requires AllMerge(groups) && DistinctIds(Flatten(groups)) && k < |groups| && t in groups[k]
    ensures var h := Record(map[], AbsorptionsOf(rules, groups));
      t.id in h && h[t.id] == Merge(rules, PythonTraceback, groups[k]).id
    decreases |groups|
  {
    var front, last := groups[..|groups| - 1], groups[|groups| - 1];
    var was, m := Record(map[], AbsorptionsOf(rules, front)), Merge(rules, PythonTraceback, last).id;
    assert AbsorptionsOf(rules, groups)[..|front|] == AbsorptionsOf(rules, front);
    AssignGives(was, IdsOf(last), m);
    if k == |front| {
      IdsInList(last, t);
    } else {
      DistinctPrefix(Flatten(front), last);
      RecordOfBurst(rules, front, k, t);
      FlattenHolds(front, k, t);
      AbsentId(Flatten(front), last, t);
    }
    assert Follow(Assign(was, IdsOf(last), m), t.id) == Assign(was, IdsOf(last), m)[t.id];
  }

  /** A fragment is absorbed by its own burst's merge. */
  lemma BurstAbsorbs(rules: Rules, groups: seq<seq<Template>>, k: nat, t: Template)
    requires AreBursts(rules, groups) && k < |groups| && t in groups[k]
    ensures var m := Recording(rules, Flatten(groups));
      t.id in m && m[t.id] == Merge(rules, PythonTraceback, groups[k]).id
  {
    BurstsConsolidate(rules, groups, Flatten(groups));
    RecordOfBurst(rules, groups, k, t);
  }

  lemma {:induction false} InSomeGroup(groups: seq<seq<Template>>, t: Template) returns (k: nat)
    requires t in Flatten(groups)
    ensures k < |groups| && t in groups[k]
    decreases |groups|
  {
    var n := |groups| - 1;
    if t in groups[n] {
      k := n;
    } else {
      k := InSomeGroup(groups[..n], t);
    }
  }

  /** Nothing but fragments is recorded, and what is recorded of them is live. */
  lemma OnlyFragmentsAreRecorded(rules: Rules, groups: seq<seq<Template>>, ts: seq<Template>)
    requires AreBursts(rules, groups) && ts == Flatten(groups)
    ensures forall id | id in Recording(rules, ts) :: id in IdSet(ts)
    ensures IdSet(After(rules, DEFAULT_FAMILIES, ts)) == Image(ts, Recording(rules, ts))
  {
    BurstsConsolidate(rules, groups, ts);
    RoundAccounts(rules, PythonTraceback, ts, map[], "");
  }

  /** Templates of different bursts have different ids. */
  lemma {:induction false} BurstsShareNoId(groups: seq<seq<Template>>, k: nat, l: nat, t: Template, u: Template)
    requires DistinctIds(Flatten(groups)) && k < l < |groups| && t in groups[k] && u in groups[l]
    ensures t.id != u.id
    decreases |groups|
  {
    var n := |groups| - 1;
    DistinctPrefix(Flatten(groups[..n]), groups[n]);
    if l == n {
      FlattenHolds(groups[..n], k, t);
    } else {
      BurstsShareNoId(groups[..n], k, l, t, u);
    }
  }

  /** Distinct ids leave nothing to fold. */
  lemma {:induction false} NothingToFold(rules: Rules, ts: seq<Template>)
    requires DistinctIds(ts)
    ensures Dedupe(rules, ts) == ts
    decreases |ts|
  {
    if |ts| != 0 {
      NothingToFold(rules, ts[..|ts| - 1]);
      var at := Find(ts[..|ts| - 1], ts[|ts| - 1].id);
      assert at.None?;
      assert ts == ts[..|ts| - 1] + [ts[|ts| - 1]];
    }
  }
}
