/** Nothing is lost or misattributed by one consolidator: aggregates per id, ids and ranges. */
module ConsolidationTheorems {

  import opened Model
  import opened Sorting
  import opened Consolidation

  // ---- aggregates --------------------------------------------------------

  /** What a set of templates amounts to: total count, range and greatest severity. */
  datatype Aggregate = Nothing | Aggregate(count: int, first: Instant, last: Instant, severity: nat)

  function Of(t: Template): Aggregate {
    Aggregate(t.count, t.firstSeen, t.lastSeen, SeverityIndex(t.severity))
  }

  function Combine(a: Aggregate, b: Aggregate): Aggregate {
    if a.Nothing? then b
    else if b.Nothing? then a
    else Aggregate(a.count + b.count, if b.first < a.first then b.first else a.first,
                   if b.last > a.last then b.last else a.last,
                   if b.severity > a.severity then b.severity else a.severity)
  }

  function Max(a: nat, b: nat): nat {
    if a > b then a else b
  }

  /** The aggregate with its severity raised to a floor. */
  function Raise(a: Aggregate, floor: nat): Aggregate {
    if a.Nothing? then a else a.(severity := Max(a.severity, floor))
  }

  /** Where an id ends up, and the greatest severity that the merges on the way start from. */
  datatype Stop = Stop(id: string, floor: nat)

  type Route = map<string, Stop>

  function Lead(r: Route, id: string): Stop {
    if id in r then r[id] else Stop(id, 0)
  }

  /** First through a round whose merges start from the given severity, then on along r. */
  function Via(h: map<string, string>, floor: nat, r: Route): Route {
    map id | id in h.Keys + r.Keys ::
      Stop(Lead(r, Follow(h, id)).id, Max(if id in h then floor else 0, Lead(r, Follow(h, id)).floor))
  }

  lemma LeadVia(h: map<string, string>, floor: nat, r: Route, id: string)
    ensures Lead(Via(h, floor, r), id)
      == Stop(Lead(r, Follow(h, id)).id, Max(if id in h then floor else 0, Lead(r, Follow(h, id)).floor))
  {
  }

  /** The aggregate of the templates that a route leads to x, each raised to what it passed through. */
  function Summary(ts: seq<Template>, r: Route, x: string): Aggregate {
    if |ts| == 0 then Nothing
    else
      var t := ts[|ts| - 1];
      var rest := Summary(ts[..|ts| - 1], r, x);
      if Lead(r, t.id).id == x then Combine(rest, Raise(Of(t), Lead(r, t.id).floor)) else rest
  }

  /** The aggregate of all the templates. */
  function Whole(ts: seq<Template>): Aggregate {
    if |ts| == 0 then Nothing else Combine(Whole(ts[..|ts| - 1]), Of(ts[|ts| - 1]))
  }

  lemma CombineAssociative(a: Aggregate, b: Aggregate, c: Aggregate)
    ensures Combine(Combine(a, b), c) == Combine(a, Combine(b, c))
  {
  }

  lemma CombineCommutative(a: Aggregate, b: Aggregate)
    ensures Combine(a, b) == Combine(b, a)
  {
  }

  lemma RaiseCombines(a: Aggregate, b: Aggregate, floor: nat)
    ensures Raise(Combine(a, b), floor) == Combine(Raise(a, floor), Raise(b, floor))
  {
  }

  lemma RaiseTwice(a: Aggregate, f: nat, g: nat)
    ensures Raise(Raise(a, f), g) == Raise(a, Max(f, g))
  {
  }

  lemma {:induction false} SummaryConcat(a: seq<Template>, b: seq<Template>, r: Route, x: string)
    ensures Summary(a + b, r, x) == Combine(Summary(a, r, x), Summary(b, r, x))
  {
    if |b| == 0 {
      assert a + b == a;
    } else {
      var n := |b| - 1;
      assert (a + b)[..|a + b| - 1] == a + b[..n];
      SummaryConcat(a, b[..n], r, x);
      CombineAssociative(Summary(a, r, x), Summary(b[..n], r, x), Raise(Of(b[n]), Lead(r, b[n].id).floor));
    }
  }

  lemma SummaryOne(t: Template, r: Route, x: string)
    ensures Summary([t], r, x) == if Lead(r, t.id).id == x then Raise(Of(t), Lead(r, t.id).floor) else Nothing
  {
    assert Summary([t][..0], r, x) == Nothing;
  }

  /** Only where the ids lead matters. */
  lemma {:induction false} SummaryAgree(ts: seq<Template>, r: Route, s: Route, x: string)
    requires forall t | t in ts :: Lead(r, t.id) == Lead(s, t.id)
    ensures Summary(ts, r, x) == Summary(ts, s, x)
  {
    if |ts| != 0 {
      SummaryAgree(ts[..|ts| - 1], r, s, x);
      assert ts[|ts| - 1] in ts;
    }
  }

  /** Templates that all lead to one stop are counted whole or not at all. */
  lemma {:induction false} SummaryConst(ts: seq<Template>, r: Route, stop: Stop, x: string)
    requires forall t | t in ts :: Lead(r, t.id) == stop
    ensures Summary(ts, r, x) == if stop.id == x then Raise(Whole(ts), stop.floor) else Nothing
  {
    if |ts| != 0 {
      SummaryConst(ts[..|ts| - 1], r, stop, x);
      assert ts[|ts| - 1] in ts;
      RaiseCombines(Whole(ts[..|ts| - 1]), Of(ts[|ts| - 1]), stop.floor);
    }
  }

  // ---- partition and sort ------------------------------------------------

  lemma SelectSummary(rules: Rules, family: Family, ts: seq<Template>, role: Role, r: Route, x: string)
    requires |ts| != 0
    ensures var t := ts[|ts| - 1];
      Summary(Select(rules, family, ts, role), r, x)
      == Combine(Summary(Select(rules, family, ts[..|ts| - 1], role), r, x),
                 if RoleOf(rules, family, t) == role then Summary([t], r, x) else Nothing)
  {
    var front := Select(rules, family, ts[..|ts| - 1], role);
    SummaryConcat(front, [ts[|ts| - 1]], r, x);
    assert front + [] == front;
  }

  lemma Rearrange(n: Aggregate, a: Aggregate, f: Aggregate, t: Aggregate)
    ensures Combine(Combine(n, Combine(a, f)), t) == Combine(Combine(n, t), Combine(a, f))
    ensures Combine(Combine(n, Combine(a, f)), t) == Combine(n, Combine(Combine(a, t), f))
    ensures Combine(Combine(n, Combine(a, f)), t) == Combine(n, Combine(a, Combine(f, t)))
  {
    CombineCommutative(f, t);
    CombineAssociative(a, f, t);
    CombineAssociative(a, t, f);
    CombineAssociative(n, Combine(a, f), t);
    CombineCommutative(Combine(a, f), t);
    CombineAssociative(n, t, Combine(a, f));
  }

  /** Sorting the templates into roles loses none. */
  lemma {:induction false} PartitionSummary(rules: Rules, family: Family, ts: seq<Template>, r: Route, x: string)
    ensures Summary(ts, r, x)
         == Combine(Summary(Select(rules, family, ts, Normal), r, x), Summary(Candidates(rules, family, ts), r, x))
  {
    SummaryConcat(Select(rules, family, ts, Header), Select(rules, family, ts, Fragment), r, x);
    if |ts| != 0 {
      var front, t := ts[..|ts| - 1], ts[|ts| - 1];
      PartitionSummary(rules, family, front, r, x);
      SummaryOne(t, r, x);
      SelectSummary(rules, family, ts, Normal, r, x);
      SelectSummary(rules, family, ts, Header, r, x);
      SelectSummary(rules, family, ts, Fragment, r, x);
      SummaryConcat(Select(rules, family, front, Header), Select(rules, family, front, Fragment), r, x);
      Rearrange(Summary(Select(rules, family, front, Normal), r, x),
        Summary(Select(rules, family, front, Header), r, x),
                Summary(Select(rules, family, front, Fragment), r, x), Summary([t], r, x));
    }
  }

  lemma {:induction false} InsertSummary(s: seq<Template>, t: Template, r: Route, x: string)
    ensures Summary(Insert(s, t, LastSeenOf), r, x) == Combine(Summary(s, r, x), Summary([t], r, x))
  {
    if |s| == 0 || LastSeenOf(s[|s| - 1]) <= LastSeenOf(t) {
      SummaryConcat(s, [t], r, x);
    } else {
      var front, last := s[..|s| - 1], s[|s| - 1];
      InsertSummary(front, t, r, x);
      SummaryConcat(Insert(front, t, LastSeenOf), [last], r, x);
      SummaryConcat(front, [last], r, x);
      assert s == front + [last];
      var a, b, c := Summary(front, r, x), Summary([t], r, x), Summary([last], r, x);
      CombineAssociative(a, b, c);
      CombineCommutative(b, c);
      CombineAssociative(a, c, b);
    }
  }

  lemma {:induction false} SortSummary(s: seq<Template>, r: Route, x: string)
    ensures Summary(SortStable(s, LastSeenOf), r, x) == Summary(s, r, x)
  {
    if |s| != 0 {
      var n := |s| - 1;
      SortSummary(s[..n], r, x);
      assert Summary(s, r, x) == Combine(Summary(s[..n], r, x), Summary([s[n]], r, x)) by {
        SummaryConcat(s[..n], [s[n]], r, x);
        assert s == s[..n] + [s[n]];
      }
      assert SortStable(s, LastSeenOf) == Insert(SortStable(s[..n], LastSeenOf), s[n], LastSeenOf);
      InsertSummary(SortStable(s[..n], LastSeenOf), s[n], r, x);
    }
  }

  // ---- grouping ----------------------------------------------------------

  /** Inside a run neighbours are within the window. */
  ghost predicate IsRun(group: seq<Template>, window: int) {
    |group| != 0 && forall i, j | 0 <= i && j == i + 1 < |group| :: group[j].firstSeen - group[i].lastSeen <= window
  }

  ghost predicate Apart(group: seq<Template>, next: seq<Template>, window: int)
    requires |group| != 0 && |next| != 0
  {
    next[0].firstSeen - group[|group| - 1].lastSeen > window
  }

  /** The groups are runs, and no two adjacent ones could be joined. */
  ghost predicate MaximalRuns(groups: seq<seq<Template>>, window: int) {
    && (forall g | 0 <= g < |groups| :: IsRun(groups[g], window))
    && (forall g, k | 0 <= g && k == g + 1 < |groups| :: Apart(groups[g], groups[k], window))
  }

  lemma {:induction false} GroupsFlatten(sorted: seq<Template>, window: int)
    ensures Flatten(GroupByTime(sorted, window)) == sorted
  {
    if |sorted| != 0 {
      var n := |sorted| - 1;
      GroupsFlatten(sorted[..n], window);
      var before, groups := GroupByTime(sorted[..n], window), GroupByTime(sorted, window);
      assert sorted == sorted[..n] + [sorted[n]];
      if n == 0 {
        assert Flatten(groups[..0]) == [];
      } else if |groups| == |before| {
        var m := |before| - 1;
        assert groups[..m] == before[..m];
      } else {
        assert groups[..|before|] == before;
      }
    }
  }

  /** The runs put together are the list again, and each is as long as the window allows. */
  lemma {:induction false} GroupsAreMaximalRuns(sorted: seq<Template>, window: int)
    ensures MaximalRuns(GroupByTime(sorted, window), window)
  {
    if |sorted| > 1 {
      var n := |sorted| - 1;
      GroupsAreMaximalRuns(sorted[..n], window);
      var before: seq<seq<Template>> := GroupByTime(sorted[..n], window);
      var m := |before| - 1;
      var t := sorted[n];
      if t.firstSeen - before[m][|before[m]| - 1].lastSeen <= window {
        assert IsRun(before[m], window);
        assert IsRun(before[m] + [t], window);
        assert m > 0 ==> Apart(before[m - 1], before[m], window);
      } else {
        assert IsRun([t], window);
        assert Apart(before[m], [t], window);
      }
    }
  }

  // ---- merging a group ---------------------------------------------------

  lemma AbsorbCombines(m: Template, t: Template)
    ensures Of(AbsorbInto(m, t)) == Combine(Of(m), Of(t))
  {
  }

  /** The scale's value of the severity a family's merges start from. */
  function SeedIndex(family: Family): nat {
    SeverityIndex(SeedSeverity(family))
  }

  lemma FragmentCombines(rules: Rules, family: Family, group: seq<Template>, n: nat)
    requires 0 < n <= |group|
    ensures Of(MergedUpTo(rules, family, group, n))
      == Combine(Of(MergedUpTo(rules, family, group, n - 1)), Of(group[n - 1]))
  {
    AbsorbCombines(MergedUpTo(rules, family, group, n - 1), group[n - 1]);
  }

  /** The first member absorbed into a seed of its own range. */
  lemma SeedCombines(family: Family, first: Template)
    ensures Combine(Of(Seed(family, first)), Of(first)) == Raise(Of(first), SeedIndex(family))
  {
  }

  lemma CombineRaised(a: Aggregate, b: Aggregate, floor: nat)
    requires a.Aggregate? && b.Aggregate?
    ensures Combine(Raise(a, floor), b) == Raise(Combine(a, b), floor)
  {
  }

  lemma WholeIsSome(ts: seq<Template>)
    ensures Whole(ts).Nothing? <==> ts == []
  {
  }

  lemma {:induction false} MergedUpToIsWhole(rules: Rules, family: Family, group: seq<Template>, n: nat)
    requires 0 < n <= |group|
    ensures Of(MergedUpTo(rules, family, group, n)) == Raise(Whole(group[..n]), SeedIndex(family))
  {
    FragmentCombines(rules, family, group, n);
    assert Whole(group[..n]) == Combine(Whole(group[..n - 1]), Of(group[n - 1])) by {
      assert group[..n][..n - 1] == group[..n - 1];
    }
    if n == 1 {
      SeedCombines(family, group[0]);
      assert Whole(group[..0]) == Nothing;
    } else {
      MergedUpToIsWhole(rules, family, group, n - 1);
      WholeIsSome(group[..n - 1]);
      CombineRaised(Whole(group[..n - 1]), Of(group[n - 1]), SeedIndex(family));
    }
  }

  /**
    A merged template has exactly its group's count and range, and the greater of the group's severity
    and the family's own; id and alias follow its pattern.
   */
  lemma MergeIsWhole(rules: Rules, family: Family, group: seq<Template>)
    requires 0 < |group|
    ensures Of(Merge(rules, family, group)) == Raise(Whole(group), SeedIndex(family))
    ensures var m := Merge(rules, family, group);
      m.id == rules.templateHash(m.pattern) && m.alias == rules.alias(m.pattern, m.severity)
  {
    MergedUpToIsWhole(rules, family, group, |group|);
    assert group[..|group|] == group;
  }

  // ---- folding equal ids -------------------------------------------------

  predicate DistinctIds(ts: seq<Template>) {
    forall i, j | 0 <= i < j < |ts| :: ts[i].id != ts[j].id
  }

  ghost function IdSet(ts: seq<Template>): set<string> {
    set t | t in ts :: t.id
  }

  lemma {:induction false} SummaryUpdate(ts: seq<Template>, i: nat, m: Template, t: Template, r: Route, x: string)
    requires i < |ts| && m.id == ts[i].id == t.id && Of(m) == Combine(Of(ts[i]), Of(t))
    ensures Summary(ts[i := m], r, x) == Combine(Summary(ts, r, x), Summary([t], r, x))
  {
    SummaryOne(t, r, x);
    var n := |ts| - 1;
    if i == n {
      assert ts[i := m][..n] == ts[..n];
      CombineAssociative(Summary(ts[..n], r, x), Of(ts[i]), Of(t));
    } else {
      assert ts[i := m][..n] == ts[..n][i := m];
      SummaryUpdate(ts[..n], i, m, t, r, x);
      var a, b := Summary(ts[..n], r, x), Summary([t], r, x);
      var c := if Lead(r, ts[n].id).id == x then Raise(Of(ts[n]), Lead(r, ts[n].id).floor) else Nothing;
      CombineAssociative(a, b, c);
      CombineCommutative(b, c);
      CombineAssociative(a, c, b);
    }
  }

  lemma FoldInKeeps(rules: Rules, kept: seq<Template>, t: Template, r: Route, x: string)
    requires DistinctIds(kept)
    ensures Summary(FoldIn(rules, kept, t), r, x) == Combine(Summary(kept, r, x), Summary([t], r, x))
    ensures DistinctIds(FoldIn(rules, kept, t))
    ensures IdSet(FoldIn(rules, kept, t)) == IdSet(kept) + {t.id}
  {
    var at := Find(kept, t.id);
    if at.None? {
      SummaryConcat(kept, [t], r, x);
      assert forall y :: y in kept + [t] <==> y in kept || y == t;
    } else {
      AbsorbCombines(kept[at.value], t);
      var out := FoldIn(rules, kept, t);
      SummaryUpdate(kept, at.value, out[at.value], t, r, x);
      SameIdsSameSet(kept, out);
      assert kept[at.value] in kept;
    }
  }

  lemma SameIdsSameSet(a: seq<Template>, b: seq<Template>)
    requires |a| == |b| && forall i | 0 <= i < |a| :: a[i].id == b[i].id
    ensures IdSet(a) == IdSet(b)
  {
    forall y | y in IdSet(a) ensures y in IdSet(b) {
      var i :| 0 <= i < |a| && a[i].id == y;
      assert b[i] in b;
    }
    forall y | y in IdSet(b) ensures y in IdSet(a) {
      var i :| 0 <= i < |b| && b[i].id == y;
      assert a[i] in a;
    }
  }

  /** What folding keeps: the aggregate of every id and the set of ids, each now once. */
  ghost predicate SameButDistinct(out: seq<Template>, ts: seq<Template>, r: Route, x: string) {
    Summary(out, r, x) == Summary(ts, r, x) && DistinctIds(out) && IdSet(out) == IdSet(ts)
  }

  lemma FoldInStep(rules: Rules, kept: seq<Template>, front: seq<Template>, t: Template, r: Route, x: string)
    requires SameButDistinct(kept, front, r, x)
    ensures SameButDistinct(FoldIn(rules, kept, t), front + [t], r, x)
  {
    FoldInKeeps(rules, kept, t, r, x);
    SummaryConcat(front, [t], r, x);
    IdSetLast(front, t);
  }

  /** Folding keeps the aggregate of every id, the set of ids, and leaves each id once. */
  lemma {:induction false} DedupeKeeps(rules: Rules, ts: seq<Template>, r: Route, x: string)
    ensures SameButDistinct(Dedupe(rules, ts), ts, r, x)
  {
    if |ts| != 0 {
      var front, t := ts[..|ts| - 1], ts[|ts| - 1];
      DedupeKeeps(rules, front, r, x);
      FoldInStep(rules, Dedupe(rules, front), front, t, r, x);
      assert ts == front + [t];
    }
  }

  lemma IdSetLast(front: seq<Template>, t: Template)
    ensures IdSet(front + [t]) == IdSet(front) + {t.id}
  {
    assert forall u :: u in front + [t] <==> u in front || u == t;
  }

  // ---- replacing groups by merges ----------------------------------------

  /** Where the ids lead. */
  ghost function Image(ts: seq<Template>, h: map<string, string>): set<string> {
    set t | t in ts :: Follow(h, t.id)
  }

  lemma ImageConcat(a: seq<Template>, b: seq<Template>, h: map<string, string>)
    ensures Image(a + b, h) == Image(a, h) + Image(b, h)
  {
    assert forall t :: t in a + b <==> t in a || t in b;
  }

  lemma {:induction false} AssignGives(h: map<string, string>, fragments: seq<string>, survivor: string)
    ensures var k := Assign(h, fragments, survivor);
      forall id :: (id in k <==> id in fragments || id in h) && Follow(k, id) == if id in fragments then survivor
        else Follow(h, id)
  {
    if |fragments| != 0 {
      AssignGives(h, fragments[..|fragments| - 1], survivor);
      assert fragments == fragments[..|fragments| - 1] + [fragments[|fragments| - 1]];
    }
  }

  lemma IdsInList(ts: seq<Template>, t: Template)
    requires t in ts
    ensures t.id in IdsOf(ts)
  {
    var i :| 0 <= i < |ts| && ts[i] == t;
    assert IdsOf(ts)[i] == t.id;
  }

  lemma DistinctPrefix(a: seq<Template>, b: seq<Template>)
    requires DistinctIds(a + b)
    ensures DistinctIds(a) && forall t, u | t in a && u in b :: t.id != u.id
  {
    forall t, u | t in a && u in b ensures t.id != u.id {
      var i :| 0 <= i < |a| && a[i] == t;
      var j :| 0 <= j < |b| && b[j] == u;
      assert (a + b)[i] == t && (a + b)[|a| + j] == u;
    }
    assert forall i | 0 <= i < |a| :: (a + b)[i] == a[i];
  }

  /**
    What merging the groups promises about the map h that records it, whatever route r the survivors
    take from there.
   */
  ghost predicate Accounted(ts: seq<Template>, outcome: Outcome, h: map<string, string>, floor: nat, r: Route,
        x: string)
  {
    && (forall id | id in h :: id in IdSet(ts))
    && Summary(outcome.templates, r, x) == Summary(ts, Via(h, floor, r), x)
    && IdSet(outcome.templates) == Image(ts, h)
  }

  lemma PassThroughIds(ts: seq<Template>, group: seq<Template>, out: seq<Template>, h: map<string, string>)
    requires IdSet(out) == Image(ts, h) && forall t | t in group :: t.id !in h
    ensures IdSet(out + group) == Image(ts + group, h)
  {
    ImageConcat(ts, group, h);
    ImageConcat(out, group, map[]);
    assert Image(group, h) == IdSet(group) && Image(out, map[]) == IdSet(out);
    assert Image(out + group, map[]) == IdSet(out + group);
  }

  lemma PassThrough(ts: seq<Template>, group: seq<Template>, o: Outcome, h: map<string, string>, floor: nat, r: Route,
        x: string)
    requires Accounted(ts, o, h, floor, r, x) && DistinctIds(ts + group)
    ensures Accounted(ts + group, Outcome(o.templates + group, o.absorptions), h, floor, r, x)
  {
    DistinctPrefix(ts, group);
    var s := Via(h, floor, r);
    forall t | t in group ensures t.id !in h && Lead(r, t.id) == Lead(s, t.id) {
      LeadVia(h, floor, r, t.id);
    }
    assert Summary(o.templates + group, r, x) == Summary(ts + group, s, x) by {
      SummaryAgree(group, r, s, x);
      SummaryConcat(o.templates, group, r, x);
      SummaryConcat(ts, group, s, x);
    }
    PassThroughIds(ts, group, o.templates, h);
  }

  /** The fragments of a merge, seen through it, amount to the merge itself. */
  lemma MergeSummary(group: seq<Template>, m: Template, k: map<string, string>, floor: nat, r: Route, x: string)
    requires Of(m) == Raise(Whole(group), floor)
    requires forall t | t in group :: t.id in k && Follow(k, t.id) == m.id
    ensures Summary([m], r, x) == Summary(group, Via(k, floor, r), x)
  {
    var stop := Lead(r, m.id);
    forall t | t in group ensures Lead(Via(k, floor, r), t.id) == Stop(stop.id, Max(floor, stop.floor)) {
      LeadVia(k, floor, r, t.id);
    }
    SummaryConst(group, Via(k, floor, r), Stop(stop.id, Max(floor, stop.floor)), x);
    SummaryOne(m, r, x);
    RaiseTwice(Whole(group), floor, stop.floor);
  }

  lemma Replaced(ts: seq<Template>, group: seq<Template>, o: Outcome, m: Template, h: map<string, string>, floor: nat,
        r: Route, x: string)
    requires Accounted(ts, o, h, floor, r, x) && DistinctIds(ts + group) && |group| != 0
    requires Of(m) == Raise(Whole(group), floor)
    ensures Accounted(ts + group, Outcome(o.templates + [m], o.absorptions + [Absorption(m.id, IdsOf(group))]),
                      Assign(h, IdsOf(group), m.id), floor, r, x)
  {
    var k := Assign(h, IdsOf(group), m.id);
    AssignGives(h, IdsOf(group), m.id);
    DistinctPrefix(ts, group);
    forall t | t in group ensures t.id in k && Follow(k, t.id) == m.id {
      IdsInList(group, t);
    }
    forall t | t in ts ensures (t.id in k <==> t.id in h) && Follow(k, t.id) == Follow(h, t.id) {
      assert forall i | 0 <= i < |group| :: group[i] in group;
    }
    assert Summary(o.templates + [m], r, x) == Summary(ts + group, Via(k, floor, r), x) by {
      forall t | t in ts ensures Lead(Via(h, floor, r), t.id) == Lead(Via(k, floor, r), t.id) {
        LeadVia(h, floor, r, t.id);
        LeadVia(k, floor, r, t.id);
      }
      SummaryAgree(ts, Via(h, floor, r), Via(k, floor, r), x);
      MergeSummary(group, m, k, floor, r, x);
      SummaryConcat(o.templates, [m], r, x);
      SummaryConcat(ts, group, Via(k, floor, r), x);
    }
    ReplacedIds(ts, group, o.templates, m, h, k);
  }

  lemma ReplacedIds(ts: seq<Template>, group: seq<Template>, out: seq<Template>, m: Template, h: map<string, string>,
        k: map<string, string>)
    requires |group| != 0 && IdSet(out) == Image(ts, h)
    requires forall t | t in ts :: Follow(k, t.id) == Follow(h, t.id)
    requires forall t | t in group :: Follow(k, t.id) == m.id
    requires forall id | id in h :: id in IdSet(ts)
    requires forall id :: id in k <==> id in IdsOf(group) || id in h
    ensures IdSet(out + [m]) == Image(ts + group, k)
    ensures forall id | id in k :: id in IdSet(ts + group)
  {
    ImageConcat(ts, group, k);
    assert Image(ts, k) == Image(ts, h);
    ImageOfGroup(group, m.id, k);
    IdSetLast(out, m);
    forall id | id in k ensures id in IdSet(ts + group) {
      ReplacedKey(ts, group, h, id);
    }
  }

  lemma ImageOfGroup(group: seq<Template>, id: string, k: map<string, string>)
    requires |group| != 0 && forall t | t in group :: Follow(k, t.id) == id
    ensures Image(group, k) == {id}
  {
    assert group[0] in group;
  }

  lemma ReplacedKey(ts: seq<Template>, group: seq<Template>, h: map<string, string>, id: string)
    requires id in IdsOf(group) || id in h
    requires id in h ==> id in IdSet(ts)
    ensures id in IdSet(ts + group)
  {
    if id in IdsOf(group) {
      var i :| 0 <= i < |group| && group[i].id == id;
      assert group[i] in ts + group;
    } else {
      var t :| t in ts && t.id == id;
      assert t in ts + group;
    }
  }

  /** A round that absorbs nothing leaves the route as it is. */
  lemma ViaNothing(floor: nat, r: Route)
    ensures Via(map[], floor, r) == r
  {
    assert forall id | id in r :: Lead(r, id) == r[id];
  }

  lemma {:induction false} MergeGroupsAccounts(rules: Rules, family: Family, normal: seq<Template>,
        groups: seq<seq<Template>>, r: Route, x: string)
    requires forall i | 0 <= i < |groups| :: |groups[i]| != 0
    requires DistinctIds(normal + Flatten(groups))
    ensures var o := MergeGroups(rules, family, normal, groups);
      Accounted(normal + Flatten(groups), o, Record(map[], o.absorptions), SeedIndex(family), r, x)
  {
    if |groups| == 0 {
      assert normal + Flatten(groups) == normal;
      ViaNothing(SeedIndex(family), r);
    } else {
      var n := |groups| - 1;
      var ts, group := normal + Flatten(groups[..n]), groups[n];
      assert normal + Flatten(groups) == ts + group;
      DistinctPrefix(ts, group);
      MergeGroupsAccounts(rules, family, normal, groups[..n], r, x);
      var o := MergeGroups(rules, family, normal, groups[..n]);
      var h := Record(map[], o.absorptions);
      if |group| < MIN_GROUP {
        PassThrough(ts, group, o, h, SeedIndex(family), r, x);
      } else {
        var m := Merge(rules, family, group);
        MergeIsWhole(rules, family, group);
        Replaced(ts, group, o, m, h, SeedIndex(family), r, x);
        var a := o.absorptions + [Absorption(m.id, IdsOf(group))];
        assert a[..|o.absorptions|] == o.absorptions;
      }
    }
  }

  // ---- one consolidator --------------------------------------------------

  lemma SelectStep(rules: Rules, family: Family, ts: seq<Template>, role: Role)
    requires |ts| != 0
    ensures var was := Select(rules, family, ts[..|ts| - 1], role);
      Select(rules, family, ts, role) == if RoleOf(rules, family, ts[|ts| - 1]) == role then was + [ts[|ts| - 1]]
        else was
  {
  }

  /** Three lists that together rearrange all. */
  ghost predicate Parts(n: seq<Template>, h: seq<Template>, f: seq<Template>, all: seq<Template>) {
    multiset(n) + multiset(h) + multiset(f) == multiset(all)
  }

  lemma AddToOne(n: seq<Template>, h: seq<Template>, f: seq<Template>, all: seq<Template>, t: Template)
    requires Parts(n, h, f, all)
    ensures Parts(n + [t], h, f, all + [t]) && Parts(n, h + [t], f, all + [t]) && Parts(n, h, f + [t], all + [t])
  {
  }

  lemma {:induction false} PartitionMultiset(rules: Rules, family: Family, ts: seq<Template>)
    ensures Parts(Select(rules, family, ts, Normal), Select(rules, family, ts, Header),
      Select(rules, family, ts, Fragment), ts)
  {
    if |ts| != 0 {
      var front, t := ts[..|ts| - 1], ts[|ts| - 1];
      PartitionMultiset(rules, family, front);
      PartitionStep(rules, family, front, t, ts);
    }
  }

  lemma PartitionStep(rules: Rules, family: Family, front: seq<Template>, t: Template, ts: seq<Template>)
    requires ts == front + [t]
    requires Parts(Select(rules, family, front, Normal), Select(rules, family, front, Header),
      Select(rules, family, front, Fragment), front)
    ensures Parts(Select(rules, family, ts, Normal), Select(rules, family, ts, Header),
      Select(rules, family, ts, Fragment), ts)
  {
    assert ts[..|ts| - 1] == front && ts[|ts| - 1] == t;
    SelectStep(rules, family, ts, Normal);
    SelectStep(rules, family, ts, Header);
    SelectStep(rules, family, ts, Fragment);
    PartsOf(Select(rules, family, front, Normal), Select(rules, family, front, Header),
      Select(rules, family, front, Fragment),
            front, t, ts, RoleOf(rules, family, t));
  }

  lemma PartsOf(n: seq<Template>, h: seq<Template>, f: seq<Template>, front: seq<Template>, t: Template,
        ts: seq<Template>, role: Role)
    requires ts == front + [t] && Parts(n, h, f, front)
    ensures Parts(if role == Normal then n + [t] else n, if role == Header then h + [t] else h,
      if role == Fragment then f + [t] else f, ts)
  {
    AddToOne(n, h, f, front, t);
  }

  lemma {:induction false} DistinctCounts(ts: seq<Template>, t: Template)
    requires DistinctIds(ts)
    ensures multiset(ts)[t] <= 1
  {
    if |ts| != 0 {
      var front, last := ts[..|ts| - 1], ts[|ts| - 1];
      DistinctCounts(front, t);
      assert ts == front + [last];
      assert last !in multiset(front) by {
        assert last !in front;
      }
    }
  }

  /** Rearranging templates of distinct ids keeps the ids distinct. */
  lemma DistinctRearranged(a: seq<Template>, b: seq<Template>)
    requires DistinctIds(a) && multiset(a) == multiset(b)
    ensures DistinctIds(b) && forall t :: t in a <==> t in b
  {
    assert forall t :: t in a <==> t in multiset(a);
    assert forall t :: t in b <==> t in multiset(b);
    forall i, j | 0 <= i < j < |b| ensures b[i].id != b[j].id {
      assert b[i] in a && b[j] in a;
      DistinctCounts(a, b[j]);
      assert b == b[..j] + [b[j]] + b[j + 1..];
      assert b[i] in b[..j];
      assert b[i] in multiset(b[..j]);
      assert multiset(b) == multiset(b[..j]) + multiset{b[j]} + multiset(b[j + 1..]);
    }
  }

  lemma SameMembersSameImage(a: seq<Template>, b: seq<Template>, h: map<string, string>)
    requires forall t :: t in a <==> t in b
    ensures IdSet(a) == IdSet(b) && Image(a, h) == Image(b, h)
  {
  }

  /** The round's map: what its absorptions record. */
  function RoundMap(rules: Rules, family: Family, ts: seq<Template>): map<string, string> {
    Record(map[], Consolidate(rules, family, ts).absorptions)
  }

  /**
    One consolidator neither loses nor invents: for every id x, and whatever route r the survivors take
    from there, their aggregate at x is exactly that of the templates led there through the round, each
    absorbed one raised to the family's severity. The surviving ids are distinct and are exactly the ids
    the absorptions lead to.
   */
  lemma RoundAccounts(rules: Rules, family: Family, ts: seq<Template>, r: Route, x: string)
    requires DistinctIds(ts)
    ensures var h := RoundMap(rules, family, ts);
      var out := Consolidate(rules, family, ts).templates;
      && DistinctIds(out)
      && (forall id | id in h :: id in IdSet(ts))
      && Summary(out, r, x) == Summary(ts, Via(h, SeedIndex(family), r), x)
      && IdSet(out) == Image(ts, h)
  {
    if TooFew(rules, family, ts) {
      assert Image(ts, map[]) == IdSet(ts);
      ViaNothing(SeedIndex(family), r);
    } else {
      MergedRound(rules, family, ts, r, x);
    }
  }

  /** Partitioned and sorted, the templates are the same ones, and amount to the same. */
  lemma Rearranged(rules: Rules, family: Family, ts: seq<Template>, s: Route, x: string)
    requires DistinctIds(ts)
    ensures var all := Select(rules, family, ts, Normal) + SortStable(Candidates(rules, family, ts), LastSeenOf);
      DistinctIds(all) && (forall t :: t in ts <==> t in all) && Summary(all, s, x) == Summary(ts, s, x)
  {
    var normal, candidates := Select(rules, family, ts, Normal), Candidates(rules, family, ts);
    var sorted := SortStable(candidates, LastSeenOf);
    assert multiset(normal + sorted) == multiset(ts) by {
      PartitionMultiset(rules, family, ts);
      SortStableCorrect(candidates, LastSeenOf);
    }
    DistinctRearranged(ts, normal + sorted);
    SummaryConcat(normal, sorted, s, x);
    SortSummary(candidates, s, x);
    PartitionSummary(rules, family, ts, s, x);
  }

  lemma MergedRound(rules: Rules, family: Family, ts: seq<Template>, r: Route, x: string)
    requires DistinctIds(ts) && !TooFew(rules, family, ts)
    ensures var h := RoundMap(rules, family, ts);
      var out := Consolidate(rules, family, ts).templates;
      && DistinctIds(out)
      && (forall id | id in h :: id in IdSet(ts))
      && Summary(out, r, x) == Summary(ts, Via(h, SeedIndex(family), r), x)
      && IdSet(out) == Image(ts, h)
  {
    var normal, sorted := Select(rules, family, ts, Normal), SortStable(Candidates(rules, family, ts), LastSeenOf);
    var groups := Groups(rules, family, ts);
    var h := RoundMap(rules, family, ts);
    Rearranged(rules, family, ts, Via(h, SeedIndex(family), r), x);
    GroupsFlatten(sorted, Window(family));
    MergeGroupsAccounts(rules, family, normal, groups, r, x);
    SameMembersSameImage(ts, normal + sorted, h);
    DedupeKeeps(rules, MergeGroups(rules, family, normal, groups).templates, r, x);
  }

  // ---- published fields --------------------------------------------------

  /** The id and the alias follow the pattern and the severity. */
  predicate Named(rules: Rules, t: Template) {
    t.id == rules.templateHash(t.pattern) && t.alias == rules.alias(t.pattern, t.severity)
  }

  predicate AllNamed(rules: Rules, ts: seq<Template>) {
    forall t | t in ts :: Named(rules, t)
  }

  lemma {:induction false} DedupeKeepsNamed(rules: Rules, ts: seq<Template>)
    requires AllNamed(rules, ts)
    ensures AllNamed(rules, Dedupe(rules, ts))
  {
    if |ts| != 0 {
      DedupeKeepsNamed(rules, ts[..|ts| - 1]);
      var kept, t := Dedupe(rules, ts[..|ts| - 1]), ts[|ts| - 1];
      forall u | u in FoldIn(rules, kept, t) ensures Named(rules, u) {
        var at := Find(kept, t.id);
        if at.Some? {
          assert Named(rules, kept[at.value]);
        }
      }
    }
  }

  lemma {:induction false} MergeGroupsKeepsNamed(rules: Rules, family: Family, normal: seq<Template>,
        groups: seq<seq<Template>>)
    requires forall i | 0 <= i < |groups| :: |groups[i]| != 0
    requires AllNamed(rules, normal + Flatten(groups))
    ensures AllNamed(rules, MergeGroups(rules, family, normal, groups).templates)
  {
    if |groups| == 0 {
      assert normal + Flatten(groups) == normal;
    } else {
      var front, group := groups[..|groups| - 1], groups[|groups| - 1];
      assert normal + Flatten(groups) == (normal + Flatten(front)) + group;
      MergeGroupsKeepsNamed(rules, family, normal, front);
      MergeIsWhole(rules, family, group);
    }
  }

  /** Every survivor's id and alias are still those of its own pattern and severity. */
  lemma SurvivorsAreNamed(rules: Rules, family: Family, ts: seq<Template>)
    requires AllNamed(rules, ts)
    ensures AllNamed(rules, Consolidate(rules, family, ts).templates)
  {
    if !TooFew(rules, family, ts) {
      var normal, candidates := Select(rules, family, ts, Normal), Candidates(rules, family, ts);
      var sorted := SortStable(candidates, LastSeenOf);
      GroupsFlatten(sorted, Window(family));
      PartitionMultiset(rules, family, ts);
      SortStableCorrect(candidates, LastSeenOf);
      forall t | t in normal + sorted ensures Named(rules, t) {
        assert t in multiset(normal) || t in multiset(sorted);
        assert t in multiset(ts);
      }
      MergeGroupsKeepsNamed(rules, family, normal, Groups(rules, family, ts));
      DedupeKeepsNamed(rules, MergeGroups(rules, family, normal, Groups(rules, family, ts)).templates);
    }
  }

  // ---- conservation without any proviso ----------------------------------

  function Total(ts: seq<Template>): int {
    if |ts| == 0 then 0 else Total(ts[..|ts| - 1]) + ts[|ts| - 1].count
  }

  lemma {:induction false} TotalConcat(a: seq<Template>, b: seq<Template>)
    ensures Total(a + b) == Total(a) + Total(b)
  {
    if |b| == 0 {
      assert a + b == a;
    } else {
      assert (a + b)[..|a + b| - 1] == a + b[..|b| - 1];
      TotalConcat(a, b[..|b| - 1]);
    }
  }

  lemma {:induction false} TotalUpdate(ts: seq<Template>, i: nat, m: Template)
    requires i < |ts|
    ensures Total(ts[i := m]) == Total(ts) - ts[i].count + m.count
  {
    var n := |ts| - 1;
    if i < n {
      assert ts[i := m][..n] == ts[..n][i := m];
      TotalUpdate(ts[..n], i, m);
    } else {
      assert ts[i := m][..n] == ts[..n];
    }
  }

  lemma {:induction false} DedupeTotal(rules: Rules, ts: seq<Template>)
    ensures Total(Dedupe(rules, ts)) == Total(ts)
  {
    if |ts| != 0 {
      var kept, t := Dedupe(rules, ts[..|ts| - 1]), ts[|ts| - 1];
      DedupeTotal(rules, ts[..|ts| - 1]);
      var at := Find(kept, t.id);
      if at.None? {
        TotalConcat(kept, [t]);
      } else {
        TotalUpdate(kept, at.value, FoldIn(rules, kept, t)[at.value]);
      }
    }
  }

  lemma {:induction false} MergedUpToTotal(rules: Rules, family: Family, group: seq<Template>, n: nat)
    requires 0 < |group| && n <= |group|
    ensures MergedUpTo(rules, family, group, n).count == Total(group[..n])
  {
    if n != 0 {
      MergedUpToTotal(rules, family, group, n - 1);
      assert group[..n][..n - 1] == group[..n - 1];
    }
  }

  lemma {:induction false} MergeGroupsTotal(rules: Rules, family: Family, normal: seq<Template>,
        groups: seq<seq<Template>>)
    requires forall i | 0 <= i < |groups| :: |groups[i]| != 0
    ensures Total(MergeGroups(rules, family, normal, groups).templates) == Total(normal) + Total(Flatten(groups))
  {
    if |groups| != 0 {
      var front, group := groups[..|groups| - 1], groups[|groups| - 1];
      MergeGroupsTotal(rules, family, normal, front);
      TotalConcat(Flatten(front), group);
      var sofar := MergeGroups(rules, family, normal, front).templates;
      TotalConcat(sofar, group);
      TotalConcat(sofar, [Merge(rules, family, group)]);
      MergedUpToTotal(rules, family, group, |group|);
      assert group[..|group|] == group;
    }
  }

  lemma {:induction false} SortTotal(s: seq<Template>)
    ensures Total(SortStable(s, LastSeenOf)) == Total(s)
  {
    if |s| != 0 {
      SortTotal(s[..|s| - 1]);
      InsertTotal(SortStable(s[..|s| - 1], LastSeenOf), s[|s| - 1]);
    }
  }

  lemma {:induction false} InsertTotal(s: seq<Template>, t: Template)
    ensures Total(Insert(s, t, LastSeenOf)) == Total(s) + t.count
  {
    if |s| == 0 || LastSeenOf(s[|s| - 1]) <= LastSeenOf(t) {
      TotalConcat(s, [t]);
    } else {
      InsertTotal(s[..|s| - 1], t);
      TotalConcat(Insert(s[..|s| - 1], t, LastSeenOf), [s[|s| - 1]]);
    }
  }

  lemma {:induction false} PartitionTotal(rules: Rules, family: Family, ts: seq<Template>)
    ensures Total(ts) == Total(Select(rules, family, ts, Normal)) + Total(Select(rules, family, ts, Header))
                       + Total(Select(rules, family, ts, Fragment))
  {
    if |ts| != 0 {
      var front, t := ts[..|ts| - 1], ts[|ts| - 1];
      PartitionTotal(rules, family, front);
      SelectTotal(rules, family, ts, Normal);
      SelectTotal(rules, family, ts, Header);
      SelectTotal(rules, family, ts, Fragment);
    }
  }

  lemma SelectTotal(rules: Rules, family: Family, ts: seq<Template>, role: Role)
    requires |ts| != 0
    ensures Total(Select(rules, family, ts, role)) == Total(Select(rules, family, ts[..|ts| - 1], role))
      + if RoleOf(rules, family, ts[|ts| - 1]) == role then ts[|ts| - 1].count else 0
  {
    var front := Select(rules, family, ts[..|ts| - 1], role);
    TotalConcat(front, [ts[|ts| - 1]]);
    assert front + [] == front;
  }

  /** Whatever the ids and patterns, the survivors' counts add up to the counts that went in. */
  lemma CountsSurvive(rules: Rules, family: Family, ts: seq<Template>)
    ensures Total(Consolidate(rules, family, ts).templates) == Total(ts)
  {
    if !TooFew(rules, family, ts) {
      var normal, candidates := Select(rules, family, ts, Normal), Candidates(rules, family, ts);
      var groups := Groups(rules, family, ts);
      DedupeTotal(rules, MergeGroups(rules, family, normal, groups).templates);
      MergeGroupsTotal(rules, family, normal, groups);
      GroupsFlatten(SortStable(candidates, LastSeenOf), Window(family));
      SortTotal(candidates);
      TotalConcat(Select(rules, family, ts, Header), Select(rules, family, ts, Fragment));
      PartitionTotal(rules, family, ts);
    }
  }
}
