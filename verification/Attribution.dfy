/** From templates before consolidation to the survivors: the remap, and exactly what it attributes. */
module Attribution {

  import opened Strings
  import opened Model
  import opened Consolidation
  import opened ConsolidationTheorems
  import opened Absorptions

  // ---- the fallback survivor ---------------------------------------------

  /** a precedes b in the fallback order: later last, then later first, then smaller id. */
  predicate Precedes(a: Template, b: Template) {
    a.lastSeen > b.lastSeen
    || (a.lastSeen == b.lastSeen && (a.firstSeen > b.firstSeen || (a.firstSeen == b.firstSeen && Less(a.id, b.id))))
  }

  /** The id of a template that no other precedes; empty when there is none. */
  ghost predicate IsFallback(after: seq<Template>, id: string) {
    if |after| == 0 then id == ""
    else exists t :: t in after && t.id == id && forall u | u in after :: !Precedes(u, t)
  }

  lemma HasMember(ts: seq<Template>)
    ensures ts != [] ==> exists t :: t in ts
  {
    if ts != [] {
      assert ts[0] in ts;
    }
  }

  /** The choice does not depend on the order of the slice. */
  lemma FallbackIsOrderFree(a: seq<Template>, b: seq<Template>, x: string, y: string)
    requires forall t :: t in a <==> t in b
    requires IsFallback(a, x) && IsFallback(b, y)
    ensures x == y
  {
    HasMember(b);
    if |a| != 0 {
      assert a[0] in b;
      var t :| t in a && t.id == x && forall u | u in a :: !Precedes(u, t);
      var s :| s in b && s.id == y && forall u | u in b :: !Precedes(u, s);
      LessTotal(t.id, s.id);
    }
  }

  lemma PrecedesAsymmetric(a: Template, b: Template)
    requires Precedes(a, b)
    ensures !Precedes(b, a)
  {
    if a.lastSeen == b.lastSeen && a.firstSeen == b.firstSeen {
      LessAsymmetric(a.id, b.id);
    }
  }

  lemma PrecedesTransitive(a: Template, b: Template, c: Template)
    requires !Precedes(b, a) && !Precedes(c, b)
    ensures !Precedes(c, a)
  {
    if Precedes(c, a) {
      LessTotal(a.id, b.id);
      LessTotal(b.id, c.id);
      if a.lastSeen == c.lastSeen && a.firstSeen == c.firstSeen {
        LessAsymmetric(c.id, a.id);
        if Less(a.id, b.id) && Less(b.id, c.id) {
          LessTransitive(a.id, b.id, c.id);
        }
      }
    }
  }

  lemma PrecedesIrreflexive(t: Template)
    ensures !Precedes(t, t)
  {
    LessIrreflexive(t.id);
  }

  /** Some template is preceded by none. */
  lemma {:induction false} SomeIsUnpreceded(after: seq<Template>) returns (t: Template)
    requires after != []
    ensures t in after && forall u | u in after :: !Precedes(u, t)
    decreases |after|
  {
    var last := after[|after| - 1];
    PrecedesIrreflexive(last);
    if |after| == 1 {
      t := last;
    } else {
      var front := after[..|after| - 1];
      assert after == front + [last];
      t := SomeIsUnpreceded(front);
      if Precedes(last, t) {
        PrecedesAsymmetric(last, t);
        forall u | u in after ensures !Precedes(u, last) {
          if u in front {
            PrecedesTransitive(last, t, u);
          }
        }
        t := last;
      }
    }
  }

  lemma FallbackExists(after: seq<Template>)
    ensures exists id :: IsFallback(after, id)
  {
    if after == [] {
      assert IsFallback(after, "");
    } else {
      var t := SomeIsUnpreceded(after);
      assert IsFallback(after, t.id);
    }
  }

  /** The fallback survivor's id. */
  ghost function FallbackOf(after: seq<Template>): (id: string)
    ensures IsFallback(after, id)
  {
    FallbackExists(after);
    var id :| IsFallback(after, id);
    id
  }

  /** Seen last; among those, first seen last; among those, of the least id. */
  ghost predicate IsLatest(after: seq<Template>, t: Template) {
    && t in after
    && (forall u | u in after :: u.lastSeen <= t.lastSeen)
    && (forall u | u in after && u.lastSeen == t.lastSeen :: u.firstSeen <= t.firstSeen)
    && forall u | u in after && u.lastSeen == t.lastSeen && u.firstSeen == t.firstSeen :: !Less(u.id, t.id)
  }

  lemma UnprecededIsLatest(after: seq<Template>, t: Template)
    requires t in after && forall u | u in after :: !Precedes(u, t)
    ensures IsLatest(after, t)
  {
    forall u | u in after
      ensures u.lastSeen <= t.lastSeen && (u.lastSeen == t.lastSeen ==> u.firstSeen <= t.firstSeen)
      ensures u.lastSeen == t.lastSeen && u.firstSeen == t.firstSeen ==> !Less(u.id, t.id)
    {
      assert !Precedes(u, t);
    }
  }

  /** What is left without a live absorber is sent to the template seen latest, when there is one. */
  lemma FallbackIsLatest(after: seq<Template>, id: string)
    requires IsFallback(after, id)
    ensures if after == [] then id == "" else exists t :: IsLatest(after, t) && t.id == id
  {
    if after != [] {
      var t :| t in after && t.id == id && forall u | u in after :: !Precedes(u, t);
      UnprecededIsLatest(after, t);
    }
  }

  // ---- the remap ---------------------------------------------------------

  /** Every id that did not survive is sent to its live absorber, else to the fallback if there is one. */
  function RemapOne(surviving: set<string>, absorbedBy: map<string, string>, fallback: string,
        remap: map<string, string>, id: string)
    : map<string, string>
  {
    if id in surviving then remap
    else if id in absorbedBy && absorbedBy[id] in surviving then remap[id := absorbedBy[id]]
    else if fallback != "" then remap[id := fallback]
    else remap
  }

  function Remap(before: seq<string>, surviving: set<string>, absorbedBy: map<string, string>, fallback: string)
    : map<string, string>
  {
    if |before| == 0 then map[]
    else RemapOne(surviving, absorbedBy, fallback, Remap(before[..|before| - 1], surviving, absorbedBy, fallback),
      before[|before| - 1])
  }

  lemma {:induction false} RemapGives(before: seq<string>, surviving: set<string>, absorbedBy: map<string, string>,
        fallback: string)
    requires fallback in surviving || (surviving == {} && fallback == "")
    ensures var remap := Remap(before, surviving, absorbedBy, fallback);
      && (surviving != {} && fallback != "" ==> forall id :: id in remap <==> id in before && id !in surviving)
      && (surviving == {} ==> remap == map[])
      && (forall id | id in remap :: id !in surviving && remap[id] in surviving)
      && (forall id | id in remap && id in absorbedBy && absorbedBy[id] in surviving :: remap[id] == absorbedBy[id])
      && (forall id | id in before && id !in surviving && id in absorbedBy && absorbedBy[id] in surviving ::
        id in remap)
  {
    if |before| != 0 {
      RemapGives(before[..|before| - 1], surviving, absorbedBy, fallback);
      assert before == before[..|before| - 1] + [before[|before| - 1]];
    }
  }

  /**
    Remap totality: whenever something survives, the remap is defined on exactly the ids that did not,
    and every target is live.
   */
  lemma RemapIsTotal(before: seq<Template>, after: seq<Template>, absorbedBy: map<string, string>, fallback: string)
    requires IsFallback(after, fallback) && forall t | t in after :: t.id != ""
    ensures var remap := Remap(IdsOf(before), IdSet(after), absorbedBy, fallback);
      && (after != [] ==> remap.Keys == IdSet(before) - IdSet(after))
      && (after == [] ==> remap == map[])
      && (forall id | id in remap :: remap[id] in IdSet(after))
  {
    RemapGives(IdsOf(before), IdSet(after), absorbedBy, fallback);
    forall id ensures id in IdsOf(before) <==> id in IdSet(before) {
      IdsAreIds(before, id);
    }
    if after != [] {
      assert after[0] in after;
      assert fallback in IdSet(after);
    }
  }

  lemma IdsAreIds(ts: seq<Template>, id: string)
    ensures id in IdsOf(ts) <==> id in IdSet(ts)
  {
    if id in IdsOf(ts) {
      var i :| 0 <= i < |ts| && IdsOf(ts)[i] == id;
      assert ts[i] in ts;
    }
    if id in IdSet(ts) {
      var t :| t in ts && t.id == id;
      IdsInList(ts, t);
    }
  }

  // ---- a chain of consolidators ------------------------------------------

  const DEFAULT_FAMILIES := [GoStack, PythonTraceback]

  function After(rules: Rules, families: seq<Family>, ts: seq<Template>): seq<Template> {
    if |families| == 0 then ts
    else Consolidate(rules, families[|families| - 1], After(rules, families[..|families| - 1], ts)).templates
  }

  function Maps(rules: Rules, families: seq<Family>, ts: seq<Template>): (ms: seq<Relation>)
    ensures |ms| == |families|
  {
    if |families| == 0 then []
    else
      var front := families[..|families| - 1];
      Maps(rules, front, ts) + [RoundMap(rules, families[|families| - 1], After(rules, front, ts))]
  }

  /** The merged ids of every consolidator are fresh: each survivor id is new, or one of its own fragments'. */
  ghost predicate FreshMerges(rules: Rules, families: seq<Family>, ts: seq<Template>)
    decreases |families|
  {
    |families| == 0 || (
      var front := families[..|families| - 1];
      FreshMerges(rules, front, ts)
      && FreshSurvivors(Truth(Maps(rules, front, ts)),
        RoundMap(rules, families[|families| - 1], After(rules, front, ts))))
  }

  /**
    Distinct ids stay distinct, the live ids are those the true relation leads to, and each round absorbs
    live ids only.
   */
  lemma {:induction false} ChainOfConsolidators(rules: Rules, families: seq<Family>, ts: seq<Template>)
    requires DistinctIds(ts)
    ensures DistinctIds(After(rules, families, ts))
    ensures IdSet(After(rules, families, ts)) == LiveAfterAll(Maps(rules, families, ts), IdSet(ts))
    ensures FreshMerges(rules, families, ts) ==> Chain(Maps(rules, families, ts), IdSet(ts))
    decreases |families|
  {
    if |families| != 0 {
      var front, family := families[..|families| - 1], families[|families| - 1];
      ChainOfConsolidators(rules, front, ts);
      RoundAccounts(rules, family, After(rules, front, ts), map[], "");
      var maps := Maps(rules, families, ts);
      assert maps[..|maps| - 1] == Maps(rules, front, ts);
      assert Image(After(rules, front, ts), RoundMap(rules, family, After(rules, front, ts)))
          == LiveAfter(IdSet(After(rules, front, ts)), RoundMap(rules, family, After(rules, front, ts)));
    }
  }

  /** Conservation through the whole chain, whatever the ids. */
  lemma {:induction false} ChainKeepsTotal(rules: Rules, families: seq<Family>, ts: seq<Template>)
    ensures Total(After(rules, families, ts)) == Total(ts)
    decreases |families|
  {
    if |families| != 0 {
      ChainKeepsTotal(rules, families[..|families| - 1], ts);
      CountsSurvive(rules, families[|families| - 1], After(rules, families[..|families| - 1], ts));
    }
  }

  /**
    Through all the rounds, then on along r: where each original id ends up, and what severity floor its
    merges set.
   */
  function RouteOf(rules: Rules, families: seq<Family>, ts: seq<Template>, r: Route): Route
    decreases |families|
  {
    if |families| == 0 then r
    else
      var front, family := families[..|families| - 1], families[|families| - 1];
      RouteOf(rules, front, ts, Via(RoundMap(rules, family, After(rules, front, ts)), SeedIndex(family), r))
  }

  /**
    Through any number of consolidators: the aggregate of every surviving id is exactly that of the
    original templates led to it, severity included.
   */
  lemma {:induction false} ChainAccounts(rules: Rules, families: seq<Family>, ts: seq<Template>, r: Route, x: string)
    requires DistinctIds(ts)
    ensures Summary(After(rules, families, ts), r, x) == Summary(ts, RouteOf(rules, families, ts, r), x)
    decreases |families|
  {
    if |families| != 0 {
      var front, family := families[..|families| - 1], families[|families| - 1];
      var was := After(rules, front, ts);
      ChainOfConsolidators(rules, front, ts);
      RoundAccounts(rules, family, was, r, x);
      ChainAccounts(rules, front, ts, Via(RoundMap(rules, family, was), SeedIndex(family), r), x);
    }
  }

  /** The greatest severity that any merge on an original id's way starts from; zero when it was never merged. */
  function FloorOf(rules: Rules, families: seq<Family>, ts: seq<Template>, id: string): nat
    decreases |families|
  {
    if |families| == 0 then 0
    else
      var front, family := families[..|families| - 1], families[|families| - 1];
      Max(FloorOf(rules, front, ts, id),
          if Follow(Truth(Maps(rules, front, ts)), id) in RoundMap(rules, family, After(rules, front, ts))
          then SeedIndex(family) else 0)
  }

  /** The route leads where the true relation does, under exactly that floor. */
  lemma {:induction false} RouteIsTruth(rules: Rules, families: seq<Family>, ts: seq<Template>, r: Route, id: string)
    ensures var stop := Lead(r, Follow(Truth(Maps(rules, families, ts)), id));
      Lead(RouteOf(rules, families, ts, r), id) == Stop(stop.id, Max(FloorOf(rules, families, ts, id), stop.floor))
    decreases |families|
  {
    if |families| != 0 {
      var front, family := families[..|families| - 1], families[|families| - 1];
      var h := RoundMap(rules, family, After(rules, front, ts));
      var truth := Truth(Maps(rules, front, ts));
      RouteIsTruth(rules, front, ts, Via(h, SeedIndex(family), r), id);
      LeadVia(h, SeedIndex(family), r, Follow(truth, id));
      var maps := Maps(rules, families, ts);
      assert maps[..|maps| - 1] == Maps(rules, front, ts);
      assert Follow(Composed(truth, h), id) == Follow(h, Follow(truth, id));
    }
  }

  /** With fresh merges the remap the code builds leads every original id where it truly went. */
  lemma RemapIsTruth(rules: Rules, families: seq<Family>, ts: seq<Template>, absorbedBy: map<string, string>,
        fallback: string, id: string)
    requires DistinctIds(ts) && FreshMerges(rules, families, ts)
    requires Computed(Maps(rules, families, ts), absorbedBy)
    requires IsFallback(After(rules, families, ts), fallback)
    requires id in IdSet(ts)
    ensures var remap := Remap(IdsOf(ts), IdSet(After(rules, families, ts)), absorbedBy, fallback);
      Follow(remap, id) == Follow(Truth(Maps(rules, families, ts)), id)
      && Follow(remap, id) in IdSet(After(rules, families, ts))
  {
    var maps := Maps(rules, families, ts);
    var after := After(rules, families, ts);
    ChainOfConsolidators(rules, families, ts);
    ChainFlattens(maps, IdSet(ts), absorbedBy);
    if after != [] {
      assert after[0] in after;
    }
    RemapGives(IdsOf(ts), IdSet(after), absorbedBy, fallback);
    IdsAreIds(ts, id);
    TruthIsLive(maps, IdSet(ts), id);
  }

  lemma {:induction false} TruthIsLive(rounds: seq<Relation>, live: set<string>, id: string)
    requires id in live
    ensures Follow(Truth(rounds), id) in LiveAfterAll(rounds, live)
    decreases |rounds|
  {
    if |rounds| != 0 {
      TruthIsLive(rounds[..|rounds| - 1], live, id);
    }
  }

  lemma GoFragmentKeepsPattern(rules: Rules, m: Template, t: Template)
    ensures CollectGoExample(rules, AbsorbInto(m, t), t).pattern == m.pattern
  {
  }

  lemma {:induction false} MergedUpToPattern(rules: Rules, group: seq<Template>, n: nat)
    requires 0 < |group| && n <= |group|
    ensures MergedUpTo(rules, GoStack, group, n).pattern == GO_PATTERN
  {
    if n != 0 {
      MergedUpToPattern(rules, group, n - 1);
      GoFragmentKeepsPattern(rules, MergedUpTo(rules, GoStack, group, n - 1), group[n - 1]);
    }
  }

  lemma GoMergeId(rules: Rules, group: seq<Template>)
    requires 0 < |group|
    ensures Merge(rules, GoStack, group).id == rules.templateHash(GO_PATTERN)
  {
    MergedUpToPattern(rules, group, |group|);
  }

  lemma {:induction false} GoAbsorbsIntoOne(rules: Rules, normal: seq<Template>, groups: seq<seq<Template>>, f: string)
    requires forall i | 0 <= i < |groups| :: |groups[i]| != 0
    requires f in Record(map[], MergeGroups(rules, GoStack, normal, groups).absorptions)
    ensures Record(map[], MergeGroups(rules, GoStack, normal, groups).absorptions)[f] == rules.templateHash(GO_PATTERN)
  {
    if |groups| != 0 {
      var front, group := groups[..|groups| - 1], groups[|groups| - 1];
      var was := MergeGroups(rules, GoStack, normal, front).absorptions;
      if |group| >= MIN_GROUP {
        GoMergeId(rules, group);
        var a := Absorption(Merge(rules, GoStack, group).id, IdsOf(group));
        assert (was + [a])[..|was|] == was;
        AssignGives(Record(map[], was), a.fragments, a.survivor);
        assert Follow(Assign(Record(map[], was), a.fragments, a.survivor), f)
          == Assign(Record(map[], was), a.fragments, a.survivor)[f];
      }
      if f in Record(map[], was) {
        GoAbsorbsIntoOne(rules, normal, front, f);
      }
    }
  }

  /** The Go merge always has fresh ids: all its groups share one pattern, hence one id. */
  lemma GoMergesAreFresh(rules: Rules, ts: seq<Template>)
    ensures FreshMerges(rules, [GoStack], ts)
  {
    assert [GoStack][..0] == [];
    var h := RoundMap(rules, GoStack, ts);
    assert Recorded(map[], h) == h;
    forall f | f in h ensures h[f] == rules.templateHash(GO_PATTERN) {
      GoAbsorbsIntoOne(rules, Select(rules, GoStack, ts, Normal), Groups(rules, GoStack, ts), f);
    }
    assert FreshSurvivors(map[], h);
    assert Truth(Maps(rules, [], ts)) == map[];
    assert FreshMerges(rules, [], ts);
  }

  /** So for the default consolidators only the Python merges have to be fresh. */
  lemma OnlyPythonMergesMatter(rules: Rules, ts: seq<Template>)
    ensures FreshMerges(rules, DEFAULT_FAMILIES, ts)
       <==> FreshSurvivors(RoundMap(rules, GoStack, ts),
                           RoundMap(rules, PythonTraceback, Consolidate(rules, GoStack, ts).templates))
  {
    GoMergesAreFresh(rules, ts);
    assert DEFAULT_FAMILIES[..1] == [GoStack] && [GoStack][..0] == [];
    var h := RoundMap(rules, GoStack, ts);
    assert Maps(rules, [GoStack], ts) == [h];
    assert Truth([h]) == h by {
      assert [h][..0] == [];
      assert Composed(map[], h) == h;
    }
  }

  // ---- the default chain is one pass -------------------------------------

  /** A relation with one value, which if absorbed stays put, is left alone by every pass. */
  lemma {:induction false} PassLeavesAlone(m: Relation, order: seq<string>, survivor: string)
    requires (forall k | k in order :: k in m) && forall f | f in m :: m[f] == survivor
    ensures Pass(m, order) == m
    decreases |order|
  {
    if |order| != 0 {
      PassLeavesAlone(m, order[..|order| - 1], survivor);
    }
  }

  /** What the default consolidators record, the Python round overriding the Go round. */
  function Recording(rules: Rules, ts: seq<Template>): Relation {
    Recorded(RoundMap(rules, GoStack, ts), RoundMap(rules, PythonTraceback, Consolidate(rules, GoStack, ts).templates))
  }

  lemma MapsOfDefault(rules: Rules, ts: seq<Template>)
    ensures After(rules, [GoStack], ts) == Consolidate(rules, GoStack, ts).templates
    ensures After(rules, DEFAULT_FAMILIES, ts)
         == Consolidate(rules, PythonTraceback, Consolidate(rules, GoStack, ts).templates).templates
    ensures Maps(rules, [GoStack], ts) == [RoundMap(rules, GoStack, ts)]
    ensures Maps(rules, DEFAULT_FAMILIES, ts)
         == [RoundMap(rules, GoStack, ts), RoundMap(rules, PythonTraceback, Consolidate(rules, GoStack, ts).templates)]
  {
    var go: seq<Family> := [GoStack];
    assert DEFAULT_FAMILIES[..1] == go && go[..0] == [];
    assert After(rules, [], ts) == ts && Maps(rules, [], ts) == [];
  }

  lemma GoRoundHasOneValue(rules: Rules, ts: seq<Template>, f: string)
    requires f in RoundMap(rules, GoStack, ts)
    ensures RoundMap(rules, GoStack, ts)[f] == rules.templateHash(GO_PATTERN)
  {
    GoAbsorbsIntoOne(rules, Select(rules, GoStack, ts, Normal), Groups(rules, GoStack, ts), f);
  }

  /** A first round with one value computes what it records, whatever the order. */
  lemma OneValueComputes(rounds: seq<Relation>, g: Relation, survivor: string, was: Relation)
    requires rounds == [g] && forall f | f in g :: g[f] == survivor
    ensures Computed(rounds, was) <==> was == g
  {
    assert rounds[..|rounds| - 1] == [] && Recorded(map[], g) == g;
    if ComputedAfter([], g, was) {
      var none, order :| Computed([], none) && Passed(none, g, order, was);
      PassLeavesAlone(g, order, survivor);
    }
    if was == g {
      var order := SomeOrder(g.Keys);
      PassLeavesAlone(g, order, survivor);
      assert Computed([], map[]) && Passed(map[], g, order, g);
    }
  }

  lemma GoRoundComputes(rules: Rules, ts: seq<Template>, rounds: seq<Relation>, was: Relation)
    requires rounds == [RoundMap(rules, GoStack, ts)]
    ensures Computed(rounds, was) <==> was == rounds[0]
  {
    forall f | f in rounds[0] ensures rounds[0][f] == rules.templateHash(GO_PATTERN) {
      GoRoundHasOneValue(rules, ts, f);
    }
    OneValueComputes(rounds, rounds[0], rules.templateHash(GO_PATTERN), was);
  }

  /** r is what one pass in some order makes of m. */
  ghost predicate OnePass(m: Relation, r: Relation) {
    exists order :: Enumerates(order, m.Keys) && r == Pass(m, order)
  }

  /** The relations the default chain can compute are those one pass can make of what it records. */
  lemma DefaultIsOnePass(rules: Rules, ts: seq<Template>, r: Relation)
    ensures Computed(Maps(rules, DEFAULT_FAMILIES, ts), r) <==> OnePass(Recording(rules, ts), r)
  {
    var g, h := RoundMap(rules, GoStack, ts),
      RoundMap(rules, PythonTraceback, Consolidate(rules, GoStack, ts).templates);
    var front, rounds: seq<Relation> := [g], [g, h];
    MapsOfDefault(rules, ts);
    assert rounds[..1] == front;
    GoRoundComputes(rules, ts, front, g);
    if ComputedAfter(front, h, r) {
      var was, order :| Computed(front, was) && Passed(was, h, order, r);
      GoRoundComputes(rules, ts, front, was);
    }
    if order :| Enumerates(order, Recording(rules, ts).Keys) && r == Pass(Recording(rules, ts), order) {
      assert Passed(g, h, order, r);
    }
  }

  /** The Go round alone is flat over its survivors, and the Python round absorbs only those. */
  lemma GoRoundIsFlat(rules: Rules, ts: seq<Template>)
    requires DistinctIds(ts)
    ensures var go := Consolidate(rules, GoStack, ts).templates;
      && Flat(RoundMap(rules, GoStack, ts), IdSet(go))
      && OnlyLive(RoundMap(rules, PythonTraceback, go), IdSet(go))
      && Truth([RoundMap(rules, GoStack, ts)]) == RoundMap(rules, GoStack, ts)
  {
    var g, go := RoundMap(rules, GoStack, ts), Consolidate(rules, GoStack, ts).templates;
    MapsOfDefault(rules, ts);
    GoMergesAreFresh(rules, ts);
    ChainOfConsolidators(rules, [GoStack], ts);
    GoRoundComputes(rules, ts, [g], g);
    ChainFlattens([g], IdSet(ts), g);
    RoundAccounts(rules, PythonTraceback, go, map[], "");
  }

  /** One pass over two rounds is exact in every order, if and only if the second one's survivors are fresh. */
  lemma OnePassIsExactWhenFresh(g: Relation, h: Relation, live: set<string>)
    requires Flat(g, live) && OnlyLive(h, live)
    ensures (forall r | OnePass(Recorded(g, h), r) :: r == Composed(g, h)) <==> FreshSurvivors(g, h)
  {
    FlatteningNeedsFreshSurvivors(g, h, live);
    if order :| Enumerates(order, Recorded(g, h).Keys) && Pass(Recorded(g, h), order) != Composed(g, h) {
      assert OnePass(Recorded(g, h), Pass(Recorded(g, h), order));
    }
  }

  lemma TruthOfDefault(rules: Rules, ts: seq<Template>)
    requires Truth([RoundMap(rules, GoStack, ts)]) == RoundMap(rules, GoStack, ts)
    ensures Truth(Maps(rules, DEFAULT_FAMILIES, ts))
         == Composed(RoundMap(rules, GoStack, ts),
           RoundMap(rules, PythonTraceback, Consolidate(rules, GoStack, ts).templates))
  {
    MapsOfDefault(rules, ts);
    var maps := Maps(rules, DEFAULT_FAMILIES, ts);
    assert maps[..1] == [RoundMap(rules, GoStack, ts)];
  }

  /** The default chain can compute r, in some iteration orders. */
  ghost predicate CanCompute(rules: Rules, ts: seq<Template>, r: Relation) {
    Computed(Maps(rules, DEFAULT_FAMILIES, ts), r)
  }

  lemma FreshIsExact(rules: Rules, ts: seq<Template>, r: Relation)
    requires DistinctIds(ts) && FreshMerges(rules, DEFAULT_FAMILIES, ts) && CanCompute(rules, ts, r)
    ensures r == Truth(Maps(rules, DEFAULT_FAMILIES, ts))
  {
    ChainOfConsolidators(rules, DEFAULT_FAMILIES, ts);
    ChainFlattens(Maps(rules, DEFAULT_FAMILIES, ts), IdSet(ts), r);
  }

  lemma StaleIsInexact(rules: Rules, ts: seq<Template>) returns (r: Relation)
    requires DistinctIds(ts) && !FreshMerges(rules, DEFAULT_FAMILIES, ts)
    ensures CanCompute(rules, ts, r) && r != Truth(Maps(rules, DEFAULT_FAMILIES, ts))
  {
    var go := Consolidate(rules, GoStack, ts).templates;
    var g, h := RoundMap(rules, GoStack, ts), RoundMap(rules, PythonTraceback, go);
    GoRoundIsFlat(rules, ts);
    TruthOfDefault(rules, ts);
    OnlyPythonMergesMatter(rules, ts);
    OnePassIsExactWhenFresh(g, h, IdSet(go));
    r :| OnePass(Recorded(g, h), r) && r != Composed(g, h);
    DefaultIsOnePass(rules, ts, r);
  }

  /**
    For the default chain the proviso is exact: the relation computed is the true one for all iteration
    orders, if and only if the merges are fresh.
   */
  lemma OnlyFreshChainsAreExact(rules: Rules, ts: seq<Template>)
    requires DistinctIds(ts)
    ensures (forall r | CanCompute(rules, ts, r) :: r == Truth(Maps(rules, DEFAULT_FAMILIES, ts)))
       <==> FreshMerges(rules, DEFAULT_FAMILIES, ts)
  {
    if FreshMerges(rules, DEFAULT_FAMILIES, ts) {
      forall r | CanCompute(rules, ts, r) ensures r == Truth(Maps(rules, DEFAULT_FAMILIES, ts)) {
        FreshIsExact(rules, ts, r);
      }
    } else {
      var r := StaleIsInexact(rules, ts);
    }
  }

  // ---- when the Python merges are fresh ----------------------------------

  /** How every merged Python pattern begins. */
  const PYTHON_MARK := "Python "

  lemma PythonPatternsAreMarked(header: string, exception: string)
    ensures HasPrefix(PythonPattern(header, exception), PYTHON_MARK)
  {
    assert "Python exception: "[..7] == PYTHON_MARK;
    assert "Python traceback"[..7] == PYTHON_MARK;
  }

  lemma GoPatternIsUnmarked()
    ensures !HasPrefix(GO_PATTERN, PYTHON_MARK)
  {
    assert GO_PATTERN[0] != PYTHON_MARK[0];
  }

  /** The id is that of a marked pattern. */
  ghost predicate MarkedId(rules: Rules, id: string) {
    exists p :: HasPrefix(p, PYTHON_MARK) && id == rules.templateHash(p)
  }

  lemma PythonMergeIsMarked(rules: Rules, group: seq<Template>)
    requires 0 < |group|
    ensures MarkedId(rules, Merge(rules, PythonTraceback, group).id)
  {
    var evidence := Evidence(rules, group, |group|);
    PythonPatternsAreMarked(evidence.0, evidence.1);
    assert Merge(rules, PythonTraceback, group).id == rules.templateHash(PythonPattern(evidence.0, evidence.1));
  }

  lemma {:induction false} PythonAbsorbsIntoMarked(rules: Rules, normal: seq<Template>, groups: seq<seq<Template>>,
        f: string)
    requires forall i | 0 <= i < |groups| :: |groups[i]| != 0
    requires f in Record(map[], MergeGroups(rules, PythonTraceback, normal, groups).absorptions)
    ensures MarkedId(rules, Record(map[], MergeGroups(rules, PythonTraceback, normal, groups).absorptions)[f])
  {
    if |groups| != 0 {
      var front, group := groups[..|groups| - 1], groups[|groups| - 1];
      var was := MergeGroups(rules, PythonTraceback, normal, front).absorptions;
      if |group| >= MIN_GROUP {
        PythonMergeIsMarked(rules, group);
        var a := Absorption(Merge(rules, PythonTraceback, group).id, IdsOf(group));
        assert (was + [a])[..|was|] == was;
        AssignGives(Record(map[], was), a.fragments, a.survivor);
        assert Follow(Assign(Record(map[], was), a.fragments, a.survivor), f)
          == Assign(Record(map[], was), a.fragments, a.survivor)[f];
      }
      if f in Record(map[], was) {
        PythonAbsorbsIntoMarked(rules, normal, front, f);
      }
    }
  }

  /** No template's own pattern could be a merged Python pattern. */
  predicate NoneMarked(ts: seq<Template>) {
    forall t | t in ts :: !HasPrefix(t.pattern, PYTHON_MARK)
  }

  /** An original's id is never a marked pattern's, nor is the Go merge's. */
  lemma OriginalsAreUnmarked(rules: Rules, ts: seq<Template>, id: string)
    requires AllNamed(rules, ts) && NoneMarked(ts) && Injective(rules.templateHash)
    requires id in IdSet(ts) || id == rules.templateHash(GO_PATTERN)
    ensures !MarkedId(rules, id)
  {
    GoPatternIsUnmarked();
    if id in IdSet(ts) {
      var t :| t in ts && t.id == id;
      assert Named(rules, t);
    }
  }

  /** After the Go round every id is an original's or the Go merge's. */
  lemma GoRoundIds(rules: Rules, ts: seq<Template>, id: string)
    requires DistinctIds(ts) && id in IdSet(Consolidate(rules, GoStack, ts).templates)
    ensures id in IdSet(ts) || id == rules.templateHash(GO_PATTERN)
  {
    var h := RoundMap(rules, GoStack, ts);
    RoundAccounts(rules, GoStack, ts, map[], "");
    var t :| t in ts && Follow(h, t.id) == id;
    if t.id in h {
      GoAbsorbsIntoOne(rules, Select(rules, GoStack, ts, Normal), Groups(rules, GoStack, ts), t.id);
    }
  }

  /**
    The Python merges are fresh whenever no template's own pattern begins the way a merged one does: a
    condition on the templates that go in, which a caller can check.
   */
  lemma UnmarkedMergesAreFresh(rules: Rules, ts: seq<Template>)
    requires DistinctIds(ts) && AllNamed(rules, ts) && NoneMarked(ts) && Injective(rules.templateHash)
    ensures FreshMerges(rules, DEFAULT_FAMILIES, ts)
  {
    var go := Consolidate(rules, GoStack, ts).templates;
    var g, h := RoundMap(rules, GoStack, ts), RoundMap(rules, PythonTraceback, go);
    RoundAccounts(rules, GoStack, ts, map[], "");
    RoundAccounts(rules, PythonTraceback, go, map[], "");
    forall f | f in h ensures h[f] !in Recorded(g, h) {
      PythonAbsorbsIntoMarked(rules, Select(rules, PythonTraceback, go, Normal), Groups(rules, PythonTraceback, go), f);
      if h[f] in g {
        OriginalsAreUnmarked(rules, ts, h[f]);
      } else if h[f] in h {
        GoRoundIds(rules, ts, h[f]);
        OriginalsAreUnmarked(rules, ts, h[f]);
      }
    }
    OnlyPythonMergesMatter(rules, ts);
  }
}
