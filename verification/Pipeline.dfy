/** Clustering, consolidation and attribution together: what processEntries promises about its two results. */
module Pipeline {

  import opened Wrappers
  import opened Model
  import opened Sorting
  import opened Drain
  import opened DrainTheorems
  import opened Consolidation
  import opened ConsolidationTheorems
  import opened Absorptions
  import opened Attribution

  function TemplatesOf(cs: seq<Cluster>): (ts: seq<Template>)
    ensures |ts| == |cs|
  {
    seq(|cs|, i requires 0 <= i < |cs| => cs[i].template)
  }

  /** The templates before consolidation. */
  function Before(cfg: DrainConfig, rules: Rules, entries: seq<LogEntry>): seq<Template>
    requires cfg.maxClusters >= 1
  {
    TemplatesOf(Run(cfg, rules, entries).0.clusters)
  }

  /** The surviving templates. */
  function Survivors(cfg: DrainConfig, rules: Rules, entries: seq<LogEntry>): seq<Template>
    requires cfg.maxClusters >= 1
  {
    After(rules, DEFAULT_FAMILIES, Before(cfg, rules, entries))
  }

  /** Each entry's final template id; empty when it joined no cluster. */
  function FinalIds(joined: seq<Option<nat>>, before: seq<Template>, remap: map<string, string>): (ids: seq<string>)
    requires forall i | 0 <= i < |joined| && joined[i].Some? :: joined[i].value < |before|
    ensures |ids| == |joined|
  {
    seq(|joined|, i requires 0 <= i < |joined| =>
      if joined[i].None? then "" else Follow(remap, before[joined[i].value].id))
  }

  /** What processEntries returns, up to the iteration orders of the consolidation pass. */
  ghost predicate Processed(cfg: DrainConfig, rules: Rules, entries: seq<LogEntry>, after: seq<Template>,
        ids: seq<string>)
    requires cfg.maxClusters >= 1
  {
    && after == Survivors(cfg, rules, entries)
    && exists absorbedBy, fallback :: Attributes(cfg, rules, entries, absorbedBy, fallback, ids)
  }

  ghost predicate Attributes(cfg: DrainConfig, rules: Rules, entries: seq<LogEntry>, absorbedBy: Relation,
        fallback: string, ids: seq<string>)
    requires cfg.maxClusters >= 1
  {
    var before := Before(cfg, rules, entries);
    var after := Survivors(cfg, rules, entries);
    var joined := Run(cfg, rules, entries).1;
    && Computed(Maps(rules, DEFAULT_FAMILIES, before), absorbedBy)
    && IsFallback(after, fallback)
    && (forall i | 0 <= i < |joined| && joined[i].Some? :: joined[i].value < |before|)
    && ids == FinalIds(joined, before, Remap(IdsOf(before), IdSet(after), absorbedBy, fallback))
  }

  /** The idealisations: a threshold below one, an injective hash, no twins, and merges that are fresh. */
  ghost predicate Undisturbed(cfg: DrainConfig, rules: Rules, entries: seq<LogEntry>) {
    && Sane(cfg) && Injective(rules.templateHash)
    && DistinctTokens(Run(cfg, rules, entries).0)
    && FreshMerges(rules, DEFAULT_FAMILIES, Before(cfg, rules, entries))
  }

  ghost predicate HashNonEmpty(rules: Rules) {
    forall p :: rules.templateHash(p) != ""
  }

  // ---- the templates before consolidation --------------------------------

  /** Ids are distinct exactly when tokens are. */
  lemma BeforeIsDistinct(cfg: DrainConfig, rules: Rules, entries: seq<LogEntry>)
    requires Sane(cfg) && Injective(rules.templateHash)
    ensures DistinctIds(Before(cfg, rules, entries)) <==> DistinctTokens(Run(cfg, rules, entries).0)
  {
    var before, cs := Before(cfg, rules, entries), Run(cfg, rules, entries).0.clusters;
    forall i, j | 0 <= i < j < |before| ensures before[i].id == before[j].id <==> cs[i].tokens == cs[j].tokens {
      TemplatesAreDistinct(cfg, rules, entries, i, j);
    }
  }

  /** The ids before consolidation are distinct after the first n messages. */
  ghost predicate DistinctIdsAt(cfg: DrainConfig, rules: Rules, entries: seq<LogEntry>, n: nat)
    requires cfg.maxClusters >= 1 && n <= |entries|
  {
    DistinctIds(Before(cfg, rules, entries[..n]))
  }

  /** Throughout a run no two templates share an id, if and only if no message makes twins. */
  lemma IdsAreDistinctUnlessTwins(cfg: DrainConfig, rules: Rules, entries: seq<LogEntry>)
    requires Sane(cfg) && Injective(rules.templateHash)
    ensures (forall n: nat | n <= |entries| :: DistinctIdsAt(cfg, rules, entries, n))
      <==> TwinFree(cfg, rules, entries, |entries|)
  {
    RunIsDistinctUnlessTwins(cfg, rules, entries, |entries|);
    forall n: nat | n <= |entries|
      ensures DistinctIdsAt(cfg, rules, entries, n) <==> DistinctAt(cfg, rules, entries, n)
    {
      BeforeIsDistinct(cfg, rules, entries[..n]);
    }
  }

  lemma BeforeIsNamed(cfg: DrainConfig, rules: Rules, entries: seq<LogEntry>)
    requires Sane(cfg)
    ensures AllNamed(rules, Before(cfg, rules, entries))
  {
    var before := Before(cfg, rules, entries);
    forall t | t in before ensures Named(rules, t) {
      var j :| 0 <= j < |before| && before[j] == t;
      ClustersAreFaithful(cfg, rules, entries, j);
    }
  }

  lemma {:induction false} AfterIsNamed(rules: Rules, families: seq<Family>, ts: seq<Template>)
    requires AllNamed(rules, ts)
    ensures AllNamed(rules, After(rules, families, ts))
    decreases |families|
  {
    if |families| != 0 {
      AfterIsNamed(rules, families[..|families| - 1], ts);
      SurvivorsAreNamed(rules, families[|families| - 1], After(rules, families[..|families| - 1], ts));
    }
  }

  /**
    When is a run undisturbed? Whenever it stays below the cap and no pattern begins the way a merged
    Python pattern does.
   */
  lemma OrdinaryRunsAreUndisturbed(cfg: DrainConfig, rules: Rules, entries: seq<LogEntry>)
    requires Sane(cfg) && Injective(rules.templateHash)
    requires |Before(cfg, rules, entries)| < cfg.maxClusters && NoneMarked(Before(cfg, rules, entries))
    ensures Undisturbed(cfg, rules, entries)
  {
    BelowCapNothingStrays(cfg, rules, entries);
    RunKeepsInv(cfg, rules, entries);
    BeforeIsDistinct(cfg, rules, entries);
    BeforeIsNamed(cfg, rules, entries);
    UnmarkedMergesAreFresh(rules, Before(cfg, rules, entries));
  }

  // ---- counting entries --------------------------------------------------

  function CountId(ids: seq<string>, x: string): nat {
    if |ids| == 0 then 0 else CountId(ids[..|ids| - 1], x) + if ids[|ids| - 1] == x then 1 else 0
  }

  function CountJoined(joined: seq<Option<nat>>, j: nat): nat {
    if |joined| == 0 then 0
    else CountJoined(joined[..|joined| - 1], j) + if joined[|joined| - 1] == Some(j) then 1 else 0
  }

  /** The entries that joined one of the first n clusters that lead to x. */
  function CountLed(joined: seq<Option<nat>>, ids: seq<string>, h: Relation, x: string, n: nat): nat
    requires n <= |ids|
  {
    if n == 0 then 0
    else CountLed(joined, ids, h, x, n - 1) + if Follow(h, ids[n - 1]) == x then CountJoined(joined, n - 1) else 0
  }

  lemma {:induction false} CountLedEmpty(ids: seq<string>, h: Relation, x: string, n: nat)
    requires n <= |ids|
    ensures CountLed([], ids, h, x, n) == 0
  {
    if n != 0 {
      CountLedEmpty(ids, h, x, n - 1);
    }
  }

  /** One more entry adds one to exactly the count of the id its cluster leads to. */
  lemma {:induction false} CountLedSnoc(joined: seq<Option<nat>>, o: Option<nat>, ids: seq<string>, h: Relation,
        x: string, n: nat)
    requires n <= |ids| && (o.Some? ==> o.value < |ids|)
    ensures CountLed(joined + [o], ids, h, x, n) == CountLed(joined, ids, h, x, n)
      + if o.Some? && o.value < n && Follow(h, ids[o.value]) == x then 1 else 0
  {
    if n != 0 {
      CountLedSnoc(joined, o, ids, h, x, n - 1);
      assert (joined + [o])[..|joined|] == joined;
    }
  }

  /** Counting per cluster and counting per entry give the same number. */
  lemma {:induction false} CountLedIsCountId(joined: seq<Option<nat>>, before: seq<Template>,
        remap: map<string, string>, h: Relation, x: string)
    requires forall i | 0 <= i < |joined| && joined[i].Some? :: joined[i].value < |before|
    requires forall t | t in before :: Follow(remap, t.id) == Follow(h, t.id)
    requires x != ""
    ensures CountLed(joined, IdsOf(before), h, x, |before|) == CountId(FinalIds(joined, before, remap), x)
    decreases |joined|
  {
    if |joined| == 0 {
      CountLedEmpty(IdsOf(before), h, x, |before|);
    } else {
      var n := |joined| - 1;
      CountLedIsCountId(joined[..n], before, remap, h, x);
      CountLedSnoc(joined[..n], joined[n], IdsOf(before), h, x, |before|);
      assert joined == joined[..n] + [joined[n]];
      assert FinalIds(joined, before, remap)[..n] == FinalIds(joined[..n], before, remap);
      if joined[n].Some? {
        assert before[joined[n].value] in before;
      }
    }
  }

  lemma {:induction false} JoinedCount(entries: seq<LogEntry>, joined: seq<Option<nat>>, j: nat)
    requires |entries| == |joined|
    ensures |Joined(entries, joined, j)| == CountJoined(joined, j)
  {
    if |entries| != 0 {
      JoinedCount(entries[..|entries| - 1], joined[..|joined| - 1], j);
    }
  }

  /** A summary's count is the sum of the counts it selects. */
  function CountLead(ts: seq<Template>, h: Relation, x: string): int {
    if |ts| == 0 then 0
    else CountLead(ts[..|ts| - 1], h, x) + if Follow(h, ts[|ts| - 1].id) == x then ts[|ts| - 1].count else 0
  }

  lemma {:induction false} SummaryCounts(ts: seq<Template>, r: Route, h: Relation, x: string)
    requires forall t | t in ts :: Lead(r, t.id).id == Follow(h, t.id)
    ensures var s := Summary(ts, r, x); CountLead(ts, h, x) == if s.Nothing? then 0 else s.count
  {
    if |ts| != 0 {
      SummaryCounts(ts[..|ts| - 1], r, h, x);
      assert ts[|ts| - 1] in ts;
    }
  }

  lemma {:induction false} LeadIsLed(ts: seq<Template>, joined: seq<Option<nat>>, h: Relation, x: string)
    requires forall j | 0 <= j < |ts| :: ts[j].count == CountJoined(joined, j)
    ensures CountLead(ts, h, x) == CountLed(joined, IdsOf(ts), h, x, |ts|)
  {
    if |ts| != 0 {
      LeadIsLed(ts[..|ts| - 1], joined, h, x);
      CountLedPrefix(joined, IdsOf(ts[..|ts| - 1]), IdsOf(ts), h, x, |ts| - 1);
    }
  }

  lemma {:induction false} CountLedPrefix(joined: seq<Option<nat>>, ids: seq<string>, more: seq<string>, h: Relation,
        x: string, n: nat)
    requires n <= |ids| <= |more| && forall i | 0 <= i < n :: ids[i] == more[i]
    ensures CountLed(joined, ids, h, x, n) == CountLed(joined, more, h, x, n)
  {
    if n != 0 {
      CountLedPrefix(joined, ids, more, h, x, n - 1);
    }
  }

  /** A distinct id's summary is its one template's aggregate. */
  lemma {:induction false} SummaryOfOne(ts: seq<Template>, i: nat)
    requires DistinctIds(ts) && i < |ts|
    ensures Summary(ts, map[], ts[i].id) == Of(ts[i])
  {
    var n := |ts| - 1;
    if i < n {
      SummaryOfOne(ts[..n], i);
    } else {
      SummaryOfNone(ts[..n], ts[i].id);
    }
  }

  lemma {:induction false} SummaryOfNone(ts: seq<Template>, x: string)
    requires forall i | 0 <= i < |ts| :: ts[i].id != x
    ensures Summary(ts, map[], x) == Nothing
  {
    if |ts| != 0 {
      SummaryOfNone(ts[..|ts| - 1], x);
    }
  }

  // ---- end to end --------------------------------------------------------

  lemma BeforeCounts(cfg: DrainConfig, rules: Rules, entries: seq<LogEntry>, j: nat)
    requires Sane(cfg) && j < |Before(cfg, rules, entries)|
    ensures Before(cfg, rules, entries)[j].count == CountJoined(Run(cfg, rules, entries).1, j)
  {
    ClustersAreFaithful(cfg, rules, entries, j);
    MembersAreTheJoined(cfg, rules, entries, j);
    JoinedCount(entries, Run(cfg, rules, entries).1, j);
  }

  /** Undisturbed, the attribution of every original id is the true one. */
  lemma IdsAreTrue(cfg: DrainConfig, rules: Rules, entries: seq<LogEntry>, absorbedBy: Relation, fallback: string,
        ids: seq<string>, t: Template)
    requires Undisturbed(cfg, rules, entries) && Attributes(cfg, rules, entries, absorbedBy, fallback, ids)
    requires t in Before(cfg, rules, entries)
    ensures var before := Before(cfg, rules, entries);
      Follow(Remap(IdsOf(before), IdSet(Survivors(cfg, rules, entries)), absorbedBy, fallback), t.id)
      == Follow(Truth(Maps(rules, DEFAULT_FAMILIES, before)), t.id)
  {
    var before := Before(cfg, rules, entries);
    BeforeIsDistinct(cfg, rules, entries);
    RemapIsTruth(rules, DEFAULT_FAMILIES, before, absorbedBy, fallback, t.id);
  }

  /** The route through the default consolidators. */
  function DefaultRoute(rules: Rules, before: seq<Template>): Route {
    RouteOf(rules, DEFAULT_FAMILIES, before, map[])
  }

  /** A survivor is exactly the aggregate of the original templates that truly lead to it: count, range and severity. */
  lemma SurvivorIsExact(cfg: DrainConfig, rules: Rules, entries: seq<LogEntry>, i: nat)
    requires Sane(cfg) && Injective(rules.templateHash) && DistinctTokens(Run(cfg, rules, entries).0)
    requires i < |Survivors(cfg, rules, entries)|
    ensures var before, after := Before(cfg, rules, entries), Survivors(cfg, rules, entries);
      Of(after[i]) == Summary(before, DefaultRoute(rules, before), after[i].id)
  {
    var before, after := Before(cfg, rules, entries), Survivors(cfg, rules, entries);
    BeforeIsDistinct(cfg, rules, entries);
    ChainOfConsolidators(rules, DEFAULT_FAMILIES, before);
    ChainAccounts(rules, DEFAULT_FAMILIES, before, map[], after[i].id);
    SummaryOfOne(after, i);
  }

  lemma SurvivorIdNonEmpty(cfg: DrainConfig, rules: Rules, entries: seq<LogEntry>, t: Template)
    requires Sane(cfg) && HashNonEmpty(rules) && t in Survivors(cfg, rules, entries)
    ensures Named(rules, t) && t.id != ""
  {
    BeforeIsNamed(cfg, rules, entries);
    AfterIsNamed(rules, DEFAULT_FAMILIES, Before(cfg, rules, entries));
  }

  /**
    End-to-end count agreement: undisturbed, every emitted template's count is the number of entries
    finally attributed to its id, through clustering, both consolidators, folding and the remap.
   */
  lemma CountsAgree(cfg: DrainConfig, rules: Rules, entries: seq<LogEntry>, after: seq<Template>, ids: seq<string>,
        i: nat)
    requires Undisturbed(cfg, rules, entries) && HashNonEmpty(rules)
    requires Processed(cfg, rules, entries, after, ids) && i < |after|
    ensures after[i].count == CountId(ids, after[i].id)
  {
    var before, joined := Before(cfg, rules, entries), Run(cfg, rules, entries).1;
    var absorbedBy, fallback :| Attributes(cfg, rules, entries, absorbedBy, fallback, ids);
    var truth, x := Truth(Maps(rules, DEFAULT_FAMILIES, before)), after[i].id;
    forall t | t in before
      ensures Follow(Remap(IdsOf(before), IdSet(after), absorbedBy, fallback), t.id) == Follow(truth, t.id)
    {
      IdsAreTrue(cfg, rules, entries, absorbedBy, fallback, ids, t);
    }
    SurvivorIdNonEmpty(cfg, rules, entries, after[i]);
    CountLedIsCountId(joined, before, Remap(IdsOf(before), IdSet(after), absorbedBy, fallback), truth, x);
    forall j | 0 <= j < |before| ensures before[j].count == CountJoined(joined, j) {
      BeforeCounts(cfg, rules, entries, j);
    }
    LeadIsLed(before, joined, truth, x);
    forall t | t in before ensures Lead(DefaultRoute(rules, before), t.id).id == Follow(truth, t.id) {
      RouteIsTruth(rules, DEFAULT_FAMILIES, before, map[], t.id);
    }
    SummaryCounts(before, DefaultRoute(rules, before), truth, x);
    SurvivorIsExact(cfg, rules, entries, i);
  }

  lemma {:induction false} TotalsAgree(cs: seq<Cluster>)
    ensures Total(TemplatesOf(cs)) == TotalCount(cs)
  {
    if |cs| != 0 {
      TotalsAgree(cs[..|cs| - 1]);
      assert TemplatesOf(cs)[..|cs| - 1] == TemplatesOf(cs[..|cs| - 1]);
    }
  }

  /**
    Count conservation with no proviso but a positive cap, overflow included: the surviving counts add
    up to the number of entries whose message tokenized to something.
   */
  lemma CountsAreConservedToTheEnd(cfg: DrainConfig, rules: Rules, entries: seq<LogEntry>)
    requires cfg.maxClusters >= 1
    ensures Total(Survivors(cfg, rules, entries)) == Clustered(Run(cfg, rules, entries).1)
    ensures forall i | 0 <= i < |entries| :: Run(cfg, rules, entries).1[i].Some? <==> Tokenize(rules, entries[i]) != []
  {
    ChainKeepsTotal(rules, DEFAULT_FAMILIES, Before(cfg, rules, entries));
    TotalsAgree(Run(cfg, rules, entries).0.clusters);
    CountsAreConserved(cfg, rules, entries);
    forall i | 0 <= i < |entries| ensures Run(cfg, rules, entries).1[i].Some? <==> Tokenize(rules, entries[i]) != [] {
      EveryMessageJoins(cfg, rules, entries, i);
    }
  }

  // ---- something always survives -----------------------------------------

  lemma MergeGroupsNonEmpty(rules: Rules, family: Family, normal: seq<Template>, groups: seq<seq<Template>>)
    requires forall i | 0 <= i < |groups| :: |groups[i]| != 0
    requires normal + Flatten(groups) != []
    ensures MergeGroups(rules, family, normal, groups).templates != []
  {
  }

  lemma DedupeNonEmpty(rules: Rules, ts: seq<Template>)
    requires ts != []
    ensures Dedupe(rules, ts) != []
  {
  }

  lemma SomethingSurvives(rules: Rules, family: Family, ts: seq<Template>)
    requires ts != []
    ensures Consolidate(rules, family, ts).templates != []
  {
    if !TooFew(rules, family, ts) {
      var normal, candidates := Select(rules, family, ts, Normal), Candidates(rules, family, ts);
      var sorted := SortStable(candidates, LastSeenOf);
      GroupsFlatten(sorted, Window(family));
      SortStableCorrect(candidates, LastSeenOf);
      PartitionMultiset(rules, family, ts);
      assert normal + sorted != [] by {
        assert ts[0] in multiset(ts);
        assert ts[0] in multiset(normal) || ts[0] in multiset(sorted);
      }
      MergeGroupsNonEmpty(rules, family, normal, Groups(rules, family, ts));
      DedupeNonEmpty(rules, MergeGroups(rules, family, normal, Groups(rules, family, ts)).templates);
    }
  }

  lemma {:induction false} SomethingSurvivesChain(rules: Rules, families: seq<Family>, ts: seq<Template>)
    requires ts != []
    ensures After(rules, families, ts) != []
    decreases |families|
  {
    if |families| != 0 {
      SomethingSurvivesChain(rules, families[..|families| - 1], ts);
      SomethingSurvives(rules, families[|families| - 1], After(rules, families[..|families| - 1], ts));
    }
  }

  /**
    No entry is lost or left dangling, whatever collided or overflowed: an entry has a final id exactly
    when its message tokenized to something, and that id is a surviving template's.
   */
  lemma EveryEntryFindsASurvivor(cfg: DrainConfig, rules: Rules, entries: seq<LogEntry>, after: seq<Template>,
        ids: seq<string>, i: nat)
    requires Sane(cfg) && HashNonEmpty(rules) && Processed(cfg, rules, entries, after, ids)
    requires i < |entries|
    ensures |ids| == |entries|
    ensures if Tokenize(rules, entries[i]) == [] then ids[i] == "" else ids[i] != "" && ids[i] in IdSet(after)
  {
    var before, joined := Before(cfg, rules, entries), Run(cfg, rules, entries).1;
    var absorbedBy, fallback :| Attributes(cfg, rules, entries, absorbedBy, fallback, ids);
    EveryMessageJoins(cfg, rules, entries, i);
    forall t | t in after ensures t.id != "" {
      SurvivorIdNonEmpty(cfg, rules, entries, t);
    }
    if joined[i].Some? {
      var t := before[joined[i].value];
      SomethingSurvivesChain(rules, DEFAULT_FAMILIES, before);
      RemapIsTotal(before, after, absorbedBy, fallback);
      assert t.id in IdSet(before);
      assert ids[i] == Follow(Remap(IdsOf(before), IdSet(after), absorbedBy, fallback), t.id);
    }
  }
}
