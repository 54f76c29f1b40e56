/** What a correlation says, in terms of the templates, chunks, streams and declared edges it was drawn from. */
module CorrelationTheorems {

  import opened Wrappers
  import opened Strings
  import opened Model
  import opened Streams
  import opened Chunks
  import opened Resolve
  import opened ResolveTheorems
  import opened Correlations

  // ---- owners ------------------------------------------------------------

  /** The labels that may name a service, most telling first. */
  const FIELDS := ["service", "namespace", "deployment", "app"]

  predicate Fills(s: Stream, field: string, value: string) {
    field in s.labels && s.labels[field] == value != ""
  }

  /** The first of the four labels that is not empty holds the service. */
  ghost predicate NamesService(s: Stream, service: string) {
    exists i: nat :: i < 4 && Fills(s, FIELDS[i], service)
      && forall j | 0 <= j < i :: !Fills(s, FIELDS[j], LabelAt(s.labels, FIELDS[j]))
  }

  lemma ServiceIsNamed(s: Stream, service: string)
    ensures ServiceOf(s) == service != "" <==> NamesService(s, service)
  {
    assert FIELDS[0] == "service" && FIELDS[1] == "namespace" && FIELDS[2] == "deployment" && FIELDS[3] == "app";
    var first: nat := if LabelAt(s.labels, "service") != "" then 0
      else if LabelAt(s.labels, "namespace") != "" then 1
      else if LabelAt(s.labels, "deployment") != "" then 2 else 3;
    assert ServiceOf(s) == LabelAt(s.labels, FIELDS[first]);
    assert forall j | 0 <= j < first :: LabelAt(s.labels, FIELDS[j]) == "";
    if NamesService(s, service) {
      var i: nat :| i < 4 && Fills(s, FIELDS[i], service)
        && forall j | 0 <= j < i :: !Fills(s, FIELDS[j], LabelAt(s.labels, FIELDS[j]));
      assert i == first;
    }
  }

  /** The chunk holds the template's entries, from a stream that names the service. */
  ghost predicate Places(streams: seq<Stream>, c: Chunk, id: string, service: string) {
    c.template == id && exists s :: s in streams && s.id == c.stream && NamesService(s, service)
  }

  ghost predicate PlacesAnywhere(streams: seq<Stream>, c: Chunk, id: string) {
    exists service :: Places(streams, c, id, service)
  }

  /** The first of the n chunks that places the template anywhere places it with the service. */
  ghost predicate Owned(streams: seq<Stream>, chunks: seq<Chunk>, n: nat, id: string, service: string)
    requires n <= |chunks|
  {
    exists k :: 0 <= k < n && Places(streams, chunks[k], id, service)
      && forall j | 0 <= j < k :: !PlacesAnywhere(streams, chunks[j], id)
  }

  lemma {:induction false} ByIdFinds(streams: seq<Stream>, id: string)
    requires DistinctStreams(streams)
    ensures id in ById(streams) <==> exists s :: s in streams && s.id == id
    ensures forall s | s in streams && s.id == id :: ById(streams)[id] == s
    decreases |streams|
  {
    if |streams| != 0 {
      var front, last := streams[..|streams| - 1], streams[|streams| - 1];
      assert streams == front + [last];
      ByIdFinds(front, id);
    }
  }

  lemma PlacingIsAttributing(streams: seq<Stream>, c: Chunk, id: string, service: string)
    requires DistinctStreams(streams)
    ensures Places(streams, c, id, service)
      <==> Correlations.Attributes(ById(streams), c, id) && ServiceOf(ById(streams)[c.stream]) == service
  {
    ByIdFinds(streams, c.stream);
    forall s | s in streams ensures ServiceOf(s) == service != "" <==> NamesService(s, service) {
      ServiceIsNamed(s, service);
    }
  }

  lemma PlacingAnywhereIsAttributing(streams: seq<Stream>, c: Chunk, id: string)
    requires DistinctStreams(streams)
    ensures PlacesAnywhere(streams, c, id) <==> Correlations.Attributes(ById(streams), c, id)
  {
    if PlacesAnywhere(streams, c, id) {
      var service :| Places(streams, c, id, service);
      PlacingIsAttributing(streams, c, id, service);
    }
    if Correlations.Attributes(ById(streams), c, id) {
      PlacingIsAttributing(streams, c, id, ServiceOf(ById(streams)[c.stream]));
    }
  }

  predicate HasOwner(owner: Option<Owner>, service: string) {
    owner.Some? && owner.value.service == service
  }

  /** The owner found among the first n chunks, as the first placing chunk would have it. */
  lemma {:induction false} OwnerIsFirst(streams: seq<Stream>, chunks: seq<Chunk>, n: nat, id: string, service: string)
    requires DistinctStreams(streams) && n <= |chunks|
    ensures HasOwner(OwnerOf(ById(streams), chunks, n, id), service) <==> Owned(streams, chunks, n, id, service)
    ensures OwnerOf(ById(streams), chunks, n, id).None?
      <==> forall k | 0 <= k < n :: !PlacesAnywhere(streams, chunks[k], id)
  {
    if n != 0 {
      OwnerIsFirst(streams, chunks, n - 1, id, service);
      PlacingIsAttributing(streams, chunks[n - 1], id, service);
      PlacingAnywhereIsAttributing(streams, chunks[n - 1], id);
      OwnedNext(streams, chunks, n, id, service);
    }
  }

  lemma OwnedNext(streams: seq<Stream>, chunks: seq<Chunk>, n: nat, id: string, service: string)
    requires 0 < n <= |chunks|
    ensures Owned(streams, chunks, n, id, service)
      <==> Owned(streams, chunks, n - 1, id, service)
           || (Places(streams, chunks[n - 1], id, service)
               && forall j | 0 <= j < n - 1 :: !PlacesAnywhere(streams, chunks[j], id))
  {
  }

  // ---- overlap -----------------------------------------------------------

  /** Half a minute on either side, for a range both of whose ends are known. */
  function Slack(t: Template): int {
    if t.firstSeen == ZERO_TIME || t.lastSeen == ZERO_TIME then 0 else 30_000_000_000
  }

  function Least(a: int, b: int): int {
    if a <= b then a else b
  }

  function Most(a: int, b: int): int {
    if a >= b then a else b
  }

  /** From the later start to the earlier end of the widened ranges. */
  function Common(a: Template, b: Template): int {
    Least(a.lastSeen + Slack(a), b.lastSeen + Slack(b)) - Most(a.firstSeen - Slack(a), b.firstSeen - Slack(b))
  }

  function Longer(a: Template, b: Template): int {
    Most(a.lastSeen - a.firstSeen + 2 * Slack(a), b.lastSeen - b.firstSeen + 2 * Slack(b))
  }

  /** A score that says how much of the longer range is common; all of it when both are instants. */
  predicate IsShare(common: int, longer: int, score: real) {
    common >= 0 && if longer == 0 then score == 1.0 else score * longer as real == common as real
  }

  /** The widened ranges meet, and the score is the share of the longer one that is common. */
  predicate Meet(a: Template, b: Template, score: real) {
    IsShare(Common(a, b), Longer(a, b), score)
  }

  lemma RangesAreWidened(a: Template, b: Template)
    requires a.firstSeen <= a.lastSeen && b.firstSeen <= b.lastSeen
    ensures Common(a, b) == Shared(a, b) <= Longer(a, b) == Wider(a, b)
    ensures Overlap(a, b).Some? <==> Common(a, b) >= 0
    ensures Longer(a, b) >= 0
  {
  }

  lemma ScoreIsShare(overlap: Option<real>, common: int, longer: int, score: real)
    requires (overlap.Some? <==> common >= 0) && longer >= 0
    requires overlap.Some? ==> overlap.value == if longer == 0 then 1.0 else common as real / longer as real
    ensures overlap == Some(score) <==> IsShare(common, longer, score)
  {
    if longer > 0 {
      Quotient(common, longer, score);
    }
  }

  lemma Quotient(x: int, y: int, score: real)
    requires y > 0
    ensures score == x as real / y as real <==> score * y as real == x as real
  {
    assert (x as real / y as real) * y as real == x as real;
    if score * y as real == x as real {
      assert (score - x as real / y as real) * y as real == 0.0;
    }
  }

  lemma OverlapIsProportion(a: Template, b: Template)
    requires a.firstSeen <= a.lastSeen && b.firstSeen <= b.lastSeen
    ensures Overlap(a, b).Some? ==>
      Overlap(a, b).value == if Wider(a, b) == 0 then 1.0 else Shared(a, b) as real / Wider(a, b) as real
  {
    RangesAreWidened(a, b);
    OverlapIsWithinWindow(a, b);
  }

  /** On ranges that run forward. */
  lemma OverlapIsMeeting(a: Template, b: Template, score: real)
    requires a.firstSeen <= a.lastSeen && b.firstSeen <= b.lastSeen
    ensures Overlap(a, b) == Some(score) <==> Meet(a, b, score)
  {
    RangesAreWidened(a, b);
    OverlapIsProportion(a, b);
    ScoreIsShare(Overlap(a, b), Common(a, b), Longer(a, b), score);
  }

  // ---- dependency --------------------------------------------------------

  /** The winners of two services, in one account, have an entry in the cloud's index of edges. */
  ghost predicate Joined(rules: Rules, cloud: Cloud, s: string, t: string) {
    exists account, a, b ::
      && ResolvesTo(rules, cloud.resources, Resolution("service", s, account, a))
      && ResolvesTo(rules, cloud.resources, Resolution("service", t, account, b))
      && DependencyKey(account, a, b) in cloud.dependsOn
  }

  lemma ResourceIsWinner(rules: Rules, cloud: Cloud, s: string, account: string, id: string)
    ensures ResourceOf(rules, cloud, s) == Some(CloudRef(account, id))
      <==> ResolvesTo(rules, cloud.resources, Resolution("service", s, account, id))
  {
    ResolutionIsOfTheWinner(rules, cloud.resources, Resolution("service", s, account, id));
  }

  lemma DependIsJoined(rules: Rules, cloud: Cloud, s: string, t: string)
    ensures Depend(rules, cloud, s, t) <==> Joined(rules, cloud, s, t)
  {
    if Depend(rules, cloud, s, t) {
      var x, y := ResourceOf(rules, cloud, s).value, ResourceOf(rules, cloud, t).value;
      ResourceIsWinner(rules, cloud, s, x.account, x.id);
      ResourceIsWinner(rules, cloud, t, y.account, y.id);
    }
    if Joined(rules, cloud, s, t) {
      var account, a, b :|
        && ResolvesTo(rules, cloud.resources, Resolution("service", s, account, a))
        && ResolvesTo(rules, cloud.resources, Resolution("service", t, account, b))
        && DependencyKey(account, a, b) in cloud.dependsOn;
      ResourceIsWinner(rules, cloud, s, account, a);
      ResourceIsWinner(rules, cloud, t, account, b);
    }
  }

  // ---- the results -------------------------------------------------------

  function NameIn(names: map<string, string>, key: string): string {
    if key in names then names[key] else ""
  }

  /** r is what the detector says of templates a and b. */
  ghost predicate Says(rules: Rules, ts: seq<Template>, chunks: seq<Chunk>, streams: seq<Stream>,
      proxies: map<string, string>, cloud: Cloud, r: Correlation, a: Template, b: Template)
  {
    && InThisOrder(ts, a, b)
    && a.severity in {"ERROR", "CRITICAL"} && b.severity in {"ERROR", "CRITICAL"}
    && r.templateA == a.id && r.templateB == b.id && r.serviceA != r.serviceB
    && Owned(streams, chunks, |chunks|, a.id, r.serviceA) && Owned(streams, chunks, |chunks|, b.id, r.serviceB)
    && Meet(a, b, r.score)
    && r.resourceA == NameIn(proxies, r.serviceA) && r.resourceB == NameIn(proxies, r.serviceB)
    && (r.confirmed <==> Joined(rules, cloud, r.serviceA, r.serviceB))
  }

  lemma ServiceIsOwner(ts: seq<Template>, chunks: seq<Chunk>, streams: seq<Stream>, id: string, service: string)
    requires DistinctStreams(streams)
    ensures ServiceFor(ts, chunks, streams, id) == Some(service) <==> Owned(streams, chunks, |chunks|, id, service)
  {
    OwnerIsFirst(streams, chunks, |chunks|, id, service);
  }

  lemma ErrorsAreSevere(t: Template)
    ensures IsError(t) <==> t.severity in {"ERROR", "CRITICAL"}
  {
  }

  lemma ResultIsSaid(rules: Rules, ts: seq<Template>, chunks: seq<Chunk>, streams: seq<Stream>,
        proxies: map<string, string>, cloud: Cloud, r: Correlation, a: Template, b: Template)
    requires DistinctStreams(streams) && a.firstSeen <= a.lastSeen && b.firstSeen <= b.lastSeen
    requires Cooccur(ts, chunks, streams, a, b) && r == ResultOf(rules, ts, chunks, streams, proxies, cloud, a, b)
    ensures Says(rules, ts, chunks, streams, proxies, cloud, r, a, b)
  {
    ErrorsAreSevere(a);
    ErrorsAreSevere(b);
    ServiceIsOwner(ts, chunks, streams, a.id, r.serviceA);
    ServiceIsOwner(ts, chunks, streams, b.id, r.serviceB);
    OverlapIsMeeting(a, b, r.score);
    DependIsJoined(rules, cloud, r.serviceA, r.serviceB);
  }

  lemma SaidIsResult(rules: Rules, ts: seq<Template>, chunks: seq<Chunk>, streams: seq<Stream>,
        proxies: map<string, string>, cloud: Cloud, r: Correlation, a: Template, b: Template)
    requires DistinctStreams(streams) && a.firstSeen <= a.lastSeen && b.firstSeen <= b.lastSeen
    requires Says(rules, ts, chunks, streams, proxies, cloud, r, a, b)
    ensures Cooccur(ts, chunks, streams, a, b) && r == ResultOf(rules, ts, chunks, streams, proxies, cloud, a, b)
  {
    ErrorsAreSevere(a);
    ErrorsAreSevere(b);
    ServiceIsOwner(ts, chunks, streams, a.id, r.serviceA);
    ServiceIsOwner(ts, chunks, streams, b.id, r.serviceB);
    OverlapIsMeeting(a, b, r.score);
    DependIsJoined(rules, cloud, r.serviceA, r.serviceB);
  }

  /**
    The detector's results, in the input's own terms: one for each two templates at ERROR or above whose widened
    ranges meet and whose first placing chunks name different services; its score is the share of the wider range,
    and it is confirmed exactly when a declared edge joins the resources the two services resolve to.
   */
  lemma CorrelationsAreSaid(rules: Rules, ts: seq<Template>, chunks: seq<Chunk>, streams: seq<Stream>,
        proxies: map<string, string>, cloud: Cloud, r: Correlation)
    requires DistinctStreams(streams) && forall t | t in ts :: t.firstSeen <= t.lastSeen
    ensures r in Correlated(rules, ts, chunks, streams, proxies, cloud)
      <==> exists a, b :: Says(rules, ts, chunks, streams, proxies, cloud, r, a, b)
  {
    CorrelationsAreExact(rules, ts, chunks, streams, proxies, cloud, r);
    if ResultOfSome(rules, ts, chunks, streams, proxies, cloud, r) {
      var a, b :| Cooccur(ts, chunks, streams, a, b)
        && r == ResultOf(rules, ts, chunks, streams, proxies, cloud, a, b);
      assert a in ts && b in ts;
      ResultIsSaid(rules, ts, chunks, streams, proxies, cloud, r, a, b);
    }
    if a, b :| Says(rules, ts, chunks, streams, proxies, cloud, r, a, b) {
      assert a in ts && b in ts;
      SaidIsResult(rules, ts, chunks, streams, proxies, cloud, r, a, b);
    }
  }

  /**
    Input is refused exactly for an empty template or stream id, or a template with both ends of its range known,
    neither being Go's zero time, that ends before it starts.
   */
  lemma RefusedInput(ts: seq<Template>, streams: seq<Stream>)
    ensures Malformed(ts, streams)
      <==> (exists t :: t in ts && (t.id == "" || EndsBeforeStart(t.firstSeen, t.lastSeen)))
           || exists s :: s in streams && s.id == ""
  {
    forall t ensures RunsBackwards(t) <==> EndsBeforeStart(t.firstSeen, t.lastSeen) {
    }
  }

  predicate EndsBeforeStart(start: Instant, end: Instant) {
    start != -62_135_596_800_000_000_000 && end != -62_135_596_800_000_000_000 && end < start
  }

  /** The results are listed by first service, then second, then first template. */
  lemma RankedByServices(out: seq<Correlation>, i: nat, j: nat)
    requires Ranked(out) && i < j < |out|
    ensures out[i].serviceA == out[j].serviceA || Less(out[i].serviceA, out[j].serviceA)
    ensures out[i].serviceA == out[j].serviceA ==>
      out[i].serviceB == out[j].serviceB || Less(out[i].serviceB, out[j].serviceB)
    ensures out[i].serviceA == out[j].serviceA && out[i].serviceB == out[j].serviceB ==>
      out[i].templateA == out[j].templateA || Less(out[i].templateA, out[j].templateA)
  {
    LessTotal(out[i].serviceA, out[j].serviceA);
    LessTotal(out[i].serviceB, out[j].serviceB);
    LessTotal(out[i].templateA, out[j].templateA);
  }

  /** The evidence for a value names the last resolution of it, as account:resource. */
  lemma {:induction false} EvidenceNamesLast(rs: seq<Resolution>, value: string)
    ensures value in ProxiesByValue(rs) <==> exists r :: r in rs && r.value == value
    ensures forall i | 0 <= i < |rs| && rs[i].value == value && forall j | i < j < |rs| :: rs[j].value != value ::
      ProxiesByValue(rs)[value] == rs[i].account + ":" + rs[i].resource
    decreases |rs|
  {
    if |rs| != 0 {
      var front, last := rs[..|rs| - 1], rs[|rs| - 1];
      assert rs == front + [last];
      EvidenceNamesLast(front, value);
      assert forall i | 0 <= i < |front| :: front[i] == rs[i];
    }
  }

  // ---- the cloud's declaration -------------------------------------------

  /** A declared edge between two resources of an account. */
  datatype Declared = Declared(account: string, from: string, to: string)

  /** k is one of the two keys of the edge; an edge without both ends has none. */
  predicate Indexes(e: Declared, k: string) {
    e.from != "" && e.to != ""
    && (k == DependencyKey(e.account, e.from, e.to) || k == DependencyKey(e.account, e.to, e.from))
  }

  ghost predicate IsIndex(edges: seq<Declared>, keys: set<string>) {
    forall k :: k in keys <==> exists e :: e in edges && Indexes(e, k)
  }

  lemma IndexNext(edges: seq<Declared>, e: Declared, keys: set<string>, more: set<string>)
    requires IsIndex(edges, keys) && forall k :: k in more <==> Indexes(e, k)
    ensures IsIndex(edges + [e], keys + more)
  {
    assert forall d :: d in edges + [e] <==> d in edges || d == e;
  }

  /** One key for each declared edge and direction. */
  method IndexEdges(edges: seq<Declared>) returns (dependsOn: set<string>)
    ensures IsIndex(edges, dependsOn)
  {
    dependsOn := {};
    for i := 0 to |edges|
      invariant IsIndex(edges[..i], dependsOn)
    {
      var e := edges[i];
      assert edges[..i + 1] == edges[..i] + [e];
      if e.from == "" || e.to == "" {
        IndexNext(edges[..i], e, dependsOn, {});
        assert dependsOn + {} == dependsOn;
        continue;
      }
      var keys := {DependencyKey(e.account, e.from, e.to), DependencyKey(e.account, e.to, e.from)};
      IndexNext(edges[..i], e, dependsOn, keys);
      dependsOn := dependsOn + keys;
    }
    assert edges[..|edges|] == edges;
  }

  predicate PlainEdge(e: Declared) {
    '\0' !in e.account && '\0' !in e.from && '\0' !in e.to
  }

  lemma KeyIdentifies(account: string, from: string, to: string, account': string, from': string, to': string)
    requires '\0' !in account && '\0' !in from && '\0' !in account' && '\0' !in from'
    ensures DependencyKey(account, from, to) == DependencyKey(account', from', to')
      <==> account == account' && from == from' && to == to'
  {
    if DependencyKey(account, from, to) == DependencyKey(account', from', to') {
      assert DependencyKey(account, from, to) == account + ['\0'] + (from + "\0" + to);
      assert DependencyKey(account', from', to') == account' + ['\0'] + (from' + "\0" + to');
      CutIsUnique(account, account', from + "\0" + to, from' + "\0" + to', '\0');
      CutIsUnique(from, from', to, to', '\0');
    }
  }

  /** An edge of that account between two different ends, one way or the other. */
  ghost predicate Declares(edges: seq<Declared>, account: string, a: string, b: string) {
    a != "" && b != "" && (Declared(account, a, b) in edges || Declared(account, b, a) in edges)
  }

  /** Two resources depend on each other exactly when an edge of their one account joins them, in either direction. */
  lemma DependencyIsDeclared(edges: seq<Declared>, cloud: Cloud, a: CloudRef, b: CloudRef)
    requires IsIndex(edges, cloud.dependsOn) && (forall e | e in edges :: PlainEdge(e))
    requires '\0' !in a.account && '\0' !in a.id && '\0' !in b.id
    ensures HasDependency(cloud, a, b) <==> a.account == b.account && Declares(edges, a.account, a.id, b.id)
    ensures a.account == b.account ==> (HasDependency(cloud, a, b) <==> HasDependency(cloud, b, a))
  {
    KeyIsDeclared(edges, cloud, a.account, a.id, b.id);
    KeyIsDeclared(edges, cloud, a.account, b.id, a.id);
  }

  lemma KeyIsDeclared(edges: seq<Declared>, cloud: Cloud, account: string, a: string, b: string)
    requires IsIndex(edges, cloud.dependsOn) && (forall e | e in edges :: PlainEdge(e))
    requires '\0' !in account && '\0' !in a && '\0' !in b
    ensures DependencyKey(account, a, b) in cloud.dependsOn <==> Declares(edges, account, a, b)
  {
    var k := DependencyKey(account, a, b);
    forall e | e in edges
      ensures Indexes(e, k) <==> a != "" && b != "" && (e == Declared(account, a, b) || e == Declared(account, b, a))
    {
      KeyIdentifies(account, a, b, e.account, e.from, e.to);
      KeyIdentifies(account, a, b, e.account, e.to, e.from);
    }
    if Declares(edges, account, a, b) {
      var e := if Declared(account, a, b) in edges then Declared(account, a, b) else Declared(account, b, a);
      assert e in edges && Indexes(e, k);
    }
  }
}
