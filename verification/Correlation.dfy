/**
  Cross-service correlation: which pairs of error templates burned together in two services that depend on
  each other.
 */
module Correlations {

  import opened Wrappers
  import opened Strings
  import opened Model
  import opened Streams
  import opened Chunks
  import opened Resolve

  /** What a collect knows of the cloud: its resources, and one key per declared edge and direction. */
  datatype Cloud = Cloud(resources: seq<Resource>, dependsOn: set<string>)

  datatype CloudRef = CloudRef(account: string, id: string)

  /** The stream a template is attributed to, and the service that names. */
  datatype Owner = Owner(stream: Stream, service: string)

  datatype Candidate = Candidate(a: Template, b: Template, serviceA: string, serviceB: string, overlap: real)

  datatype Correlation = Correlation(templateA: string, templateB: string, serviceA: string, serviceB: string,
    resourceA: string, resourceB: string, score: real, confirmed: bool)

  // ---- how much two ranges share -----------------------------------------

  /** How far two ranges may drift and still count as co-occurring. */
  const CORRELATION_WINDOW: int := 60 * SECOND

  /** Both bounds of the range are known. */
  predicate Bounded(t: Template) {
    t.firstSeen != ZERO_TIME && t.lastSeen != ZERO_TIME
  }

  /** A range with half the window on each side; one with an unknown bound is left as it is. */
  function Padded(t: Template): (Instant, Instant) {
    if Bounded(t) then (t.firstSeen - CORRELATION_WINDOW / 2, t.lastSeen + CORRELATION_WINDOW / 2)
    else (t.firstSeen, t.lastSeen)
  }

  function Clamp(x: real): real {
    if x < 0.0 then 0.0 else if x > 1.0 then 1.0 else x
  }

  /** How long the padded ranges of two templates meet: negative when they do not. */
  function Shared(a: Template, b: Template): int {
    var ((fromA, toA), (fromB, toB)) := (Padded(a), Padded(b));
    (if toB < toA then toB else toA) - (if fromB > fromA then fromB else fromA)
  }

  /** The length of the wider padded range. */
  function Wider(a: Template, b: Template): int {
    var ((fromA, toA), (fromB, toB)) := (Padded(a), Padded(b));
    if toA - fromA > toB - fromB then toA - fromA else toB - fromB
  }

  /** The shared part of the padded ranges over the wider of them, clamped; None when they are disjoint. */
  function Overlap(a: Template, b: Template): (score: Option<real>) {
    var ((fromA, toA), (fromB, toB)) := (Padded(a), Padded(b));
    if toA < fromB || toB < fromA then None
    else if Wider(a, b) <= 0 then Some(1.0)
    else Some(Clamp(Shared(a, b) as real / Wider(a, b) as real))
  }

  /** Neither range starts more than the window after the other ends. */
  predicate WithinWindow(a: Template, b: Template) {
    b.firstSeen - a.lastSeen <= CORRELATION_WINDOW && a.firstSeen - b.lastSeen <= CORRELATION_WINDOW
  }

  lemma Proportion(x: int, y: int)
    requires 0 <= x <= y && y > 0
    ensures 0.0 <= x as real / y as real <= 1.0
    ensures x as real / y as real == 1.0 <==> x == y
  {
    assert x as real == (x as real / y as real) * y as real;
  }

  /**
    On ranges that run forward: two templates overlap exactly when neither known range starts more than the
    window after the other ends; the score is the shared proportion, which clamping never changes, one exactly
    when the padded ranges are the same; and it does not matter which template comes first.
   */
  lemma OverlapIsWithinWindow(a: Template, b: Template)
    requires a.firstSeen <= a.lastSeen && b.firstSeen <= b.lastSeen
    ensures Bounded(a) && Bounded(b) ==> (Overlap(a, b).Some? <==> WithinWindow(a, b))
    ensures Overlap(a, b).Some? && Wider(a, b) > 0 ==>
      Overlap(a, b).value == Shared(a, b) as real / Wider(a, b) as real
    ensures Overlap(a, b).Some? ==> (Overlap(a, b).value == 1.0 <==> Padded(a) == Padded(b))
    ensures Overlap(a, b) == Overlap(b, a)
  {
    if Overlap(a, b).Some? && Wider(a, b) > 0 {
      Proportion(Shared(a, b), Wider(a, b));
    }
  }

  // ---- the error templates -----------------------------------------------

  predicate IsError(t: Template) {
    SeverityIndex(t.severity) >= SeverityIndex(ERROR)
  }

  /** The templates at ERROR or above, in order. */
  function Errors(ts: seq<Template>): seq<Template> {
    if |ts| == 0 then []
    else Errors(ts[..|ts| - 1]) + if IsError(ts[|ts| - 1]) then [ts[|ts| - 1]] else []
  }

  method FilterErrors(ts: seq<Template>) returns (out: seq<Template>)
    ensures out == Errors(ts)
  {
    out := [];
    for i := 0 to |ts|
      invariant out == Errors(ts[..i])
    {
      assert ts[..i + 1][..i] == ts[..i];
      if IsError(ts[i]) {
        out := out + [ts[i]];
      }
    }
    assert ts[..|ts|] == ts;
  }

  /** a comes before b. */
  ghost predicate InThisOrder(ts: seq<Template>, a: Template, b: Template) {
    exists i, j :: 0 <= i < j < |ts| && ts[i] == a && ts[j] == b
  }

  lemma InThisOrderSnoc(front: seq<Template>, t: Template, a: Template, b: Template)
    ensures InThisOrder(front + [t], a, b) <==> InThisOrder(front, a, b) || (a in front && b == t)
  {
    var ts := front + [t];
    if a in front && b == t {
      var i :| 0 <= i < |front| && front[i] == a;
      assert ts[i] == a && ts[|front|] == b;
    }
    if InThisOrder(front, a, b) {
      var i, j :| 0 <= i < j < |front| && front[i] == a && front[j] == b;
      assert ts[i] == a && ts[j] == b;
    }
  }

  /** Filtering keeps order. */
  lemma {:induction false} ErrorsKeepOrder(ts: seq<Template>, a: Template, b: Template)
    ensures InThisOrder(Errors(ts), a, b) <==> InThisOrder(ts, a, b) && IsError(a) && IsError(b)
    ensures a in Errors(ts) <==> a in ts && IsError(a)
    decreases |ts|
  {
    if |ts| != 0 {
      var front, t := ts[..|ts| - 1], ts[|ts| - 1];
      assert ts == front + [t];
      ErrorsKeepOrder(front, a, b);
      InThisOrderSnoc(front, t, a, b);
      if IsError(t) {
        InThisOrderSnoc(Errors(front), t, a, b);
      } else {
        assert Errors(ts) == Errors(front);
      }
    }
  }

  // ---- which service a template belongs to -------------------------------

  function LabelAt(labels: map<string, string>, key: string): string {
    if key in labels then labels[key] else ""
  }

  /** The first of the four service labels that is not empty. */
  function ServiceOf(s: Stream): string {
    if LabelAt(s.labels, "service") != "" then s.labels["service"]
    else if LabelAt(s.labels, "namespace") != "" then s.labels["namespace"]
    else if LabelAt(s.labels, "deployment") != "" then s.labels["deployment"]
    else LabelAt(s.labels, "app")
  }

  /** The streams by id, later ones overriding. */
  function ById(streams: seq<Stream>): map<string, Stream> {
    if |streams| == 0 then map[]
      else ById(streams[..|streams| - 1])[streams[|streams| - 1].id := streams[|streams| - 1]]
  }

  /** The chunk attributes the template to a stream that names a service. */
  predicate Attributes(byId: map<string, Stream>, c: Chunk, id: string) {
    c.template == id && c.stream in byId && ServiceOf(byId[c.stream]) != ""
  }

  /** The owner that the first of the first n chunks to name one gives the template. */
  function OwnerOf(byId: map<string, Stream>, chunks: seq<Chunk>, n: nat, id: string): (owner: Option<Owner>)
    requires n <= |chunks|
    ensures owner.Some? <==> exists k :: 0 <= k < n && Attributes(byId, chunks[k], id)
  {
    if n == 0 then None
    else
      var before := OwnerOf(byId, chunks, n - 1, id);
      if before.Some? then before
      else if Attributes(byId, chunks[n - 1], id) then
        Some(Owner(byId[chunks[n - 1].stream], ServiceOf(byId[chunks[n - 1].stream])))
      else None
  }

  function IdsOf(ts: seq<Template>): set<string> {
    set t | t in ts :: t.id
  }

  /** The owners, by id, of the templates that have one among the first n chunks. */
  function OwnersUpTo(ts: seq<Template>, byId: map<string, Stream>, chunks: seq<Chunk>, n: nat): map<string, Owner>
    requires n <= |chunks|
  {
    map id | id in IdsOf(ts) && OwnerOf(byId, chunks, n, id).Some? :: OwnerOf(byId, chunks, n, id).value
  }

  function Owners(ts: seq<Template>, chunks: seq<Chunk>, streams: seq<Stream>): map<string, Owner> {
    OwnersUpTo(ts, ById(streams), chunks, |chunks|)
  }

  /** What one chunk adds to the owners known before it. */
  function AttributedNext(ids: set<string>, byId: map<string, Stream>, refs: map<string, Owner>, c: Chunk)
    : map<string, Owner>
  {
    if c.template in ids && c.template !in refs && Attributes(byId, c, c.template) then
      refs[c.template := Owner(byId[c.stream], ServiceOf(byId[c.stream]))]
    else refs
  }

  lemma OwnersNext(ts: seq<Template>, byId: map<string, Stream>, chunks: seq<Chunk>, n: nat)
    requires n < |chunks|
    ensures OwnersUpTo(ts, byId, chunks, n + 1)
         == AttributedNext(IdsOf(ts), byId, OwnersUpTo(ts, byId, chunks, n), chunks[n])
  {
  }

  method IndexStreams(streams: seq<Stream>) returns (byId: map<string, Stream>)
    ensures byId == ById(streams)
  {
    byId := map[];
    for i := 0 to |streams|
      invariant byId == ById(streams[..i])
    {
      assert streams[..i + 1][..i] == streams[..i];
      byId := byId[streams[i].id := streams[i]];
    }
    assert streams[..|streams|] == streams;
  }

  method AttributeChunk(ids: set<string>, byId: map<string, Stream>, refs: map<string, Owner>, c: Chunk)
    returns (refs': map<string, Owner>)
    ensures refs' == AttributedNext(ids, byId, refs, c)
  {
    if c.template !in ids || c.template in refs || c.stream !in byId {
      return refs;
    }
    var service := ServiceOf(byId[c.stream]);
    if service == "" {
      return refs;
    }
    return refs[c.template := Owner(byId[c.stream], service)];
  }

  /** Attributes each template to the service of the first chunk whose stream names one. */
  method MapTemplateStreams(ts: seq<Template>, chunks: seq<Chunk>, streams: seq<Stream>)
    returns (refs: map<string, Owner>)
    ensures refs == Owners(ts, chunks, streams)
  {
    var errorIds := IdsOf(ts);
    var byId := IndexStreams(streams);
    refs := map[];
    for i := 0 to |chunks|
      invariant refs == OwnersUpTo(ts, byId, chunks, i)
    {
      OwnersNext(ts, byId, chunks, i);
      refs := AttributeChunk(errorIds, byId, refs, chunks[i]);
    }
  }

  // ---- the cloud's answers -----------------------------------------------

  predicate IsEmpty(cloud: Cloud) {
    |cloud.resources| == 0 && cloud.dependsOn == {}
  }

  function DependencyKey(account: string, from: string, to: string): string {
    account + "\0" + from + "\0" + to
  }

  /** Some declared edge joins the two, within one account. */
  predicate HasDependency(cloud: Cloud, a: CloudRef, b: CloudRef) {
    a.account == b.account && DependencyKey(a.account, a.id, b.id) in cloud.dependsOn
  }

  /** The resource that a service resolves to, by the rule of the proxies. */
  function ResourceOf(rules: Rules, cloud: Cloud, service: string): Option<CloudRef> {
    match ResolutionOf(rules, cloud.resources, "service", service)
    case None => None
    case Some(r) => Some(CloudRef(r.account, r.resource))
  }

  /** The answers given for the templates in done. */
  function AnswersAmong(ask: string -> Option<CloudRef>, refs: map<string, Owner>, done: set<string>)
    : map<string, CloudRef>
    requires done <= refs.Keys
  {
    map id | id in done && ask(refs[id].service).Some? :: ask(refs[id].service).value
  }

  /** The resources of the templates whose service resolves. */
  function ResourcesOf(rules: Rules, cloud: Cloud, refs: map<string, Owner>): map<string, CloudRef> {
    AnswersAmong(s => ResourceOf(rules, cloud, s), refs, refs.Keys)
  }

  lemma AnswersNext(ask: string -> Option<CloudRef>, refs: map<string, Owner>, done: set<string>, id: string)
    requires done <= refs.Keys && id in refs && id !in done
    ensures var was, r := AnswersAmong(ask, refs, done), ask(refs[id].service);
      AnswersAmong(ask, refs, done + {id}) == if r.Some? then was[id := r.value] else was
  {
  }

  /** What is remembered of the services asked for. */
  ghost predicate Remembered(rules: Rules, cloud: Cloud, hits: map<string, CloudRef>, misses: set<string>) {
    && (forall s | s in hits :: ResourceOf(rules, cloud, s) == Some(hits[s]))
    && (forall s | s in misses :: ResourceOf(rules, cloud, s) == None)
  }

  /** Asks the cloud for a service unless it has been asked before. */
  method ResolveService(rules: Rules, cloud: Cloud, service: string, hits: map<string, CloudRef>, misses: set<string>)
    returns (r: Option<CloudRef>, hits': map<string, CloudRef>, misses': set<string>)
    requires Remembered(rules, cloud, hits, misses)
    ensures r == ResourceOf(rules, cloud, service) && Remembered(rules, cloud, hits', misses')
  {
    hits', misses' := hits, misses;
    if service in hits {
      return Some(hits[service]), hits, misses;
    }
    if service in misses {
      return None, hits, misses;
    }
    var resolved := ResolveLabel(rules, "service", service, cloud.resources);
    if resolved.None? {
      return None, hits, misses + {service};
    }
    var found := CloudRef(resolved.value.account, resolved.value.resource);
    return Some(found), hits[service := found], misses;
  }

  lemma DoneGrows(all: set<string>, todo: set<string>, id: string)
    requires todo <= all && id in todo
    ensures all - (todo - {id}) == all - todo + {id}
  {
  }

  /** Resolves each service once, and remembers hits and misses. */
  method ResolveTemplateResources(rules: Rules, cloud: Cloud, refs: map<string, Owner>)
    returns (out: map<string, CloudRef>)
    ensures out == ResourcesOf(rules, cloud, refs)
  {
    ghost var ask := s => ResourceOf(rules, cloud, s);
    out := map[];
    var hits: map<string, CloudRef>, misses: set<string> := map[], {};
    var todo := refs.Keys;
    while todo != {}
      invariant todo <= refs.Keys && out == AnswersAmong(ask, refs, refs.Keys - todo)
      invariant Remembered(rules, cloud, hits, misses)
      decreases todo
    {
      var id :| id in todo;
      AnswersNext(ask, refs, refs.Keys - todo, id);
      DoneGrows(refs.Keys, todo, id);
      todo := todo - {id};
      var resolved;
      resolved, hits, misses := ResolveService(rules, cloud, refs[id].service, hits, misses);
      if resolved.Some? {
        out := out[id := resolved.value];
      }
    }
    assert refs.Keys - {} == refs.Keys;
  }

  // ---- candidate pairs ---------------------------------------------------

  /** Owned by different services, with ranges that overlap. */
  predicate Pairable(refs: map<string, Owner>, a: Template, b: Template) {
    && a.id in refs && b.id in refs && refs[a.id].service != refs[b.id].service
    && Overlap(a, b).Some?
  }

  function CandidateOf(refs: map<string, Owner>, a: Template, b: Template): Candidate
    requires Pairable(refs, a, b)
  {
    Candidate(a, b, refs[a.id].service, refs[b.id].service, Overlap(a, b).value)
  }

  /** The candidates of template i with those after it, up to the n-th. */
  function PairsWith(refs: map<string, Owner>, ts: seq<Template>, i: nat, n: nat): seq<Candidate>
    requires i < n <= |ts|
  {
    if n == i + 1 then []
    else
      PairsWith(refs, ts, i, n - 1)
        + if Pairable(refs, ts[i], ts[n - 1]) then [CandidateOf(refs, ts[i], ts[n - 1])] else []
  }

  /** The candidates of the first n templates. */
  function PairsUpTo(refs: map<string, Owner>, ts: seq<Template>, n: nat): seq<Candidate>
    requires n <= |ts|
  {
    if n == 0 then [] else PairsUpTo(refs, ts, n - 1) + PairsWith(refs, ts, n - 1, |ts|)
  }

  function Candidates(refs: map<string, Owner>, ts: seq<Template>): seq<Candidate> {
    PairsUpTo(refs, ts, |ts|)
  }

  lemma {:induction false} PairsWithNone(refs: map<string, Owner>, ts: seq<Template>, i: nat, n: nat)
    requires i < n <= |ts| && ts[i].id !in refs
    ensures PairsWith(refs, ts, i, n) == []
  {
    if n != i + 1 {
      PairsWithNone(refs, ts, i, n - 1);
    }
  }

  method PairsOfTemplate(ts: seq<Template>, refs: map<string, Owner>, i: nat) returns (pairs: seq<Candidate>)
    requires i < |ts|
    ensures pairs == PairsWith(refs, ts, i, |ts|)
  {
    var a := ts[i];
    if a.id !in refs {
      PairsWithNone(refs, ts, i, |ts|);
      return [];
    }
    pairs := [];
    for j := i + 1 to |ts|
      invariant pairs == PairsWith(refs, ts, i, j)
    {
      var b := ts[j];
      if b.id !in refs || refs[a.id].service == refs[b.id].service {
        continue;
      }
      var overlap := Overlap(a, b);
      if overlap.None? {
        continue;
      }
      pairs := pairs + [Candidate(a, b, refs[a.id].service, refs[b.id].service, overlap.value)];
    }
  }

  method BuildCandidatePairs(ts: seq<Template>, refs: map<string, Owner>) returns (pairs: seq<Candidate>)
    ensures pairs == Candidates(refs, ts)
  {
    pairs := [];
    for i := 0 to |ts|
      invariant pairs == PairsUpTo(refs, ts, i)
    {
      var more := PairsOfTemplate(ts, refs, i);
      pairs := pairs + more;
    }
  }

  /** p is the candidate of the templates at i and j. */
  predicate PairedAt(refs: map<string, Owner>, ts: seq<Template>, i: nat, j: nat, p: Candidate)
    requires i < |ts| && j < |ts|
  {
    Pairable(refs, ts[i], ts[j]) && p == CandidateOf(refs, ts[i], ts[j])
  }

  lemma {:induction false} PairsWithAre(refs: map<string, Owner>, ts: seq<Template>, i: nat, n: nat, p: Candidate)
    requires i < n <= |ts|
    ensures p in PairsWith(refs, ts, i, n) <==> exists j: nat :: i < j < n && PairedAt(refs, ts, i, j, p)
  {
    if n != i + 1 {
      PairsWithAre(refs, ts, i, n - 1, p);
      assert p in PairsWith(refs, ts, i, n) <==> p in PairsWith(refs, ts, i, n - 1) || PairedAt(refs, ts, i, n - 1, p);
    }
  }

  /** p is the candidate of the template at i and one after it. */
  ghost predicate PairedFrom(refs: map<string, Owner>, ts: seq<Template>, i: nat, p: Candidate)
    requires i < |ts|
  {
    exists j: nat :: i < j < |ts| && PairedAt(refs, ts, i, j, p)
  }

  ghost predicate PairedBelow(refs: map<string, Owner>, ts: seq<Template>, n: nat, p: Candidate)
    requires n <= |ts|
  {
    exists i: nat :: i < n && PairedFrom(refs, ts, i, p)
  }

  lemma PairedBelowNext(refs: map<string, Owner>, ts: seq<Template>, n: nat, p: Candidate)
    requires 0 < n <= |ts|
    ensures PairedBelow(refs, ts, n, p) <==> PairedBelow(refs, ts, n - 1, p) || PairedFrom(refs, ts, n - 1, p)
  {
  }

  lemma {:induction false} PairsUpToAre(refs: map<string, Owner>, ts: seq<Template>, n: nat, p: Candidate)
    requires n <= |ts|
    ensures p in PairsUpTo(refs, ts, n) <==> PairedBelow(refs, ts, n, p)
  {
    if n != 0 {
      PairsUpToAre(refs, ts, n - 1, p);
      PairsWithAre(refs, ts, n - 1, |ts|, p);
      PairedBelowNext(refs, ts, n, p);
      assert p in PairsWith(refs, ts, n - 1, |ts|) <==> PairedFrom(refs, ts, n - 1, p);
    }
  }

  /** Each pair of templates in order whose services differ and whose ranges overlap, and nothing else. */
  lemma CandidatesAre(refs: map<string, Owner>, ts: seq<Template>, p: Candidate)
    ensures p in Candidates(refs, ts)
       <==> InThisOrder(ts, p.a, p.b) && Pairable(refs, p.a, p.b) && p == CandidateOf(refs, p.a, p.b)
  {
    PairsUpToAre(refs, ts, |ts|, p);
    if InThisOrder(ts, p.a, p.b) && Pairable(refs, p.a, p.b) && p == CandidateOf(refs, p.a, p.b) {
      var i: nat, j: nat :| i < j < |ts| && ts[i] == p.a && ts[j] == p.b;
      assert PairedAt(refs, ts, i, j, p);
      assert PairedFrom(refs, ts, i, p);
    }
  }

  // ---- scoring -----------------------------------------------------------

  /** Both resources are known, and some declared edge joins them. */
  predicate Confirmed(cloud: Cloud, resources: map<string, CloudRef>, p: Candidate) {
    p.a.id in resources && p.b.id in resources && HasDependency(cloud, resources[p.a.id], resources[p.b.id])
  }

  function Scored(cloud: Cloud, proxies: map<string, string>, resources: map<string, CloudRef>, p: Candidate)
    : Correlation
  {
    Correlation(p.a.id, p.b.id, p.serviceA, p.serviceB, LabelAt(proxies, p.serviceA), LabelAt(proxies, p.serviceB),
                p.overlap, Confirmed(cloud, resources, p))
  }

  function AllScored(cloud: Cloud, proxies: map<string, string>, resources: map<string, CloudRef>, ps: seq<Candidate>)
    : (rs: seq<Correlation>)
    ensures |rs| == |ps|
  {
    seq(|ps|, i requires 0 <= i < |ps| => Scored(cloud, proxies, resources, ps[i]))
  }

  /** The pairs a collect scores, in the order it builds them. */
  function Correlated(rules: Rules, ts: seq<Template>, chunks: seq<Chunk>, streams: seq<Stream>,
        proxies: map<string, string>, cloud: Cloud)
    : seq<Correlation>
  {
    var refs := Owners(Errors(ts), chunks, streams);
    AllScored(cloud, proxies, ResourcesOf(rules, cloud, refs), Candidates(refs, Errors(ts)))
  }

  // ---- the emitted order -------------------------------------------------

  predicate Before(a: Correlation, b: Correlation) {
    Less(a.serviceA, b.serviceA)
    || (a.serviceA == b.serviceA
        && (Less(a.serviceB, b.serviceB) || (a.serviceB == b.serviceB && Less(a.templateA, b.templateA))))
  }

  /** The same results, by services and then by first template; how ties fall is left open. */
  predicate IsRanking(rs: seq<Correlation>, out: seq<Correlation>) {
    multiset(rs) == multiset(out) && Ranked(out)
  }

  lemma NotBeforeTransitive(a: Correlation, b: Correlation, c: Correlation)
    requires !Before(b, a) && !Before(c, b)
    ensures !Before(c, a)
  {
    LessTotal(a.serviceA, b.serviceA);
    LessTotal(b.serviceA, c.serviceA);
    LessTotal(a.serviceB, b.serviceB);
    LessTotal(b.serviceB, c.serviceB);
    LessTotal(a.templateA, b.templateA);
    LessTotal(b.templateA, c.templateA);
    if Before(c, a) {
      LaterOrSame(a.serviceA, b.serviceA, c.serviceA);
      LaterOrSame(a.serviceB, b.serviceB, c.serviceB);
      LaterOrSame(a.templateA, b.templateA, c.templateA);
    }
  }

  lemma LaterOrSame(a: string, b: string, c: string)
    ensures !Less(b, a) && !Less(c, b) ==> !Less(c, a) && (a == c ==> a == b)
  {
    LessTotal(a, b);
    LessTotal(b, c);
    if Less(a, b) && Less(b, c) {
      LessTransitive(a, b, c);
    }
    if Less(c, a) {
      LessAsymmetric(c, a);
    }
    LessIrreflexive(a);
    if Less(a, b) {
      LessAsymmetric(a, b);
    }
    if Less(b, c) {
      LessAsymmetric(b, c);
    }
  }

  lemma BeforeAsymmetric(a: Correlation, b: Correlation)
    requires Before(a, b)
    ensures !Before(b, a)
  {
    LessIrreflexive(a.serviceA);
    LessIrreflexive(a.serviceB);
    LessIrreflexive(a.templateA);
    if Less(a.serviceA, b.serviceA) {
      LessAsymmetric(a.serviceA, b.serviceA);
    } else if Less(a.serviceB, b.serviceB) {
      LessAsymmetric(a.serviceB, b.serviceB);
    } else {
      LessAsymmetric(a.templateA, b.templateA);
    }
  }

  predicate Ranked(out: seq<Correlation>) {
    forall i, j | 0 <= i < j < |out| :: !Before(out[j], out[i])
  }

  /** What precedes the place found is not after r, and what follows it is not before r. */
  lemma PlaceFits(out: seq<Correlation>, r: Correlation, j: nat)
    requires Ranked(out) && j <= |out|
    requires j > 0 ==> !Before(r, out[j - 1])
    requires forall k | j <= k < |out| :: Before(r, out[k])
    ensures forall k | 0 <= k < j :: !Before(r, out[k])
    ensures forall k | j <= k < |out| :: !Before(out[k], r)
  {
    forall k | 0 <= k < j ensures !Before(r, out[k]) {
      if k < j - 1 {
        NotBeforeTransitive(out[k], out[j - 1], r);
      }
    }
    forall k | j <= k < |out| ensures !Before(out[k], r) {
      BeforeAsymmetric(r, out[k]);
    }
  }

  lemma PlacedIsRanked(out: seq<Correlation>, r: Correlation, j: nat, all: seq<Correlation>)
    requires Ranked(out) && j <= |out| && all == out[..j] + [r] + out[j..]
    requires forall k | 0 <= k < j :: !Before(r, out[k])
    requires forall k | j <= k < |out| :: !Before(out[k], r)
    ensures Ranked(all)
  {
    forall i, k | 0 <= i < k < |all| ensures !Before(all[k], all[i]) {
      assert all[i] == if i < j then out[i] else if i == j then r else out[i - 1];
      assert all[k] == if k < j then out[k] else if k == j then r else out[k - 1];
    }
  }

  lemma PlacedIsPermuted(rs: seq<Correlation>, out: seq<Correlation>, r: Correlation, j: nat)
    requires multiset(rs) == multiset(out) && j <= |out|
    ensures multiset(rs + [r]) == multiset(out[..j] + [r] + out[j..])
  {
    assert out == out[..j] + out[j..];
  }

  /** Sorts the results by services and first template. */
  method Rank(rs: seq<Correlation>) returns (out: seq<Correlation>)
    ensures IsRanking(rs, out)
  {
    out := [];
    for i := 0 to |rs|
      invariant IsRanking(rs[..i], out)
    {
      var r, j := rs[i], |out|;
      while j > 0 && Before(r, out[j - 1])
        invariant 0 <= j <= |out|
        invariant forall k | j <= k < |out| :: Before(r, out[k])
      {
        j := j - 1;
      }
      PlaceFits(out, r, j);
      PlacedIsRanked(out, r, j, out[..j] + [r] + out[j..]);
      PlacedIsPermuted(rs[..i], out, r, j);
      assert rs[..i + 1] == rs[..i] + [r];
      out := out[..j] + [r] + out[j..];
    }
    assert rs[..|rs|] == rs;
  }

  // ---- the detector ------------------------------------------------------

  /** A range both of whose bounds are known and that ends before it starts. */
  predicate RunsBackwards(t: Template) {
    Bounded(t) && t.lastSeen < t.firstSeen
  }

  /** Input that a well-formed collect cannot produce. */
  predicate Malformed(ts: seq<Template>, streams: seq<Stream>) {
    (exists t :: t in ts && (t.id == "" || RunsBackwards(t))) || (exists s :: s in streams && s.id == "")
  }

  method Validate(ts: seq<Template>, streams: seq<Stream>) returns (ok: bool)
    ensures ok <==> !Malformed(ts, streams)
  {
    for i := 0 to |ts|
      invariant forall k | 0 <= k < i :: ts[k].id != "" && !RunsBackwards(ts[k])
    {
      if ts[i].id == "" || RunsBackwards(ts[i]) {
        assert ts[i] in ts;
        return false;
      }
    }
    for i := 0 to |streams|
      invariant forall k | 0 <= k < i :: streams[k].id != ""
    {
      if streams[i].id == "" {
        assert streams[i] in streams;
        return false;
      }
    }
    return true;
  }

  /** With fewer than two of something to pair, nothing is paired. */
  lemma TooFewPair(rules: Rules, ts: seq<Template>, chunks: seq<Chunk>, streams: seq<Stream>,
        proxies: map<string, string>, cloud: Cloud)
    requires |Errors(ts)| < 2 || |Owners(Errors(ts), chunks, streams)| < 2
    ensures Correlated(rules, ts, chunks, streams, proxies, cloud) == []
  {
    var es := Errors(ts);
    var refs := Owners(es, chunks, streams);
    if Candidates(refs, es) != [] {
      var p := Candidates(refs, es)[0];
      CandidatesAre(refs, es, p);
      TwoKeys(refs, p.a.id, p.b.id);
      TwoMembers(es, p.a, p.b);
    }
  }

  lemma TwoMembers(ts: seq<Template>, a: Template, b: Template)
    requires InThisOrder(ts, a, b)
    ensures |ts| >= 2
  {
  }

  lemma TwoKeys(refs: map<string, Owner>, a: string, b: string)
    requires a in refs && b in refs && a != b
    ensures |refs| >= 2
  {
    FewerInside({a, b}, refs.Keys);
    assert |refs| == |refs.Keys|;
  }

  lemma {:induction false} FewerInside(a: set<string>, b: set<string>)
    requires a <= b
    ensures |a| <= |b|
    decreases a
  {
    if a != {} {
      var x :| x in a;
      FewerInside(a - {x}, b - {x});
    }
  }

  lemma NoCloudConfirmsNothing(rules: Rules, cloud: Cloud, refs: map<string, Owner>)
    requires IsEmpty(cloud)
    ensures ResourcesOf(rules, cloud, refs) == map[]
  {
  }

  method ScoreAll(cloud: Cloud, proxies: map<string, string>, resources: map<string, CloudRef>, ps: seq<Candidate>)
    returns (rs: seq<Correlation>)
    ensures rs == AllScored(cloud, proxies, resources, ps)
  {
    rs := [];
    for i := 0 to |ps|
      invariant |rs| == i && forall k | 0 <= k < i :: rs[k] == Scored(cloud, proxies, resources, ps[k])
    {
      rs := rs + [Scored(cloud, proxies, resources, ps[i])];
    }
  }

  /** The pairs of attributed error templates, scored. */
  method ScorePairs(rules: Rules, errors: seq<Template>, refs: map<string, Owner>, proxies: map<string, string>,
        cloud: Cloud)
    returns (rs: seq<Correlation>)
    ensures rs == AllScored(cloud, proxies, ResourcesOf(rules, cloud, refs), Candidates(refs, errors))
  {
    var resources: map<string, CloudRef> := map[];
    if IsEmpty(cloud) {
      NoCloudConfirmsNothing(rules, cloud, refs);
    } else {
      resources := ResolveTemplateResources(rules, cloud, refs);
    }
    var pairs := BuildCandidatePairs(errors, refs);
    rs := ScoreAll(cloud, proxies, resources, pairs);
  }

  /** Every candidate pair, scored and ranked; or an error exactly when the input is malformed. */
  method FindCorrelations(rules: Rules, ts: seq<Template>, chunks: seq<Chunk>, streams: seq<Stream>,
        proxies: map<string, string>, cloud: Cloud) returns (r: Result<seq<Correlation>, string>)
    ensures r.Failure? <==> Malformed(ts, streams)
    ensures r.Success? ==> IsRanking(Correlated(rules, ts, chunks, streams, proxies, cloud), r.value)
  {
    var ok := Validate(ts, streams);
    if !ok {
      return Failure("correlation: malformed input");
    }
    var errors := FilterErrors(ts);
    if |errors| < 2 {
      TooFewPair(rules, ts, chunks, streams, proxies, cloud);
      return Success([]);
    }
    var refs := MapTemplateStreams(errors, chunks, streams);
    if |refs| < 2 {
      TooFewPair(rules, ts, chunks, streams, proxies, cloud);
      return Success([]);
    }
    var results := ScorePairs(rules, errors, refs, proxies, cloud);
    var ranked := Rank(results);
    return Success(ranked);
  }

  // ---- exactly which pairs are confirmed ---------------------------------

  /** The service a template is attributed to, if any. */
  function ServiceFor(ts: seq<Template>, chunks: seq<Chunk>, streams: seq<Stream>, id: string): Option<string> {
    match OwnerOf(ById(streams), chunks, |chunks|, id)
    case None => None
    case Some(owner) => Some(owner.service)
  }

  /** Two services whose resources some declared edge joins. */
  predicate Depend(rules: Rules, cloud: Cloud, s: string, t: string) {
    && ResourceOf(rules, cloud, s).Some? && ResourceOf(rules, cloud, t).Some?
    && HasDependency(cloud, ResourceOf(rules, cloud, s).value, ResourceOf(rules, cloud, t).value)
  }

  /** Two error templates of different services that burned together, in slice order. */
  ghost predicate Cooccur(ts: seq<Template>, chunks: seq<Chunk>, streams: seq<Stream>, a: Template, b: Template) {
    && InThisOrder(ts, a, b) && IsError(a) && IsError(b) && Overlap(a, b).Some?
    && ServiceFor(ts, chunks, streams, a.id).Some? && ServiceFor(ts, chunks, streams, b.id).Some?
    && ServiceFor(ts, chunks, streams, a.id) != ServiceFor(ts, chunks, streams, b.id)
  }

  function ResultOf(rules: Rules, ts: seq<Template>, chunks: seq<Chunk>, streams: seq<Stream>,
        proxies: map<string, string>, cloud: Cloud, a: Template, b: Template)
    : Correlation
    requires ServiceFor(ts, chunks, streams, a.id).Some? && ServiceFor(ts, chunks, streams, b.id).Some?
    requires Overlap(a, b).Some?
  {
    var s, t := ServiceFor(ts, chunks, streams, a.id).value, ServiceFor(ts, chunks, streams, b.id).value;
    Correlation(a.id, b.id, s, t, LabelAt(proxies, s), LabelAt(proxies, t), Overlap(a, b).value,
      Depend(rules, cloud, s, t))
  }

  /** The candidates are the co-occurring pairs. */
  lemma CandidatesCooccur(ts: seq<Template>, chunks: seq<Chunk>, streams: seq<Stream>, refs: map<string, Owner>,
        p: Candidate)
    requires refs == Owners(Errors(ts), chunks, streams)
    ensures p in Candidates(refs, Errors(ts))
       <==> Cooccur(ts, chunks, streams, p.a, p.b) && Pairable(refs, p.a, p.b) && p == CandidateOf(refs, p.a, p.b)
    ensures Cooccur(ts, chunks, streams, p.a, p.b) ==> Pairable(refs, p.a, p.b)
  {
    CandidatesAre(refs, Errors(ts), p);
    ErrorsKeepOrder(ts, p.a, p.b);
    ErrorsKeepOrder(ts, p.b, p.a);
  }

  lemma ScoredIsResult(rules: Rules, ts: seq<Template>, chunks: seq<Chunk>, streams: seq<Stream>,
        proxies: map<string, string>, cloud: Cloud, refs: map<string, Owner>, p: Candidate)
    requires refs == Owners(Errors(ts), chunks, streams)
    requires Cooccur(ts, chunks, streams, p.a, p.b) && Pairable(refs, p.a, p.b) && p == CandidateOf(refs, p.a, p.b)
    ensures Scored(cloud, proxies, ResourcesOf(rules, cloud, refs), p)
         == ResultOf(rules, ts, chunks, streams, proxies, cloud, p.a, p.b)
  {
  }

  /** r is the result of some co-occurring pair. */
  ghost predicate ResultOfSome(rules: Rules, ts: seq<Template>, chunks: seq<Chunk>, streams: seq<Stream>,
        proxies: map<string, string>, cloud: Cloud, r: Correlation)
  {
    exists a, b :: Cooccur(ts, chunks, streams, a, b) && r == ResultOf(rules, ts, chunks, streams, proxies, cloud, a, b)
  }

  /**
    The detector's results are exactly those of the co-occurring pairs, each with its services and score, and
    confirmed exactly when the services depend on each other.
   */
  lemma CorrelationsAreExact(rules: Rules, ts: seq<Template>, chunks: seq<Chunk>, streams: seq<Stream>,
        proxies: map<string, string>, cloud: Cloud, r: Correlation)
    ensures r in Correlated(rules, ts, chunks, streams, proxies, cloud)
       <==> ResultOfSome(rules, ts, chunks, streams, proxies, cloud, r)
  {
    var refs := Owners(Errors(ts), chunks, streams);
    var resources, ps := ResourcesOf(rules, cloud, refs), Candidates(refs, Errors(ts));
    var rs := AllScored(cloud, proxies, resources, ps);
    if r in rs {
      var i :| 0 <= i < |rs| && rs[i] == r;
      CandidatesCooccur(ts, chunks, streams, refs, ps[i]);
      ScoredIsResult(rules, ts, chunks, streams, proxies, cloud, refs, ps[i]);
    }
    if a, b :| Cooccur(ts, chunks, streams, a, b) && r == ResultOf(rules, ts, chunks, streams, proxies, cloud, a, b) {
      InResults(rules, ts, chunks, streams, proxies, cloud, a, b);
    }
  }

  lemma InResults(rules: Rules, ts: seq<Template>, chunks: seq<Chunk>, streams: seq<Stream>,
        proxies: map<string, string>, cloud: Cloud, a: Template, b: Template)
    requires Cooccur(ts, chunks, streams, a, b)
    ensures ResultOf(rules, ts, chunks, streams, proxies, cloud, a, b)
         in Correlated(rules, ts, chunks, streams, proxies, cloud)
  {
    var refs := Owners(Errors(ts), chunks, streams);
    var resources, ps := ResourcesOf(rules, cloud, refs), Candidates(refs, Errors(ts));
    CandidatesCooccur(ts, chunks, streams, refs, Candidate(a, b, "", "", 0.0));
    var p := CandidateOf(refs, a, b);
    CandidatesCooccur(ts, chunks, streams, refs, p);
    ScoredIsResult(rules, ts, chunks, streams, proxies, cloud, refs, p);
    var i :| 0 <= i < |ps| && ps[i] == p;
    assert AllScored(cloud, proxies, resources, ps)[i] == Scored(cloud, proxies, resources, p);
  }

  /** A result is about two different emitted templates, both errors, of two different services. */
  lemma ResultsJoinTemplates(rules: Rules, ts: seq<Template>, chunks: seq<Chunk>, streams: seq<Stream>,
        proxies: map<string, string>, cloud: Cloud, r: Correlation)
    requires r in Correlated(rules, ts, chunks, streams, proxies, cloud)
    ensures exists a, b :: a in ts && b in ts && IsError(a) && IsError(b) && a.id == r.templateA && b.id == r.templateB
    ensures r.templateA != r.templateB && r.serviceA != r.serviceB
  {
    CorrelationsAreExact(rules, ts, chunks, streams, proxies, cloud, r);
    var a, b :| Cooccur(ts, chunks, streams, a, b) && r == ResultOf(rules, ts, chunks, streams, proxies, cloud, a, b);
    assert a in ts && b in ts;
  }

  // ---- what the evidence names -------------------------------------------

  function ProxyText(account: string, resource: string): string {
    account + ":" + resource
  }

  /** The resolved resources by label value, later resolutions overriding. */
  function ProxiesByValue(rs: seq<Resolution>): map<string, string> {
    if |rs| == 0 then map[]
    else
      var r := rs[|rs| - 1];
      ProxiesByValue(rs[..|rs| - 1])[r.value := ProxyText(r.account, r.resource)]
  }

  method ProxyMapFrom(rs: seq<Resolution>) returns (out: map<string, string>)
    ensures out == ProxiesByValue(rs)
  {
    out := map[];
    for i := 0 to |rs|
      invariant out == ProxiesByValue(rs[..i])
    {
      assert rs[..i + 1][..i] == rs[..i];
      out := out[rs[i].value := ProxyText(rs[i].account, rs[i].resource)];
    }
    assert rs[..|rs|] == rs;
  }

  /** The last pair of a value to be met for the first time. */
  ghost function LastOf(ps: seq<Pair>, value: string): Option<Pair> {
    if |ps| == 0 then None
    else
      var front, p := ps[..|ps| - 1], ps[|ps| - 1];
      if p.value == value && Resolve.Text(p) !in TextsOf(front) then Some(p) else LastOf(front, value)
  }

  ghost function ProxiesFor(rules: Rules, resources: seq<Resource>, ps: seq<Pair>): map<string, string> {
    ProxiesByValue(ResolutionsOf(rules, resources, ps))
  }

  /** ... names the resource of that value, if any resource matches it. */
  lemma {:induction false} LastPairNames(rules: Rules, resources: seq<Resource>, ps: seq<Pair>, value: string)
    ensures var last, named := LastOf(ps, value), ProxiesFor(rules, resources, ps);
      && (last.None? ==> value !in named)
      && (last.Some? ==> last.value.value == value && last.value in ps)
      && (last.Some? && ResolutionOf(rules, resources, last.value.key, value).Some? ==>
            var r := ResolutionOf(rules, resources, last.value.key, value).value;
            value in named && named[value] == ProxyText(r.account, r.resource))
    decreases |ps|
  {
    if |ps| != 0 {
      var front, p := ps[..|ps| - 1], ps[|ps| - 1];
      LastPairNames(rules, resources, front, value);
      var before, r := ResolutionsOf(rules, resources, front), ResolutionOf(rules, resources, p.key, p.value);
      if r.Some? {
        assert (before + [r.value])[..|before|] == before;
      }
    }
  }

  /** The evidence on a confirmed correlation of this service names the resource its dependency was confirmed for. */
  ghost predicate EvidenceAgrees(rules: Rules, cloud: Cloud, streams: seq<Stream>, service: string) {
    var named, r := ProxiesFor(rules, cloud.resources, PairsOf(streams)), ResourceOf(rules, cloud, service);
    service in named && r.Some? ==> named[service] == ProxyText(r.value.account, r.value.id)
  }

  /** The value was last met as a namespace. */
  ghost predicate LastIsNamespace(streams: seq<Stream>, service: string) {
    LastOf(PairsOf(streams), service) == Some(Pair("namespace", service))
  }

  /** Any key but namespace resolves as service does. */
  lemma ResolvesAsService(rules: Rules, resources: seq<Resource>, key: string, service: string)
    requires key != "namespace"
    ensures ResolutionOf(rules, resources, key, service).Some?
      <==> ResolutionOf(rules, resources, "service", service).Some?
    ensures var r, s := ResolutionOf(rules, resources, key, service),
      ResolutionOf(rules, resources, "service", service);
      r.Some? ==> r.value.account == s.value.account && r.value.resource == s.value.resource
  {
  }

  lemma EvidenceAgreesUnlessNamespace(rules: Rules, cloud: Cloud, streams: seq<Stream>, service: string)
    requires !LastIsNamespace(streams, service)
    ensures EvidenceAgrees(rules, cloud, streams, service)
  {
    var ps := PairsOf(streams);
    LastPairNames(rules, cloud.resources, ps, service);
    var last := LastOf(ps, service);
    if last.Some? {
      assert last.value == Pair(last.value.key, service);
      ResolvesAsService(rules, cloud.resources, last.value.key, service);
    }
  }

  /** A service and a namespace of one name. */
  function Namesakes(name: string): seq<Resource> {
    [Resource("a", "s", name, "Service"), Resource("a", "n", name, "Namespace")]
  }

  lemma NamesakesResolve(rules: Rules, name: string)
    requires name != "" && rules.sameName(name, name)
    ensures ResolutionOf(rules, Namesakes(name), "service", name) == Some(Resolution("service", name, "a", "s"))
    ensures ResolutionOf(rules, Namesakes(name), "namespace", name) == Some(Resolution("namespace", name, "a", "n"))
  {
    ServiceRanks();
    NamespaceRanks();
    assert IsBest(rules, Namesakes(name), 2, name, SERVICE_PREFIXES, Some(0));
    BestIsUnique(rules, Namesakes(name), name, SERVICE_PREFIXES, Some(0));
    assert IsBest(rules, Namesakes(name), 2, name, NAMESPACE_PREFIXES, Some(1));
    BestIsUnique(rules, Namesakes(name), name, NAMESPACE_PREFIXES, Some(1));
  }

  lemma FitsNone(resourceType: string, allowed: seq<string>)
    requires resourceType != ""
    requires forall i | 0 <= i < |allowed| :: allowed[i] != "" && allowed[i][0] != resourceType[0]
    ensures RankOf(resourceType, allowed).None?
  {
    forall i | 0 <= i < |allowed| ensures !Fits(resourceType, allowed[i]) {
    }
  }

  lemma ServiceRanks()
    ensures RankOf("Service", SERVICE_PREFIXES).Some? && RankOf("Namespace", SERVICE_PREFIXES).None?
  {
    assert SERVICE_PREFIXES[7] == "Service" && Fits("Service", SERVICE_PREFIXES[7]);
    FitsNone("Namespace", SERVICE_PREFIXES);
  }

  lemma NamespaceRanks()
    ensures RankOf("Namespace", NAMESPACE_PREFIXES).Some? && RankOf("Service", NAMESPACE_PREFIXES).None?
  {
    assert NAMESPACE_PREFIXES[1] == "Namespace" && Fits("Namespace", NAMESPACE_PREFIXES[1]);
    FitsNone("Service", NAMESPACE_PREFIXES);
  }

  /**
    Whatever the cloud declares, evidence and confirmation name one resource, if and only if the service's name
    was not last met as a namespace.
   */
  lemma EvidenceIsConsistent(rules: Rules, streams: seq<Stream>, service: string)
    requires service != "" && rules.sameName(service, service)
    ensures (forall cloud :: EvidenceAgrees(rules, cloud, streams, service)) <==> !LastIsNamespace(streams, service)
  {
    if LastIsNamespace(streams, service) {
      var cloud := Cloud(Namesakes(service), {});
      NamesakesResolve(rules, service);
      LastPairNames(rules, cloud.resources, PairsOf(streams), service);
      assert ProxyText("a", "n")[2] != ProxyText("a", "s")[2];
      assert !EvidenceAgrees(rules, cloud, streams, service);
    } else {
      forall cloud ensures EvidenceAgrees(rules, cloud, streams, service) {
        EvidenceAgreesUnlessNamespace(rules, cloud, streams, service);
      }
    }
  }

  /** Streams without namespace labels, as a CloudWatch walk's are, never disagree. */
  lemma NoNamespaceNoDisagreement(rules: Rules, cloud: Cloud, streams: seq<Stream>, service: string)
    requires forall s | s in streams :: "namespace" !in s.lowCard
    ensures EvidenceAgrees(rules, cloud, streams, service)
  {
    LastPairNames(rules, cloud.resources, PairsOf(streams), service);
    PairsAreEligible(streams, Pair("namespace", service));
    EvidenceAgreesUnlessNamespace(rules, cloud, streams, service);
  }
}
