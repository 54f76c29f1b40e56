/** Resolving service labels to cloud resources. */
module Resolve {

  import opened Wrappers
  import opened Model
  import opened Streams

  datatype Resource = Resource(account: string, id: string, symbolName: string, resourceType: string)

  /** One label-to-resource resolution. */
  datatype Resolution = Resolution(key: string, value: string, account: string, resource: string)

  /** Priority orders: the first matching prefix wins. */
  const SERVICE_PREFIXES := [
    "ecs:service", "ecs-service", "lambda:function", "lambda-function", "cloudrun:service", "cloud-run:service",
      "k8s:Service",
    "Service", "Deployment", "StatefulSet", "DaemonSet", "ReplicaSet", "Job", "CronJob", "Pod", "gce:instance-group",
      "appengine:service"
  ]

  const NAMESPACE_PREFIXES := ["k8s:Namespace", "Namespace", "gcp:project", "aws:account", "ec2:vpc", "vpc"]

  predicate IsServiceKey(key: string) {
    key == "service" || key == "namespace" || key == "deployment" || key == "app"
  }

  function PrefixesFor(key: string): seq<string> {
    if key == "namespace" then NAMESPACE_PREFIXES else SERVICE_PREFIXES
  }

  // ---- one resource type -------------------------------------------------

  /** p is the whole type, or a prefix of it that ends at a word boundary. */
  predicate Fits(resourceType: string, p: string) {
    p <= resourceType && (|resourceType| == |p| || resourceType[|p|] in ":-/")
  }

  /** The index of the first allowed prefix that fits. */
  function Rank(resourceType: string, allowed: seq<string>, n: nat): (r: Option<nat>)
    requires n <= |allowed|
    ensures r.Some? ==> resourceType != "" && r.value < n && Fits(resourceType, allowed[r.value])
    ensures r.Some? ==> forall i | 0 <= i < r.value :: !Fits(resourceType, allowed[i])
    ensures r.None? ==> resourceType == "" || forall i | 0 <= i < n :: !Fits(resourceType, allowed[i])
  {
    if n == 0 || resourceType == "" then None
    else
      var before := Rank(resourceType, allowed, n - 1);
      if before.Some? then before else if Fits(resourceType, allowed[n - 1]) then Some(n - 1) else None
  }

  function RankOf(resourceType: string, allowed: seq<string>): Option<nat> {
    Rank(resourceType, allowed, |allowed|)
  }

  /** A word boundary keeps a kind from matching a longer one. */
  lemma ServiceAccountIsNoService()
    ensures !Fits("ServiceAccount", "Service") && Fits("Service", "Service")
    ensures forall rest :: Fits("Service" + "/" + rest, "Service")
  {
    assert "ServiceAccount"[|"Service"|] == 'A';
    forall rest ensures Fits("Service" + "/" + rest, "Service") {
      var s := "Service" + "/" + rest;
      assert s[|"Service"|] == '/';
      assert s[..|"Service"|] == "Service";
    }
  }

  method PrefixRank(resourceType: string, allowed: seq<string>) returns (r: Option<nat>)
    ensures r == RankOf(resourceType, allowed)
  {
    if resourceType == "" {
      return None;
    }
    for i := 0 to |allowed|
      invariant Rank(resourceType, allowed, i).None?
    {
      if Fits(resourceType, allowed[i]) {
        FirstFitIsRank(resourceType, allowed, i, |allowed|);
        return Some(i);
      }
    }
    return None;
  }

  lemma {:induction false} FirstFitIsRank(resourceType: string, allowed: seq<string>, i: nat, n: nat)
    requires i < n <= |allowed| && resourceType != "" && Fits(resourceType, allowed[i])
      && Rank(resourceType, allowed, i).None?
    ensures Rank(resourceType, allowed, n) == Some(i)
  {
    if n > i + 1 {
      FirstFitIsRank(resourceType, allowed, i, n - 1);
    }
  }

  // ---- the best resource -------------------------------------------------

  /** The rank of a resource whose name matches; None when the name or the type does not. */
  function Score(rules: Rules, r: Resource, name: string, allowed: seq<string>): Option<nat> {
    if r.symbolName == "" || !rules.sameName(r.symbolName, name) then None else RankOf(r.resourceType, allowed)
  }

  /** The best of the first n: the lowest rank, and among equals the first. */
  ghost predicate IsBest(rules: Rules, resources: seq<Resource>, n: nat, name: string, allowed: seq<string>,
        best: Option<nat>)
    requires n <= |resources|
  {
    match best
    case None => forall i | 0 <= i < n :: Score(rules, resources[i], name, allowed).None?
    case Some(b) =>
      && b < n && Score(rules, resources[b], name, allowed).Some?
      && forall i | 0 <= i < n && Score(rules, resources[i], name, allowed).Some? ::
           var (s, t) := (Score(rules, resources[b], name, allowed).value,
             Score(rules, resources[i], name, allowed).value);
           s < t || (s == t && b <= i)
  }

  /** One more resource takes over when it matches and ranks strictly better. */
  lemma BestNext(rules: Rules, resources: seq<Resource>, n: nat, name: string, allowed: seq<string>, best: Option<nat>)
    requires n < |resources| && IsBest(rules, resources, n, name, allowed, best)
    ensures var score := Score(rules, resources[n], name, allowed);
      IsBest(rules, resources, n + 1, name, allowed,
             if score.Some? && (best.None?
               || score.value < Score(rules, resources[best.value], name, allowed).value) then Some(n) else best)
  {
  }

  /** The best of the first n resources. */
  function BestOf(rules: Rules, resources: seq<Resource>, n: nat, name: string, allowed: seq<string>)
    : (best: Option<nat>)
    requires n <= |resources|
    ensures IsBest(rules, resources, n, name, allowed, best)
  {
    if n == 0 then None
    else
      var best := BestOf(rules, resources, n - 1, name, allowed);
      var score := Score(rules, resources[n - 1], name, allowed);
      BestNext(rules, resources, n - 1, name, allowed, best);
      if score.Some? && (best.None? || score.value < Score(rules, resources[best.value], name, allowed).value) then
        Some(n - 1) else best
  }

  /** Lowest rank, then first: that is only one resource. */
  lemma BestIsUnique(rules: Rules, resources: seq<Resource>, name: string, allowed: seq<string>, best: Option<nat>)
    requires IsBest(rules, resources, |resources|, name, allowed, best)
    ensures best == BestOf(rules, resources, |resources|, name, allowed)
  {
  }

  method PickBestResource(rules: Rules, resources: seq<Resource>, name: string, allowed: seq<string>)
    returns (best: Option<nat>)
    ensures best == BestOf(rules, resources, |resources|, name, allowed)
  {
    best := None;
    var bestRank := |allowed|;
    for i := 0 to |resources|
      invariant best == BestOf(rules, resources, i, name, allowed)
      invariant bestRank == if best.Some? then Score(rules, resources[best.value], name, allowed).value else |allowed|
    {
      var r := resources[i];
      if r.symbolName == "" || !rules.sameName(r.symbolName, name) {
        continue;
      }
      var rank := PrefixRank(r.resourceType, allowed);
      if rank.None? || rank.value >= bestRank {
        continue;
      }
      bestRank, best := rank.value, Some(i);
    }
  }

  function ResolutionOf(rules: Rules, resources: seq<Resource>, key: string, value: string): (r: Option<Resolution>)
    ensures r.Some? ==> r.value.key == key && r.value.value == value
  {
    var best := BestOf(rules, resources, |resources|, value, PrefixesFor(key));
    if best.None? then None else Some(Resolution(key, value, resources[best.value].account, resources[best.value].id))
  }

  method ResolveLabel(rules: Rules, key: string, value: string, resources: seq<Resource>)
    returns (r: Option<Resolution>)
    ensures r == ResolutionOf(rules, resources, key, value)
  {
    var best := PickBestResource(rules, resources, value, PrefixesFor(key));
    r := if best.None? then None
         else Some(Resolution(key, value, resources[best.value].account, resources[best.value].id));
  }

  // ---- every label -------------------------------------------------------

  datatype Pair = Pair(key: string, value: string)

  function Text(p: Pair): string {
    p.key + "=" + p.value
  }

  /** A pair worth resolving. */
  predicate Eligible(p: Pair) {
    p.value != "" && IsServiceKey(p.key)
  }

  /** The eligible pairs among these keys of a label set, in order. */
  function PairsAt(labels: map<string, string>, keys: seq<string>): seq<Pair>
    requires forall k | k in keys :: k in labels
  {
    if |keys| == 0 then []
    else
      var p := Pair(keys[|keys| - 1], labels[keys[|keys| - 1]]);
      PairsAt(labels, keys[..|keys| - 1]) + if Eligible(p) then [p] else []
  }

  /** The eligible low-cardinality pairs of the streams, in the order the collector visits them. */
  ghost function PairsOf(streams: seq<Stream>): seq<Pair> {
    if |streams| == 0 then []
    else
      PairsOf(streams[..|streams| - 1])
      + PairsAt(streams[|streams| - 1].lowCard, Ordered(streams[|streams| - 1].lowCard.Keys))
  }

  ghost function TextsOf(ps: seq<Pair>): set<string> {
    set p | p in ps :: Text(p)
  }

  /** One resolution for the first pair of each text, when a resource matches it. */
  ghost function ResolutionsOf(rules: Rules, resources: seq<Resource>, ps: seq<Pair>): seq<Resolution> {
    if |ps| == 0 then []
    else
      var front, p := ps[..|ps| - 1], ps[|ps| - 1];
      var before := ResolutionsOf(rules, resources, front);
      var r := ResolutionOf(rules, resources, p.key, p.value);
      if Text(p) in TextsOf(front) || r.None? then before else before + [r.value]
  }

  lemma {:induction false} PairsAtAreEligible(labels: map<string, string>, keys: seq<string>, p: Pair)
    requires forall k | k in keys :: k in labels
    ensures p in PairsAt(labels, keys) <==> Eligible(p) && p.key in keys && labels[p.key] == p.value
    decreases |keys|
  {
    if |keys| != 0 {
      PairsAtAreEligible(labels, keys[..|keys| - 1], p);
      assert keys == keys[..|keys| - 1] + [keys[|keys| - 1]];
    }
  }

  /** Some stream carries the pair as a low-cardinality label. */
  ghost predicate Carried(streams: seq<Stream>, p: Pair) {
    exists s :: s in streams && p.key in s.lowCard && s.lowCard[p.key] == p.value
  }

  lemma CarriedSnoc(front: seq<Stream>, s: Stream, p: Pair)
    ensures Carried(front + [s], p) <==> Carried(front, p) || (p.key in s.lowCard && s.lowCard[p.key] == p.value)
  {
    assert forall t :: t in front + [s] <==> t in front || t == s;
  }

  lemma PairsOfStream(s: Stream, p: Pair)
    ensures p in PairsAt(s.lowCard, Ordered(s.lowCard.Keys))
      <==> Eligible(p) && p.key in s.lowCard && s.lowCard[p.key] == p.value
  {
    PairsAtAreEligible(s.lowCard, Ordered(s.lowCard.Keys), p);
  }

  lemma PairsSnoc(front: seq<Stream>, s: Stream, p: Pair)
    ensures p in PairsOf(front + [s]) <==> p in PairsOf(front) || p in PairsAt(s.lowCard, Ordered(s.lowCard.Keys))
  {
    assert (front + [s])[..|front|] == front;
  }

  /** The pairs visited are exactly the eligible low-cardinality pairs of the streams. */
  lemma PairsAreEligible(streams: seq<Stream>, p: Pair)
    ensures p in PairsOf(streams) <==> Eligible(p) && Carried(streams, p)
  {
    AllPairs(streams, p, Eligible(p));
  }

  lemma {:induction false} AllPairs(streams: seq<Stream>, p: Pair, eligible: bool)
    requires eligible == Eligible(p)
    ensures p in PairsOf(streams) <==> eligible && Carried(streams, p)
    decreases |streams|
  {
    if |streams| != 0 {
      AllPairs(streams[..|streams| - 1], p, eligible);
      PairsOfStream(streams[|streams| - 1], p);
      PairsStep(streams[..|streams| - 1], streams[|streams| - 1], p, eligible);
      assert streams == streams[..|streams| - 1] + [streams[|streams| - 1]];
    }
  }

  lemma PairsStep(front: seq<Stream>, s: Stream, p: Pair, eligible: bool)
    requires p in PairsOf(front) <==> eligible && Carried(front, p)
    requires p in PairsAt(s.lowCard, Ordered(s.lowCard.Keys))
      <==> eligible && p.key in s.lowCard && s.lowCard[p.key] == p.value
    ensures p in PairsOf(front + [s]) <==> eligible && Carried(front + [s], p)
  {
    PairsSnoc(front, s, p);
    CarriedSnoc(front, s, p);
  }

  /** On eligible pairs the text tells pairs apart: no service key holds an '='. */
  lemma TextsTellPairsApart(p: Pair, q: Pair)
    requires Eligible(p) && Eligible(q) && Text(p) == Text(q)
    ensures p == q
  {
    assert '=' !in p.key && '=' !in q.key;
    CutIsUnique(p.key, q.key, p.value, q.value, '=');
  }

  predicate DistinctPairs(rs: seq<Resolution>) {
    forall i, j | 0 <= i < j < |rs| :: rs[i].key != rs[j].key || rs[i].value != rs[j].value
  }

  /** r is the resolution of one of the pairs. */
  predicate FromPair(rules: Rules, resources: seq<Resource>, ps: seq<Pair>, r: Resolution) {
    Pair(r.key, r.value) in ps && ResolutionOf(rules, resources, r.key, r.value) == Some(r)
  }

  /** Every resolution is that of a visited pair ... */
  lemma {:induction false} ResolutionsComeFromPairs(rules: Rules, resources: seq<Resource>, ps: seq<Pair>)
    ensures forall r | r in ResolutionsOf(rules, resources, ps) :: FromPair(rules, resources, ps, r)
    decreases |ps|
  {
    if |ps| != 0 {
      var front, p := ps[..|ps| - 1], ps[|ps| - 1];
      ResolutionsComeFromPairs(rules, resources, front);
      assert ps == front + [p];
      forall r | r in ResolutionsOf(rules, resources, ps) ensures FromPair(rules, resources, ps, r) {
        assert r in ResolutionsOf(rules, resources, front) ==> FromPair(rules, resources, front, r);
      }
    }
  }

  /** ... and a pair has at most one. */
  lemma {:induction false} ResolutionsAreDistinct(rules: Rules, resources: seq<Resource>, ps: seq<Pair>)
    ensures DistinctPairs(ResolutionsOf(rules, resources, ps))
    decreases |ps|
  {
    if |ps| != 0 {
      var front, p := ps[..|ps| - 1], ps[|ps| - 1];
      ResolutionsAreDistinct(rules, resources, front);
      ResolutionsComeFromPairs(rules, resources, front);
      var before := ResolutionsOf(rules, resources, front);
      if Text(p) !in TextsOf(front) {
        forall i | 0 <= i < |before| ensures Pair(before[i].key, before[i].value) != p {
          assert FromPair(rules, resources, front, before[i]);
        }
      }
    }
  }

  /** ... and every visited pair that a resource matches has one. */
  lemma {:induction false} EveryPairIsResolved(rules: Rules, resources: seq<Resource>, ps: seq<Pair>, p: Pair)
    requires (forall q | q in ps :: Eligible(q)) && p in ps
    ensures var r := ResolutionOf(rules, resources, p.key, p.value);
      r.Some? ==> r.value in ResolutionsOf(rules, resources, ps)
    decreases |ps|
  {
    var front, last := ps[..|ps| - 1], ps[|ps| - 1];
    assert ps == front + [last];
    if p in front {
      EveryPairIsResolved(rules, resources, front, p);
    } else if Text(p) in TextsOf(front) {
      var q :| q in front && Text(q) == Text(p);
      TextsTellPairsApart(p, q);
    }
  }

  /**
    One resolution per distinct service-identifying pair that a resource matches: the emitted
    resolutions are exactly those, each once.
   */
  lemma ResolutionsAreExact(rules: Rules, resources: seq<Resource>, streams: seq<Stream>, r: Resolution)
    ensures var rs := ResolutionsOf(rules, resources, PairsOf(streams));
      && DistinctPairs(rs)
      && (r in rs
          <==> Pair(r.key, r.value) in PairsOf(streams) && ResolutionOf(rules, resources, r.key, r.value) == Some(r))
  {
    var ps := PairsOf(streams);
    ResolutionsComeFromPairs(rules, resources, ps);
    ResolutionsAreDistinct(rules, resources, ps);
    forall q | q in ps ensures Eligible(q) {
      PairsAreEligible(streams, q);
    }
    if Pair(r.key, r.value) in ps {
      EveryPairIsResolved(rules, resources, ps, Pair(r.key, r.value));
    }
  }

  lemma TextsSnoc(ps: seq<Pair>, p: Pair)
    ensures TextsOf(ps + [p]) == TextsOf(ps) + {Text(p)}
  {
    assert forall q :: q in ps + [p] <==> q in ps || q == p;
  }

  lemma ResolutionsSnoc(rules: Rules, resources: seq<Resource>, ps: seq<Pair>, p: Pair)
    ensures var before := ResolutionsOf(rules, resources, ps);
      var r := ResolutionOf(rules, resources, p.key, p.value);
      ResolutionsOf(rules, resources, ps + [p]) == if Text(p) in TextsOf(ps) || r.None? then before
        else before + [r.value]
  {
    assert (ps + [p])[..|ps|] == ps;
  }

  /** One label pair: resolved when it is eligible and its text is new. */
  method ResolvePair(rules: Rules, resources: seq<Resource>, p: Pair, out: seq<Resolution>, seen: set<string>,
        ghost ps: seq<Pair>)
    returns (out': seq<Resolution>, seen': set<string>)
    requires out == ResolutionsOf(rules, resources, ps) && seen == TextsOf(ps)
    ensures var all := if Eligible(p) then ps + [p] else ps;
      out' == ResolutionsOf(rules, resources, all) && seen' == TextsOf(all)
  {
    out', seen' := out, seen;
    if !Eligible(p) {
      return;
    }
    TextsSnoc(ps, p);
    ResolutionsSnoc(rules, resources, ps, p);
    if Text(p) in seen {
      assert seen == seen + {Text(p)};
      return;
    }
    seen' := seen + {Text(p)};
    var resolved := ResolveLabel(rules, p.key, p.value, resources);
    if resolved.Some? {
      out' := out + [resolved.value];
    }
  }

  lemma PairsNext(labels: map<string, string>, keys: seq<string>, i: nat, ps: seq<Pair>)
    requires i < |keys| && forall k | k in keys :: k in labels
    ensures var p, done := Pair(keys[i], labels[keys[i]]), ps + PairsAt(labels, keys[..i]);
      ps + PairsAt(labels, keys[..i + 1]) == if Eligible(p) then done + [p] else done
  {
    assert keys[..i + 1][..i] == keys[..i];
  }

  /** One stream's labels. */
  method ResolveStream(rules: Rules, resources: seq<Resource>, labels: map<string, string>, out: seq<Resolution>,
        seen: set<string>, ghost ps: seq<Pair>)
    returns (out': seq<Resolution>, seen': set<string>)
    requires out == ResolutionsOf(rules, resources, ps) && seen == TextsOf(ps)
    ensures var all := ps + PairsAt(labels, Ordered(labels.Keys));
      out' == ResolutionsOf(rules, resources, all) && seen' == TextsOf(all)
  {
    var keys := SortedKeys(labels);
    out', seen' := out, seen;
    ghost var done := ps;
    assert ps + [] == ps;
    for i := 0 to |keys|
      invariant done == ps + PairsAt(labels, keys[..i])
      invariant out' == ResolutionsOf(rules, resources, done) && seen' == TextsOf(done)
    {
      PairsNext(labels, keys, i, ps);
      var p := Pair(keys[i], labels[keys[i]]);
      out', seen' := ResolvePair(rules, resources, p, out', seen', done);
      done := if Eligible(p) then done + [p] else done;
    }
    assert keys[..|keys|] == keys;
  }

  lemma {:induction false} NothingResolves(rules: Rules, ps: seq<Pair>)
    ensures ResolutionsOf(rules, [], ps) == []
    decreases |ps|
  {
    if |ps| != 0 {
      NothingResolves(rules, ps[..|ps| - 1]);
    }
  }

  /** One resolution per distinct service-identifying label pair that matches a supplied resource. */
  method ResolveStreams(rules: Rules, streams: seq<Stream>, resources: seq<Resource>) returns (out: seq<Resolution>)
    ensures out == ResolutionsOf(rules, resources, PairsOf(streams))
  {
    out := [];
    if |resources| == 0 {
      NothingResolves(rules, PairsOf(streams));
      return;
    }
    var seen: set<string> := {};
    for i := 0 to |streams|
      invariant out == ResolutionsOf(rules, resources, PairsOf(streams[..i])) && seen == TextsOf(PairsOf(streams[..i]))
    {
      assert streams[..i + 1][..i] == streams[..i];
      out, seen := ResolveStream(rules, resources, streams[i].lowCard, out, seen, PairsOf(streams[..i]));
    }
    assert streams[..|streams|] == streams;
  }
}