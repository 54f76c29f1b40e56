/** Which resource a label resolves to, said of the resources' own fields. */
module ResolveTheorems {

  import opened Wrappers
  import opened Model
  import opened Streams
  import opened Resolve

  /** The type is the prefix, or goes on from it with a separator. */
  ghost predicate IsKind(resourceType: string, p: string) {
    resourceType == p || exists c, rest :: c in ":-/" && resourceType == p + [c] + rest
  }

  lemma KindFits(resourceType: string, p: string)
    ensures Fits(resourceType, p) <==> IsKind(resourceType, p)
  {
    if Fits(resourceType, p) && |resourceType| != |p| {
      assert resourceType == p + [resourceType[|p|]] + resourceType[|p| + 1..];
    }
    if c, rest :| c in ":-/" && resourceType == p + [c] + rest {
      assert resourceType[|p|] == c;
    }
  }

  /** A resource of the label's name whose type is of the i-th kind and of none before it. */
  ghost predicate Matches(rules: Rules, r: Resource, name: string, kinds: seq<string>, i: int) {
    && r.symbolName != "" && rules.sameName(r.symbolName, name) && r.resourceType != ""
    && 0 <= i < |kinds| && IsKind(r.resourceType, kinds[i])
    && forall j | 0 <= j < i :: !IsKind(r.resourceType, kinds[j])
  }

  predicate IsSome(o: Option<nat>, i: int) {
    o.Some? && o.value == i
  }

  lemma MatchIsScore(rules: Rules, r: Resource, name: string, kinds: seq<string>, i: int)
    ensures IsSome(Score(rules, r, name, kinds), i) <==> Matches(rules, r, name, kinds, i)
  {
    forall j | 0 <= j < |kinds| ensures Fits(r.resourceType, kinds[j]) <==> IsKind(r.resourceType, kinds[j]) {
      KindFits(r.resourceType, kinds[j]);
    }
  }

  /** Resource b matches in the i-th kind; others match in later kinds, or in the same kind but later. */
  ghost predicate Wins(rules: Rules, resources: seq<Resource>, name: string, kinds: seq<string>, b: int, i: int) {
    && 0 <= b < |resources| && Matches(rules, resources[b], name, kinds, i)
    && forall k, j | 0 <= k < |resources| && Matches(rules, resources[k], name, kinds, j) ::
         i < j || (i == j && b <= k)
  }

  /** The kinds a key may resolve to, most telling first. */
  function KindsFor(key: string): seq<string> {
    if key == "namespace" then ["k8s:Namespace", "Namespace", "gcp:project", "aws:account", "ec2:vpc", "vpc"]
    else
      ["ecs:service", "ecs-service", "lambda:function", "lambda-function", "cloudrun:service", "cloud-run:service",
       "k8s:Service", "Service", "Deployment", "StatefulSet", "DaemonSet", "ReplicaSet", "Job", "CronJob", "Pod",
       "gce:instance-group", "appengine:service"]
  }

  lemma ScoreIsMatch(rules: Rules, r: Resource, name: string, kinds: seq<string>)
    ensures Score(rules, r, name, kinds).Some? <==> exists i :: Matches(rules, r, name, kinds, i)
    ensures Score(rules, r, name, kinds).Some? ==> Matches(rules, r, name, kinds, Score(rules, r, name, kinds).value)
    ensures forall i | Matches(rules, r, name, kinds, i) :: IsSome(Score(rules, r, name, kinds), i)
  {
    forall i ensures IsSome(Score(rules, r, name, kinds), i) <==> Matches(rules, r, name, kinds, i) {
      MatchIsScore(rules, r, name, kinds, i);
    }
    var score := Score(rules, r, name, kinds);
    assert score.Some? ==> IsSome(score, score.value);
  }

  lemma BestWins(rules: Rules, resources: seq<Resource>, name: string, kinds: seq<string>, best: Option<nat>)
    requires IsBest(rules, resources, |resources|, name, kinds, best)
    ensures best.None? ==> forall k, i | 0 <= k < |resources| :: !Matches(rules, resources[k], name, kinds, i)
    ensures best.Some? ==> exists i :: Wins(rules, resources, name, kinds, best.value, i)
  {
    forall k | 0 <= k < |resources|
      ensures Score(rules, resources[k], name, kinds).Some? ==>
        Matches(rules, resources[k], name, kinds, Score(rules, resources[k], name, kinds).value)
      ensures forall i | Matches(rules, resources[k], name, kinds, i) ::
        IsSome(Score(rules, resources[k], name, kinds), i)
    {
      ScoreIsMatch(rules, resources[k], name, kinds);
    }
    if best.Some? {
      assert Wins(rules, resources, name, kinds, best.value,
        Score(rules, resources[best.value], name, kinds).value);
    }
  }

  /** The resolution of a label: the account and id of the resource that wins it. */
  ghost predicate ResolvesTo(rules: Rules, resources: seq<Resource>, r: Resolution) {
    exists b, i :: Wins(rules, resources, r.value, KindsFor(r.key), b, i)
      && r.account == resources[b].account && r.resource == resources[b].id
  }

  lemma KindsAre(key: string)
    ensures PrefixesFor(key) == KindsFor(key)
  {
  }

  lemma WinnerIsBest(rules: Rules, resources: seq<Resource>, name: string, kinds: seq<string>, best: Option<nat>,
        b: int, i: int)
    requires IsBest(rules, resources, |resources|, name, kinds, best) && Wins(rules, resources, name, kinds, b, i)
    ensures IsSome(best, b)
  {
    BestWins(rules, resources, name, kinds, best);
  }

  /** A label resolves to r exactly when r names the resource that wins the label. */
  lemma ResolutionIsOfTheWinner(rules: Rules, resources: seq<Resource>, r: Resolution)
    ensures ResolutionOf(rules, resources, r.key, r.value) == Some(r) <==> ResolvesTo(rules, resources, r)
  {
    var kinds := KindsFor(r.key);
    var best := BestOf(rules, resources, |resources|, r.value, kinds);
    KindsAre(r.key);
    BestWins(rules, resources, r.value, kinds, best);
    if ResolvesTo(rules, resources, r) {
      var b, i :| Wins(rules, resources, r.value, kinds, b, i)
        && r.account == resources[b].account && r.resource == resources[b].id;
      WinnerIsBest(rules, resources, r.value, kinds, best, b, i);
    }
  }

  /**
    The resolutions of a set of streams: exactly one for each service, namespace, deployment or app label that some
    stream carries as a low-cardinality label and some resource wins.
   */
  lemma ResolutionsAreOfWinners(rules: Rules, resources: seq<Resource>, streams: seq<Stream>, r: Resolution)
    ensures r in ResolutionsOf(rules, resources, PairsOf(streams))
      <==> (r.key in {"service", "namespace", "deployment", "app"} && r.value != ""
            && (exists s :: s in streams && r.key in s.lowCard && s.lowCard[r.key] == r.value)
            && ResolvesTo(rules, resources, r))
  {
    ResolutionsAreExact(rules, resources, streams, r);
    PairsAreEligible(streams, Pair(r.key, r.value));
    ResolutionIsOfTheWinner(rules, resources, r);
  }
}
