/**
  Flattening the absorption relation: after each consolidator the map from absorbed id to survivor is
  re-pointed in place, over its keys in no particular order.
 */
module Absorptions {

  import opened Consolidation

  type Relation = map<string, string>

  /** One visit of the in-place pass: a key whose survivor was itself absorbed moves on to that one's survivor. */
  function Visit(m: Relation, fragment: string): (r: Relation)
    requires fragment in m
    ensures r.Keys == m.Keys
  {
    var survivor := m[fragment];
    if survivor in m && m[survivor] != survivor then m[fragment := m[survivor]] else m
  }

  /** The pass over the keys in the order given. */
  function Pass(m: Relation, order: seq<string>): (r: Relation)
    requires forall k | k in order :: k in m
    ensures r.Keys == m.Keys
    decreases |order|
  {
    if |order| == 0 then m else Visit(Pass(m, order[..|order| - 1]), order[|order| - 1])
  }

  /** An order in which a map iteration can present the keys: each once. */
  ghost predicate Enumerates(order: seq<string>, keys: set<string>) {
    (forall k :: k in order <==> k in keys) && forall i, j | 0 <= i < j < |order| :: order[i] != order[j]
  }

  /** Recording one round: the new absorptions override the old. */
  function Recorded(prior: Relation, round: Relation): Relation {
    prior + round
  }

  /** Where every id ever absorbed really ends up after the round: through the old relation, then through the round. */
  function Composed(prior: Relation, round: Relation): Relation {
    map f | f in prior.Keys + round.Keys :: Follow(round, Follow(prior, f))
  }

  /** Between rounds: absorbed ids point at live templates, and a live id that was ever absorbed points at itself. */
  ghost predicate Flat(m: Relation, live: set<string>) {
    (forall f | f in m :: m[f] in live) && (forall v | v in live && v in m :: m[v] == v)
  }

  /** A round absorbs only live ids. */
  ghost predicate OnlyLive(round: Relation, live: set<string>) {
    forall f | f in round :: f in live
  }

  /**
    No survivor of the round carries an id that the relation already gives away: an id absorbed in an
    earlier round, or in another group of this one.
   */
  ghost predicate FreshSurvivors(prior: Relation, round: Relation) {
    forall f | f in round :: var s := round[f]; s in Recorded(prior, round) ==> Recorded(prior, round)[s] == s
  }

  ghost function LiveAfter(live: set<string>, round: Relation): set<string> {
    set id | id in live :: Follow(round, id)
  }

  /** Every key, visited or not, holds its old value or the right one; visited keys hold the right one. */
  lemma {:induction false} PassProgress(prior: Relation, round: Relation, live: set<string>, order: seq<string>,
        f: string)
    requires Flat(prior, live) && OnlyLive(round, live) && FreshSurvivors(prior, round)
    requires forall k | k in order :: k in Recorded(prior, round)
    requires f in Recorded(prior, round)
    ensures var r := Pass(Recorded(prior, round), order)[f];
      (r == Recorded(prior, round)[f] || r == Composed(prior, round)[f])
        && (f in order ==> r == Composed(prior, round)[f])
    decreases |order|
  {
    var m0 := Recorded(prior, round);
    Ideal(prior, round, live, f);
    if |order| != 0 {
      var front, k := order[..|order| - 1], order[|order| - 1];
      assert order == front + [k];
      PassProgress(prior, round, live, front, f);
      var v := Pass(m0, front)[f];
      if k == f && v in m0 {
        PassProgress(prior, round, live, front, v);
        Ideal(prior, round, live, v);
      }
    }
  }

  /** What a key and its target look like before the pass. */
  lemma Ideal(prior: Relation, round: Relation, live: set<string>, f: string)
    requires Flat(prior, live) && OnlyLive(round, live) && FreshSurvivors(prior, round)
    requires f in Recorded(prior, round)
    ensures var m0, c := Recorded(prior, round), Composed(prior, round);
      && (f in round ==> m0[f] == c[f])
      && (c[f] in m0 ==> m0[c[f]] == c[f] && c[c[f]] == c[f])
      && (f !in round && m0[f] in m0 ==> c[f] == m0[m0[f]])
      && (f !in round && m0[f] !in m0 ==> c[f] == m0[f])
  {
  }

  /**
    Absorption flattening: whatever the iteration order, one in-place pass leaves every absorbed id
    mapped to the survivor that finally holds it.
   */
  lemma PassFlattens(prior: Relation, round: Relation, live: set<string>, order: seq<string>)
    requires Flat(prior, live) && OnlyLive(round, live) && FreshSurvivors(prior, round)
    requires Enumerates(order, Recorded(prior, round).Keys)
    ensures Pass(Recorded(prior, round), order) == Composed(prior, round)
  {
    forall f | f in Recorded(prior, round) ensures Pass(Recorded(prior, round), order)[f] == Composed(prior, round)[f] {
      PassProgress(prior, round, live, order, f);
    }
  }

  /** ... and the relation is flat again, over the templates that are now live. */
  lemma PassKeepsFlat(prior: Relation, round: Relation, live: set<string>)
    requires Flat(prior, live) && OnlyLive(round, live) && FreshSurvivors(prior, round)
    ensures Flat(Composed(prior, round), LiveAfter(live, round))
  {
    var c := Composed(prior, round);
    forall f | f in c ensures c[f] in LiveAfter(live, round) {
      assert Follow(prior, f) in live;
    }
    forall v | v in LiveAfter(live, round) && v in c ensures c[v] == v {
      var id :| id in live && Follow(round, id) == v;
      if id in round {
        Ideal(prior, round, live, id);
        assert c[id] == v;
      }
    }
  }

  // ---- the condition is exact --------------------------------------------

  lemma {:induction false} PassAppend(m: Relation, a: seq<string>, b: seq<string>)
    requires forall k | k in a + b :: k in m
    ensures forall k | k in a :: k in m
    ensures forall k | k in b :: k in Pass(m, a)
    ensures Pass(m, a + b) == Pass(Pass(m, a), b)
    decreases |b|
  {
    assert forall k | k in a :: k in a + b;
    assert forall k | k in b :: k in a + b;
    if |b| == 0 {
      assert a + b == a;
    } else {
      assert (a + b)[..|a + b| - 1] == a + b[..|b| - 1];
      assert forall k | k in a + b[..|b| - 1] :: k in a + b;
      PassAppend(m, a, b[..|b| - 1]);
    }
  }

  lemma {:induction false} UnvisitedKeeps(m: Relation, order: seq<string>, f: string)
    requires (forall k | k in order :: k in m) && f in m && f !in order
    ensures Pass(m, order)[f] == m[f]
    decreases |order|
  {
    if |order| != 0 {
      UnvisitedKeeps(m, order[..|order| - 1], f);
    }
  }

  lemma {:induction false} SomeOrder(keys: set<string>) returns (order: seq<string>)
    ensures Enumerates(order, keys)
    decreases keys
  {
    if keys == {} {
      order := [];
    } else {
      var k :| k in keys;
      var rest := SomeOrder(keys - {k});
      order := rest + [k];
    }
  }

  /** An order that starts with a fragment of a stale survivor sends the fragment to the wrong template. */
  lemma StaleSurvivorMisleads(prior: Relation, round: Relation, live: set<string>, f: string)
    returns (order: seq<string>)
    requires Flat(prior, live) && OnlyLive(round, live) && f in round
    requires round[f] in Recorded(prior, round) && Recorded(prior, round)[round[f]] != round[f]
    ensures Enumerates(order, Recorded(prior, round).Keys)
    ensures Pass(Recorded(prior, round), order) != Composed(prior, round)
  {
    var m0 := Recorded(prior, round);
    var rest := SomeOrder(m0.Keys - {f});
    order := [f] + rest;
    assert order[1..] == rest;
    PassAppend(m0, [f], rest);
    assert Pass(m0, [f]) == Visit(m0, f) by {
      assert [f][..0] == [];
    }
    UnvisitedKeeps(Pass(m0, [f]), rest, f);
    assert Composed(prior, round)[f] == round[f];
  }

  /**
    Fresh survivors are exactly what flattening needs: the pass is right for every iteration order if
    and only if no survivor of the round carries an id the relation gives away.
   */
  lemma FlatteningNeedsFreshSurvivors(prior: Relation, round: Relation, live: set<string>)
    requires Flat(prior, live) && OnlyLive(round, live)
    ensures (forall order | Enumerates(order, Recorded(prior, round).Keys) ::
      Pass(Recorded(prior, round), order) == Composed(prior, round))
       <==> FreshSurvivors(prior, round)
  {
    if FreshSurvivors(prior, round) {
      forall order | Enumerates(order, Recorded(prior, round).Keys)
        ensures Pass(Recorded(prior, round), order) == Composed(prior, round)
      {
        PassFlattens(prior, round, live, order);
      }
    } else {
      var f :| f in round && round[f] in Recorded(prior, round) && Recorded(prior, round)[round[f]] != round[f];
      var order := StaleSurvivorMisleads(prior, round, live, f);
    }
  }

  // ---- any number of rounds ----------------------------------------------

  /** A chain of consolidators, as the maps their absorptions record; each round only absorbs what is live. */
  ghost predicate Chain(rounds: seq<Relation>, live: set<string>)
    decreases |rounds|
  {
    |rounds| == 0 || (
      && Chain(rounds[..|rounds| - 1], live)
      && OnlyLive(rounds[|rounds| - 1], LiveAfterAll(rounds[..|rounds| - 1], live))
      && FreshSurvivors(Truth(rounds[..|rounds| - 1]), rounds[|rounds| - 1]))
  }

  ghost function LiveAfterAll(rounds: seq<Relation>, live: set<string>): set<string> {
    if |rounds| == 0 then live else LiveAfter(LiveAfterAll(rounds[..|rounds| - 1], live), rounds[|rounds| - 1])
  }

  /** Where every absorbed id ends up after all the rounds. */
  function Truth(rounds: seq<Relation>): Relation {
    if |rounds| == 0 then map[] else Composed(Truth(rounds[..|rounds| - 1]), rounds[|rounds| - 1])
  }

  /** What the code computes: record, then pass, once per round, each in its own iteration order. */
  ghost predicate Computed(rounds: seq<Relation>, r: Relation)
    decreases |rounds|, 0
  {
    if |rounds| == 0 then r == map[] else ComputedAfter(rounds[..|rounds| - 1], rounds[|rounds| - 1], r)
  }

  ghost predicate ComputedAfter(front: seq<Relation>, round: Relation, r: Relation)
    decreases |front|, 1
  {
    exists was, order :: Computed(front, was) && Passed(was, round, order, r)
  }

  ghost predicate Passed(was: Relation, round: Relation, order: seq<string>, r: Relation) {
    Enumerates(order, Recorded(was, round).Keys) && r == Pass(Recorded(was, round), order)
  }

  /** For any number of consolidators and any iteration orders, the relation computed is the true one, and flat. */
  lemma {:induction false} ChainFlattens(rounds: seq<Relation>, live: set<string>, r: Relation)
    requires Chain(rounds, live) && Computed(rounds, r)
    ensures r == Truth(rounds) && Flat(r, LiveAfterAll(rounds, live))
    decreases |rounds|
  {
    if |rounds| != 0 {
      var front, round := rounds[..|rounds| - 1], rounds[|rounds| - 1];
      var was, order :| Computed(front, was) && Passed(was, round, order, r);
      ChainFlattens(front, live, was);
      PassFlattens(was, round, LiveAfterAll(front, live), order);
      PassKeepsFlat(was, round, LiveAfterAll(front, live));
    }
  }
}
