/**
  When the in-place pass over the absorption relation depends on the order in which the map yields its
  keys, and what the remap makes of the relations it can leave.
 */
module IterationOrder {

  import opened Absorptions

  // ---- the relation ------------------------------------------------------

  /**
    The survivor of f was itself absorbed, by one that was absorbed as well: f can move on once or, if
    its survivor is visited first, further.
   */
  predicate Chained(m: Relation, f: string) {
    && f in m && m[f] in m && m[m[f]] != m[f]
    && m[m[f]] in m && m[m[m[f]]] != m[m[f]]
  }

  /** No key is chained. */
  ghost predicate Shallow(m: Relation) {
    forall f | f in m :: !Chained(m, f)
  }

  /** Where one visit takes a key. */
  function Hop(m: Relation, f: string): string
    requires f in m
  {
    if m[f] in m && m[m[f]] != m[f] then m[m[f]] else m[f]
  }

  /** A key that is not chained takes its one hop when it is visited, and nothing else moves it. */
  lemma {:induction false} PassHops(m: Relation, order: seq<string>, f: string)
    requires (forall k | k in order :: k in m) && f in m && !Chained(m, f)
    ensures Pass(m, order)[f] == if f in order then Hop(m, f) else m[f]
    decreases |order|
  {
    if |order| != 0 {
      var front, k := order[..|order| - 1], order[|order| - 1];
      assert order == front + [k];
      PassHops(m, front, f);
      var v := Pass(m, front)[f];
      if k == f && v in m {
        PassHops(m, front, v);
      }
    }
  }

  /** Every key with a value in T has a value in T. */
  ghost predicate ClosedIn(m: Relation, T: set<string>) {
    forall k | k in T && k in m :: m[k] in T
  }

  /** A value in a closed set stays in it. */
  lemma {:induction false} PassStaysIn(m: Relation, order: seq<string>, T: set<string>, f: string)
    requires (forall k | k in order :: k in m) && ClosedIn(m, T) && f in m && m[f] in T
    ensures Pass(m, order)[f] in T
    decreases |order|
  {
    if |order| != 0 {
      var front, k := order[..|order| - 1], order[|order| - 1];
      assert order == front + [k];
      PassStaysIn(m, front, T, f);
      var v := Pass(m, front)[f];
      if k == f && v in m {
        PassStaysIn(m, front, T, v);
      }
    }
  }

  /** A key whose survivor has a value in a closed set is in that set once visited. */
  lemma {:induction false} PassEnters(m: Relation, order: seq<string>, T: set<string>, f: string)
    requires (forall k | k in order :: k in m) && ClosedIn(m, T)
    requires f in m && m[f] in m && m[m[f]] in T
    ensures Pass(m, order)[f] in T || Pass(m, order)[f] == m[f]
    ensures f in order ==> Pass(m, order)[f] in T
    decreases |order|
  {
    if |order| != 0 {
      var front, k := order[..|order| - 1], order[|order| - 1];
      assert order == front + [k];
      PassEnters(m, front, T, f);
      var v := Pass(m, front)[f];
      PassStaysIn(m, front, T, m[f]);
      if k == f && v in T && v in m {
        PassStaysIn(m, front, T, v);
      }
    }
  }

  // ---- two orders that disagree ------------------------------------------

  /** The relations agree on every key but those that hold u in one and v in the other. */
  ghost predicate Differ(a: Relation, b: Relation, u: string, v: string) {
    a.Keys == b.Keys && forall k | k in a :: a[k] == b[k] || (a[k] == u && b[k] == v)
  }

  /** A key not yet visited keeps the difference of its survivor, or gains none. */
  lemma VisitKeepsDiffer(a: Relation, b: Relation, u: string, v: string, k: string)
    requires Differ(a, b, u, v) && k in a && a[k] == b[k]
    ensures Differ(Visit(a, k), Visit(b, k), u, v)
    ensures a[k] in a && a[a[k]] == u != v == b[a[k]] ==> Visit(a, k)[k] == u && Visit(b, k)[k] == v
  {
  }

  /** The keys not in the list are as they were. */
  lemma PassKeepsOthers(m: Relation, order: seq<string>, k: string)
    requires (forall j | j in order :: j in m) && k in m && k !in order
    ensures Pass(m, order)[k] == m[k]
  {
    UnvisitedKeeps(m, order, k);
  }

  /** Whatever order the remaining keys are visited in, the difference stays. */
  lemma {:induction false} PassKeepsDiffer(a: Relation, b: Relation, u: string, v: string, rest: seq<string>)
    requires Differ(a, b, u, v) && Untouched(a, b, rest)
    ensures Differ(Pass(a, rest), Pass(b, rest), u, v)
    decreases |rest|
  {
    if |rest| != 0 {
      var front, k := rest[..|rest| - 1], rest[|rest| - 1];
      UntouchedPrefix(a, b, rest);
      PassKeepsDiffer(a, b, u, v, front);
      PassKeepsOthers(a, front, k);
      PassKeepsOthers(b, front, k);
      VisitKeepsDiffer(Pass(a, front), Pass(b, front), u, v, k);
    }
  }

  /** The keys still to be visited, each once, hold the same in both. */
  ghost predicate Untouched(a: Relation, b: Relation, rest: seq<string>) {
    && a.Keys == b.Keys && (forall k | k in rest :: k in a && a[k] == b[k])
    && forall i, j | 0 <= i < j < |rest| :: rest[i] != rest[j]
  }

  lemma UntouchedPrefix(a: Relation, b: Relation, rest: seq<string>)
    requires Untouched(a, b, rest) && |rest| != 0
    ensures Untouched(a, b, rest[..|rest| - 1]) && rest[|rest| - 1] !in rest[..|rest| - 1]
  {
  }

  /** A key absorbed into f takes over the difference that f shows. */
  lemma {:induction false} DifferenceSpreads(a: Relation, b: Relation, u: string, v: string, rest: seq<string>,
        f: string, k: string)
    requires Differ(a, b, u, v) && Untouched(a, b, rest)
    requires f in a && f !in rest && a[f] == u != v == b[f] && k in rest && a[k] == f
    ensures Pass(a, rest)[k] == u && Pass(b, rest)[k] == v
    decreases |rest|
  {
    var front, last := rest[..|rest| - 1], rest[|rest| - 1];
    assert rest == front + [last];
    UntouchedPrefix(a, b, rest);
    if k == last {
      PassKeepsDiffer(a, b, u, v, front);
      PassKeepsOthers(a, front, k);
      PassKeepsOthers(b, front, k);
      PassKeepsOthers(a, front, f);
      PassKeepsOthers(b, front, f);
    } else {
      DifferenceSpreads(a, b, u, v, front, f, k);
    }
  }

  /** The two orders begin with f and its survivor, one way round and the other. */
  lemma FirstTwoVisits(m: Relation, f: string)
    requires Chained(m, f)
    ensures f != m[f]
    ensures var x, y, z := m[f], m[m[f]], m[m[m[f]]];
      var a, b := Pass(m, [f, x]), Pass(m, [x, f]);
      && Differ(a, b, y, z) && a[f] == y && b[f] == z
      && forall k | k in m && k !in {f, x} :: a[k] == b[k] == m[k]
  {
    var x := m[f];
    assert [f, x][..1] == [f] && [x, f][..1] == [x] && [f][..0] == [] && [x][..0] == [];
    assert Pass(m, [f]) == Visit(m, f) && Pass(m, [x]) == Visit(m, x);
  }

  /** Two keys in front of an enumeration of the others enumerate all the keys. */
  lemma EnumeratesWithTwo(keys: set<string>, f: string, x: string, rest: seq<string>)
    requires f in keys && x in keys && f != x && Enumerates(rest, keys - {f, x})
    ensures Enumerates([f, x] + rest, keys)
  {
    var all := [f, x] + rest;
    forall k ensures k in all <==> k in keys {
      assert k in all <==> k == f || k == x || k in rest;
    }
  }

  /** Once f differs it stays so, and so do the keys absorbed into it. */
  lemma RestKeepsDiffer(a: Relation, b: Relation, u: string, v: string, rest: seq<string>, f: string)
    requires Differ(a, b, u, v) && Untouched(a, b, rest)
    requires f in a && f !in rest && a[f] == u != v == b[f]
    ensures Differ(Pass(a, rest), Pass(b, rest), u, v) && Pass(a, rest)[f] == u && Pass(b, rest)[f] == v
    ensures forall k | k in rest && a[k] == f :: Pass(a, rest)[k] == u && Pass(b, rest)[k] == v
  {
    PassKeepsDiffer(a, b, u, v, rest);
    PassKeepsOthers(a, rest, f);
    PassKeepsOthers(b, rest, f);
    forall k | k in rest && a[k] == f ensures Pass(a, rest)[k] == u && Pass(b, rest)[k] == v {
      DifferenceSpreads(a, b, u, v, rest, f, k);
    }
  }

  /** a and b hold u and v at f, the same at every other key, and u and v at those absorbed into f. */
  ghost predicate ApartAt(m: Relation, f: string, a: Relation, b: Relation)
    requires Chained(m, f)
  {
    var u, v := m[m[f]], m[m[m[f]]];
    && Differ(a, b, u, v) && f in a && a[f] == u && b[f] == v
    && forall k | k in m && k in a && m[k] == f && k != m[f] :: a[k] == u && b[k] == v
  }

  /** After the first two visits the others are untouched. */
  lemma OthersUntouched(m: Relation, f: string, a: Relation, b: Relation, rest: seq<string>)
    requires Chained(m, f) && Enumerates(rest, m.Keys - {f, m[f]})
    requires a == Pass(m, [f, m[f]]) && b == Pass(m, [m[f], f])
    ensures Untouched(a, b, rest) && forall k | k in rest :: a[k] == m[k]
  {
    FirstTwoVisits(m, f);
    assert forall k | k in rest :: k in m && k !in {f, m[f]};
  }

  lemma RestKeepsApart(m: Relation, f: string, a: Relation, b: Relation, rest: seq<string>)
    requires Chained(m, f) && Enumerates(rest, m.Keys - {f, m[f]})
    requires a == Pass(m, [f, m[f]]) && b == Pass(m, [m[f], f])
    ensures (forall k | k in rest :: k in a && k in b) && ApartAt(m, f, Pass(a, rest), Pass(b, rest))
  {
    FirstTwoVisits(m, f);
    OthersUntouched(m, f, a, b, rest);
    assert f !in rest;
    RestKeepsDiffer(a, b, m[m[f]], m[m[m[f]]], rest, f);
    assert forall k | k in m && k !in {f, m[f]} :: k in rest;
  }

  /** The two orders in which f and its survivor come first. */
  lemma TwoPasses(m: Relation, f: string, rest: seq<string>, a: seq<string>, b: seq<string>)
    requires Chained(m, f) && Enumerates(rest, m.Keys - {f, m[f]})
    requires a == [f, m[f]] + rest && b == [m[f], f] + rest
    ensures (forall k | k in a || k in b :: k in m) && ApartAt(m, f, Pass(m, a), Pass(m, b))
  {
    var x := m[f];
    RestKeepsApart(m, f, Pass(m, [f, x]), Pass(m, [x, f]), rest);
    PassAppend(m, [f, x], rest);
    PassAppend(m, [x, f], rest);
  }

  /**
    A chained key f comes out differently in two orders: at m[m[f]] in one and at m[m[m[f]]] in the other.
    Every other key agrees or shows the same difference, and those absorbed into f show it.
   */
  lemma TwoOrders(m: Relation, f: string) returns (a: seq<string>, b: seq<string>)
    requires Chained(m, f)
    ensures Enumerates(a, m.Keys) && Enumerates(b, m.Keys)
    ensures ApartAt(m, f, Pass(m, a), Pass(m, b))
  {
    var x := m[f];
    var rest := SomeOrder(m.Keys - {f, x});
    a, b := [f, x] + rest, [x, f] + rest;
    TwoPasses(m, f, rest, a, b);
    EnumeratesWithTwo(m.Keys, f, x, rest);
    assert {f, x} == {x, f};
    EnumeratesWithTwo(m.Keys, x, f, rest);
  }

  lemma PassOverAll(m: Relation, a: seq<string>, b: seq<string>)
    requires Shallow(m) && Enumerates(a, m.Keys) && Enumerates(b, m.Keys)
    ensures Pass(m, a) == Pass(m, b)
  {
    forall f | f in m ensures Pass(m, a)[f] == Pass(m, b)[f] {
      PassHops(m, a, f);
      PassHops(m, b, f);
    }
  }

  /**
    Order independence: the pass leaves the same relation whatever order the map yields its keys in, if
    and only if no key is chained. Nothing is asked of the relation.
   */
  lemma PassIsOrderFree(m: Relation)
    ensures (forall a, b | Enumerates(a, m.Keys) && Enumerates(b, m.Keys) :: Pass(m, a) == Pass(m, b)) <==> Shallow(m)
  {
    if Shallow(m) {
      forall a, b | Enumerates(a, m.Keys) && Enumerates(b, m.Keys) ensures Pass(m, a) == Pass(m, b) {
        PassOverAll(m, a, b);
      }
    } else {
      var f :| f in m && Chained(m, f);
      var a, b := TwoOrders(m, f);
      assert Pass(m, a)[f] != Pass(m, b)[f];
    }
  }

  // ---- what the remap makes of it ----------------------------------------

  /** Where an entry whose id did not survive is sent, given what the relation says of the id. */
  function Land(live: set<string>, fallback: string, id: string, absorber: string): string {
    if absorber in live then absorber else if fallback != "" then fallback else id
  }

  /** The id an entry is finally given. */
  function Given(live: set<string>, fallback: string, r: Relation, id: string): string {
    if id in live then id
    else if id in r then Land(live, fallback, id, r[id])
    else if fallback != "" then fallback
    else id
  }

  /** The ids that a chained id can be led to are sent to one template. */
  predicate LandsOnce(m: Relation, live: set<string>, fallback: string, id: string) {
    Chained(m, id) ==>
      var y := m[m[id]];
      var z := m[y];
      && Land(live, fallback, id, y) == Land(live, fallback, id, z)
      && (z in m ==> Land(live, fallback, id, m[z]) == Land(live, fallback, id, z))
  }

  /** So it is for every absorbed id of these that did not survive. */
  ghost predicate Settled(m: Relation, live: set<string>, fallback: string, ids: set<string>) {
    forall id | id in ids && id !in live && id in m :: LandsOnce(m, live, fallback, id)
  }

  /** At most one value of the relation is not live. */
  ghost predicate LiveBut(m: Relation, live: set<string>, dead: string) {
    forall k | k in m :: m[k] in live || m[k] == dead
  }

  /** Two different values that land on one template are led to no third. */
  lemma PairIsClosed(m: Relation, live: set<string>, fallback: string, dead: string, id: string)
    requires Chained(m, id) && LandsOnce(m, live, fallback, id) && LiveBut(m, live, dead) && id !in live
    ensures ClosedIn(m, {m[m[id]], m[m[m[id]]]})
  {
    var x, y := m[id], m[m[id]];
    var z := m[y];
    assert (y in live || y == dead) && (z in live || z == dead);
    if z in m {
      assert m[z] in live || m[z] == dead;
    }
  }

  /** A settled id that is chained lands where its first hop would. */
  lemma ChainedLands(m: Relation, live: set<string>, fallback: string, dead: string, id: string, order: seq<string>)
    requires LiveBut(m, live, dead) && Enumerates(order, m.Keys)
    requires id !in live && LandsOnce(m, live, fallback, id) && Chained(m, id)
    ensures Land(live, fallback, id, Pass(m, order)[id]) == Land(live, fallback, id, m[m[id]])
  {
    PairIsClosed(m, live, fallback, dead, id);
    PassEnters(m, order, {m[m[id]], m[m[m[id]]]}, id);
  }

  /** A settled id is given one id, whatever the order. */
  lemma SettledIsGivenOne(m: Relation, live: set<string>, fallback: string, dead: string, id: string, a: seq<string>,
        b: seq<string>)
    requires LiveBut(m, live, dead) && Enumerates(a, m.Keys) && Enumerates(b, m.Keys)
    requires id !in live && id in m && LandsOnce(m, live, fallback, id)
    ensures Given(live, fallback, Pass(m, a), id) == Given(live, fallback, Pass(m, b), id)
  {
    if Chained(m, id) {
      ChainedLands(m, live, fallback, dead, id, a);
      ChainedLands(m, live, fallback, dead, id, b);
    } else {
      PassHops(m, a, id);
      PassHops(m, b, id);
    }
  }

  /** An id that is not settled is given two ids by two orders, between which no other id is given anything new. */
  lemma UnsettledIsGivenTwo(m: Relation, live: set<string>, fallback: string, id: string)
    returns (a: seq<string>, b: seq<string>, u: string, v: string)
    requires id !in live && id in m && !LandsOnce(m, live, fallback, id)
    ensures Enumerates(a, m.Keys) && Enumerates(b, m.Keys) && Differ(Pass(m, a), Pass(m, b), u, v)
    ensures Pass(m, a)[id] == u && Pass(m, b)[id] == v && Land(live, fallback, id, u) != Land(live, fallback, id, v)
  {
    var x, y := m[id], m[m[id]];
    var z := m[y];
    if Land(live, fallback, id, y) != Land(live, fallback, id, z) {
      a, b := TwoOrders(m, id);
      u, v := y, z;
    } else {
      assert id != y;
      a, b := TwoOrders(m, x);
      u, v := z, m[z];
    }
  }

  /**
    For the remap: every id is given the same template by all iteration orders, if and only if each
    absorbed id that did not survive is settled.
   */
  lemma RemapIsOrderFree(m: Relation, live: set<string>, fallback: string, dead: string, ids: set<string>)
    requires LiveBut(m, live, dead)
    ensures (forall a, b, id | Enumerates(a, m.Keys) && Enumerates(b, m.Keys) && id in ids ::
               Given(live, fallback, Pass(m, a), id) == Given(live, fallback, Pass(m, b), id))
       <==> Settled(m, live, fallback, ids)
  {
    if Settled(m, live, fallback, ids) {
      forall a, b, id | Enumerates(a, m.Keys) && Enumerates(b, m.Keys) && id in ids
        ensures Given(live, fallback, Pass(m, a), id) == Given(live, fallback, Pass(m, b), id)
      {
        if id !in live && id in m {
          SettledIsGivenOne(m, live, fallback, dead, id, a, b);
        }
      }
    } else {
      var id :| id in ids && id !in live && id in m && !LandsOnce(m, live, fallback, id);
      var a, b, u, v := UnsettledIsGivenTwo(m, live, fallback, id);
    }
  }
}
