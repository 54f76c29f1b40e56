/** Running the consolidators in order, flattening what they absorbed, and building the remap. */
module Remapping {

  import opened Model
  import opened Sorting
  import opened Templates
  import opened Consolidation
  import opened ConsolidationTheorems
  import opened Absorptions
  import opened Attribution
  import opened Consolidators

  // ---- recording and re-pointing -----------------------------------------

  lemma {:induction false} AssignOverrides(h: Relation, fragments: seq<string>, survivor: string)
    ensures Assign(h, fragments, survivor) == h + Assign(map[], fragments, survivor)
  {
    if |fragments| != 0 {
      AssignOverrides(h, fragments[..|fragments| - 1], survivor);
    }
  }

  /** Recording a round's absorptions into the relation overrides it with the round's own map. */
  lemma {:induction false} RecordOverrides(h: Relation, abs: seq<Absorption>)
    ensures Record(h, abs) == h + Record(map[], abs)
  {
    if |abs| != 0 {
      var front, a := abs[..|abs| - 1], abs[|abs| - 1];
      RecordOverrides(h, front);
      AssignOverrides(Record(h, front), a.fragments, a.survivor);
      AssignOverrides(Record(map[], front), a.fragments, a.survivor);
    }
  }

  method RecordAbsorptions(mergers: seq<Merger>, absorbedBy: Relation, ghost abs: seq<Absorption>) returns (r: Relation)
    requires Witness(mergers, abs)
    ensures r == Recorded(absorbedBy, Record(map[], abs))
  {
    r := absorbedBy;
    for i := 0 to |mergers|
      invariant r == Record(absorbedBy, abs[..i])
    {
      assert abs[..i + 1][..i] == abs[..i];
      var survivor, fragments := mergers[i].survivor.id, mergers[i].fragments;
      assert Absorption(survivor, fragments) == abs[i];
      ghost var before := r;
      for k := 0 to |fragments|
        invariant r == Assign(before, fragments[..k], survivor)
      {
        assert fragments[..k + 1][..k] == fragments[..k];
        r := r[fragments[k] := survivor];
      }
      assert fragments[..|fragments|] == fragments;
    }
    assert abs[..|abs|] == abs;
    RecordOverrides(absorbedBy, abs);
  }

  /** r is what a pass over the keys in this order makes of the relation. */
  ghost predicate Repoints(absorbedBy: Relation, order: seq<string>, r: Relation) {
    Enumerates(order, absorbedBy.Keys) && r == Pass(absorbedBy, order)
  }

  /**
    Re-points, in place and in whatever order the map yields its keys, the absorptions whose survivor was
    itself absorbed.
   */
  method RepointAbsorptions(absorbedBy: Relation) returns (r: Relation)
    ensures exists order :: Repoints(absorbedBy, order, r)
  {
    r := absorbedBy;
    ghost var order: seq<string> := [];
    var todo := absorbedBy.Keys;
    while todo != {}
      invariant todo <= absorbedBy.Keys && Enumerates(order, absorbedBy.Keys - todo)
      invariant r == Pass(absorbedBy, order)
      decreases todo
    {
      var fragment :| fragment in todo;
      todo := todo - {fragment};
      var survivor := r[fragment];
      if survivor in r && r[survivor] != survivor {
        r := r[fragment := r[survivor]];
      }
      assert (order + [fragment])[..|order|] == order;
      order := order + [fragment];
    }
    assert Repoints(absorbedBy, order, r);
  }

  /**
    Applies each consolidator in order. The relation returned is the one some iteration order of each
    re-pointing pass yields, and no template that came in has had its id changed.
   */
  method RunConsolidators(rules: Rules, families: seq<Family>, templates: seq<LogTemplate>, ghost vs: seq<Template>)
    returns (out: seq<LogTemplate>, absorbedBy: Relation)
    requires Hold(templates, vs) && Unaliased(templates)
    modifies templates
    ensures Hold(out, After(rules, families, vs)) && Unaliased(out)
    ensures Computed(Maps(rules, families, vs), absorbedBy)
    ensures forall t | t in templates :: t.id == old(t.id)
  {
    out, absorbedBy := templates, map[];
    for i := 0 to |families|
      invariant Hold(out, After(rules, families[..i], vs)) && Unaliased(out)
      invariant Computed(Maps(rules, families[..i], vs), absorbedBy)
      invariant forall k | 0 <= k < |out| :: out[k] in templates || fresh(out[k])
      invariant forall t | t in templates :: t.id == old(t.id)
    {
      ghost var was := After(rules, families[..i], vs);
      ghost var o := Consolidation.Consolidate(rules, families[i], was);
      var mergers;
      out, mergers := ConsolidateTemplates(rules, families[i], out, was);
      var recorded := RecordAbsorptions(mergers, absorbedBy, o.absorptions);
      ghost var before := absorbedBy;
      absorbedBy := RepointAbsorptions(recorded);
      ghost var order :| Repoints(recorded, order, absorbedBy);
      RoundComputed(rules, families, vs, i, before, order, absorbedBy);
      assert families[..i + 1][..i] == families[..i];
      assert forall k | 0 <= k < |out| :: out[k] in out;
    }
    assert families[..|families|] == families;
  }

  lemma RoundComputed(rules: Rules, families: seq<Family>, vs: seq<Template>, i: nat, was: Relation, order: seq<string>,
        r: Relation)
    requires i < |families| && Computed(Maps(rules, families[..i], vs), was)
    requires var round := RoundMap(rules, families[i], After(rules, families[..i], vs)); Passed(was, round, order, r)
    ensures Computed(Maps(rules, families[..i + 1], vs), r)
  {
    assert families[..i + 1][..i] == families[..i];
    var maps := Maps(rules, families[..i + 1], vs);
    assert maps[..|maps| - 1] == Maps(rules, families[..i], vs);
  }

  // ---- the remap ---------------------------------------------------------

  /** In order of preference: no template precedes an earlier one. */
  ghost predicate InOrder(vs: seq<Template>) {
    forall i, j | 0 <= i < j < |vs| :: !Precedes(vs[j], vs[i])
  }

  /** Sorts candidates so that none precedes an earlier one. */
  method SortCandidates(ts: seq<LogTemplate>, ghost vs: seq<Template>)
    returns (sorted: seq<LogTemplate>, ghost vsorted: seq<Template>)
    requires Hold(ts, vs)
    ensures Hold(sorted, vsorted) && InOrder(vsorted) && multiset(vsorted) == multiset(vs)
  {
    sorted, vsorted := [], [];
    for i := 0 to |ts|
      invariant Hold(sorted, vsorted) && InOrder(vsorted) && multiset(vsorted) == multiset(vs[..i])
    {
      var j := |sorted|;
      while j > 0 && Precedes(ts[i].Value(), sorted[j - 1].Value())
        invariant 0 <= j <= |sorted| == |vsorted|
        invariant forall k | j <= k < |sorted| :: Precedes(vs[i], vsorted[k])
      {
        j := j - 1;
      }
      InsertInOrder(vsorted, vs[i], j);
      assert vs[..i + 1] == vs[..i] + [vs[i]];
      sorted, vsorted := sorted[..j] + [ts[i]] + sorted[j..], vsorted[..j] + [vs[i]] + vsorted[j..];
    }
    assert vs[..|vs|] == vs;
  }

  lemma InsertInOrder(vs: seq<Template>, t: Template, j: nat)
    requires InOrder(vs) && j <= |vs|
    requires forall k | j <= k < |vs| :: Precedes(t, vs[k])
    requires j > 0 ==> !Precedes(t, vs[j - 1])
    ensures InOrder(vs[..j] + [t] + vs[j..])
    ensures multiset(vs[..j] + [t] + vs[j..]) == multiset(vs) + multiset{t}
  {
    InsertedOnce(vs, t, j);
    PlacedInOrder(vs, t, j);
  }

  lemma PlacedInOrder(vs: seq<Template>, t: Template, j: nat)
    requires InOrder(vs) && j <= |vs|
    requires forall k | j <= k < |vs| :: Precedes(t, vs[k])
    requires j > 0 ==> !Precedes(t, vs[j - 1])
    ensures InOrder(vs[..j] + [t] + vs[j..])
  {
    forall k | 0 <= k < j ensures !Precedes(t, vs[k]) {
      if k < j - 1 {
        PrecedesTransitive(vs[k], vs[j - 1], t);
      }
    }
    forall k | j <= k < |vs| ensures !Precedes(vs[k], t) {
      PrecedesAsymmetric(t, vs[k]);
    }
  }

  /** The survivor that a fragment dropped without an absorber is sent to; empty when nothing survived. */
  method PickRemapFallback(after: seq<LogTemplate>, ghost vs: seq<Template>) returns (id: string)
    requires Hold(after, vs)
    ensures IsFallback(vs, id)
  {
    if |after| == 0 {
      return "";
    }
    var sorted; ghost var vsorted;
    sorted, vsorted := SortCandidates(after, vs);
    FirstIsFallback(vs, vsorted);
    id := sorted[0].id;
  }

  lemma FirstIsFallback(vs: seq<Template>, sorted: seq<Template>)
    requires |vs| != 0 && InOrder(sorted) && multiset(sorted) == multiset(vs)
    ensures |sorted| != 0 && IsFallback(vs, sorted[0].id)
  {
    assert vs[0] in multiset(sorted);
    assert sorted[0] in multiset(vs);
    forall u | u in vs ensures !Precedes(u, sorted[0]) {
      assert u in multiset(sorted);
      var i :| 0 <= i < |sorted| && sorted[i] == u;
      PrecedesIrreflexive(u);
    }
  }

  /** Maps every id that did not survive onto a survivor's. */
  method BuildTemplateRemap(before: seq<LogTemplate>, after: seq<LogTemplate>, absorbedBy: Relation,
        ghost ids: seq<string>, ghost vs: seq<Template>)
    returns (remap: map<string, string>)
    requires Hold(after, vs) && |before| == |ids| && forall i | 0 <= i < |before| :: before[i].id == ids[i]
    ensures exists fallback :: IsFallback(vs, fallback) && remap == Remap(ids, IdSet(vs), absorbedBy, fallback)
  {
    var surviving: set<string> := {};
    for i := 0 to |after|
      invariant surviving == IdSet(vs[..i])
    {
      assert vs[..i + 1] == vs[..i] + [vs[i]];
      IdSetSnoc(vs[..i], vs[i]);
      surviving := surviving + {after[i].id};
    }
    assert vs[..|vs|] == vs;
    var target := PickRemapFallback(after, vs);
    remap := map[];
    for i := 0 to |before|
      invariant remap == Remap(ids[..i], surviving, absorbedBy, target)
    {
      assert ids[..i + 1][..i] == ids[..i];
      var id := before[i].id;
      if id in surviving {
        continue;
      }
      if id in absorbedBy && absorbedBy[id] in surviving {
        remap := remap[id := absorbedBy[id]];
        continue;
      }
      if target != "" {
        remap := remap[id := target];
      }
    }
    assert ids[..|ids|] == ids;
  }

  lemma IdSetSnoc(vs: seq<Template>, t: Template)
    ensures IdSet(vs + [t]) == IdSet(vs) + {t.id}
  {
    assert forall u :: u in vs + [t] <==> u in vs || u == t;
  }
}
