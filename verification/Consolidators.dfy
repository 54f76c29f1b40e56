/** The consolidators on the heap: templates are merged and folded in place, behind the pointers the entries hold. */
module Consolidators {

  import opened Strings
  import opened Model
  import opened Sorting
  import opened Templates
  import opened Consolidation

  /** One merged survivor, by reference, and the template ids that went into it. */
  datatype Merger = Merger(survivor: LogTemplate, fragments: seq<string>)

  /** The mergers say, by reference, what the absorptions say by id. */
  ghost predicate Witness(ms: seq<Merger>, abs: seq<Absorption>)
    reads set m | m in ms :: m.survivor
  {
    |ms| == |abs| && forall i | 0 <= i < |ms| :: Absorption(ms[i].survivor.id, ms[i].fragments) == abs[i]
  }

  // ---- references --------------------------------------------------------

  lemma {:induction false} UnaliasedCounts(ts: seq<LogTemplate>, t: LogTemplate)
    requires Unaliased(ts)
    ensures multiset(ts)[t] <= 1
  {
    if |ts| != 0 {
      var front, last := ts[..|ts| - 1], ts[|ts| - 1];
      UnaliasedCounts(front, t);
      assert ts == front + [last];
      assert last !in multiset(front) by {
        assert last !in front;
      }
    }
  }

  /** Rearranging distinct references keeps them distinct. */
  lemma UnaliasedRearranged(a: seq<LogTemplate>, b: seq<LogTemplate>)
    requires Unaliased(a) && multiset(a) == multiset(b)
    ensures Unaliased(b) && forall t :: t in a <==> t in b
  {
    assert forall t :: t in a <==> t in multiset(a);
    assert forall t :: t in b <==> t in multiset(b);
    forall i, j | 0 <= i < j < |b| ensures b[i] != b[j] {
      UnaliasedCounts(a, b[j]);
      assert b == b[..j] + [b[j]] + b[j + 1..];
      assert b[i] in b[..j];
      assert b[i] in multiset(b[..j]);
      assert multiset(b) == multiset(b[..j]) + multiset{b[j]} + multiset(b[j + 1..]);
    }
  }

  // ---- merging -----------------------------------------------------------

  /** Folds a fragment's aggregates into a merged survivor. */
  method AbsorbFragment(merged: LogTemplate, fragment: LogTemplate)
    modifies merged
    ensures merged.Value() == AbsorbInto(old(merged.Value()), old(fragment.Value()))
  {
    merged.count := merged.count + fragment.count;
    if fragment.firstSeen < merged.firstSeen {
      merged.firstSeen := fragment.firstSeen;
    }
    if fragment.lastSeen > merged.lastSeen {
      merged.lastSeen := fragment.lastSeen;
    }
    if SeverityIndex(fragment.severity) > SeverityIndex(merged.severity) {
      merged.severity := fragment.severity;
    }
  }

  method FinishMerged(rules: Rules, merged: LogTemplate)
    modifies merged
    ensures merged.Value() == Finish(rules, old(merged.Value()))
  {
    merged.id := rules.templateHash(merged.pattern);
    merged.alias := rules.alias(merged.pattern, merged.severity);
  }

  method CollectGoStackExample(rules: Rules, merged: LogTemplate, t: LogTemplate)
    requires merged != t
    modifies merged
    ensures merged.Value() == CollectGoExample(rules, old(merged.Value()), t.Value())
  {
    if |merged.exampleVars| >= MAX_EXAMPLES || !rules.goExampleLine(t.pattern) {
      return;
    }
    merged.exampleVars := merged.exampleVars + [[EffectiveText(t.Value())]];
  }

  /** One more fragment of a dump: its aggregates, and its line when it looks like a header. */
  method AbsorbGoStackFragment(rules: Rules, merged: LogTemplate, t: LogTemplate)
    requires merged != t
    modifies merged
    ensures merged.Value() == CollectGoExample(rules, AbsorbInto(old(merged.Value()), t.Value()), t.Value())
  {
    AbsorbFragment(merged, t);
    CollectGoStackExample(rules, merged, t);
  }

  method FinishGoStack(rules: Rules, merged: LogTemplate, first: LogTemplate)
    requires merged != first
    modifies merged
    ensures merged.Value() == FinishGo(rules, old(merged.Value()), first.Value())
  {
    if |merged.exampleVars| == 0 {
      merged.exampleVars := [FallbackExample(first.Value())];
    }
    FinishMerged(rules, merged);
  }

  lemma GoStackNext(rules: Rules, vs: seq<Template>, i: nat)
    requires i < |vs|
    ensures MergedUpTo(rules, GoStack, vs, i + 1)
      == CollectGoExample(rules, AbsorbInto(MergedUpTo(rules, GoStack, vs, i), vs[i]), vs[i])
  {
  }

  method GatherGoStack(rules: Rules, merged: LogTemplate, group: seq<LogTemplate>, ghost vs: seq<Template>)
    requires |group| != 0 && Hold(group, vs) && merged !in group
    requires merged.Value() == MergedUpTo(rules, GoStack, vs, 0)
    modifies merged
    ensures merged.Value() == MergedUpTo(rules, GoStack, vs, |vs|)
  {
    for i := 0 to |group|
      invariant Hold(group, vs) && merged.Value() == MergedUpTo(rules, GoStack, vs, i)
    {
      AbsorbGoStackFragment(rules, merged, group[i]);
      GoStackNext(rules, vs, i);
    }
  }

  /** Folds a group into one CRITICAL template. */
  method MergeGoStackGroup(rules: Rules, group: seq<LogTemplate>, ghost vs: seq<Template>) returns (merged: LogTemplate)
    requires |group| != 0 && Hold(group, vs)
    ensures fresh(merged) && Hold(group, vs) && merged.Value() == Merge(rules, GoStack, vs)
  {
    merged := new LogTemplate(Seed(GoStack, group[0].Value()));
    assert merged !in group;
    GatherGoStack(rules, merged, group, vs);
    assert Hold(group, vs);
    FinishGoStack(rules, merged, group[0]);
  }

  /** One more fragment of a traceback: its aggregates, and what its text says unless an earlier one said it. */
  method AbsorbPythonFragment(rules: Rules, merged: LogTemplate, t: LogTemplate, header: string, exception: string)
    returns (h: string, e: string)
    requires merged != t
    modifies merged
    ensures merged.Value() == AbsorbInto(old(merged.Value()), t.Value())
    ensures (h, e) == NoteEvidence(rules, t.Value(), (header, exception))
  {
    AbsorbFragment(merged, t);
    h, e := header, exception;
    var text := EffectiveText(t.Value());
    if h == "" && Contains(text, "Traceback") {
      h := text;
    }
    if e == "" && rules.pythonException(text) {
      e := text;
    }
  }

  method FinishPythonTraceback(rules: Rules, merged: LogTemplate, header: string, exception: string, first: LogTemplate)
    requires merged != first
    modifies merged
    ensures merged.Value() == FinishPython(rules, old(merged.Value()), (header, exception), first.Value())
  {
    merged.pattern := PythonPattern(header, exception);
    merged.exampleVars := PythonExamples(header, exception, first.Value());
    FinishMerged(rules, merged);
  }

  method GatherPython(rules: Rules, merged: LogTemplate, group: seq<LogTemplate>, ghost vs: seq<Template>)
    returns (header: string, exception: string)
    requires |group| != 0 && Hold(group, vs) && merged !in group
    requires merged.Value() == MergedUpTo(rules, PythonTraceback, vs, 0)
    modifies merged
    ensures merged.Value() == MergedUpTo(rules, PythonTraceback, vs, |vs|)
    ensures (header, exception) == Evidence(rules, vs, |vs|)
  {
    header, exception := "", "";
    for i := 0 to |group|
      invariant Hold(group, vs) && merged.Value() == MergedUpTo(rules, PythonTraceback, vs, i)
      invariant (header, exception) == Evidence(rules, vs, i)
    {
      header, exception := AbsorbPythonFragment(rules, merged, group[i], header, exception);
    }
  }

  /** Folds a group into one ERROR template named after the header or the exception class it found. */
  method MergePythonGroup(rules: Rules, group: seq<LogTemplate>, ghost vs: seq<Template>) returns (merged: LogTemplate)
    requires |group| != 0 && Hold(group, vs)
    ensures fresh(merged) && Hold(group, vs) && merged.Value() == Merge(rules, PythonTraceback, vs)
  {
    merged := new LogTemplate(Seed(PythonTraceback, group[0].Value()));
    assert merged !in group;
    var header, exception := GatherPython(rules, merged, group, vs);
    assert Hold(group, vs);
    FinishPythonTraceback(rules, merged, header, exception, group[0]);
  }

  // ---- sorting and grouping ----------------------------------------------

  method InsertByLastSeen(sorted: seq<LogTemplate>, t: LogTemplate, ghost vs: seq<Template>)
    returns (out: seq<LogTemplate>)
    requires Hold(sorted, vs)
    ensures Hold(out, Insert(vs, t.Value(), LastSeenOf)) && multiset(out) == multiset(sorted) + multiset{t}
  {
    var j := |sorted|;
    while j > 0 && sorted[j - 1].lastSeen > t.lastSeen
      invariant 0 <= j <= |sorted| == |vs|
      invariant forall k | j <= k < |sorted| :: LastSeenOf(vs[k]) > t.lastSeen
    {
      j := j - 1;
    }
    InsertAt(vs, t.Value(), LastSeenOf, j);
    out := sorted[..j] + [t] + sorted[j..];
    InsertedOnce(sorted, t, j);
  }

  /** The stable sort by end of range. */
  method SortByLastSeen(ts: seq<LogTemplate>, ghost vs: seq<Template>) returns (sorted: seq<LogTemplate>)
    requires Hold(ts, vs)
    ensures Hold(sorted, SortStable(vs, LastSeenOf)) && multiset(sorted) == multiset(ts)
  {
    sorted := [];
    for i := 0 to |ts|
      invariant Hold(sorted, SortStable(vs[..i], LastSeenOf)) && multiset(sorted) == multiset(ts[..i])
    {
      sorted := InsertByLastSeen(sorted, ts[i], SortStable(vs[..i], LastSeenOf));
      assert vs[..i + 1][..i] == vs[..i];
      assert ts[..i + 1] == ts[..i] + [ts[i]];
    }
    assert ts[..|ts|] == ts && vs[..|vs|] == vs;
  }

  function Concat(groups: seq<seq<LogTemplate>>): seq<LogTemplate> {
    if |groups| == 0 then [] else Concat(groups[..|groups| - 1]) + groups[|groups| - 1]
  }

  ghost predicate HoldAll(groups: seq<seq<LogTemplate>>, vgroups: seq<seq<Template>>)
    reads set i, k | 0 <= i < |groups| && 0 <= k < |groups[i]| :: groups[i][k]
  {
    |groups| == |vgroups| && forall i | 0 <= i < |groups| :: Hold(groups[i], vgroups[i])
  }

  /** The first i templates have been split into finished groups and the current one. */
  ghost predicate SplitUpTo(sorted: seq<LogTemplate>, vs: seq<Template>, window: int, i: nat,
        groups: seq<seq<LogTemplate>>, vgroups: seq<seq<Template>>, current: seq<LogTemplate>, vcurrent: seq<Template>)
    requires i <= |vs| && i <= |sorted|
    reads set i, k | 0 <= i < |groups| && 0 <= k < |groups[i]| :: groups[i][k]
    reads current
  {
    && GroupByTime(vs[..i], window) == vgroups + [vcurrent]
    && HoldAll(groups, vgroups) && Hold(current, vcurrent) && |current| != 0
    && Concat(groups) + current == sorted[..i]
  }

  lemma SplitExtends(sorted: seq<LogTemplate>, vs: seq<Template>, window: int, i: nat, groups: seq<seq<LogTemplate>>,
        vgroups: seq<seq<Template>>, current: seq<LogTemplate>, vcurrent: seq<Template>)
    requires 0 < i < |vs| && Hold(sorted, vs) && SplitUpTo(sorted, vs, window, i, groups, vgroups, current, vcurrent)
    requires sorted[i].firstSeen - current[|current| - 1].lastSeen <= window
    ensures SplitUpTo(sorted, vs, window, i + 1, groups, vgroups, current + [sorted[i]], vcurrent + [vs[i]])
  {
    GroupStep(vs, i, window, vgroups, vcurrent);
    HoldSnoc(current, vcurrent, sorted[i], vs[i]);
    assert Concat(groups) + (current + [sorted[i]]) == (Concat(groups) + current) + [sorted[i]];
  }

  lemma SplitStarts(sorted: seq<LogTemplate>, vs: seq<Template>, window: int, i: nat, groups: seq<seq<LogTemplate>>,
        vgroups: seq<seq<Template>>, current: seq<LogTemplate>, vcurrent: seq<Template>)
    requires 0 < i < |vs| && Hold(sorted, vs) && SplitUpTo(sorted, vs, window, i, groups, vgroups, current, vcurrent)
    requires sorted[i].firstSeen - current[|current| - 1].lastSeen > window
    ensures SplitUpTo(sorted, vs, window, i + 1, groups + [current], vgroups + [vcurrent], [sorted[i]], [vs[i]])
  {
    assert GroupByTime(vs[..i + 1], window) == (vgroups + [vcurrent]) + [[vs[i]]] by {
      GroupStep(vs, i, window, vgroups, vcurrent);
    }
    assert Concat(groups + [current]) + [sorted[i]] == sorted[..i + 1] by {
      ConcatSnoc(groups, current);
    }
    HoldAllSnoc(groups, vgroups, current, vcurrent);
    assert Hold([sorted[i]], [vs[i]]);
  }

  /** Splits a sorted list into runs whose neighbours start within the window of each other's end. */
  method SplitByTime(sorted: seq<LogTemplate>, window: int, ghost vs: seq<Template>)
    returns (groups: seq<seq<LogTemplate>>)
    requires Hold(sorted, vs)
    ensures HoldAll(groups, GroupByTime(vs, window)) && Concat(groups) == sorted
  {
    groups := [];
    if |sorted| == 0 {
      return;
    }
    var current := [sorted[0]];
    ghost var vgroups: seq<seq<Template>>, vcurrent := [], [vs[0]];
    assert vs[..1] == [vs[0]] && vs[..1][..0] == [];
    for i := 1 to |sorted|
      invariant SplitUpTo(sorted, vs, window, i, groups, vgroups, current, vcurrent)
    {
      var prevEnd := current[|current| - 1].lastSeen;
      if sorted[i].firstSeen - prevEnd <= window {
        SplitExtends(sorted, vs, window, i, groups, vgroups, current, vcurrent);
        current, vcurrent := current + [sorted[i]], vcurrent + [vs[i]];
      } else {
        SplitStarts(sorted, vs, window, i, groups, vgroups, current, vcurrent);
        groups, vgroups := groups + [current], vgroups + [vcurrent];
        current, vcurrent := [sorted[i]], [vs[i]];
      }
    }
    assert vs[..|vs|] == vs && sorted[..|sorted|] == sorted;
    ConcatSnoc(groups, current);
    HoldAllSnoc(groups, vgroups, current, vcurrent);
    groups := groups + [current];
  }

  lemma ConcatSnoc(groups: seq<seq<LogTemplate>>, group: seq<LogTemplate>)
    ensures Concat(groups + [group]) == Concat(groups) + group
  {
    assert (groups + [group])[..|groups|] == groups;
  }

  lemma HoldSnoc(ts: seq<LogTemplate>, vs: seq<Template>, t: LogTemplate, v: Template)
    requires Hold(ts, vs) && t.Value() == v
    ensures Hold(ts + [t], vs + [v])
  {
  }

  lemma HoldAllSnoc(groups: seq<seq<LogTemplate>>, vgroups: seq<seq<Template>>, group: seq<LogTemplate>,
        vgroup: seq<Template>)
    requires HoldAll(groups, vgroups) && Hold(group, vgroup)
    ensures HoldAll(groups + [group], vgroups + [vgroup])
  {
  }

  lemma GroupStep(vs: seq<Template>, i: nat, window: int, done: seq<seq<Template>>, current: seq<Template>)
    requires 0 < i < |vs| && |current| != 0 && GroupByTime(vs[..i], window) == done + [current]
    ensures GroupByTime(vs[..i + 1], window)
         == if vs[i].firstSeen - current[|current| - 1].lastSeen <= window then done + [current + [vs[i]]]
           else done + [current] + [[vs[i]]]
  {
    assert vs[..i + 1][..i] == vs[..i];
    assert (done + [current])[..|done|] == done;
  }

  // ---- merging every group -----------------------------------------------

  method MergeGroup(rules: Rules, family: Family, group: seq<LogTemplate>, ghost vs: seq<Template>)
    returns (merged: LogTemplate)
    requires |group| != 0 && Hold(group, vs)
    ensures fresh(merged) && Hold(group, vs) && merged.Value() == Merge(rules, family, vs)
  {
    match family
    case GoStack => merged := MergeGoStackGroup(rules, group, vs);
    case PythonTraceback => merged := MergePythonGroup(rules, group, vs);
  }

  /** A list of templates, and the mergers that made some of them, hold an outcome. */
  ghost predicate Shows(out: seq<LogTemplate>, mergers: seq<Merger>, o: Outcome)
    reads out, set m | m in mergers :: m.survivor
  {
    Hold(out, o.templates) && Witness(mergers, o.absorptions) && forall m | m in mergers :: m.survivor in out
  }

  method FragmentIds(group: seq<LogTemplate>, ghost vs: seq<Template>) returns (ids: seq<string>)
    requires Hold(group, vs)
    ensures ids == IdsOf(vs)
  {
    ids := [];
    for i := 0 to |group|
      invariant ids == IdsOf(vs)[..i]
    {
      ids := ids + [group[i].id];
    }
  }

  lemma ShowsMerger(out: seq<LogTemplate>, mergers: seq<Merger>, o: Outcome, merged: LogTemplate, ids: seq<string>)
    requires Shows(out, mergers, o)
    ensures Shows(out + [merged], mergers + [Merger(merged, ids)],
                  Outcome(o.templates + [merged.Value()], o.absorptions + [Absorption(merged.id, ids)]))
  {
    HoldSnoc(out, o.templates, merged, merged.Value());
  }

  lemma ShowsGroup(out: seq<LogTemplate>, mergers: seq<Merger>, o: Outcome, group: seq<LogTemplate>, vs: seq<Template>)
    requires Shows(out, mergers, o) && Hold(group, vs)
    ensures Shows(out + group, mergers, Outcome(o.templates + vs, o.absorptions))
  {
  }

  lemma UnaliasedExtend(out: seq<LogTemplate>, group: seq<LogTemplate>)
    requires Unaliased(out) && Unaliased(group) && forall t | t in group :: t !in out
    ensures Unaliased(out + group)
  {
    assert forall j | |out| <= j < |out + group| :: (out + group)[j] in group;
  }

  /** The list a + b holds no reference twice, so b shares none with a. */
  lemma UnaliasedParts(a: seq<LogTemplate>, b: seq<LogTemplate>)
    requires Unaliased(a + b)
    ensures Unaliased(a) && Unaliased(b) && forall t | t in b :: t !in a
  {
    forall i, j | 0 <= i < |a| && 0 <= j < |b| ensures a[i] != b[j] {
      assert (a + b)[i] == a[i] && (a + b)[|a| + j] == b[j];
    }
    assert forall i | 0 <= i < |a| :: (a + b)[i] == a[i];
    assert forall j | 0 <= j < |b| :: (a + b)[|a| + j] == b[j];
  }

  /**
    The group at i of an unaliased list of groups shares nothing with the normal templates and the groups
    before it.
   */
  lemma GroupsApart(normal: seq<LogTemplate>, groups: seq<seq<LogTemplate>>, i: nat)
    requires i < |groups| && Unaliased(normal + Concat(groups[..i + 1]))
    ensures Unaliased(groups[i]) && forall t | t in groups[i] :: t !in normal + Concat(groups[..i])
  {
    assert groups[..i + 1][..i] == groups[..i];
    assert normal + Concat(groups[..i + 1]) == (normal + Concat(groups[..i])) + groups[i];
    UnaliasedParts(normal + Concat(groups[..i]), groups[i]);
  }

  lemma {:induction false} ConcatPrefix(groups: seq<seq<LogTemplate>>, i: nat)
    requires i <= |groups|
    ensures Concat(groups[..i]) <= Concat(groups)
    decreases |groups|
  {
    if i < |groups| {
      ConcatPrefix(groups[..|groups| - 1], i);
      assert groups[..|groups| - 1][..i] == groups[..i];
    } else {
      assert groups[..i] == groups;
    }
  }

  lemma UnaliasedPrefix(normal: seq<LogTemplate>, groups: seq<seq<LogTemplate>>, i: nat)
    requires i <= |groups| && Unaliased(normal + Concat(groups))
    ensures Unaliased(normal + Concat(groups[..i]))
  {
    ConcatPrefix(groups, i);
    var a, b := normal + Concat(groups[..i]), normal + Concat(groups);
    assert forall k | 0 <= k < |a| :: a[k] == b[k];
  }

  /** Appends one group: untouched when it is small, else as its merge. */
  method MergeNext(rules: Rules, family: Family, out: seq<LogTemplate>, mergers: seq<Merger>, group: seq<LogTemplate>,
                   ghost o: Outcome, ghost vs: seq<Template>)
    returns (out': seq<LogTemplate>, mergers': seq<Merger>)
    requires Shows(out, mergers, o) && Hold(group, vs) && |vs| != 0
    requires Unaliased(out) && Unaliased(group) && forall t | t in group :: t !in out
    ensures var m := Merge(rules, family, vs);
      Shows(out', mergers', if |vs| < MIN_GROUP then Outcome(o.templates + vs, o.absorptions)
                            else Outcome(o.templates + [m], o.absorptions + [Absorption(m.id, IdsOf(vs))]))
    ensures Unaliased(out')
    ensures forall t | t in out' :: t in out || t in group || fresh(t)
  {
    if |group| < MIN_GROUP {
      ShowsGroup(out, mergers, o, group, vs);
      UnaliasedExtend(out, group);
      out', mergers' := out + group, mergers;
    } else {
      var merged := MergeGroup(rules, family, group, vs);
      var ids := FragmentIds(group, vs);
      ShowsMerger(out, mergers, o, merged, ids);
      UnaliasedExtend(out, [merged]);
      out', mergers' := out + [merged], mergers + [Merger(merged, ids)];
    }
  }

  /** Appends every group in turn. */
  method MergeEach(rules: Rules, family: Family, normal: seq<LogTemplate>, groups: seq<seq<LogTemplate>>,
                   ghost vnormal: seq<Template>, ghost vgroups: seq<seq<Template>>)
    returns (out: seq<LogTemplate>, mergers: seq<Merger>)
    requires Hold(normal, vnormal) && HoldAll(groups, vgroups) && Unaliased(normal + Concat(groups))
    requires forall i | 0 <= i < |vgroups| :: |vgroups[i]| != 0
    ensures Shows(out, mergers, MergeGroups(rules, family, vnormal, vgroups)) && Unaliased(out)
    ensures forall t | t in out :: t in normal || t in Concat(groups) || fresh(t)
  {
    out, mergers := normal, [];
    UnaliasedParts(normal, Concat(groups));
    for i := 0 to |groups|
      invariant Shows(out, mergers, MergeGroups(rules, family, vnormal, vgroups[..i])) && Unaliased(out)
      invariant forall t | t in out :: t in normal + Concat(groups[..i]) || fresh(t)
      invariant HoldAll(groups, vgroups)
    {
      assert vgroups[..i + 1][..i] == vgroups[..i] && groups[..i + 1][..i] == groups[..i];
      UnaliasedPrefix(normal, groups, i + 1);
      GroupsApart(normal, groups, i);
      assert Hold(groups[i], vgroups[i]);
      out, mergers := MergeNext(rules, family, out, mergers, groups[i],
        MergeGroups(rules, family, vnormal, vgroups[..i]), vgroups[i]);
    }
    assert groups[..|groups|] == groups && vgroups[..|vgroups|] == vgroups;
  }

  // ---- folding equal ids -------------------------------------------------

  /** keeper names, by id, exactly the templates kept. */
  ghost predicate Keeps(keeper: map<string, LogTemplate>, out: seq<LogTemplate>)
    reads out
  {
    && (forall id | id in keeper :: keeper[id] in out && keeper[id].id == id)
    && (forall t | t in out :: t.id in keeper && keeper[t.id] == t)
  }

  lemma KeptIsFound(out: seq<LogTemplate>, vs: seq<Template>, keeper: map<string, LogTemplate>, id: string)
    requires Hold(out, vs) && Keeps(keeper, out)
    ensures id in keeper <==> Find(vs, id).Some?
    ensures id in keeper ==> out[Find(vs, id).value] == keeper[id]
  {
    var at := Find(vs, id);
    assert at.Some? ==> out[at.value] in out;
  }

  method FoldDuplicate(rules: Rules, existing: LogTemplate, t: LogTemplate)
    requires existing != t
    modifies existing
    ensures var m := AbsorbInto(old(existing.Value()), t.Value());
      existing.Value() == m.(alias := rules.alias(m.pattern, m.severity))
  {
    AbsorbFragment(existing, t);
    existing.alias := rules.alias(existing.pattern, existing.severity);
  }

  /** A template under a new id is kept as it is. */
  lemma KeepsNew(rules: Rules, out: seq<LogTemplate>, keeper: map<string, LogTemplate>, t: LogTemplate,
        vs: seq<Template>)
    requires Kept(out, keeper, vs) && t !in out && t.id !in keeper && Find(vs, t.id).None?
    ensures Kept(out + [t], keeper[t.id := t], FoldIn(rules, vs, t.Value()))
  {
    assert forall u :: u in out + [t] <==> u in out || u == t;
  }

  /** A template under a known id is folded into the one kept. */
  method FoldKept(rules: Rules, out: seq<LogTemplate>, keeper: map<string, LogTemplate>, t: LogTemplate,
        ghost vs: seq<Template>)
    requires Kept(out, keeper, vs) && t !in out && t.id in keeper && Find(vs, t.id).Some?
    requires out[Find(vs, t.id).value] == keeper[t.id]
    modifies out
    ensures Kept(out, keeper, FoldIn(rules, vs, t.Value()))
    ensures forall u | u in out :: u.id == old(u.id)
  {
    var existing := keeper[t.id];
    FoldDuplicate(rules, existing, t);
  }

  /** Keeps one more template, or folds it into the one already kept under its id. */
  method KeepOne(rules: Rules, out: seq<LogTemplate>, keeper: map<string, LogTemplate>, t: LogTemplate,
        ghost vs: seq<Template>, ghost v: Template)
    returns (out': seq<LogTemplate>, keeper': map<string, LogTemplate>)
    requires Kept(out, keeper, vs) && t !in out && t.Value() == v
    modifies out
    ensures Kept(out', keeper', FoldIn(rules, vs, v))
    ensures forall u | u in out' :: u in out || u == t
    ensures forall u | u in out :: u.id == old(u.id)
    ensures keeper'.Keys == keeper.Keys + {v.id}
  {
    KeptIsFound(out, vs, keeper, t.id);
    if t.id !in keeper {
      KeepsNew(rules, out, keeper, t, vs);
      return out + [t], keeper[t.id := t];
    }
    FoldKept(rules, out, keeper, t, vs);
    out', keeper' := out, keeper;
  }

  /** Template k is not among those kept, and holds its first value. */
  ghost predicate Pending(t: LogTemplate, v: Template, out: seq<LogTemplate>)
    reads t
  {
    t !in out && t.Value() == v
  }

  /** The templates from i on are still to be folded. */
  ghost predicate Waiting(ts: seq<LogTemplate>, vs: seq<Template>, i: nat, out: seq<LogTemplate>)
    requires i <= |ts| == |vs|
    reads ts
  {
    (forall t | t in out :: t in ts) && forall k | i <= k < |ts| :: Pending(ts[k], vs[k], out)
  }

  /** The templates kept hold these values, each under its own id. */
  ghost predicate Kept(out: seq<LogTemplate>, keeper: map<string, LogTemplate>, vs: seq<Template>)
    reads out
  {
    Hold(out, vs) && Unaliased(out) && Keeps(keeper, out)
  }

  ghost predicate IdsKnown(keeper: map<string, LogTemplate>, vs: seq<Template>, i: nat)
    requires i <= |vs|
  {
    forall k | 0 <= k < i :: vs[k].id in keeper
  }

  lemma DedupeNext(rules: Rules, vs: seq<Template>, i: nat)
    requires i < |vs|
    ensures Dedupe(rules, vs[..i + 1]) == FoldIn(rules, Dedupe(rules, vs[..i]), vs[i])
  {
    assert vs[..i + 1][..i] == vs[..i];
  }

  /** The templates after i, which none of those kept is, still hold their first values. */
  ghost predicate StillHold(ts: seq<LogTemplate>, vs: seq<Template>, i: nat, out: seq<LogTemplate>)
    requires i <= |ts| == |vs|
    reads ts
  {
    forall k | i <= k < |ts| :: ts[k] !in out && ts[k].Value() == vs[k]
  }

  lemma WaitOn(ts: seq<LogTemplate>, vs: seq<Template>, i: nat, out: seq<LogTemplate>, out': seq<LogTemplate>)
    requires i < |ts| == |vs| && Unaliased(ts) && (forall t | t in out :: t in ts) && StillHold(ts, vs, i + 1, out)
    requires forall t | t in out' :: t in out || t == ts[i]
    ensures Waiting(ts, vs, i + 1, out')
  {
  }

  /** Keeps the template at i, or folds it; the later ones wait on. */
  method KeepNext(rules: Rules, ts: seq<LogTemplate>, ghost vs: seq<Template>, i: nat, out: seq<LogTemplate>,
        keeper: map<string, LogTemplate>, ghost kept: seq<Template>)
    returns (out': seq<LogTemplate>, keeper': map<string, LogTemplate>)
    requires i < |ts| == |vs| && Unaliased(ts) && Kept(out, keeper, kept) && Waiting(ts, vs, i, out)
    modifies out
    ensures Kept(out', keeper', FoldIn(rules, kept, vs[i]))
    ensures Waiting(ts, vs, i + 1, out')
    ensures keeper'.Keys == keeper.Keys + {vs[i].id}
    ensures forall t | t in ts :: t.id == old(t.id)
  {
    assert Pending(ts[i], vs[i], out);
    out', keeper' := KeepOne(rules, out, keeper, ts[i], kept, vs[i]);
    WaitOn(ts, vs, i, out, out');
  }

  /** Points each merger at the template kept under its survivor's id. */
  method PointMergers(ts: seq<LogTemplate>, mergers: seq<Merger>, out: seq<LogTemplate>,
        keeper: map<string, LogTemplate>, ghost abs: seq<Absorption>)
    returns (pointed: seq<Merger>)
    requires Witness(mergers, abs) && forall m | m in mergers :: m.survivor in ts
    requires Keeps(keeper, out) && forall t | t in ts :: t.id in keeper
    ensures Witness(pointed, abs) && forall m | m in pointed :: m.survivor in out
  {
    pointed := [];
    for i := 0 to |mergers|
      invariant Witness(pointed, abs[..i]) && forall m | m in pointed :: m.survivor in out
    {
      assert mergers[i] in mergers;
      pointed := pointed + [Merger(keeper[mergers[i].survivor.id], mergers[i].fragments)];
    }
    assert abs[..|abs|] == abs;
  }

  /** Keeps the first template of each id and folds the later ones into it. */
  method KeepAll(rules: Rules, ts: seq<LogTemplate>, ghost vs: seq<Template>)
    returns (out: seq<LogTemplate>, keeper: map<string, LogTemplate>)
    requires Hold(ts, vs) && Unaliased(ts)
    modifies ts
    ensures Kept(out, keeper, Dedupe(rules, vs)) && IdsKnown(keeper, vs, |vs|)
    ensures forall t | t in out :: t in ts
    ensures forall t | t in ts :: t.id == old(t.id)
  {
    keeper, out := map[], [];
    for i := 0 to |ts|
      invariant Kept(out, keeper, Dedupe(rules, vs[..i])) && Waiting(ts, vs, i, out) && IdsKnown(keeper, vs, i)
      invariant forall t | t in ts :: t.id == old(t.id)
    {
      DedupeNext(rules, vs, i);
      assert forall k | 0 <= k < |out| :: out[k] in ts;
      out, keeper := KeepNext(rules, ts, vs, i, out, keeper, Dedupe(rules, vs[..i]));
    }
    assert vs[..|vs|] == vs;
  }

  /**
    Folds templates that share an id into the first of them, and points each merger at the template
    that was kept.
   */
  method DedupeMergedSurvivors(rules: Rules, ts: seq<LogTemplate>, mergers: seq<Merger>, ghost o: Outcome)
    returns (out: seq<LogTemplate>, pointed: seq<Merger>)
    requires Shows(ts, mergers, o) && Unaliased(ts)
    modifies ts
    ensures Shows(out, pointed, Outcome(Dedupe(rules, o.templates), o.absorptions)) && Unaliased(out)
    ensures forall t | t in out :: t in ts
    ensures forall t | t in ts :: t.id == old(t.id)
  {
    var keeper;
    out, keeper := KeepAll(rules, ts, o.templates);
    assert Witness(mergers, o.absorptions) by {
      assert forall i | 0 <= i < |mergers| :: mergers[i] in mergers;
    }
    forall t | t in ts ensures t.id in keeper {
      var k :| 0 <= k < |ts| && ts[k] == t;
      assert old(ts[k].id) == o.templates[k].id;
    }
    pointed := PointMergers(ts, mergers, out, keeper, o.absorptions);
  }

  // ---- one consolidator --------------------------------------------------

  lemma SelectNext(rules: Rules, family: Family, vs: seq<Template>, i: nat, role: Role)
    requires i < |vs|
    ensures var was := Select(rules, family, vs[..i], role);
      Select(rules, family, vs[..i + 1], role) == if RoleOf(rules, family, vs[i]) == role then was + [vs[i]] else was
  {
    assert vs[..i + 1][..i] == vs[..i];
  }

  /** Three lists that together rearrange all. */
  ghost predicate Deal(n: seq<LogTemplate>, h: seq<LogTemplate>, f: seq<LogTemplate>, all: seq<LogTemplate>) {
    multiset(n) + multiset(h) + multiset(f) == multiset(all)
  }

  lemma DealOne(n: seq<LogTemplate>, h: seq<LogTemplate>, f: seq<LogTemplate>, ts: seq<LogTemplate>, i: nat)
    requires i < |ts| && Deal(n, h, f, ts[..i])
    ensures Deal(n + [ts[i]], h, f, ts[..i + 1]) && Deal(n, h + [ts[i]], f, ts[..i + 1])
      && Deal(n, h, f + [ts[i]], ts[..i + 1])
  {
    assert ts[..i + 1] == ts[..i] + [ts[i]];
  }

  /** The three lists hold the templates of the three roles. */
  ghost predicate Roles(rules: Rules, family: Family, vs: seq<Template>, n: seq<LogTemplate>, h: seq<LogTemplate>,
        f: seq<LogTemplate>)
    reads n, h, f
  {
    && Hold(n, Select(rules, family, vs, Normal))
    && Hold(h, Select(rules, family, vs, Header))
    && Hold(f, Select(rules, family, vs, Fragment))
  }

  lemma RolesNext(rules: Rules, family: Family, ts: seq<LogTemplate>, vs: seq<Template>, i: nat,
                  n: seq<LogTemplate>, h: seq<LogTemplate>, f: seq<LogTemplate>)
    requires Hold(ts, vs) && i < |ts| && Roles(rules, family, vs[..i], n, h, f)
    ensures var role, t := RoleOf(rules, family, vs[i]), ts[i];
      Roles(rules, family, vs[..i + 1], if role == Normal then n + [t] else n, if role == Header then h + [t] else h,
            if role == Fragment then f + [t] else f)
  {
    RoleNext(rules, family, ts, vs, i, Normal, n);
    RoleNext(rules, family, ts, vs, i, Header, h);
    RoleNext(rules, family, ts, vs, i, Fragment, f);
  }

  lemma RoleNext(rules: Rules, family: Family, ts: seq<LogTemplate>, vs: seq<Template>, i: nat, role: Role,
        list: seq<LogTemplate>)
    requires Hold(ts, vs) && i < |ts| && Hold(list, Select(rules, family, vs[..i], role))
    ensures Hold(if RoleOf(rules, family, vs[i]) == role then list + [ts[i]] else list,
      Select(rules, family, vs[..i + 1], role))
  {
    SelectNext(rules, family, vs, i, role);
  }

  /** Sorts the templates into ordinary ones, headers and fragments, each keeping their order. */
  method Partition(rules: Rules, family: Family, ts: seq<LogTemplate>, ghost vs: seq<Template>)
    returns (normal: seq<LogTemplate>, headers: seq<LogTemplate>, fragments: seq<LogTemplate>)
    requires Hold(ts, vs)
    ensures Roles(rules, family, vs, normal, headers, fragments)
    ensures Deal(normal, headers, fragments, ts)
  {
    normal, headers, fragments := [], [], [];
    for i := 0 to |ts|
      invariant Roles(rules, family, vs[..i], normal, headers, fragments)
      invariant Deal(normal, headers, fragments, ts[..i])
    {
      RolesNext(rules, family, ts, vs, i, normal, headers, fragments);
      DealOne(normal, headers, fragments, ts, i);
      match RoleOf(rules, family, ts[i].Value())
      case Header => headers := headers + [ts[i]];
      case Fragment => fragments := fragments + [ts[i]];
      case Normal => normal := normal + [ts[i]];
    }
    assert vs[..|vs|] == vs && ts[..|ts|] == ts;
  }

  lemma DealtUnaliased(n: seq<LogTemplate>, h: seq<LogTemplate>, f: seq<LogTemplate>, sorted: seq<LogTemplate>,
        ts: seq<LogTemplate>)
    requires Deal(n, h, f, ts) && Unaliased(ts) && multiset(sorted) == multiset(h + f)
    ensures Unaliased(n + sorted) && forall t :: t in n + sorted <==> t in ts
  {
    UnaliasedRearranged(ts, n + sorted);
  }

  method MergeSorted(rules: Rules, family: Family, normal: seq<LogTemplate>, sorted: seq<LogTemplate>,
                     ghost vnormal: seq<Template>, ghost vsorted: seq<Template>)
    returns (out: seq<LogTemplate>, mergers: seq<Merger>)
    requires Hold(normal, vnormal) && Hold(sorted, vsorted) && Unaliased(normal + sorted)
    modifies normal, sorted
    ensures var o := MergeGroups(rules, family, vnormal, GroupByTime(vsorted, Window(family)));
      Shows(out, mergers, Outcome(Dedupe(rules, o.templates), o.absorptions))
    ensures Unaliased(out)
    ensures forall t | t in out :: t in normal + sorted || fresh(t)
    ensures forall t | t in normal + sorted :: t.id == old(t.id)
  {
    ghost var vgroups := GroupByTime(vsorted, Window(family));
    var groups := SplitByTime(sorted, Window(family), vsorted);
    var merged;
    merged, mergers := MergeEach(rules, family, normal, groups, vnormal, vgroups);
    assert forall k | 0 <= k < |merged| ::
      merged[k] in merged && (merged[k] in normal || merged[k] in sorted || fresh(merged[k]));
    out, mergers := DedupeMergedSurvivors(rules, merged, mergers, MergeGroups(rules, family, vnormal, vgroups));
  }

  /** Merges the partitioned templates when there are enough candidates. */
  method MergeRoles(rules: Rules, family: Family, ghost ts: seq<LogTemplate>, ghost vs: seq<Template>,
                    normal: seq<LogTemplate>, headers: seq<LogTemplate>, fragments: seq<LogTemplate>)
    returns (out: seq<LogTemplate>, mergers: seq<Merger>)
    requires Hold(ts, vs) && Unaliased(ts) && !TooFew(rules, family, vs)
    requires Roles(rules, family, vs, normal, headers, fragments) && Deal(normal, headers, fragments, ts)
    modifies ts
    ensures Shows(out, mergers, Consolidate(rules, family, vs)) && Unaliased(out)
    ensures forall t | t in out :: t in ts || fresh(t)
    ensures forall t | t in ts :: t.id == old(t.id)
  {
    var sorted := SortByLastSeen(headers + fragments, Candidates(rules, family, vs));
    DealtUnaliased(normal, headers, fragments, sorted, ts);
    assert forall k | 0 <= k < |normal| :: normal[k] in normal + sorted;
    assert forall k | 0 <= k < |sorted| :: sorted[k] in normal + sorted;
    out, mergers := MergeSorted(rules, family, normal, sorted, Select(rules, family, vs, Normal),
                                SortStable(Candidates(rules, family, vs), LastSeenOf));
  }

  /**
    One consolidator: partition, group the candidates in time, merge the groups that are large enough
    and fold survivors that landed on one id.
   */
  method ConsolidateTemplates(rules: Rules, family: Family, ts: seq<LogTemplate>, ghost vs: seq<Template>)
    returns (out: seq<LogTemplate>, mergers: seq<Merger>)
    requires Hold(ts, vs) && Unaliased(ts)
    modifies ts
    ensures Shows(out, mergers, Consolidate(rules, family, vs)) && Unaliased(out)
    ensures forall t | t in out :: t in ts || fresh(t)
    ensures forall t | t in ts :: t.id == old(t.id)
  {
    var normal, headers, fragments := Partition(rules, family, ts, vs);
    if |fragments| < MIN_GROUP && |headers| == 0 {
      return ts, [];
    }
    out, mergers := MergeRoles(rules, family, ts, vs, normal, headers, fragments);
  }
}
