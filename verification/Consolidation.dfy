/**
  Consolidation on values: recognising trace fragments, grouping them in time, merging each group into
  one template and folding merged templates that share an id. Consolidators implements it on the heap.
 */
module Consolidation {

  import opened Wrappers
  import opened Strings
  import opened Model
  import opened Sorting

  /** The two consolidators, in execution order. */
  datatype Family = GoStack | PythonTraceback

  /** The smallest group that merges, in either family. */
  const MIN_GROUP := 3

  const GO_PATTERN := "Go runtime crash (goroutine dump)"
  const PYTHON_HEADER := "Traceback (most recent call last)"
  const HEADER_LIMIT := 120
  const MAX_EXAMPLES := 3

  function Window(family: Family): int {
    if family.GoStack? then 30 * SECOND else 5 * SECOND
  }

  // ---- recognition -------------------------------------------------------

  datatype Role = Header | Fragment | Normal

  /** The text a fragment is matched on: its first example row, else its pattern. */
  function EffectiveText(t: Template): string {
    if |t.exampleVars| > 0 then Join(t.exampleVars[0]) else t.pattern
  }

  predicate LineMatches(t: Template, line: string -> bool) {
    line(t.pattern) || exists i | 0 <= i < |t.exampleVars| :: line(Join(t.exampleVars[i]))
  }

  function RoleOf(rules: Rules, family: Family, t: Template): Role {
    match family
    case GoStack => if LineMatches(t, rules.goLine) then Fragment else Normal
    case PythonTraceback =>
      if HasPrefix(TrimSpace(EffectiveText(t)), PYTHON_HEADER) then Header
      else if LineMatches(t, rules.pythonLine) then Fragment
      else Normal
  }

  /** The templates of one role, in order. */
  function Select(rules: Rules, family: Family, ts: seq<Template>, role: Role): seq<Template> {
    if |ts| == 0 then []
    else
      Select(rules, family, ts[..|ts| - 1], role)
      + (if RoleOf(rules, family, ts[|ts| - 1]) == role then [ts[|ts| - 1]] else [])
  }

  // ---- merging -----------------------------------------------------------

  /** Folds a fragment's aggregates into a merged template: counts add, the range widens, severity rises. */
  function AbsorbInto(merged: Template, fragment: Template): Template {
    merged.(
      count := merged.count + fragment.count,
      firstSeen := if fragment.firstSeen < merged.firstSeen then fragment.firstSeen else merged.firstSeen,
      lastSeen := if fragment.lastSeen > merged.lastSeen then fragment.lastSeen else merged.lastSeen,
      severity := if SeverityIndex(fragment.severity) > SeverityIndex(merged.severity) then fragment.severity
                  else merged.severity)
  }

  function Finish(rules: Rules, t: Template): Template {
    t.(id := rules.templateHash(t.pattern), alias := rules.alias(t.pattern, t.severity))
  }

  function CollectGoExample(rules: Rules, merged: Template, t: Template): Template {
    if |merged.exampleVars| >= MAX_EXAMPLES || !rules.goExampleLine(t.pattern) then merged
    else merged.(exampleVars := merged.exampleVars + [[EffectiveText(t)]])
  }

  /** The severity a family's merges start from. */
  function SeedSeverity(family: Family): string {
    if family.GoStack? then CRITICAL else ERROR
  }

  /** The empty merge of a group: no count yet, the first member's range, the family's severity. */
  function Seed(family: Family, first: Template): Template {
    Template("", if family.GoStack? then GO_PATTERN else "", SeedSeverity(family),
             0, first.firstSeen, first.lastSeen, [], "")
  }

  /** The merge of the first n members, before its pattern, examples and id are settled. */
  function MergedUpTo(rules: Rules, family: Family, group: seq<Template>, n: nat): Template
    requires 0 < |group| && n <= |group|
  {
    if n == 0 then Seed(family, group[0])
    else
      var m := AbsorbInto(MergedUpTo(rules, family, group, n - 1), group[n - 1]);
      if family.GoStack? then CollectGoExample(rules, m, group[n - 1]) else m
  }

  /** A text names a traceback or an exception class, unless an earlier one did. */
  function NoteEvidence(rules: Rules, t: Template, evidence: (string, string)): (string, string) {
    var text := EffectiveText(t);
    (if evidence.0 == "" && Contains(text, "Traceback") then text else evidence.0,
     if evidence.1 == "" && rules.pythonException(text) then text else evidence.1)
  }

  /** The first member text naming a traceback and the first naming an exception class; empty for none. */
  function Evidence(rules: Rules, group: seq<Template>, n: nat): (string, string)
    requires n <= |group|
  {
    if n == 0 then ("", "") else NoteEvidence(rules, group[n - 1], Evidence(rules, group, n - 1))
  }

  function PythonPattern(header: string, exception: string): string {
    if header != "" then
      "Python exception: " + (if |header| > HEADER_LIMIT then header[..HEADER_LIMIT - 3] + "..." else header)
    else if exception != "" then "Python exception: " + exception
    else "Python traceback"
  }

  function PythonExamples(header: string, exception: string, first: Template): seq<seq<string>> {
    var examples := (if header != "" then [[header]] else [])
      + (if exception != "" && exception != header then [[exception]] else []);
    if |examples| == 0 && |first.exampleVars| > 0 then [first.exampleVars[0]] else examples
  }

  function FallbackExample(t: Template): seq<string> {
    if |t.exampleVars| > 0 then t.exampleVars[0] else [t.pattern]
  }

  function FinishGo(rules: Rules, m: Template, first: Template): Template {
    Finish(rules, if |m.exampleVars| == 0 then m.(exampleVars := [FallbackExample(first)]) else m)
  }

  function FinishPython(rules: Rules, m: Template, evidence: (string, string), first: Template): Template {
    Finish(rules, m.(pattern := PythonPattern(evidence.0, evidence.1),
      exampleVars := PythonExamples(evidence.0, evidence.1, first)))
  }

  /** One group merged into one template. */
  function Merge(rules: Rules, family: Family, group: seq<Template>): Template
    requires 0 < |group|
  {
    var m := MergedUpTo(rules, family, group, |group|);
    match family
    case GoStack => FinishGo(rules, m, group[0])
    case PythonTraceback => FinishPython(rules, m, Evidence(rules, group, |group|), group[0])
  }

  // ---- grouping in time --------------------------------------------------

  /**
    Splits a list into runs: a template joins the run of its predecessor when it starts within the window of
    its end.
   */
  function GroupByTime(sorted: seq<Template>, window: int): (groups: seq<seq<Template>>)
    ensures |sorted| != 0 ==> |groups| != 0
    ensures forall i | 0 <= i < |groups| :: |groups[i]| != 0
  {
    if |sorted| == 0 then []
    else
      var n := |sorted| - 1;
      var groups := GroupByTime(sorted[..n], window);
      if n == 0 then [[sorted[0]]]
      else
        var current := groups[|groups| - 1];
        if sorted[n].firstSeen - current[|current| - 1].lastSeen <= window then
          groups[..|groups| - 1] + [current + [sorted[n]]]
        else
          groups + [[sorted[n]]]
  }

  function Flatten(groups: seq<seq<Template>>): seq<Template> {
    if |groups| == 0 then [] else Flatten(groups[..|groups| - 1]) + groups[|groups| - 1]
  }

  // ---- folding equal ids -------------------------------------------------

  function Find(ts: seq<Template>, id: string): (i: Option<nat>)
    ensures i.None? ==> forall k | 0 <= k < |ts| :: ts[k].id != id
    ensures i.Some? ==> i.value < |ts| && ts[i.value].id == id
  {
    if |ts| == 0 then None
    else if ts[|ts| - 1].id == id then Some(|ts| - 1)
    else Find(ts[..|ts| - 1], id)
  }

  function FoldIn(rules: Rules, kept: seq<Template>, t: Template): seq<Template> {
    var at := Find(kept, t.id);
    if at.None? then kept + [t]
    else
      var m := AbsorbInto(kept[at.value], t);
      kept[at.value := m.(alias := rules.alias(m.pattern, m.severity))]
  }

  /** The first template of each id keeps the later ones' aggregates. */
  function Dedupe(rules: Rules, ts: seq<Template>): seq<Template> {
    if |ts| == 0 then [] else FoldIn(rules, Dedupe(rules, ts[..|ts| - 1]), ts[|ts| - 1])
  }

  // ---- one consolidator --------------------------------------------------

  datatype Outcome = Outcome(templates: seq<Template>, absorptions: seq<Absorption>)

  function IdsOf(ts: seq<Template>): (ids: seq<string>)
    ensures |ids| == |ts|
  {
    seq(|ts|, i requires 0 <= i < |ts| => ts[i].id)
  }

  /** Small groups pass through; larger ones are replaced by their merge, which absorbs them. */
  function MergeGroups(rules: Rules, family: Family, normal: seq<Template>, groups: seq<seq<Template>>): Outcome
    requires forall i | 0 <= i < |groups| :: |groups[i]| != 0
  {
    if |groups| == 0 then Outcome(normal, [])
    else
      var n := |groups| - 1;
      var sofar := MergeGroups(rules, family, normal, groups[..n]);
      if |groups[n]| < MIN_GROUP then Outcome(sofar.templates + groups[n], sofar.absorptions)
      else
        var merged := Merge(rules, family, groups[n]);
        Outcome(sofar.templates + [merged], sofar.absorptions + [Absorption(merged.id, IdsOf(groups[n]))])
  }

  function Candidates(rules: Rules, family: Family, ts: seq<Template>): seq<Template> {
    Select(rules, family, ts, Header) + Select(rules, family, ts, Fragment)
  }

  predicate TooFew(rules: Rules, family: Family, ts: seq<Template>) {
    |Select(rules, family, ts, Fragment)| < MIN_GROUP && |Select(rules, family, ts, Header)| == 0
  }

  function LastSeenOf(t: Template): int {
    t.lastSeen
  }

  function Groups(rules: Rules, family: Family, ts: seq<Template>): (groups: seq<seq<Template>>)
    ensures forall i | 0 <= i < |groups| :: |groups[i]| != 0
  {
    GroupByTime(SortStable(Candidates(rules, family, ts), LastSeenOf), Window(family))
  }

  /** What one consolidator makes of the templates. */
  function Consolidate(rules: Rules, family: Family, ts: seq<Template>): Outcome {
    if TooFew(rules, family, ts) then Outcome(ts, [])
    else
      var merged := MergeGroups(rules, family, Select(rules, family, ts, Normal), Groups(rules, family, ts));
      Outcome(Dedupe(rules, merged.templates), merged.absorptions)
  }

  // ---- the absorption relation -------------------------------------------

  function Assign(h: map<string, string>, fragments: seq<string>, survivor: string): map<string, string> {
    if |fragments| == 0 then h
    else Assign(h, fragments[..|fragments| - 1], survivor)[fragments[|fragments| - 1] := survivor]
  }

  /** The absorptions as a map from fragment id to survivor id, later absorptions overriding. */
  function Record(h: map<string, string>, absorptions: seq<Absorption>): map<string, string> {
    if |absorptions| == 0 then h
    else
      var a := absorptions[|absorptions| - 1];
      Assign(Record(h, absorptions[..|absorptions| - 1]), a.fragments, a.survivor)
  }

  /** Where an id leads: to its absorber, or to itself. */
  function Follow(h: map<string, string>, id: string): string {
    if id in h then h[id] else id
  }
}
