/** The objects the stages share: a template is mutated in place and read through every pointer to it. */
module Templates {

  import opened Model

  class LogTemplate {
    var id: string
    var pattern: string
    var severity: string
    var count: int
    var firstSeen: Instant
    var lastSeen: Instant
    var exampleVars: seq<seq<string>>
    var alias: string

    constructor (t: Template)
      ensures Value() == t
    {
      id, pattern, severity, count := t.id, t.pattern, t.severity, t.count;
      firstSeen, lastSeen, exampleVars, alias := t.firstSeen, t.lastSeen, t.exampleVars, t.alias;
    }

    function Value(): Template
      reads this
    {
      Template(id, pattern, severity, count, firstSeen, lastSeen, exampleVars, alias)
    }
  }

  /** The values behind a list of templates. */
  function Values(ts: seq<LogTemplate>): (vs: seq<Template>)
    reads ts
    ensures |vs| == |ts|
  {
    seq(|ts|, i requires 0 <= i < |ts| reads ts => ts[i].Value())
  }

  /** The templates hold these values. */
  ghost predicate Hold(ts: seq<LogTemplate>, vs: seq<Template>)
    reads ts
  {
    |ts| == |vs| && forall i | 0 <= i < |ts| :: ts[i].Value() == vs[i]
  }

  predicate Unaliased(ts: seq<LogTemplate>) {
    forall i, j | 0 <= i < j < |ts| :: ts[i] != ts[j]
  }
}
