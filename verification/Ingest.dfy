/** What the later stages assume of their entries, established where the entries come from. */
module Ingest {

  import opened Model
  import opened Fetch
  import opened Normalize
  import opened Ranges
  import Streams

  /** The source's own reading of a line. */
  function ParserOf(rd: Reader): Parser {
    line => ParseLogMessage(rd, line)
  }

  /** No event carries Go's zero time. */
  predicate RealTimes(events: seq<Event>) {
    forall e | e in events && e.timestampMs.Some? :: e.timestampMs.value * MILLISECOND != ZERO_TIME
  }

  /** Kept entries carry a time and a canonical level, which is what exact ranges need. */
  lemma {:induction false} KeptEntriesAreWellFormed(rd: Reader, p: Params, group: string, events: seq<Event>)
    requires CanonicalReader(rd) && RealTimes(events)
    ensures WellFormed(Kept(ParserOf(rd), p, group, events))
  {
    if |events| != 0 {
      var front, e := events[..|events| - 1], events[|events| - 1];
      assert events == front + [e];
      assert e in events;
      KeptEntriesAreWellFormed(rd, p, group, front);
      SeveritiesAreCanonical(rd, e.message);
    }
  }

  lemma {:induction false} SegmentHasNone(s: string, c: char)
    requires c !in s
    ensures c !in LastSegment(s)
  {
    if |s| != 0 && s[|s| - 1] != '/' {
      assert s == s[..|s| - 1] + [s[|s| - 1]];
      SegmentHasNone(s[..|s| - 1], c);
    }
  }

  lemma TruncationHasNone(name: string, c: char)
    requires c !in name && c != '.'
    ensures c !in TruncateStreamName(name)
  {
    assert forall x | x in name[..if |name| > STREAM_NAME_LIMIT then STREAM_NAME_KEEP else 0] :: x in name;
  }

  /** One line in a name is all that clean labels take: the keys are fixed and hold no '='. */
  lemma LabelsAreClean(event: Event, group: string)
    requires '\n' !in group && (event.logStream.Some? ==> '\n' !in event.logStream.value)
    ensures Streams.Clean(EntryLabels(event, group))
  {
    SegmentHasNone(group, '\n');
    if event.logStream.Some? {
      TruncationHasNone(event.logStream.value, '\n');
    }
    assert '=' !in "log_group" && '=' !in "service" && '=' !in "log_stream";
  }

  /** Kept entries have clean labels, which is what exact stream identity needs. */
  lemma {:induction false} KeptLabelsAreClean(rd: Reader, p: Params, group: string, events: seq<Event>)
    requires '\n' !in group && forall e | e in events && e.logStream.Some? :: '\n' !in e.logStream.value
    ensures Streams.AllClean(Kept(ParserOf(rd), p, group, events))
  {
    if |events| != 0 {
      var front, e := events[..|events| - 1], events[|events| - 1];
      assert events == front + [e];
      assert e in events;
      KeptLabelsAreClean(rd, p, group, front);
      LabelsAreClean(e, group);
    }
  }

  // ---- a whole walk ------------------------------------------------------

  /** No event of any query carries Go's zero time. */
  ghost predicate AllRealTimes(src: Source) {
    forall q :: RealTimes(src.contents(q))
  }

  /** Group and stream names are single lines. */
  ghost predicate PlainNames(src: Source, p: Params) {
    && (forall g | g in p.logGroups :: '\n' !in g)
    && forall q, e | e in src.contents(q) && e.logStream.Some? :: '\n' !in e.logStream.value
  }

  /** What an error-free walk over all the groups returns. */
  function Walked(rd: Reader, src: Source, p: Params, w: TimeWindow): seq<LogEntry> {
    Clip(KeptFrom(ParserOf(rd), src, p, w, p.logGroups), EntryBound(p))
  }

  /** Cutting a walk short drops entries and adds none. */
  lemma ClipKeeps<T>(s: seq<T>, n: int)
    ensures forall x | x in Clip(s, n) :: x in s
  {
  }

  lemma {:induction false} KeptFromGroups(parse: Parser, src: Source, p: Params, w: TimeWindow, groups: seq<string>,
        e: LogEntry)
    requires e in KeptFrom(parse, src, p, w, groups)
    ensures exists g :: g in groups && e in KeptOf(parse, src, p, w, g)
  {
    assert groups[0] in groups;
    if e !in KeptOf(parse, src, p, w, groups[0]) {
      KeptFromGroups(parse, src, p, w, groups[1..], e);
      var g :| g in groups[1..] && e in KeptOf(parse, src, p, w, g);
      assert g in groups;
    }
  }

  /** Whatever the paging, the bound and the filters: every entry of a walk carries a time and a canonical level. */
  lemma WalkIsWellFormed(rd: Reader, src: Source, p: Params, w: TimeWindow)
    requires CanonicalReader(rd) && AllRealTimes(src)
    ensures WellFormed(Walked(rd, src, p, w))
  {
    var parse := ParserOf(rd);
    ClipKeeps(KeptFrom(parse, src, p, w, p.logGroups), EntryBound(p));
    forall e | e in Walked(rd, src, p, w) ensures e.timestamp != ZERO_TIME && Canonical(e.severity) {
      KeptFromGroups(parse, src, p, w, p.logGroups, e);
      var g :| g in p.logGroups && e in KeptOf(parse, src, p, w, g);
      KeptEntriesAreWellFormed(rd, p, g, src.contents(QueryFor(g, p, w)));
    }
  }

  /** ... and a label set on which stream identity is exact. */
  lemma WalkIsClean(rd: Reader, src: Source, p: Params, w: TimeWindow)
    requires PlainNames(src, p)
    ensures Streams.AllClean(Walked(rd, src, p, w))
  {
    var parse := ParserOf(rd);
    ClipKeeps(KeptFrom(parse, src, p, w, p.logGroups), EntryBound(p));
    forall e | e in Walked(rd, src, p, w) ensures Streams.Clean(e.labels) {
      KeptFromGroups(parse, src, p, w, p.logGroups, e);
      var g :| g in p.logGroups && e in KeptOf(parse, src, p, w, g);
      KeptLabelsAreClean(rd, p, g, src.contents(QueryFor(g, p, w)));
    }
  }

  /** The only labels a walk writes. */
  const WALK_LABELS := {"log_group", "service", "log_stream"}

  lemma {:induction false} KeptLabelsAreKnown(rd: Reader, p: Params, group: string, events: seq<Event>)
    ensures forall e | e in Kept(ParserOf(rd), p, group, events) :: e.labels.Keys <= WALK_LABELS
  {
    if |events| != 0 {
      KeptLabelsAreKnown(rd, p, group, events[..|events| - 1]);
    }
  }

  /** ... and no label but a log group, its service and a log stream. */
  lemma WalkLabelsAreKnown(rd: Reader, src: Source, p: Params, w: TimeWindow)
    ensures forall e | e in Walked(rd, src, p, w) :: e.labels.Keys <= WALK_LABELS
  {
    var parse := ParserOf(rd);
    ClipKeeps(KeptFrom(parse, src, p, w, p.logGroups), EntryBound(p));
    forall e | e in Walked(rd, src, p, w) ensures e.labels.Keys <= WALK_LABELS {
      KeptFromGroups(parse, src, p, w, p.logGroups, e);
      var g :| g in p.logGroups && e in KeptOf(parse, src, p, w, g);
      KeptLabelsAreKnown(rd, p, g, src.contents(QueryFor(g, p, w)));
    }
  }
}
