/** What a walk keeps of the events it reads, and as what: the filters and labels, said of the entries themselves. */
module FetchFilters {

  import opened Wrappers
  import opened Counting
  import opened Strings
  import opened Model
  import opened Fetch

  // ---- what passes -------------------------------------------------------

  /** A severity stands at the position of its level; one that is no level stands with the first. */
  predicate Stands(severity: string, i: nat) {
    i < 6 && (severity == LEVELS[i] || (i == 0 && severity !in LEVELS))
  }

  lemma IndexIsStanding(severity: string, i: nat)
    requires Stands(severity, i)
    ensures SeverityIndex(severity) == i
  {
    assert LEVELS[0] == "TRACE" && LEVELS[1] == "DEBUG" && LEVELS[2] == "INFO";
    assert LEVELS[3] == "WARN" && LEVELS[4] == "ERROR" && LEVELS[5] == "CRITICAL";
  }

  lemma StandsSomewhere(severity: string) returns (i: nat)
    ensures Stands(severity, i)
  {
    if severity in LEVELS {
      i :| i < |LEVELS| && LEVELS[i] == severity;
    } else {
      i := 0;
    }
  }

  /** The message reads, at some place and in whatever case, as the text. */
  ghost predicate Mentions(message: string, text: string) {
    exists i, j :: 0 <= i <= j <= |message| && SameButCase(message[i..j], text)
  }

  ghost predicate AtLeast(severity: string, least: string) {
    exists i, j :: Stands(severity, i) && Stands(least, j) && i >= j
  }

  /** The event carries a timestamp and its message passes both filters; a filter that is not set lets all pass. */
  ghost predicate Passes(parse: Parser, p: Params, e: Event) {
    && e.timestampMs.Some?
    && (p.textFilter == "" || Mentions(parse(e.message).0, p.textFilter))
    && (p.severityMin == "" || AtLeast(parse(e.message).1, p.severityMin))
  }

  lemma MentionsIsContains(message: string, text: string)
    ensures Contains(ToLower(message), ToLower(text)) <==> Mentions(message, text)
  {
    var lowered, word := ToLower(message), ToLower(text);
    if Contains(lowered, word) {
      var i :| 0 <= i <= |lowered| && word <= lowered[i..];
      MentionsAt(message, text, i);
    }
    if Mentions(message, text) {
      var i, j :| 0 <= i <= j <= |message| && SameButCase(message[i..j], text);
      assert i + |text| == j;
      MentionsAt(message, text, i);
    }
  }

  lemma MentionsAt(message: string, text: string, i: nat)
    requires i + |text| <= |message|
    ensures ToLower(text) <= ToLower(message)[i..] <==> SameButCase(message[i..i + |text|], text)
  {
    var slice := message[i..i + |text|];
    LoweringForgetsCase(slice, text);
    assert ToLower(slice) == ToLower(message)[i..i + |text|];
    assert ToLower(message)[i..][..|text|] == ToLower(message)[i..i + |text|];
  }

  lemma AtLeastIsOrder(severity: string, least: string)
    ensures SeverityIndex(severity) >= SeverityIndex(least) <==> AtLeast(severity, least)
  {
    var i := StandsSomewhere(severity);
    var j := StandsSomewhere(least);
    IndexIsStanding(severity, i);
    IndexIsStanding(least, j);
    if AtLeast(severity, least) {
      var k, l :| Stands(severity, k) && Stands(least, l) && k >= l;
      IndexIsStanding(severity, k);
      IndexIsStanding(least, l);
    }
  }

  // ---- what is kept of it ------------------------------------------------

  /** s is what follows the last slash of a group's name. */
  ghost predicate IsService(group: string, s: string) {
    '/' !in s && (group == s || exists front :: group == front + "/" + s)
  }

  lemma {:induction false} SegmentIsService(group: string)
    ensures IsService(group, LastSegment(group))
  {
    if group != "" {
      var front, last := group[..|group| - 1], group[|group| - 1];
      assert group == front + [last];
      if last == '/' {
        assert group == front + "/" + "";
      } else {
        SegmentIsService(front);
        var s := LastSegment(front);
        if s != front {
          var path :| front == path + "/" + s;
          assert group == path + "/" + (s + [last]);
        }
      }
    }
  }

  /** The labels of an entry: its group, the group's last segment, and the stream's name, cut beyond 60 characters. */
  ghost predicate AreLabels(e: Event, group: string, labels: map<string, string>) {
    && labels.Keys == {"log_group", "service"} + (if e.logStream.Some? then {"log_stream"} else {})
    && labels["log_group"] == group && IsService(group, labels["service"])
    && (e.logStream.Some? ==>
          labels["log_stream"]
          == if |e.logStream.value| <= 60 then e.logStream.value else e.logStream.value[..57] + "...")
  }

  /** What the event says, as an entry: when, to the nanosecond, how badly, what, and from where. */
  ghost predicate Records(parse: Parser, group: string, e: Event, entry: LogEntry) {
    && e.timestampMs == Some(entry.timestamp / 1_000_000) && entry.timestamp % 1_000_000 == 0
    && parse(e.message) == (entry.message, entry.severity)
    && AreLabels(e, group, entry.labels)
  }

  lemma NormalizeRecords(parse: Parser, p: Params, group: string, e: Event)
    ensures NormalizeEntry(parse, e, group).Success? <==> e.timestampMs.Some?
    ensures e.timestampMs.Some? ==>
      var entry := NormalizeEntry(parse, e, group).value;
      Records(parse, group, e, entry) && (KeepEntry(entry, p) <==> Passes(parse, p, e))
  {
    if e.timestampMs.Some? {
      var entry := NormalizeEntry(parse, e, group).value;
      SegmentIsService(group);
      MentionsIsContains(entry.message, p.textFilter);
      AtLeastIsOrder(entry.severity, p.severityMin);
      TimeIsWhole(e.timestampMs.value);
    }
  }

  lemma TimeIsWhole(ms: int)
    ensures (ms * 1_000_000) / 1_000_000 == ms && (ms * 1_000_000) % 1_000_000 == 0
  {
  }

  // ---- the entries kept --------------------------------------------------

  /** Which of the first n events pass. */
  ghost function Passing(parse: Parser, p: Params, events: seq<Event>, n: nat): set<int>
    requires n <= |events|
  {
    set i | 0 <= i < n && Passes(parse, p, events[i])
  }

  /** One entry for each of the first n events that passes, in their order. */
  ghost predicate HoldsPassing(parse: Parser, p: Params, group: string, events: seq<Event>, n: nat,
      kept: seq<LogEntry>)
    requires n <= |events|
  {
    && |kept| == |Passing(parse, p, events, n)|
    && forall i | 0 <= i < n && Passes(parse, p, events[i]) ::
         var k := |Passing(parse, p, events, i)|;
         k < |kept| && Records(parse, group, events[i], kept[k])
  }

  lemma PassingIsCounted(parse: Parser, p: Params, events: seq<Event>, n: nat) returns (marks: seq<bool>)
    requires n <= |events|
    ensures |marks| == |events| && forall i | 0 <= i < |events| :: marks[i] == Passes(parse, p, events[i])
    ensures forall k: nat | k <= n :: Passing(parse, p, events, k) == Where(marks, k)
  {
    marks := seq(|events|, i requires 0 <= i < |events| => Passes(parse, p, events[i]));
  }

  lemma PassingNext(parse: Parser, p: Params, events: seq<Event>, n: nat)
    requires n < |events|
    ensures |Passing(parse, p, events, n + 1)|
      == |Passing(parse, p, events, n)| + if Passes(parse, p, events[n]) then 1 else 0
  {
    var marks := PassingIsCounted(parse, p, events, n + 1);
    WhereNext(marks, n);
  }

  lemma PassingGrows(parse: Parser, p: Params, events: seq<Event>, i: nat, n: nat)
    requires i < n <= |events| && Passes(parse, p, events[i])
    ensures |Passing(parse, p, events, i)| < |Passing(parse, p, events, n)|
  {
    var marks := PassingIsCounted(parse, p, events, n);
    WhereGrows(marks, i, n);
  }

  lemma HoldsNext(parse: Parser, p: Params, group: string, events: seq<Event>, n: nat, kept: seq<LogEntry>,
      more: seq<LogEntry>)
    requires n < |events| && HoldsPassing(parse, p, group, events, n, kept)
    requires if Passes(parse, p, events[n]) then |more| == 1 && Records(parse, group, events[n], more[0])
      else more == []
    ensures HoldsPassing(parse, p, group, events, n + 1, kept + more)
  {
    PassingNext(parse, p, events, n);
    forall i: nat | i < n && Passes(parse, p, events[i])
      ensures |Passing(parse, p, events, i)| < |Passing(parse, p, events, n)|
    {
      PassingGrows(parse, p, events, i, n);
    }
  }

  /** What one event adds: its entry when it passes. */
  function KeptOne(parse: Parser, p: Params, group: string, e: Event): seq<LogEntry> {
    var entry := NormalizeEntry(parse, e, group);
    if entry.Success? && KeepEntry(entry.value, p) then [entry.value] else []
  }

  lemma KeptNext(parse: Parser, p: Params, group: string, events: seq<Event>, n: nat)
    requires n < |events|
    ensures Kept(parse, p, group, events[..n + 1])
      == Kept(parse, p, group, events[..n]) + KeptOne(parse, p, group, events[n])
    ensures var more := KeptOne(parse, p, group, events[n]);
      if Passes(parse, p, events[n]) then |more| == 1 && Records(parse, group, events[n], more[0]) else more == []
  {
    assert events[..n + 1][..n] == events[..n] && events[..n + 1][n] == events[n];
    NormalizeRecords(parse, p, group, events[n]);
  }

  lemma {:induction false} KeptArePassingUpTo(parse: Parser, p: Params, group: string, events: seq<Event>, n: nat)
    requires n <= |events|
    ensures HoldsPassing(parse, p, group, events, n, Kept(parse, p, group, events[..n]))
  {
    if n == 0 {
      assert Passing(parse, p, events, n) == {};
    } else {
      KeptArePassingUpTo(parse, p, group, events, n - 1);
      KeptNext(parse, p, group, events, n - 1);
      var more := KeptOne(parse, p, group, events[n - 1]);
      HoldsNext(parse, p, group, events, n - 1, Kept(parse, p, group, events[..n - 1]), more);
    }
  }

  /**
    A collect keeps, in order, one entry for every event that passes, and nothing else: the k-th passing event is
    recorded by the k-th entry.
   */
  lemma KeptArePassing(parse: Parser, p: Params, group: string, events: seq<Event>)
    ensures HoldsPassing(parse, p, group, events, |events|, Kept(parse, p, group, events))
  {
    KeptArePassingUpTo(parse, p, group, events, |events|);
    assert events[..|events|] == events;
  }

  lemma {:induction false} KeptHolds(parse: Parser, p: Params, group: string, events: seq<Event>, entry: LogEntry)
    ensures entry in Kept(parse, p, group, events)
      <==> exists e :: e in events && NormalizeEntry(parse, e, group) == Success(entry) && KeepEntry(entry, p)
  {
    if events != [] {
      var front, last := events[..|events| - 1], events[|events| - 1];
      assert events == front + [last];
      KeptHolds(parse, p, group, front, entry);
    }
  }

  /**
    The filters one at a time, for an event with a timestamp that reads as the given entry. Under a minimum
    severity alone it is kept exactly when its level is no lower; under a text filter alone, exactly when a slice
    of its message is the text, case aside; under neither, always.
   */
  lemma FiltersKeep(parse: Parser, p: Params, group: string, events: seq<Event>, e: Event, i: nat, j: nat)
    requires e in events && e.timestampMs.Some? && i < 6 && j < 6
    ensures var (message, severity) := parse(e.message);
      var entry := LogEntry(e.timestampMs.value * 1_000_000, severity, message, EntryLabels(e, group));
      && (p.textFilter == "" && severity == LEVELS[i] && p.severityMin == LEVELS[j] ==>
            (entry in Kept(parse, p, group, events) <==> i >= j))
      && (p.textFilter != "" && p.severityMin == "" ==>
            (entry in Kept(parse, p, group, events)
             <==> exists a, b :: 0 <= a <= b <= |message| && SameButCase(message[a..b], p.textFilter)))
      && (p.textFilter == "" && p.severityMin == "" ==> entry in Kept(parse, p, group, events))
  {
    var (message, severity) := parse(e.message);
    var entry := LogEntry(e.timestampMs.value * 1_000_000, severity, message, EntryLabels(e, group));
    KeptHolds(parse, p, group, events, entry);
    assert NormalizeEntry(parse, e, group) == Success(entry);
    MentionsIsContains(message, p.textFilter);
    if severity == LEVELS[i] && p.severityMin == LEVELS[j] {
      IndexIsStanding(severity, i);
      IndexIsStanding(p.severityMin, j);
    }
  }

  // ---- the request -------------------------------------------------------

  lemma MillisecondsFloor(t: Instant, ms: int)
    ensures ms >= UnixMilli(t) <==> (ms + 1) * 1_000_000 > t
    ensures ms <= UnixMilli(t) <==> ms * 1_000_000 <= t
  {
  }

  /**
    A request selects by whole milliseconds: events of any millisecond that ends after the window's start and
    begins no later than its end. An unset bound, Go's zero time, and an empty pattern select nothing away.
   */
  lemma RequestCoversTheWindow(group: string, p: Params, w: TimeWindow, ms: int)
    ensures var q := QueryFor(group, p, w);
      && q.group == group
      && q.pattern == (if p.filterPattern == "" then None else Some(p.filterPattern))
      && ((q.startMs.Some? ==> ms >= q.startMs.value)
          <==> w.start == -62_135_596_800_000_000_000 || (ms + 1) * 1_000_000 > w.start)
      && ((q.endMs.Some? ==> ms <= q.endMs.value)
          <==> w.end == -62_135_596_800_000_000_000 || ms * 1_000_000 <= w.end)
  {
    MillisecondsFloor(w.start, ms);
    MillisecondsFloor(w.end, ms);
  }

  /** Narrowing keeps a value of 32 bits and moves any other by whole multiples of 2^32. */
  lemma NarrowingIsModular(n: int)
    ensures -0x8000_0000 <= ToInt32(n) < 0x8000_0000
    ensures (ToInt32(n) - n) % 0x1_0000_0000 == 0
    ensures ToInt32(n) == n <==> -0x8000_0000 <= n < 0x8000_0000
  {
  }
}
