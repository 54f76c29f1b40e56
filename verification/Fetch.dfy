/** Walking the log groups under an entry bound, against a server that pages as it pleases. */
module Fetch {

  import opened Wrappers
  import opened Strings
  import opened Model

  // ---- what the collector is asked, and what CloudWatch answers ----------

  datatype Params = Params(logGroups: seq<string>, filterPattern: string, textFilter: string, severityMin: string,
    maxEntries: Option<int>)

  /** The two time bounds; ZERO_TIME when unset. */
  datatype TimeWindow = TimeWindow(start: Instant, end: Instant)

  datatype Event = Event(timestampMs: Option<int>, logStream: Option<string>, message: string)

  /** What a request selects, apart from where its page starts and how much it may hold. */
  datatype Query = Query(group: string, startMs: Option<int>, endMs: Option<int>, pattern: Option<string>)

  datatype Request = Request(query: Query, token: Option<string>, limit: int)

  datatype Page = Page(events: seq<Event>, next: Option<string>)

  datatype FetchError = Unavailable(group: string) | NoTimestamp(group: string)

  type Server = Request -> Result<Page, string>

  /** Turns an event's text into a message and a severity. */
  type Parser = string -> (string, string)

  /** Why a walk is incomplete. */
  datatype Reason = Complete | SpentBefore(bound: int, group: string) | ReachedIn(bound: int, group: string)

  datatype FetchResult = FetchResult(entries: seq<LogEntry>, truncated: bool, reason: Reason)

  /** The request limit CloudWatch documents as its maximum. */
  const PAGE_LIMIT := 10000

  const MILLISECOND: int := 1_000_000

  /** Zero or less means unbounded. */
  function EntryBound(p: Params): int {
    if p.maxEntries.None? then 0 else p.maxEntries.value
  }

  // ---- one event ---------------------------------------------------------

  const STREAM_NAME_LIMIT := 60
  const STREAM_NAME_KEEP := 57

  function TruncateStreamName(name: string): string {
    if |name| > STREAM_NAME_LIMIT then name[..STREAM_NAME_KEEP] + "..." else name
  }

  /** What follows the last slash. */
  function LastSegment(s: string): string {
    if |s| == 0 || s[|s| - 1] == '/' then "" else LastSegment(s[..|s| - 1]) + [s[|s| - 1]]
  }

  function EntryLabels(event: Event, group: string): map<string, string> {
    var labels := map["log_group" := group, "service" := LastSegment(group)];
    if event.logStream.Some? then labels["log_stream" := TruncateStreamName(event.logStream.value)] else labels
  }

  /** One event as a log entry; an event with no timestamp is an error. */
  function NormalizeEntry(parse: Parser, event: Event, group: string): Result<LogEntry, FetchError> {
    if event.timestampMs.None? then Failure(NoTimestamp(group))
    else
      var (message, severity) := parse(event.message);
      Success(LogEntry(event.timestampMs.value * MILLISECOND, severity, message, EntryLabels(event, group)))
  }

  /** The two filters CloudWatch cannot apply. */
  predicate KeepEntry(entry: LogEntry, p: Params) {
    && (p.textFilter == "" || Contains(ToLower(entry.message), ToLower(p.textFilter)))
    && (p.severityMin == "" || SeverityIndex(entry.severity) >= SeverityIndex(p.severityMin))
  }

  /**
    The entries a collect keeps of a list of events, in order. An event without a timestamp yields none;
    reading one is an error.
   */
  function Kept(parse: Parser, p: Params, group: string, events: seq<Event>): seq<LogEntry> {
    if |events| == 0 then []
    else
      var entry := NormalizeEntry(parse, events[|events| - 1], group);
      Kept(parse, p, group, events[..|events| - 1])
        + if entry.Success? && KeepEntry(entry.value, p) then [entry.value] else []
  }

  lemma {:induction false} KeptConcat(parse: Parser, p: Params, group: string, a: seq<Event>, b: seq<Event>)
    ensures Kept(parse, p, group, a + b) == Kept(parse, p, group, a) + Kept(parse, p, group, b)
  {
    if |b| == 0 {
      assert a + b == a;
    } else {
      assert (a + b)[..|a + b| - 1] == a + b[..|b| - 1];
      KeptConcat(parse, p, group, a, b[..|b| - 1]);
    }
  }

  predicate AllTimed(events: seq<Event>) {
    forall e | e in events :: e.timestampMs.Some?
  }

  method KeptEntries(parse: Parser, events: seq<Event>, group: string, p: Params)
    returns (r: Result<seq<LogEntry>, FetchError>)
    ensures r.Success? <==> AllTimed(events)
    ensures r.Success? ==> r.value == Kept(parse, p, group, events)
    ensures r.Failure? ==> r.error == NoTimestamp(group)
  {
    var out := [];
    for i := 0 to |events|
      invariant out == Kept(parse, p, group, events[..i]) && AllTimed(events[..i])
    {
      assert events[..i + 1][..i] == events[..i];
      var entry := NormalizeEntry(parse, events[i], group);
      if entry.Failure? {
        assert events[i] in events;
        return Failure(entry.error);
      }
      if KeepEntry(entry.value, p) {
        out := out + [entry.value];
      }
    }
    assert events[..|events|] == events;
    return Success(out);
  }

  // ---- the server --------------------------------------------------------

  /**
    What lies behind a server: the events each query selects, in order; where each cursor points; and
    how many more pages a chain of cursors can have.
   */
  datatype Source = Source(contents: Query -> seq<Event>, at: (Query, string) -> nat,
    rank: (Query, Option<string>) -> nat)

  function Position(src: Source, query: Query, token: Option<string>): nat {
    if token.None? then 0 else src.at(query, token.value)
  }

  /** A request CloudWatch accepts: a sane page limit, and a cursor that points into the query's events. */
  ghost predicate Legal(src: Source, r: Request) {
    1 <= r.limit <= PAGE_LIMIT && Position(src, r.query, r.token) <= |src.contents(r.query)|
  }

  /**
    A page continues where the request points, holds at most the limit, possibly nothing, and names
    where to go on; only the end of the events may end the chain, and the chain is finite.
   */
  ghost predicate Answers(src: Source, r: Request, page: Page) {
    var here, all := Position(src, r.query, r.token), src.contents(r.query);
    && |page.events| <= r.limit
    && here + |page.events| <= |all|
    && page.events == all[here..here + |page.events|]
    && (page.next.None? ==> here + |page.events| == |all|)
    && (page.next.Some? ==>
          src.at(r.query, page.next.value) == here + |page.events|
          && src.rank(r.query, page.next) < src.rank(r.query, r.token))
  }

  /** Whatever page sizes the server chooses, its successful answers to legal requests page through the source. */
  ghost predicate Honest(serve: Server, src: Source) {
    forall r: Request | Legal(src, r) && serve(r).Success? :: Answers(src, r, serve(r).value)
  }

  /** No legal request fails, and every event carries its timestamp. */
  ghost predicate Flawless(serve: Server, src: Source) {
    (forall r: Request | Legal(src, r) :: serve(r).Success?) && forall q :: AllTimed(src.contents(q))
  }

  // ---- requests ----------------------------------------------------------

  /** Go's conversion of an int to an int32: it keeps the low 32 bits. */
  function ToInt32(n: int): int {
    (n + 0x8000_0000) % 0x1_0000_0000 - 0x8000_0000
  }

  function UnixMilli(t: Instant): int {
    t / MILLISECOND
  }

  function QueryFor(group: string, p: Params, w: TimeWindow): Query {
    Query(group, if w.start == ZERO_TIME then None else Some(UnixMilli(w.start)),
          if w.end == ZERO_TIME then None else Some(UnixMilli(w.end)),
          if p.filterPattern == "" then None else Some(p.filterPattern))
  }

  /** The first request for a group: a page, or what is left of the bound when that is less, however large the bound. */
  function BuildFilterInput(group: string, p: Params, w: TimeWindow, remaining: int): (r: Request)
    ensures 1 <= r.limit <= PAGE_LIMIT
    ensures remaining > 0 ==> r.limit <= remaining
    ensures remaining <= 0 || remaining >= PAGE_LIMIT ==> r.limit == PAGE_LIMIT
    ensures r.query == QueryFor(group, p, w) && r.token.None?
  {
    Request(QueryFor(group, p, w), None, if 0 < remaining < PAGE_LIMIT then ToInt32(remaining) else ToInt32(PAGE_LIMIT))
  }

  /** Narrowing before comparing would ask for a negative page: three billion entries wrap. */
  lemma NarrowingFirstWraps()
    ensures ToInt32(3_000_000_000) < 0
  {
  }

  // ---- asking whether the source held more -------------------------------

  /** What this collect would keep of a group. */
  function KeptOf(parse: Parser, src: Source, p: Params, w: TimeWindow, group: string): seq<LogEntry> {
    Kept(parse, p, group, src.contents(QueryFor(group, p, w)))
  }

  /** What it would keep of the groups from i on. */
  function KeptFrom(parse: Parser, src: Source, p: Params, w: TimeWindow, groups: seq<string>): seq<LogEntry> {
    if |groups| == 0 then [] else KeptOf(parse, src, p, w, groups[0]) + KeptFrom(parse, src, p, w, groups[1..])
  }

  lemma KeptStep(parse: Parser, p: Params, group: string, all: seq<Event>, here: nat, there: nat)
    requires here <= there <= |all|
    ensures Kept(parse, p, group, all[here..]) == Kept(parse, p, group, all[here..there])
      + Kept(parse, p, group, all[there..])
    ensures Kept(parse, p, group, all[..there]) == Kept(parse, p, group, all[..here])
      + Kept(parse, p, group, all[here..there])
  {
    assert Kept(parse, p, group, all[here..]) == Kept(parse, p, group, all[here..there])
      + Kept(parse, p, group, all[there..]) by {
      KeptConcat(parse, p, group, all[here..there], all[there..]);
      assert all[here..] == all[here..there] + all[there..];
    }
    assert Kept(parse, p, group, all[..there]) == Kept(parse, p, group, all[..here])
      + Kept(parse, p, group, all[here..there]) by {
      KeptConcat(parse, p, group, all[..here], all[here..there]);
      assert all[..there] == all[..here] + all[here..there];
    }
  }

  /**
    One page, read and filtered: from here to there. Fails only for a server that fails a legal request
    or an event without a timestamp.
   */
  method ReadPage(serve: Server, parse: Parser, request: Request, group: string, p: Params, ghost src: Source)
    returns (r: Result<(seq<LogEntry>, Option<string>), FetchError>, ghost there: nat)
    requires Honest(serve, src) && Legal(src, request)
    ensures r.Failure? ==> !Flawless(serve, src)
    ensures r.Success? ==>
      var here, all := Position(src, request.query, request.token), src.contents(request.query);
      && here <= there <= |all|
      && there <= here + request.limit
      && r.value.0 == Kept(parse, p, group, all[here..there])
      && (if r.value.1.None? then there == |all|
          else
            src.at(request.query, r.value.1.value) == there
            && src.rank(request.query, r.value.1) < src.rank(request.query, request.token))
  {
    var page := serve(request);
    if page.Failure? {
      return Failure(Unavailable(group)), 0;
    }
    assert Answers(src, request, page.value);
    there := Position(src, request.query, request.token) + |page.value.events|;
    var kept := KeptEntries(parse, page.value.events, group, p);
    if kept.Failure? {
      assert exists e :: e in page.value.events && e.timestampMs.None? && e in src.contents(request.query);
      return Failure(kept.error), there;
    }
    return Success((kept.value, page.value.next)), there;
  }

  /** Whether the cursor, which points at here, still leads to an entry this collect would have kept. */
  method CursorHoldsAnEntry(serve: Server, parse: Parser, input: Request, token: Option<string>, group: string,
        p: Params, ghost src: Source, ghost here: nat)
    returns (r: Result<bool, FetchError>)
    requires Honest(serve, src) && here <= |src.contents(input.query)|
    requires if token.None? then here == |src.contents(input.query)| else src.at(input.query, token.value) == here
    ensures r.Failure? ==> !Flawless(serve, src)
    ensures r.Success? ==> (r.value <==> Kept(parse, p, group, src.contents(input.query)[here..]) != [])
  {
    ghost var all, pos := src.contents(input.query), here;
    var token := token;
    while token.Some?
      invariant here <= pos <= |all|
      invariant if token.None? then pos == |all| else src.at(input.query, token.value) == pos
      invariant Kept(parse, p, group, all[here..]) == Kept(parse, p, group, all[pos..])
      decreases token.Some?, src.rank(input.query, token)
    {
      var probe := input.(token := token, limit := 1);
      var page; ghost var there;
      page, there := ReadPage(serve, parse, probe, group, p, src);
      if page.Failure? {
        return Failure(page.error);
      }
      KeptStep(parse, p, group, all, pos, there);
      if |page.value.0| > 0 {
        return Success(true);
      }
      token, pos := page.value.1, there;
    }
    return Success(false);
  }

  /** Whether one group holds an entry this collect would have kept. */
  method GroupHasEntry(serve: Server, parse: Parser, group: string, p: Params, w: TimeWindow, ghost src: Source)
    returns (r: Result<bool, FetchError>)
    requires Honest(serve, src)
    ensures r.Failure? ==> !Flawless(serve, src)
    ensures r.Success? ==> (r.value <==> KeptOf(parse, src, p, w, group) != [])
  {
    var input := BuildFilterInput(group, p, w, 1);
    ghost var all, pos := src.contents(input.query), 0;
    assert all[0..] == all;
    while true
      invariant Legal(src, input) && input.query == QueryFor(group, p, w)
        && pos == Position(src, input.query, input.token)
      invariant Kept(parse, p, group, all) == Kept(parse, p, group, all[pos..])
      decreases src.rank(input.query, input.token)
    {
      var page; ghost var there;
      page, there := ReadPage(serve, parse, input, group, p, src);
      if page.Failure? {
        return Failure(page.error);
      }
      KeptStep(parse, p, group, all, pos, there);
      if |page.value.0| > 0 {
        return Success(true);
      }
      if page.value.1.None? {
        return Success(false);
      }
      input, pos := input.(token := page.value.1), there;
    }
  }

  /** Whether any of the named groups holds an entry this collect would have kept. */
  method AnyGroupHasEntry(serve: Server, parse: Parser, groups: seq<string>, p: Params, w: TimeWindow,
        ghost src: Source)
    returns (r: Result<bool, FetchError>)
    requires Honest(serve, src)
    ensures r.Failure? ==> !Flawless(serve, src)
    ensures r.Success? ==> (r.value <==> KeptFrom(parse, src, p, w, groups) != [])
  {
    for i := 0 to |groups|
      invariant KeptFrom(parse, src, p, w, groups) == KeptFrom(parse, src, p, w, groups[i..])
    {
      var more := GroupHasEntry(serve, parse, groups[i], p, w, src);
      if more.Failure? {
        return Failure(more.error);
      }
      if more.value {
        return Success(true);
      }
      assert groups[i..][1..] == groups[i + 1..];
    }
    return Success(false);
  }

  // ---- one group ---------------------------------------------------------

  /** The first n of s; all of it when n is not positive. */
  function Clip<T>(s: seq<T>, n: int): seq<T> {
    if 0 < n < |s| then s[..n] else s
  }

  /** What an error-free walk that may take n entries returns of the entries a source holds. */
  ghost predicate ExactPrefix(out: FetchResult, held: seq<LogEntry>, n: int) {
    && out.entries == Clip(held, n)
    && (out.truncated <==> 0 < n < |held|)
    && (out.truncated <==> !out.reason.Complete?)
  }

  /** Ends the walk of a group at its budget: keeps what still fits, and observes whether the group held more. */
  method CloseAtBudget(serve: Server, parse: Parser, input: Request, next: Option<string>, out: seq<LogEntry>,
        kept: seq<LogEntry>, remaining: int, group: string, p: Params, ghost src: Source, ghost there: nat)
    returns (r: Result<FetchResult, FetchError>)
    requires Honest(serve, src) && there <= |src.contents(input.query)|
    requires if next.None? then there == |src.contents(input.query)| else src.at(input.query, next.value) == there
    requires |out| < remaining <= |out| + |kept|
    requires out + kept == Kept(parse, p, group, src.contents(input.query)[..there])
    ensures r.Failure? ==> !Flawless(serve, src)
    ensures r.Success? ==> ExactPrefix(r.value, Kept(parse, p, group, src.contents(input.query)), remaining)
    ensures r.Success? ==> r.value.reason in {Complete, ReachedIn(EntryBound(p), group)}
  {
    var take := remaining - |out|;
    var entries := out + kept[..take];
    ghost var all := src.contents(input.query);
    KeptStep(parse, p, group, all, there, |all|);
    assert all[..|all|] == all && all[there..|all|] == all[there..];
    var more := |kept| > take;
    if !more {
      var held := CursorHoldsAnEntry(serve, parse, input, next, group, p, src, there);
      if held.Failure? {
        return Failure(held.error);
      }
      more := held.value;
    }
    return Success(FetchResult(entries, more, if more then ReachedIn(EntryBound(p), group) else Complete));
  }

  /**
    Pages one group: an error-free walk returns exactly the first entries the collect keeps, and is
    truncated exactly when a further one exists.
   */
  method FetchGroup(serve: Server, parse: Parser, group: string, p: Params, w: TimeWindow, remaining: int,
        ghost src: Source)
    returns (r: Result<FetchResult, FetchError>)
    requires Honest(serve, src)
    ensures r.Failure? ==> !Flawless(serve, src)
    ensures r.Success? ==> ExactPrefix(r.value, KeptOf(parse, src, p, w, group), remaining)
    ensures r.Success? ==> r.value.reason in {Complete, ReachedIn(EntryBound(p), group)}
  {
    var input := BuildFilterInput(group, p, w, remaining);
    var out: seq<LogEntry> := [];
    ghost var all, pos := src.contents(input.query), 0;
    while true
      invariant Legal(src, input) && input.query == QueryFor(group, p, w)
        && pos == Position(src, input.query, input.token)
      invariant out == Kept(parse, p, group, all[..pos]) && (remaining > 0 ==> |out| < remaining)
      decreases src.rank(input.query, input.token)
    {
      var page; ghost var there;
      page, there := ReadPage(serve, parse, input, group, p, src);
      if page.Failure? {
        return Failure(page.error);
      }
      KeptStep(parse, p, group, all, pos, there);
      var (kept, next) := page.value;
      if remaining > 0 && |out| + |kept| >= remaining {
        r := CloseAtBudget(serve, parse, input, next, out, kept, remaining, group, p, src, there);
        return;
      }
      out := out + kept;
      if next.None? {
        assert all[..|all|] == all;
        return Success(FetchResult(out, false, Complete));
      }
      input, pos := input.(token := next), there;
    }
  }

  // ---- every group -------------------------------------------------------

  lemma {:induction false} KeptFromSplit(parse: Parser, src: Source, p: Params, w: TimeWindow, groups: seq<string>,
        i: nat)
    requires i <= |groups|
    ensures KeptFrom(parse, src, p, w, groups) == KeptFrom(parse, src, p, w, groups[..i])
      + KeptFrom(parse, src, p, w, groups[i..])
    decreases i
  {
    if i == 0 {
      assert groups[0..] == groups;
    } else {
      KeptFromSplit(parse, src, p, w, groups[1..], i - 1);
      assert groups[..i][1..] == groups[1..][..i - 1];
      assert groups[1..][i - 1..] == groups[i..];
      assert groups[..i][0] == groups[0];
    }
  }

  lemma KeptFromNext(parse: Parser, src: Source, p: Params, w: TimeWindow, groups: seq<string>, i: nat)
    requires i < |groups|
    ensures KeptFrom(parse, src, p, w, groups[..i + 1]) == KeptFrom(parse, src, p, w, groups[..i])
      + KeptOf(parse, src, p, w, groups[i])
  {
    KeptFromSplit(parse, src, p, w, groups[..i + 1], i);
    assert groups[..i + 1][..i] == groups[..i];
    assert groups[..i + 1][i..] == [groups[i]];
    assert KeptFrom(parse, src, p, w, [groups[i]][1..]) == [];
  }

  /**
    The reason names the first group left unread. Some group from there on holds an entry; it need not
    be the one named.
   */
  ghost predicate SpentAt(parse: Parser, src: Source, p: Params, w: TimeWindow, i: nat, reason: Reason) {
    && i < |p.logGroups| && reason == SpentBefore(EntryBound(p), p.logGroups[i])
    && |KeptFrom(parse, src, p, w, p.logGroups[..i])| == EntryBound(p)
    && KeptFrom(parse, src, p, w, p.logGroups[i..]) != []
  }

  /**
    Paging exactness: for any server page sizes, empty pages and list of groups, an error-free walk
    returns exactly the first max_entries kept entries of the groups taken together, all of them when
    unbounded, and is truncated exactly when a further kept entry exists. A server that fails no legal
    request, over events that all carry timestamps, makes the walk error-free.
   */
  method FetchAll(serve: Server, parse: Parser, p: Params, w: TimeWindow, ghost src: Source)
    returns (r: Result<FetchResult, FetchError>)
    requires Honest(serve, src)
    ensures r.Success? ==> ExactPrefix(r.value, KeptFrom(parse, src, p, w, p.logGroups), EntryBound(p))
    ensures r.Success? ==>
      var held := KeptFrom(parse, src, p, w, p.logGroups);
      if p.maxEntries.Some? && 0 < p.maxEntries.value < |held| then
        r.value.entries == held[..p.maxEntries.value] && r.value.truncated
      else
        r.value.entries == held && !r.value.truncated
    ensures r.Failure? ==> !Flawless(serve, src)
    ensures r.Success? && r.value.reason.SpentBefore? ==> exists i: nat :: SpentAt(parse, src, p, w, i, r.value.reason)
  {
    var bound, groups := EntryBound(p), p.logGroups;
    var entries: seq<LogEntry> := [];
    for i := 0 to |groups|
      invariant entries == KeptFrom(parse, src, p, w, groups[..i]) && (bound > 0 ==> |entries| <= bound)
    {
      KeptFromSplit(parse, src, p, w, groups, i);
      if bound > 0 && |entries| >= bound {
        var more := AnyGroupHasEntry(serve, parse, groups[i..], p, w, src);
        if more.Failure? {
          return Failure(more.error);
        }
        assert more.value ==> SpentAt(parse, src, p, w, i, SpentBefore(bound, groups[i]));
        return Success(FetchResult(entries, more.value,
          if more.value then SpentBefore(bound, groups[i]) else Complete));
      }
      var remaining := if bound > 0 then bound - |entries| else 0;
      var group := FetchGroup(serve, parse, groups[i], p, w, remaining, src);
      if group.Failure? {
        return Failure(group.error);
      }
      KeptFromNext(parse, src, p, w, groups, i);
      KeptFromSplit(parse, src, p, w, groups, i + 1);
      entries := entries + group.value.entries;
      if group.value.truncated {
        return Success(FetchResult(entries, true, group.value.reason));
      }
    }
    assert groups[..|groups|] == groups;
    return Success(FetchResult(entries, false, Complete));
  }
}
