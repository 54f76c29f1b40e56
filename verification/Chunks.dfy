/** Grouping entries into chunks: one per stream, template and five-minute window. */
module Chunks {

  import opened Wrappers
  import opened Strings
  import opened Model
  import opened Sorting
  import Pipeline

  /** The width of a chunk's time bucket: five minutes. */
  const WINDOW: int := 300 * SECOND

  datatype Key = Key(stream: string, template: string, window: Instant)

  datatype Chunk = Chunk(id: string, stream: string, template: string, start: Instant, end: Instant, content: string,
    entryCount: nat)

  /** The parts of a chunk kept abstract: the hash behind its id, and the rendering of an instant. */
  datatype Rendering = Rendering(chunkId: Key -> string, stamp: Instant -> string)

  // ---- windows -----------------------------------------------------------

  /** Go's integer division, which truncates toward zero. */
  function TruncatingDiv(a: int, b: int): int
    requires b > 0
  {
    if a >= 0 then a / b else -((-a) / b)
  }

  function WindowStart(ts: Instant): Instant {
    TruncatingDiv(ts, WINDOW) * WINDOW
  }

  /** The bucket floors a timestamp exactly when it lies at or after the epoch, or on a boundary. */
  lemma WindowFloorsFromEpoch(ts: Instant)
    ensures WindowStart(ts) <= ts < WindowStart(ts) + WINDOW <==> ts >= 0 || ts % WINDOW == 0
  {
    if ts < 0 {
      var q, r := (-ts) / WINDOW, (-ts) % WINDOW;
      assert -ts == q * WINDOW + r;
      assert WindowStart(ts) == -(q * WINDOW);
      if r == 0 {
        assert ts == (-q) * WINDOW;
      } else {
        assert ts == (-q - 1) * WINDOW + (WINDOW - r);
        assert ts % WINDOW == WINDOW - r;
      }
    }
  }

  /** Windows start at the multiples of five minutes; a timestamp before the epoch falls to the next, not the last. */
  lemma WindowIsAligned(ts: Instant)
    ensures WindowStart(ts) % 300_000_000_000 == 0
    ensures if ts >= 0 then WindowStart(ts) <= ts < WindowStart(ts) + 300_000_000_000
      else WindowStart(ts) - 300_000_000_000 < ts <= WindowStart(ts)
  {
    WindowFloorsFromEpoch(ts);
    if ts < 0 {
      var q := (-ts) / WINDOW;
      assert -ts == q * WINDOW + (-ts) % WINDOW;
      assert WindowStart(ts) == (-q) * WINDOW;
    }
  }

  /** Later timestamps never fall into earlier windows. */
  lemma WindowIsMonotone(a: Instant, b: Instant)
    requires a <= b
    ensures WindowStart(a) <= WindowStart(b)
  {
    if a >= 0 {
      assert a / WINDOW <= b / WINDOW;
    } else if b < 0 {
      assert (-b) / WINDOW <= (-a) / WINDOW;
    }
  }

  // ---- buckets -----------------------------------------------------------

  predicate Attributed(streams: seq<string>, templates: seq<string>, i: nat)
    requires i < |streams| == |templates|
  {
    streams[i] != "" && templates[i] != ""
  }

  function KeyOf(entries: seq<LogEntry>, streams: seq<string>, templates: seq<string>, i: nat): Key
    requires i < |entries| == |streams| == |templates|
  {
    Key(streams[i], templates[i], WindowStart(entries[i].timestamp))
  }

  /** The attributed entries among the first n whose key is k, in order. */
  function Bucket(entries: seq<LogEntry>, streams: seq<string>, templates: seq<string>, n: nat, k: Key): seq<LogEntry>
    requires n <= |entries| == |streams| == |templates|
  {
    if n == 0 then []
    else
      Bucket(entries, streams, templates, n - 1, k)
      + if Attributed(streams, templates, n - 1) && KeyOf(entries, streams, templates, n - 1) == k
        then [entries[n - 1]] else []
  }

  function Whole(entries: seq<LogEntry>, streams: seq<string>, templates: seq<string>, k: Key): seq<LogEntry>
    requires |entries| == |streams| == |templates|
  {
    Bucket(entries, streams, templates, |entries|, k)
  }

  /** A bucket holds exactly the attributed entries of its key. */
  lemma {:induction false} BucketHolds(entries: seq<LogEntry>, streams: seq<string>, templates: seq<string>, n: nat,
        k: Key, e: LogEntry)
    requires n <= |entries| == |streams| == |templates|
    ensures e in Bucket(entries, streams, templates, n, k)
       <==> exists i: nat ::
             i < n && entries[i] == e && Attributed(streams, templates, i) && KeyOf(entries, streams, templates, i) == k
  {
    if n != 0 {
      BucketHolds(entries, streams, templates, n - 1, k, e);
    }
  }

  // ---- one chunk ---------------------------------------------------------

  function TimestampOf(e: LogEntry): int {
    e.timestamp
  }

  function Earliest(es: seq<LogEntry>): (t: Instant)
    requires |es| != 0
    ensures forall e | e in es :: t <= e.timestamp
    ensures exists e :: e in es && e.timestamp == t
  {
    if |es| == 1 then es[0].timestamp
    else
      var (t, last) := (Earliest(es[..|es| - 1]), es[|es| - 1]);
      assert es == es[..|es| - 1] + [last];
      if last.timestamp < t then last.timestamp else t
  }

  function Latest(es: seq<LogEntry>): (t: Instant)
    requires |es| != 0
    ensures forall e | e in es :: e.timestamp <= t
    ensures exists e :: e in es && e.timestamp == t
  {
    if |es| == 1 then es[0].timestamp
    else
      var (t, last) := (Latest(es[..|es| - 1]), es[|es| - 1]);
      assert es == es[..|es| - 1] + [last];
      if last.timestamp > t then last.timestamp else t
  }

  /** One line per entry: its timestamp, a tab, its message. */
  function Lines(render: Rendering, es: seq<LogEntry>): string {
    if |es| == 0 then ""
    else Lines(render, es[..|es| - 1]) + render.stamp(es[|es| - 1].timestamp) + "\t" + es[|es| - 1].message + "\n"
  }

  /** The chunk of a non-empty bucket: the range of its entries, their lines in time order, their number. */
  function ChunkFor(render: Rendering, k: Key, es: seq<LogEntry>): Chunk
    requires |es| != 0
  {
    Chunk(render.chunkId(k), k.stream, k.template, Earliest(es), Latest(es),
      Lines(render, SortStable(es, TimestampOf)), |es|)
  }

  /** A chunk's own key: its ids, and the window its first entry falls into. */
  function KeyOfChunk(c: Chunk): Key {
    Key(c.stream, c.template, WindowStart(c.start))
  }

  // ---- the emitted order -------------------------------------------------

  predicate ChunkBefore(a: Chunk, b: Chunk) {
    Less(a.stream, b.stream)
    || (a.stream == b.stream && (Less(a.template, b.template) || (a.template == b.template && a.start < b.start)))
  }

  predicate InOrder(cs: seq<Chunk>) {
    forall i, j | 0 <= i < j < |cs| :: ChunkBefore(cs[i], cs[j])
  }

  lemma ChunkBeforeIrreflexive(a: Chunk)
    ensures !ChunkBefore(a, a)
  {
    LessIrreflexive(a.stream);
    LessIrreflexive(a.template);
  }

  lemma ChunkBeforeTransitive(a: Chunk, b: Chunk, c: Chunk)
    requires ChunkBefore(a, b) && ChunkBefore(b, c)
    ensures ChunkBefore(a, c)
  {
    if Less(a.stream, b.stream) && Less(b.stream, c.stream) {
      LessTransitive(a.stream, b.stream, c.stream);
    } else if a.stream == b.stream == c.stream && Less(a.template, b.template) && Less(b.template, c.template) {
      LessTransitive(a.template, b.template, c.template);
    }
  }

  /** Chunks of different keys are never tied. */
  lemma ChunkBeforeTotal(a: Chunk, b: Chunk)
    requires KeyOfChunk(a) != KeyOfChunk(b)
    ensures ChunkBefore(a, b) || ChunkBefore(b, a)
  {
    LessTotal(a.stream, b.stream);
    LessTotal(a.template, b.template);
  }

  /** A strictly ordered list is determined by its elements. */
  lemma {:induction false} InOrderUnique(a: seq<Chunk>, b: seq<Chunk>)
    requires InOrder(a) && InOrder(b)
    requires forall c :: c in a <==> c in b
    ensures a == b
    decreases |a|
  {
    if |a| == 0 {
      HasMember(b);
    } else {
      assert a[0] in b && b[0] in a;
      FirstIsFirst(a, b);
      TailMembers(a);
      TailMembers(b);
      forall c ensures c in a[1..] <==> c in b[1..] {
        assert c in a[1..] <==> c in a && c != a[0];
        assert c in b[1..] <==> c in b && c != b[0];
      }
      InOrderUnique(a[1..], b[1..]);
      assert a == [a[0]] + a[1..] && b == [b[0]] + b[1..];
    }
  }

  lemma HasMember(cs: seq<Chunk>)
    ensures cs != [] ==> exists c :: c in cs
  {
    if cs != [] {
      assert cs[0] in cs;
    }
  }

  lemma FirstIsFirst(a: seq<Chunk>, b: seq<Chunk>)
    requires InOrder(a) && InOrder(b) && |a| != 0 && |b| != 0
    requires a[0] in b && b[0] in a
    ensures a[0] == b[0]
  {
    if a[0] != b[0] {
      assert ChunkBefore(a[0], b[0]) && ChunkBefore(b[0], a[0]);
      ChunkBeforeTransitive(a[0], b[0], a[0]);
      ChunkBeforeIrreflexive(a[0]);
    }
  }

  lemma TailMembers(a: seq<Chunk>)
    requires InOrder(a) && |a| != 0
    ensures forall c :: c in a[1..] <==> c in a && c != a[0]
  {
    ChunkBeforeIrreflexive(a[0]);
    assert a == [a[0]] + a[1..];
  }

  // ---- what chunk assembly promises --------------------------------------

  /** chunks is in order, and holds the chunk of every non-empty bucket and nothing else. */
  ghost predicate IsChunking(render: Rendering, entries: seq<LogEntry>, streams: seq<string>, templates: seq<string>,
        chunks: seq<Chunk>)
    requires |entries| == |streams| == |templates|
  {
    && InOrder(chunks)
    && (forall c | c in chunks :: exists k :: IsChunkOf(render, entries, streams, templates, k, c))
    && (forall k | Whole(entries, streams, templates, k) != [] ::
      ChunkFor(render, k, Whole(entries, streams, templates, k)) in chunks)
  }

  ghost predicate IsChunkOf(render: Rendering, entries: seq<LogEntry>, streams: seq<string>, templates: seq<string>,
        k: Key, c: Chunk)
    requires |entries| == |streams| == |templates|
  {
    Whole(entries, streams, templates, k) != [] && c == ChunkFor(render, k, Whole(entries, streams, templates, k))
  }

  /** Determinism: the emitted slice is one function of the entries, whatever order the buckets were visited in. */
  lemma ChunkingIsDeterministic(render: Rendering, entries: seq<LogEntry>, streams: seq<string>, templates: seq<string>,
        a: seq<Chunk>, b: seq<Chunk>)
    requires |entries| == |streams| == |templates|
    requires IsChunking(render, entries, streams, templates, a) && IsChunking(render, entries, streams, templates, b)
    ensures a == b
  {
    forall c ensures c in a <==> c in b {
      if c in a {
        var k :| IsChunkOf(render, entries, streams, templates, k, c);
      }
      if c in b {
        var k :| IsChunkOf(render, entries, streams, templates, k, c);
      }
    }
    InOrderUnique(a, b);
  }

  /** A bucket's chunk carries the bucket's own key: its first and its last entry fall into its window. */
  lemma ChunkKeepsItsKey(render: Rendering, entries: seq<LogEntry>, streams: seq<string>, templates: seq<string>,
        k: Key, c: Chunk)
    requires |entries| == |streams| == |templates| && IsChunkOf(render, entries, streams, templates, k, c)
    ensures KeyOfChunk(c) == k && WindowStart(c.end) == k.window && c.start <= c.end
  {
    var es := Whole(entries, streams, templates, k);
    var first :| first in es && first.timestamp == Earliest(es);
    var last :| last in es && last.timestamp == Latest(es);
    BucketHolds(entries, streams, templates, |entries|, k, first);
    BucketHolds(entries, streams, templates, |entries|, k, last);
  }

  /** c is where entry i went: same stream, same template, same window. */
  predicate Holds(c: Chunk, entries: seq<LogEntry>, streams: seq<string>, templates: seq<string>, i: nat)
    requires i < |entries| == |streams| == |templates|
  {
    Attributed(streams, templates, i) && KeyOfChunk(c) == KeyOf(entries, streams, templates, i)
  }

  /** Partition: every attributed entry lies in exactly one chunk. */
  lemma EveryEntryHasOneChunk(render: Rendering, entries: seq<LogEntry>, streams: seq<string>, templates: seq<string>,
        chunks: seq<Chunk>, i: nat)
    requires |entries| == |streams| == |templates| && IsChunking(render, entries, streams, templates, chunks)
    requires i < |entries|
    ensures Attributed(streams, templates, i)
      <==> exists a: nat :: a < |chunks| && Holds(chunks[a], entries, streams, templates, i)
    ensures forall a: nat, b: nat | a < b < |chunks| ::
      !(Holds(chunks[a], entries, streams, templates, i) && Holds(chunks[b], entries, streams, templates, i))
  {
    if Attributed(streams, templates, i) {
      var k := KeyOf(entries, streams, templates, i);
      BucketHolds(entries, streams, templates, |entries|, k, entries[i]);
      var c := ChunkFor(render, k, Whole(entries, streams, templates, k));
      ChunkKeepsItsKey(render, entries, streams, templates, k, c);
      var a :| 0 <= a < |chunks| && chunks[a] == c;
      assert Holds(chunks[a], entries, streams, templates, i);
    }
    forall a: nat, b: nat | a < b < |chunks|
      ensures !(Holds(chunks[a], entries, streams, templates, i) && Holds(chunks[b], entries, streams, templates, i))
    {
      KeysDiffer(render, entries, streams, templates, chunks, a, b);
    }
  }

  lemma KeysDiffer(render: Rendering, entries: seq<LogEntry>, streams: seq<string>, templates: seq<string>,
        chunks: seq<Chunk>, a: nat, b: nat)
    requires |entries| == |streams| == |templates| && IsChunking(render, entries, streams, templates, chunks)
    requires a < b < |chunks|
    ensures KeyOfChunk(chunks[a]) != KeyOfChunk(chunks[b])
  {
    assert chunks[a] in chunks && chunks[b] in chunks;
    var k :| IsChunkOf(render, entries, streams, templates, k, chunks[a]);
    var l :| IsChunkOf(render, entries, streams, templates, l, chunks[b]);
    ChunkKeepsItsKey(render, entries, streams, templates, k, chunks[a]);
    ChunkKeepsItsKey(render, entries, streams, templates, l, chunks[b]);
    assert ChunkBefore(chunks[a], chunks[b]);
    ChunkBeforeIrreflexive(chunks[a]);
  }

  /**
    A chunk is the time-sorted, stable rearrangement of exactly the entries it holds: its range is
    attained by them, and from the epoch on lies inside its own five-minute window.
   */
  lemma ChunkShowsItsEntries(render: Rendering, entries: seq<LogEntry>, streams: seq<string>, templates: seq<string>,
        chunks: seq<Chunk>, c: Chunk)
    requires |entries| == |streams| == |templates| && IsChunking(render, entries, streams, templates, chunks)
      && c in chunks
    ensures var es := Whole(entries, streams, templates, KeyOfChunk(c));
      && c.entryCount == |es| != 0
      && c.content == Lines(render, SortStable(es, TimestampOf))
      && StablySorted(es, SortStable(es, TimestampOf), TimestampOf)
    ensures forall i: nat | i < |entries| && Holds(c, entries, streams, templates, i) ::
      c.start <= entries[i].timestamp <= c.end
    ensures exists i: nat ::
      i < |entries| && Holds(c, entries, streams, templates, i) && entries[i].timestamp == c.start
    ensures exists i: nat ::
      i < |entries| && Holds(c, entries, streams, templates, i) && entries[i].timestamp == c.end
    ensures c.start >= 0 ==> KeyOfChunk(c).window <= c.start <= c.end < KeyOfChunk(c).window + WINDOW
  {
    var k :| IsChunkOf(render, entries, streams, templates, k, c);
    ChunkKeepsItsKey(render, entries, streams, templates, k, c);
    var es := Whole(entries, streams, templates, k);
    SortStableCorrect(es, TimestampOf);
    forall i: nat | i < |entries| && Holds(c, entries, streams, templates, i)
      ensures c.start <= entries[i].timestamp <= c.end
    {
      BucketHolds(entries, streams, templates, |entries|, k, entries[i]);
    }
    var first :| first in es && first.timestamp == c.start;
    BucketHolds(entries, streams, templates, |entries|, k, first);
    var last :| last in es && last.timestamp == c.end;
    BucketHolds(entries, streams, templates, |entries|, k, last);
    WindowFloorsFromEpoch(c.start);
    WindowFloorsFromEpoch(c.end);
  }

  // ---- counting ----------------------------------------------------------

  /** The entry counts of the chunks a template contains. */
  function CountIn(chunks: seq<Chunk>, template: string): nat {
    if |chunks| == 0 then 0
    else
      CountIn(chunks[..|chunks| - 1], template)
      + if chunks[|chunks| - 1].template == template then chunks[|chunks| - 1].entryCount else 0
  }

  /** The sizes, after n entries, of the buckets of one template among the given keys. */
  function SizeOf(entries: seq<LogEntry>, streams: seq<string>, templates: seq<string>, n: nat, ks: seq<Key>,
        template: string)
    : nat
    requires n <= |entries| == |streams| == |templates|
  {
    if |ks| == 0 then 0
    else
      SizeOf(entries, streams, templates, n, ks[..|ks| - 1], template)
      + if ks[|ks| - 1].template == template then |Bucket(entries, streams, templates, n, ks[|ks| - 1])| else 0
  }

  predicate DistinctKeys(ks: seq<Key>) {
    forall a, b | 0 <= a < b < |ks| :: ks[a] != ks[b]
  }

  /** One more entry adds one to exactly the bucket of its own key. */
  lemma {:induction false} OneEntryOneBucket(entries: seq<LogEntry>, streams: seq<string>, templates: seq<string>,
        n: nat, ks: seq<Key>, template: string)
    requires n < |entries| == |streams| == |templates| && DistinctKeys(ks)
    ensures SizeOf(entries, streams, templates, n + 1, ks, template)
      == SizeOf(entries, streams, templates, n, ks, template)
      + if Attributed(streams, templates, n) && templates[n] == template && KeyOf(entries, streams, templates, n) in ks
        then 1 else 0
    decreases |ks|
  {
    if |ks| != 0 {
      OneEntryOneBucket(entries, streams, templates, n, ks[..|ks| - 1], template);
      assert ks == ks[..|ks| - 1] + [ks[|ks| - 1]];
    }
  }

  lemma {:induction false} NothingYet(entries: seq<LogEntry>, streams: seq<string>, templates: seq<string>,
        ks: seq<Key>, template: string)
    requires |entries| == |streams| == |templates|
    ensures SizeOf(entries, streams, templates, 0, ks, template) == 0
    decreases |ks|
  {
    if |ks| != 0 {
      NothingYet(entries, streams, templates, ks[..|ks| - 1], template);
    }
  }

  lemma {:induction false} SizesAreCounts(entries: seq<LogEntry>, streams: seq<string>, templates: seq<string>, n: nat,
        ks: seq<Key>, template: string)
    requires n <= |entries| == |streams| == |templates| && DistinctKeys(ks) && template != ""
    requires forall i: nat | i < |entries| :: streams[i] != ""
    requires forall i: nat | i < |entries| && Attributed(streams, templates, i) ::
      KeyOf(entries, streams, templates, i) in ks
    ensures SizeOf(entries, streams, templates, n, ks, template) == Pipeline.CountId(templates[..n], template)
    decreases n
  {
    if n == 0 {
      NothingYet(entries, streams, templates, ks, template);
    } else {
      SizesAreCounts(entries, streams, templates, n - 1, ks, template);
      OneEntryOneBucket(entries, streams, templates, n - 1, ks, template);
      assert templates[..n][..n - 1] == templates[..n - 1];
    }
  }

  function KeysOf(chunks: seq<Chunk>): (ks: seq<Key>)
    ensures |ks| == |chunks|
  {
    seq(|chunks|, i requires 0 <= i < |chunks| => KeyOfChunk(chunks[i]))
  }

  lemma {:induction false} CountsAreSizes(entries: seq<LogEntry>, streams: seq<string>, templates: seq<string>,
        chunks: seq<Chunk>, template: string)
    requires |entries| == |streams| == |templates|
    requires forall c | c in chunks :: c.entryCount == |Whole(entries, streams, templates, KeyOfChunk(c))|
    ensures CountIn(chunks, template) == SizeOf(entries, streams, templates, |entries|, KeysOf(chunks), template)
    decreases |chunks|
  {
    if |chunks| != 0 {
      CountsAreSizes(entries, streams, templates, chunks[..|chunks| - 1], template);
      assert KeysOf(chunks)[..|chunks| - 1] == KeysOf(chunks[..|chunks| - 1]);
      assert chunks[|chunks| - 1] in chunks;
    }
  }

  /** The chunks' keys are distinct, and every attributed entry's key is among them. */
  lemma KeysCover(render: Rendering, entries: seq<LogEntry>, streams: seq<string>, templates: seq<string>,
        chunks: seq<Chunk>)
    requires |entries| == |streams| == |templates| && IsChunking(render, entries, streams, templates, chunks)
    ensures DistinctKeys(KeysOf(chunks))
    ensures forall i: nat | i < |entries| && Attributed(streams, templates, i) ::
      KeyOf(entries, streams, templates, i) in KeysOf(chunks)
  {
    forall a, b | 0 <= a < b < |chunks| ensures KeysOf(chunks)[a] != KeysOf(chunks)[b] {
      KeysDiffer(render, entries, streams, templates, chunks, a, b);
    }
    forall i: nat | i < |entries| && Attributed(streams, templates, i)
      ensures KeyOf(entries, streams, templates, i) in KeysOf(chunks)
    {
      EveryEntryHasOneChunk(render, entries, streams, templates, chunks, i);
      var a :| 0 <= a < |chunks| && Holds(chunks[a], entries, streams, templates, i);
      assert KeysOf(chunks)[a] == KeyOf(entries, streams, templates, i);
    }
  }

  /** The chunks of a template count exactly the entries attributed to it. */
  lemma ChunksCountTheirEntries(render: Rendering, entries: seq<LogEntry>, streams: seq<string>, templates: seq<string>,
        chunks: seq<Chunk>, template: string)
    requires |entries| == |streams| == |templates| && IsChunking(render, entries, streams, templates, chunks)
    requires (forall i: nat | i < |entries| :: streams[i] != "") && template != ""
    ensures CountIn(chunks, template) == Pipeline.CountId(templates, template)
  {
    forall c | c in chunks ensures c.entryCount == |Whole(entries, streams, templates, KeyOfChunk(c))| {
      ChunkShowsItsEntries(render, entries, streams, templates, chunks, c);
    }
    CountsAreSizes(entries, streams, templates, chunks, template);
    KeysCover(render, entries, streams, templates, chunks);
    SizesAreCounts(entries, streams, templates, |entries|, KeysOf(chunks), template);
    assert templates[..|entries|] == templates;
  }

  // ---- assembly ----------------------------------------------------------

  lemma RangeNext(es: seq<LogEntry>, i: nat)
    requires 0 < i < |es|
    ensures Earliest(es[..i + 1]) == if es[i].timestamp < Earliest(es[..i]) then es[i].timestamp else Earliest(es[..i])
    ensures Latest(es[..i + 1]) == if es[i].timestamp > Latest(es[..i]) then es[i].timestamp else Latest(es[..i])
  {
    assert es[..i + 1][..i] == es[..i];
  }

  /** The minimum and maximum timestamp; the zero time when there is no entry. */
  method EntryTimeRange(es: seq<LogEntry>) returns (start: Instant, end: Instant)
    ensures |es| != 0 ==> start == Earliest(es) && end == Latest(es)
    ensures |es| == 0 ==> start == end == ZERO_TIME
  {
    if |es| == 0 {
      return ZERO_TIME, ZERO_TIME;
    }
    start, end := es[0].timestamp, es[0].timestamp;
    assert es[..1] == [es[0]];
    for i := 1 to |es|
      invariant start == Earliest(es[..i]) && end == Latest(es[..i])
    {
      RangeNext(es, i);
      if es[i].timestamp < start {
        start := es[i].timestamp;
      }
      if es[i].timestamp > end {
        end := es[i].timestamp;
      }
    }
    assert es[..|es|] == es;
  }

  method InsertByTime(ordered: seq<LogEntry>, e: LogEntry) returns (out: seq<LogEntry>)
    ensures out == Insert(ordered, e, TimestampOf)
  {
    var j := |ordered|;
    while j > 0 && ordered[j - 1].timestamp > e.timestamp
      invariant 0 <= j <= |ordered|
      invariant forall k | j <= k < |ordered| :: TimestampOf(ordered[k]) > e.timestamp
    {
      j := j - 1;
    }
    InsertAt(ordered, e, TimestampOf, j);
    out := ordered[..j] + [e] + ordered[j..];
  }

  /** The stable sort by timestamp. */
  method SortByTime(es: seq<LogEntry>) returns (ordered: seq<LogEntry>)
    ensures ordered == SortStable(es, TimestampOf)
  {
    ordered := [];
    for i := 0 to |es|
      invariant ordered == SortStable(es[..i], TimestampOf)
    {
      assert es[..i + 1][..i] == es[..i];
      ordered := InsertByTime(ordered, es[i]);
    }
    assert es[..|es|] == es;
  }

  method EncodeChunkContent(render: Rendering, es: seq<LogEntry>) returns (content: string)
    ensures content == Lines(render, SortStable(es, TimestampOf))
  {
    var ordered := SortByTime(es);
    content := "";
    for i := 0 to |ordered|
      invariant content == Lines(render, ordered[..i])
    {
      assert ordered[..i + 1][..i] == ordered[..i];
      content := content + render.stamp(ordered[i].timestamp) + "\t" + ordered[i].message + "\n";
    }
    assert ordered[..|ordered|] == ordered;
  }

  lemma InsertedInOrder(sorted: seq<Chunk>, c: Chunk, j: nat)
    requires InOrder(sorted) && j <= |sorted|
    requires forall k | 0 <= k < j :: ChunkBefore(sorted[k], c)
    requires forall k | j <= k < |sorted| :: ChunkBefore(c, sorted[k])
    ensures InOrder(sorted[..j] + [c] + sorted[j..])
  {
  }

  lemma AllBefore(sorted: seq<Chunk>, c: Chunk, j: nat)
    requires InOrder(sorted) && 0 < j <= |sorted| && ChunkBefore(sorted[j - 1], c)
    ensures forall k | 0 <= k < j :: ChunkBefore(sorted[k], c)
  {
    forall k | 0 <= k < j - 1 ensures ChunkBefore(sorted[k], c) {
      ChunkBeforeTransitive(sorted[k], sorted[j - 1], c);
    }
  }

  /** Inserts a chunk whose key is new, keeping the order. */
  method InsertChunk(sorted: seq<Chunk>, c: Chunk) returns (out: seq<Chunk>)
    requires InOrder(sorted) && forall d | d in sorted :: KeyOfChunk(d) != KeyOfChunk(c)
    ensures InOrder(out) && forall d :: d in out <==> d in sorted || d == c
  {
    var j := |sorted|;
    while j > 0 && ChunkBefore(c, sorted[j - 1])
      invariant 0 <= j <= |sorted|
      invariant forall k | j <= k < |sorted| :: ChunkBefore(c, sorted[k])
    {
      j := j - 1;
    }
    if j > 0 {
      ChunkBeforeTotal(sorted[j - 1], c);
      AllBefore(sorted, c, j);
    }
    InsertedInOrder(sorted, c, j);
    out := sorted[..j] + [c] + sorted[j..];
    assert sorted == sorted[..j] + sorted[j..];
  }

  /** The map holds, under each key of a non-empty bucket, that bucket, and nothing else. */
  ghost predicate AreBuckets(entries: seq<LogEntry>, streams: seq<string>, templates: seq<string>, n: nat,
        buckets: map<Key, seq<LogEntry>>)
    requires n <= |entries| == |streams| == |templates|
  {
    && (forall k | k in buckets :: buckets[k] == Bucket(entries, streams, templates, n, k) != [])
    && (forall k | Bucket(entries, streams, templates, n, k) != [] :: k in buckets)
  }

  method RenderChunk(render: Rendering, k: Key, grouped: seq<LogEntry>) returns (c: Chunk)
    requires |grouped| != 0
    ensures c == ChunkFor(render, k, grouped)
  {
    var start, end := EntryTimeRange(grouped);
    var content := EncodeChunkContent(render, grouped);
    c := Chunk(render.chunkId(k), k.stream, k.template, start, end, content, |grouped|);
  }

  /** Each bucket is non-empty, and its chunk carries its key. */
  ghost predicate Keyed(render: Rendering, buckets: map<Key, seq<LogEntry>>) {
    forall k | k in buckets :: buckets[k] != [] && KeyOfChunk(ChunkFor(render, k, buckets[k])) == k
  }

  /** The chunks of the buckets in done, in order. */
  ghost predicate Rendered(render: Rendering, buckets: map<Key, seq<LogEntry>>, done: set<Key>, chunks: seq<Chunk>)
    requires done <= buckets.Keys && Keyed(render, buckets)
  {
    && InOrder(chunks)
    && (forall c | c in chunks :: KeyOfChunk(c) in done && c == ChunkFor(render, KeyOfChunk(c), buckets[KeyOfChunk(c)]))
    && (forall k | k in done :: ChunkFor(render, k, buckets[k]) in chunks)
  }

  lemma RenderedNext(render: Rendering, buckets: map<Key, seq<LogEntry>>, done: set<Key>, chunks: seq<Chunk>, k: Key,
        out: seq<Chunk>)
    requires Keyed(render, buckets) && done <= buckets.Keys && k in buckets
    requires Rendered(render, buckets, done, chunks) && InOrder(out)
    requires forall d :: d in out <==> d in chunks || d == ChunkFor(render, k, buckets[k])
    ensures Rendered(render, buckets, done + {k}, out)
  {
  }

  /** Renders one bucket's chunk into its place. */
  method RenderNext(render: Rendering, buckets: map<Key, seq<LogEntry>>, ghost done: set<Key>, chunks: seq<Chunk>,
        k: Key)
    returns (out: seq<Chunk>)
    requires Keyed(render, buckets) && done <= buckets.Keys && k in buckets && k !in done
    requires Rendered(render, buckets, done, chunks)
    ensures Rendered(render, buckets, done + {k}, out)
  {
    var c := RenderChunk(render, k, buckets[k]);
    assert KeyOfChunk(c) == k;
    out := InsertChunk(chunks, c);
    RenderedNext(render, buckets, done, chunks, k, out);
  }

  lemma DoneNext(all: set<Key>, todo: set<Key>, k: Key)
    requires todo <= all && k in todo
    ensures all - (todo - {k}) == all - todo + {k}
  {
  }

  /** Renders one chunk per bucket, in whatever order the map yields them, and sorts the result. */
  method BuildChunks(render: Rendering, buckets: map<Key, seq<LogEntry>>) returns (chunks: seq<Chunk>)
    requires Keyed(render, buckets)
    ensures Rendered(render, buckets, buckets.Keys, chunks)
  {
    chunks := [];
    var todo := buckets.Keys;
    while todo != {}
      invariant todo <= buckets.Keys && Rendered(render, buckets, buckets.Keys - todo, chunks)
      decreases todo
    {
      var k :| k in todo;
      chunks := RenderNext(render, buckets, buckets.Keys - todo, chunks, k);
      DoneNext(buckets.Keys, todo, k);
      todo := todo - {k};
    }
    assert buckets.Keys - {} == buckets.Keys;
  }

  lemma BucketsAreKeyed(render: Rendering, entries: seq<LogEntry>, streams: seq<string>, templates: seq<string>,
        buckets: map<Key, seq<LogEntry>>)
    requires |entries| == |streams| == |templates| && AreBuckets(entries, streams, templates, |entries|, buckets)
    ensures Keyed(render, buckets)
  {
    forall k | k in buckets ensures KeyOfChunk(ChunkFor(render, k, buckets[k])) == k {
      ChunkKeepsItsKey(render, entries, streams, templates, k, ChunkFor(render, k, buckets[k]));
    }
  }

  lemma RenderedIsChunking(render: Rendering, entries: seq<LogEntry>, streams: seq<string>, templates: seq<string>,
                           buckets: map<Key, seq<LogEntry>>, chunks: seq<Chunk>)
    requires |entries| == |streams| == |templates| && AreBuckets(entries, streams, templates, |entries|, buckets)
    requires Keyed(render, buckets) && Rendered(render, buckets, buckets.Keys, chunks)
    ensures IsChunking(render, entries, streams, templates, chunks)
  {
    forall c | c in chunks ensures exists k :: IsChunkOf(render, entries, streams, templates, k, c) {
      assert IsChunkOf(render, entries, streams, templates, KeyOfChunk(c), c);
    }
  }

  /** An ordered list has a place for a chunk whose key is new, among its first n. */
  lemma {:induction false} HasPlace(sorted: seq<Chunk>, c: Chunk, n: nat) returns (j: nat)
    requires InOrder(sorted) && (forall d | d in sorted :: KeyOfChunk(d) != KeyOfChunk(c)) && n <= |sorted|
    requires forall k | n <= k < |sorted| :: ChunkBefore(c, sorted[k])
    ensures j <= |sorted| && InOrder(sorted[..j] + [c] + sorted[j..])
  {
    if n == 0 {
      j := 0;
    } else if ChunkBefore(c, sorted[n - 1]) {
      j := HasPlace(sorted, c, n - 1);
    } else {
      j := n;
      ChunkBeforeTotal(sorted[n - 1], c);
      AllBefore(sorted, c, n);
    }
  }

  lemma PlacedAmong(sorted: seq<Chunk>, c: Chunk) returns (out: seq<Chunk>)
    requires InOrder(sorted) && forall d | d in sorted :: KeyOfChunk(d) != KeyOfChunk(c)
    ensures InOrder(out) && forall d :: d in out <==> d in sorted || d == c
  {
    var j := HasPlace(sorted, c, |sorted|);
    out := sorted[..j] + [c] + sorted[j..];
    assert sorted == sorted[..j] + sorted[j..];
  }

  lemma RenderingGrows(render: Rendering, buckets: map<Key, seq<LogEntry>>, done: set<Key>, chunks: seq<Chunk>, k: Key)
    returns (out: seq<Chunk>)
    requires Keyed(render, buckets) && done <= buckets.Keys && k in buckets && k !in done
    requires Rendered(render, buckets, done, chunks)
    ensures Rendered(render, buckets, done + {k}, out)
  {
    out := PlacedAmong(chunks, ChunkFor(render, k, buckets[k]));
    RenderedNext(render, buckets, done, chunks, k, out);
  }

  lemma OneBack(done: set<Key>, k: Key)
    requires k in done
    ensures done - {k} + {k} == done
  {
  }

  lemma {:induction false} SomeRendering(render: Rendering, buckets: map<Key, seq<LogEntry>>, done: set<Key>)
    returns (chunks: seq<Chunk>)
    requires Keyed(render, buckets) && done <= buckets.Keys
    ensures Rendered(render, buckets, done, chunks)
    decreases done
  {
    if done == {} {
      chunks := [];
    } else {
      var k :| k in done;
      var rest := done - {k};
      OneBack(done, k);
      var front := SomeRendering(render, buckets, rest);
      chunks := RenderingGrows(render, buckets, rest, front, k);
    }
  }

  /** Whatever ids the entries carry, they have a chunking. */
  lemma ChunkingExists(render: Rendering, entries: seq<LogEntry>, streams: seq<string>, templates: seq<string>)
    returns (chunks: seq<Chunk>)
    requires |entries| == |streams| == |templates|
    ensures IsChunking(render, entries, streams, templates, chunks)
  {
    var keys := set i: nat | i < |entries| && Attributed(streams, templates, i) ::
      KeyOf(entries, streams, templates, i);
    forall k ensures k in keys <==> Whole(entries, streams, templates, k) != [] {
      if Whole(entries, streams, templates, k) != [] {
        BucketHolds(entries, streams, templates, |entries|, k, Whole(entries, streams, templates, k)[0]);
      }
      if k in keys {
        var i: nat :| i < |entries| && Attributed(streams, templates, i) && KeyOf(entries, streams, templates, i) == k;
        BucketHolds(entries, streams, templates, |entries|, k, entries[i]);
      }
    }
    var buckets := map k | k in keys :: Whole(entries, streams, templates, k);
    BucketsAreKeyed(render, entries, streams, templates, buckets);
    chunks := SomeRendering(render, buckets, keys);
    RenderedIsChunking(render, entries, streams, templates, buckets, chunks);
  }

  /**
    Groups entries into chunks. Entries without a stream or a template id are skipped; lists of
    different lengths are an error unless there is no entry at all.
   */
  method AssembleChunks(render: Rendering, entries: seq<LogEntry>, streams: seq<string>, templates: seq<string>)
    returns (r: Result<seq<Chunk>, string>)
    ensures r.Failure? <==> |entries| != 0 && (|streams| != |entries| || |templates| != |entries|)
    ensures |entries| == 0 ==> r == Success([])
    ensures |entries| == |streams| == |templates| ==>
      r.Success? && IsChunking(render, entries, streams, templates, r.value)
  {
    if |entries| == 0 {
      return Success([]);
    }
    if |streams| != |entries| || |templates| != |entries| {
      return Failure("internal error assembling chunks");
    }
    var buckets: map<Key, seq<LogEntry>> := map[];
    for i := 0 to |entries|
      invariant AreBuckets(entries, streams, templates, i, buckets)
    {
      if streams[i] == "" || templates[i] == "" {
        continue;
      }
      var k := Key(streams[i], templates[i], WindowStart(entries[i].timestamp));
      buckets := buckets[k := (if k in buckets then buckets[k] else []) + [entries[i]]];
    }
    BucketsAreKeyed(render, entries, streams, templates, buckets);
    var chunks := BuildChunks(render, buckets);
    RenderedIsChunking(render, entries, streams, templates, buckets, chunks);
    return Success(chunks);
  }
}
