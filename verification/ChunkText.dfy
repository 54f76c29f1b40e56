/** What a chunk's text says of the entries it holds, read back line by line. */
module ChunkText {

  import opened Strings
  import opened Model
  import opened Sorting
  import opened TextLines
  import opened Chunks
  import Streams

  // ---- rendering lines ---------------------------------------------------

  /** Stamps hold neither a tab nor a newline. */
  ghost predicate PlainStamps(render: Rendering) {
    forall t :: '\t' !in render.stamp(t) && '\n' !in render.stamp(t)
  }

  predicate SingleLineMessages(es: seq<LogEntry>) {
    forall e | e in es :: '\n' !in e.message
  }

  /** The line that shows an entry. */
  function Shown(render: Rendering, e: LogEntry): string {
    render.stamp(e.timestamp) + "\t" + e.message
  }

  function AllShown(render: Rendering, es: seq<LogEntry>): (lines: seq<string>)
    ensures |lines| == |es|
  {
    seq(|es|, i requires 0 <= i < |es| => Shown(render, es[i]))
  }

  lemma {:induction false} LinesAreWritten(render: Rendering, es: seq<LogEntry>)
    ensures Lines(render, es) == Written(AllShown(render, es))
  {
    if |es| != 0 {
      var front, last := es[..|es| - 1], es[|es| - 1];
      LinesAreWritten(render, front);
      WrittenSnoc(AllShown(render, front), Shown(render, last));
      assert AllShown(render, es) == AllShown(render, front) + [Shown(render, last)];
      assert Lines(render, es) == Lines(render, front) + render.stamp(last.timestamp) + "\t" + last.message + "\n";
    }
  }

  lemma ShownIsOneLine(render: Rendering, e: LogEntry)
    requires PlainStamps(render) && '\n' !in e.message
    ensures '\n' !in Shown(render, e)
  {
  }

  predicate ShownAlike(render: Rendering, a: seq<LogEntry>, b: seq<LogEntry>) {
    |a| == |b| && forall i | 0 <= i < |a| ::
      render.stamp(a[i].timestamp) == render.stamp(b[i].timestamp) && a[i].message == b[i].message
  }

  lemma ShownIsCut(render: Rendering, e: LogEntry, f: LogEntry)
    requires PlainStamps(render)
    ensures Shown(render, e) == Shown(render, f)
      <==> render.stamp(e.timestamp) == render.stamp(f.timestamp) && e.message == f.message
  {
    if Shown(render, e) == Shown(render, f) {
      Streams.CutIsUnique(render.stamp(e.timestamp), render.stamp(f.timestamp), e.message, f.message, '\t');
    }
  }

  lemma AllShownIsCut(render: Rendering, a: seq<LogEntry>, b: seq<LogEntry>)
    requires PlainStamps(render)
    ensures AllShown(render, a) == AllShown(render, b) <==> ShownAlike(render, a, b)
  {
    var x, y := AllShown(render, a), AllShown(render, b);
    if |a| == |b| {
      forall i | 0 <= i < |a|
        ensures x[i] == y[i]
          <==> render.stamp(a[i].timestamp) == render.stamp(b[i].timestamp) && a[i].message == b[i].message
      {
        ShownIsCut(render, a[i], b[i]);
      }
      assert x == y <==> forall i | 0 <= i < |a| :: x[i] == y[i];
    }
  }

  lemma TextIsLines(render: Rendering, es: seq<LogEntry>)
    requires PlainStamps(render) && SingleLineMessages(es)
    ensures LinesIn(Lines(render, es)) == AllShown(render, es)
  {
    LinesAreWritten(render, es);
    forall i | 0 <= i < |es| ensures '\n' !in AllShown(render, es)[i] {
      ShownIsOneLine(render, es[i]);
    }
    WrittenReadsBack(AllShown(render, es));
  }

  /**
    Reading back: single-line entries render to one text exactly when they are equally many and agree, one by
    one, in stamp and message.
   */
  lemma RenderingIsInjective(render: Rendering, a: seq<LogEntry>, b: seq<LogEntry>)
    requires PlainStamps(render) && SingleLineMessages(a) && SingleLineMessages(b)
    ensures Lines(render, a) == Lines(render, b) <==> ShownAlike(render, a, b)
  {
    TextIsLines(render, a);
    TextIsLines(render, b);
    LinesAreWritten(render, a);
    LinesAreWritten(render, b);
    AllShownIsCut(render, a, b);
  }

  /** The condition on messages cannot go: a newline in a message may pass for the end of its line. */
  lemma NewlineInMessageCollides(render: Rendering, e: LogEntry, f: LogEntry)
    ensures Lines(render, [e, f])
      == Lines(render, [e.(message := e.message + "\n" + render.stamp(f.timestamp) + "\t" + f.message)])
  {
    var both := e.(message := e.message + "\n" + render.stamp(f.timestamp) + "\t" + f.message);
    LinesAreWritten(render, [e, f]);
    LinesAreWritten(render, [both]);
    assert AllShown(render, [e, f])[1..] == [Shown(render, f)] && AllShown(render, [both])[1..] == [];
    assert Written([Shown(render, f)]) == Shown(render, f) + "\n";
    assert Shown(render, both) == Shown(render, e) + "\n" + Shown(render, f);
  }

  // ---- the place of an element in a stable sort --------------------------

  /** How many of the first n elements a stable sort puts before the p-th. */
  function Rank<T>(s: seq<T>, p: nat, n: nat, key: T -> int): nat
    requires p < |s| && n <= |s|
  {
    if n == 0 then 0
    else
      Rank(s, p, n - 1, key) + if key(s[n - 1]) < key(s[p]) || (key(s[n - 1]) == key(s[p]) && n - 1 < p) then 1 else 0
  }

  /** How many keys do not exceed v. */
  function AtMost<T>(s: seq<T>, v: int, key: T -> int): nat {
    if |s| == 0 then 0 else AtMost(s[..|s| - 1], v, key) + if key(s[|s| - 1]) <= v then 1 else 0
  }

  lemma {:induction false} AtMostInsert<T>(s: seq<T>, x: T, v: int, key: T -> int)
    ensures AtMost(Insert(s, x, key), v, key) == AtMost(s, v, key) + if key(x) <= v then 1 else 0
  {
    if |s| == 0 || key(s[|s| - 1]) <= key(x) {
      assert (s + [x])[..|s|] == s;
    } else {
      var front, last := s[..|s| - 1], s[|s| - 1];
      AtMostInsert(front, x, v, key);
      var r := Insert(front, x, key);
      assert (r + [last])[..|r|] == r;
    }
  }

  lemma {:induction false} AtMostSort<T>(s: seq<T>, v: int, key: T -> int)
    ensures AtMost(SortStable(s, key), v, key) == AtMost(s, v, key)
  {
    if |s| != 0 {
      AtMostSort(s[..|s| - 1], v, key);
      AtMostInsert(SortStable(s[..|s| - 1], key), s[|s| - 1], v, key);
    }
  }

  /** In a sorted list, the keys that do not exceed v come first. */
  lemma {:induction false} AtMostIsPrefix<T>(s: seq<T>, v: int, key: T -> int)
    requires SortedBy(s, key)
    ensures AtMost(s, v, key) <= |s|
    ensures forall k | 0 <= k < |s| :: key(s[k]) <= v <==> k < AtMost(s, v, key)
  {
    if |s| != 0 {
      AtMostIsPrefix(s[..|s| - 1], v, key);
    }
  }

  lemma InsertPlaces<T>(s: seq<T>, x: T, key: T -> int)
    requires SortedBy(s, key)
    ensures var j := AtMost(s, key(x), key); j <= |s| && Insert(s, x, key) == s[..j] + [x] + s[j..]
  {
    AtMostIsPrefix(s, key(x), key);
    InsertAt(s, x, key, AtMost(s, key(x), key));
  }

  lemma {:induction false} RankOfFront<T>(s: seq<T>, p: nat, n: nat, key: T -> int)
    requires p < |s| - 1 && n < |s|
    ensures Rank(s[..|s| - 1], p, n, key) == Rank(s, p, n, key)
  {
    if n != 0 {
      RankOfFront(s, p, n - 1, key);
    }
  }

  lemma {:induction false} RankOfLast<T>(s: seq<T>, n: nat, key: T -> int)
    requires n < |s|
    ensures Rank(s, |s| - 1, n, key) == AtMost(s[..n], key(s[|s| - 1]), key)
  {
    if n != 0 {
      RankOfLast(s, n - 1, key);
      assert s[..n][..n - 1] == s[..n - 1];
    }
  }

  lemma SortKeepsLength<T>(s: seq<T>, key: T -> int)
    ensures |SortStable(s, key)| == |s|
  {
    SortStableCorrect(s, key);
    assert |multiset(SortStable(s, key))| == |multiset(s)|;
  }

  /** Inserting x moves up exactly the elements whose key exceeds its own. */
  lemma InsertMoves<T>(s: seq<T>, x: T, r: nat, key: T -> int)
    requires SortedBy(s, key) && r < |s|
    ensures AtMost(s, key(x), key) <= |s| < |Insert(s, x, key)|
    ensures Insert(s, x, key)[AtMost(s, key(x), key)] == x
    ensures Insert(s, x, key)[if key(s[r]) <= key(x) then r else r + 1] == s[r]
  {
    InsertPlaces(s, x, key);
    AtMostIsPrefix(s, key(x), key);
  }

  /** The p-th element stands where as many come before it as ought to. */
  lemma {:induction false} SortPlaces<T>(s: seq<T>, p: nat, key: T -> int)
    requires p < |s|
    ensures Rank(s, p, |s|, key) < |s| == |SortStable(s, key)| && SortStable(s, key)[Rank(s, p, |s|, key)] == s[p]
    decreases |s|
  {
    var front := s[..|s| - 1];
    SortStableCorrect(front, key);
    SortKeepsLength(front, key);
    SortKeepsLength(s, key);
    if p == |front| {
      LastIsPlaced(s, key);
    } else {
      SortPlaces(front, p, key);
      RankOfFront(s, p, |front|, key);
      InsertMoves(SortStable(front, key), s[|front|], Rank(front, p, |front|, key), key);
    }
  }

  lemma LastIsPlaced<T>(s: seq<T>, key: T -> int)
    requires s != [] && SortedBy(SortStable(s[..|s| - 1], key), key)
    requires |SortStable(s[..|s| - 1], key)| == |s| - 1
    ensures Rank(s, |s| - 1, |s|, key) < |SortStable(s, key)|
    ensures SortStable(s, key)[Rank(s, |s| - 1, |s|, key)] == s[|s| - 1]
  {
    var front, x := s[..|s| - 1], s[|s| - 1];
    RankOfLast(s, |front|, key);
    AtMostSort(front, key(x), key);
    InsertPlaces(SortStable(front, key), x, key);
  }

  // ---- the place of an entry in its chunk's text -------------------------

  /** Entry i went into chunk c: it has both ids, and they and its window are the chunk's. */
  predicate Carries(c: Chunk, entries: seq<LogEntry>, streams: seq<string>, templates: seq<string>, i: nat)
    requires i < |entries| == |streams| == |templates|
  {
    && c.stream == streams[i] != "" && c.template == templates[i] != ""
    && WindowStart(c.start) == WindowStart(entries[i].timestamp)
  }

  predicate Precedes(entries: seq<LogEntry>, i: nat, j: nat)
    requires i < |entries| && j < |entries|
  {
    entries[i].timestamp < entries[j].timestamp || (entries[i].timestamp == entries[j].timestamp && i < j)
  }

  /** How many of the first n entries that chunk c carries come before entry i, by time and then by position. */
  function Before(c: Chunk, entries: seq<LogEntry>, streams: seq<string>, templates: seq<string>, i: nat, n: nat): nat
    requires i < |entries| == |streams| == |templates| && n <= |entries|
  {
    if n == 0 then 0
    else
      Before(c, entries, streams, templates, i, n - 1)
      + if Carries(c, entries, streams, templates, n - 1) && Precedes(entries, n - 1, i) then 1 else 0
  }

  /** How many of the first n entries chunk c carries. */
  function Carried(c: Chunk, entries: seq<LogEntry>, streams: seq<string>, templates: seq<string>, n: nat): nat
    requires n <= |entries| == |streams| == |templates|
  {
    if n == 0 then 0
    else
      Carried(c, entries, streams, templates, n - 1)
      + if Carries(c, entries, streams, templates, n - 1) then 1 else 0
  }

  lemma CarriesIsBucketed(c: Chunk, entries: seq<LogEntry>, streams: seq<string>, templates: seq<string>, i: nat)
    requires i < |entries| == |streams| == |templates|
    ensures Carries(c, entries, streams, templates, i)
      <==> Attributed(streams, templates, i) && KeyOf(entries, streams, templates, i) == KeyOfChunk(c)
  {
  }

  lemma {:induction false} BucketGrows(c: Chunk, entries: seq<LogEntry>, streams: seq<string>, templates: seq<string>,
        m: nat, n: nat)
    requires m <= n <= |entries| == |streams| == |templates|
    ensures Bucket(entries, streams, templates, m, KeyOfChunk(c))
      <= Bucket(entries, streams, templates, n, KeyOfChunk(c))
    ensures |Bucket(entries, streams, templates, n, KeyOfChunk(c))| == Carried(c, entries, streams, templates, n)
  {
    if n != 0 {
      CarriesIsBucketed(c, entries, streams, templates, n - 1);
      BucketGrows(c, entries, streams, templates, if m == n then n - 1 else m, n - 1);
    }
  }

  /** A carried entry stands in its bucket behind the carried entries before it. */
  lemma BucketPlaces(c: Chunk, entries: seq<LogEntry>, streams: seq<string>, templates: seq<string>, i: nat)
    requires i < |entries| == |streams| == |templates| && Carries(c, entries, streams, templates, i)
    ensures var es := Whole(entries, streams, templates, KeyOfChunk(c));
      var p := Carried(c, entries, streams, templates, i);
      p < |es| == Carried(c, entries, streams, templates, |entries|) && es[p] == entries[i]
  {
    CarriesIsBucketed(c, entries, streams, templates, i);
    BucketGrows(c, entries, streams, templates, i, i);
    BucketGrows(c, entries, streams, templates, i + 1, |entries|);
  }

  lemma {:induction false} CarriedGrows(c: Chunk, entries: seq<LogEntry>, streams: seq<string>, templates: seq<string>,
        m: nat, n: nat)
    requires m < n <= |entries| == |streams| == |templates| && Carries(c, entries, streams, templates, m)
    ensures Carried(c, entries, streams, templates, m) < Carried(c, entries, streams, templates, n)
  {
    if m < n - 1 {
      CarriedGrows(c, entries, streams, templates, m, n - 1);
    }
  }

  lemma {:induction false} RankIsBefore(c: Chunk, entries: seq<LogEntry>, streams: seq<string>, templates: seq<string>,
        i: nat, n: nat, es: seq<LogEntry>, p: nat)
    requires i < |entries| == |streams| == |templates| && n <= |entries| && Carries(c, entries, streams, templates, i)
    requires es == Whole(entries, streams, templates, KeyOfChunk(c))
    requires p == Carried(c, entries, streams, templates, i) < |es| && es[p] == entries[i]
    ensures Carried(c, entries, streams, templates, n) <= |es|
    ensures Rank(es, p, Carried(c, entries, streams, templates, n), TimestampOf)
      == Before(c, entries, streams, templates, i, n)
  {
    BucketGrows(c, entries, streams, templates, n, |entries|);
    BucketGrows(c, entries, streams, templates, n, n);
    if n != 0 {
      RankIsBefore(c, entries, streams, templates, i, n - 1, es, p);
      if Carries(c, entries, streams, templates, n - 1) {
        BucketPlaces(c, entries, streams, templates, n - 1);
        if n - 1 < i {
          CarriedGrows(c, entries, streams, templates, n - 1, i);
        } else if i < n - 1 {
          CarriedGrows(c, entries, streams, templates, i, n - 1);
        }
      }
    }
  }

  /** The line of an entry stands behind the lines of the carried entries that come before it. */
  ghost predicate ShowsInOrder(render: Rendering, c: Chunk, entries: seq<LogEntry>, streams: seq<string>,
      templates: seq<string>, lines: seq<string>)
    requires |entries| == |streams| == |templates|
  {
    && |lines| == c.entryCount == Carried(c, entries, streams, templates, |entries|)
    && forall i: nat | i < |entries| && Carries(c, entries, streams, templates, i) ::
         var at := Before(c, entries, streams, templates, i, |entries|);
         at < |lines| && lines[at] == render.stamp(entries[i].timestamp) + "\t" + entries[i].message
  }

  lemma CarriedIsPlaced(render: Rendering, c: Chunk, entries: seq<LogEntry>, streams: seq<string>,
      templates: seq<string>, i: nat, ordered: seq<LogEntry>)
    requires i < |entries| == |streams| == |templates| && Carries(c, entries, streams, templates, i)
    requires ordered == SortStable(Whole(entries, streams, templates, KeyOfChunk(c)), TimestampOf)
    ensures |ordered| == Carried(c, entries, streams, templates, |entries|)
    ensures var at := Before(c, entries, streams, templates, i, |entries|); at < |ordered| && ordered[at] == entries[i]
  {
    var es, p := Whole(entries, streams, templates, KeyOfChunk(c)), Carried(c, entries, streams, templates, i);
    BucketPlaces(c, entries, streams, templates, i);
    RankIsBefore(c, entries, streams, templates, i, |entries|, es, p);
    SortPlaces(es, p, TimestampOf);
  }

  /**
    A chunk's text is written line by line: one line for each entry the chunk carries. The line of an entry is its
    stamp, a tab and its message, and it stands behind the lines of exactly those carried entries that are earlier,
    or as early and read before it.
   */
  lemma ChunkIsWritten(render: Rendering, entries: seq<LogEntry>, streams: seq<string>, templates: seq<string>,
        chunks: seq<Chunk>, c: Chunk)
    returns (lines: seq<string>)
    requires |entries| == |streams| == |templates| && IsChunking(render, entries, streams, templates, chunks)
    requires c in chunks
    ensures c.content == Written(lines) && ShowsInOrder(render, c, entries, streams, templates, lines)
  {
    ChunkShowsItsEntries(render, entries, streams, templates, chunks, c);
    var es := Whole(entries, streams, templates, KeyOfChunk(c));
    LinesAreWritten(render, SortStable(es, TimestampOf));
    lines := AllShown(render, SortStable(es, TimestampOf));
    OrderIsShown(render, c, entries, streams, templates, SortStable(es, TimestampOf));
  }

  lemma OrderIsShown(render: Rendering, c: Chunk, entries: seq<LogEntry>, streams: seq<string>,
        templates: seq<string>, ordered: seq<LogEntry>)
    requires |entries| == |streams| == |templates|
    requires ordered == SortStable(Whole(entries, streams, templates, KeyOfChunk(c)), TimestampOf)
    requires c.entryCount == |Whole(entries, streams, templates, KeyOfChunk(c))|
    ensures ShowsInOrder(render, c, entries, streams, templates, AllShown(render, ordered))
  {
    SortKeepsLength(Whole(entries, streams, templates, KeyOfChunk(c)), TimestampOf);
    BucketGrows(c, entries, streams, templates, |entries|, |entries|);
    forall i: nat | i < |entries| && Carries(c, entries, streams, templates, i)
      ensures var at := Before(c, entries, streams, templates, i, |entries|);
        at < |ordered| && ordered[at] == entries[i]
    {
      CarriedIsPlaced(render, c, entries, streams, templates, i, ordered);
    }
  }

  /** ... and while messages are single lines, that is how it reads back. */
  lemma ChunkReadsBack(render: Rendering, entries: seq<LogEntry>, streams: seq<string>, templates: seq<string>,
        chunks: seq<Chunk>, c: Chunk)
    requires |entries| == |streams| == |templates| && IsChunking(render, entries, streams, templates, chunks)
    requires c in chunks && PlainStamps(render) && SingleLineMessages(entries)
    ensures ShowsInOrder(render, c, entries, streams, templates, LinesIn(c.content))
  {
    ChunkShowsItsEntries(render, entries, streams, templates, chunks, c);
    var ordered := SortStable(Whole(entries, streams, templates, KeyOfChunk(c)), TimestampOf);
    SingleLinesInBucket(entries, streams, templates, KeyOfChunk(c), ordered);
    TextIsLines(render, ordered);
    OrderIsShown(render, c, entries, streams, templates, ordered);
  }

  lemma SingleLinesInBucket(entries: seq<LogEntry>, streams: seq<string>, templates: seq<string>, k: Key,
        ordered: seq<LogEntry>)
    requires |entries| == |streams| == |templates| && SingleLineMessages(entries)
    requires multiset(ordered) == multiset(Whole(entries, streams, templates, k))
    ensures SingleLineMessages(ordered)
  {
    var es := Whole(entries, streams, templates, k);
    forall e | e in ordered ensures '\n' !in e.message {
      assert e in multiset(ordered);
      assert e in es;
      BucketHolds(entries, streams, templates, |entries|, k, e);
    }
  }

  // ---- the order of the chunks -------------------------------------------

  /** Chunks are listed by stream, then template, then start. */
  lemma ChunksAreListed(render: Rendering, entries: seq<LogEntry>, streams: seq<string>, templates: seq<string>,
        chunks: seq<Chunk>, a: nat, b: nat)
    requires |entries| == |streams| == |templates| && IsChunking(render, entries, streams, templates, chunks)
    requires a < b < |chunks|
    ensures chunks[a].stream == chunks[b].stream || Less(chunks[a].stream, chunks[b].stream)
    ensures chunks[a].stream == chunks[b].stream ==>
      chunks[a].template == chunks[b].template || Less(chunks[a].template, chunks[b].template)
    ensures chunks[a].stream == chunks[b].stream && chunks[a].template == chunks[b].template ==>
      chunks[a].start < chunks[b].start
  {
    assert ChunkBefore(chunks[a], chunks[b]);
    LessIrreflexive(chunks[a].stream);
    LessIrreflexive(chunks[a].template);
  }

  // ---- chunk ids ---------------------------------------------------------

  /**
    Two collects give chunks one id exactly when they share stream, template and window, whatever else the chunks
    hold; within one collect, ids are distinct.
   */
  lemma ChunkIdsCarryForward(render: Rendering, entries: seq<LogEntry>, streams: seq<string>, templates: seq<string>,
        chunks: seq<Chunk>, entries': seq<LogEntry>, streams': seq<string>, templates': seq<string>,
        chunks': seq<Chunk>, c: Chunk, d: Chunk)
    requires |entries| == |streams| == |templates| && IsChunking(render, entries, streams, templates, chunks)
    requires |entries'| == |streams'| == |templates'| && IsChunking(render, entries', streams', templates', chunks')
    requires (forall k, l :: render.chunkId(k) == render.chunkId(l) ==> k == l) && c in chunks && d in chunks'
    ensures c.id == d.id
      <==> c.stream == d.stream && c.template == d.template && WindowStart(c.start) == WindowStart(d.start)
    ensures forall a: nat, b: nat | a < b < |chunks| :: chunks[a].id != chunks[b].id
  {
    IdIsOfKey(render, entries, streams, templates, chunks, c);
    IdIsOfKey(render, entries', streams', templates', chunks', d);
    forall a: nat, b: nat | a < b < |chunks| ensures chunks[a].id != chunks[b].id {
      KeysDiffer(render, entries, streams, templates, chunks, a, b);
      IdIsOfKey(render, entries, streams, templates, chunks, chunks[a]);
      IdIsOfKey(render, entries, streams, templates, chunks, chunks[b]);
    }
  }

  /** The id is that of the stream, the template and the window the chunk starts in. */
  lemma IdIsOfKey(render: Rendering, entries: seq<LogEntry>, streams: seq<string>, templates: seq<string>,
        chunks: seq<Chunk>, c: Chunk)
    requires |entries| == |streams| == |templates| && IsChunking(render, entries, streams, templates, chunks)
    requires c in chunks
    ensures c.id == render.chunkId(Key(c.stream, c.template, WindowStart(c.start)))
  {
    var k :| IsChunkOf(render, entries, streams, templates, k, c);
    ChunkKeepsItsKey(render, entries, streams, templates, k, c);
  }
}
