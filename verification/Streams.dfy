/** Stream identity: the canonical encoding of a label set, and one stream per distinct set. */
module Streams {

  import opened Strings
  import opened Model
  import opened Sorting
  import opened Cardinality

  // ---- sorted keys -------------------------------------------------------

  /** keys lists the elements of s, each once, in ascending order. */
  ghost predicate InOrderOf(keys: seq<string>, s: set<string>) {
    Ascending(keys) && forall k :: k in keys <==> k in s
  }

  lemma {:induction false} SomeListing(s: set<string>) returns (keys: seq<string>)
    ensures InOrderOf(keys, s)
  {
    if s == {} {
      keys := [];
    } else {
      var x :| x in s;
      var rest := SomeListing(s - {x});
      InsertStringCorrect(rest, x);
      keys := InsertString(rest, x);
    }
  }

  lemma ListingExists(s: set<string>)
    ensures exists keys :: InOrderOf(keys, s)
  {
    var keys := SomeListing(s);
  }

  /** The elements of a set in ascending order: there is only one such list. */
  ghost function Ordered(s: set<string>): (keys: seq<string>)
    ensures Ascending(keys) && forall k :: k in keys <==> k in s
  {
    ListingExists(s);
    var keys :| InOrderOf(keys, s);
    keys
  }

  /** A map's keys in ascending order, whatever order the map yields them in. */
  method SortedKeys(m: map<string, string>) returns (keys: seq<string>)
    ensures keys == Ordered(m.Keys)
  {
    keys := [];
    var todo := m.Keys;
    while todo != {}
      invariant todo <= m.Keys && Ascending(keys)
      invariant forall k :: k in keys <==> k in m && k !in todo
      decreases todo
    {
      var k :| k in todo;
      todo := todo - {k};
      InsertStringCorrect(keys, k);
      keys := InsertString(keys, k);
    }
    AscendingUnique(keys, Ordered(m.Keys));
  }

  // ---- the encoding ------------------------------------------------------

  function Line(key: string, value: string): string {
    key + "=" + value + "\n"
  }

  /** The lines of these keys, in order. */
  function LinesOf(labels: map<string, string>, keys: seq<string>): string
    requires forall k | k in keys :: k in labels
  {
    if |keys| == 0 then "" else LinesOf(labels, keys[..|keys| - 1]) + Line(keys[|keys| - 1], labels[keys[|keys| - 1]])
  }

  ghost function Serialize(labels: map<string, string>): string {
    LinesOf(labels, Ordered(labels.Keys))
  }

  ghost function Fingerprint(rules: Rules, labels: map<string, string>): string {
    rules.labelHash(Serialize(labels))
  }

  /** Hashes a label set: its keys sorted, each written as one line. */
  method FingerprintLabels(rules: Rules, labels: map<string, string>) returns (id: string)
    ensures id == Fingerprint(rules, labels)
  {
    if labels == map[] {
      assert labels.Keys == {};
      return rules.labelHash("");
    }
    var keys := SortedKeys(labels);
    var text := WriteLines(labels, keys);
    id := rules.labelHash(text);
  }

  method WriteLines(labels: map<string, string>, keys: seq<string>) returns (b: string)
    requires forall k | k in keys :: k in labels
    ensures b == LinesOf(labels, keys)
  {
    b := "";
    for i := 0 to |keys|
      invariant b == LinesOf(labels, keys[..i])
    {
      assert keys[..i + 1][..i] == keys[..i];
      b := b + Line(keys[i], labels[keys[i]]);
    }
    assert keys[..|keys|] == keys;
  }

  /** No key holds the separator, no value the terminator. */
  ghost predicate Clean(labels: map<string, string>) {
    (forall k | k in labels :: '=' !in k) && (forall k | k in labels :: '\n' !in labels[k])
  }

  /** What precedes the first c is determined. */
  lemma {:induction false} CutIsUnique(a: string, b: string, r: string, s: string, c: char)
    requires c !in a && c !in b && a + [c] + r == b + [c] + s
    ensures a == b && r == s
  {
    var x, y := a + [c] + r, b + [c] + s;
    NotShorter(a, b, r, s, c);
    NotShorter(b, a, s, r, c);
    assert a == x[..|a|] && b == y[..|b|];
    assert r == x[|a| + 1..] && s == y[|b| + 1..];
  }

  lemma NotShorter(a: string, b: string, r: string, s: string, c: char)
    requires c !in b && a + [c] + r == b + [c] + s
    ensures |b| <= |a|
  {
    assert (a + [c] + r)[|a|] == c;
  }

  /** Reading lines from the front: the first key and value are determined, and so is the rest. */
  lemma {:induction false} LinesFromFront(labels: map<string, string>, keys: seq<string>)
    requires (forall k | k in keys :: k in labels) && |keys| != 0
    ensures LinesOf(labels, keys) == Line(keys[0], labels[keys[0]]) + LinesOf(labels, keys[1..])
  {
    if |keys| == 1 {
      assert keys[..0] == [] && keys[1..] == [];
    } else {
      var front := keys[..|keys| - 1];
      LinesFromFront(labels, front);
      assert front[1..] == keys[1..][..|keys| - 2];
      assert LinesOf(labels, keys[1..]) == LinesOf(labels, front[1..])
        + Line(keys[|keys| - 1], labels[keys[|keys| - 1]]);
    }
  }

  /** A line's key and value, and what follows it, are determined. */
  lemma FirstLine(k: string, v: string, r: string, l: string, w: string, s: string)
    requires '=' !in k && '=' !in l && '\n' !in v && '\n' !in w
    requires Line(k, v) + r == Line(l, w) + s
    ensures k == l && v == w && r == s
  {
    assert Line(k, v) + r == k + "=" + (v + "\n" + r);
    assert Line(l, w) + s == l + "=" + (w + "\n" + s);
    CutIsUnique(k, l, v + "\n" + r, w + "\n" + s, '=');
    CutIsUnique(v, w, r, s, '\n');
  }

  lemma {:induction false} LinesAreInjective(a: map<string, string>, ks: seq<string>, b: map<string, string>,
        ls: seq<string>)
    requires Clean(a) && Clean(b) && (forall k | k in ks :: k in a) && (forall k | k in ls :: k in b)
    requires LinesOf(a, ks) == LinesOf(b, ls)
    ensures ks == ls && forall k | k in ks :: a[k] == b[k]
    decreases |ks|
  {
    if |ks| != 0 {
      LinesFromFront(a, ks);
    }
    if |ls| != 0 {
      LinesFromFront(b, ls);
    }
    if |ks| != 0 && |ls| != 0 {
      assert ks[0] in ks && ls[0] in ls;
      FirstLine(ks[0], a[ks[0]], LinesOf(a, ks[1..]), ls[0], b[ls[0]], LinesOf(b, ls[1..]));
      LinesAreInjective(a, ks[1..], b, ls[1..]);
      assert ks == [ks[0]] + ks[1..] && ls == [ls[0]] + ls[1..];
    }
  }

  /** Stream identity: on clean label sets the encoding is injective. */
  lemma SerializeIsInjective(a: map<string, string>, b: map<string, string>)
    requires Clean(a) && Clean(b)
    ensures Serialize(a) == Serialize(b) <==> a == b
  {
    if Serialize(a) == Serialize(b) {
      LinesAreInjective(a, Ordered(a.Keys), b, Ordered(b.Keys));
      assert forall k :: k in a <==> k in Ordered(a.Keys);
      assert forall k :: k in b <==> k in Ordered(b.Keys);
      assert a == b;
    }
  }

  lemma SerializeOne(labels: map<string, string>, k: string)
    requires labels.Keys == {k}
    ensures Serialize(labels) == Line(k, labels[k])
  {
    AscendingUnique([k], Ordered(labels.Keys));
    assert LinesOf(labels, [k]) == LinesOf(labels, [k][..0]) + Line(k, labels[k]);
  }

  lemma SerializeTwo(labels: map<string, string>, k: string, l: string)
    requires labels.Keys == {k, l} && Less(k, l)
    ensures Serialize(labels) == Line(k, labels[k]) + Line(l, labels[l])
  {
    AscendingUnique([k, l], Ordered(labels.Keys));
    assert [k, l][..1] == [k];
    assert LinesOf(labels, [k]) == LinesOf(labels, [k][..0]) + Line(k, labels[k]);
    assert LinesOf(labels, [k, l]) == LinesOf(labels, [k]) + Line(l, labels[l]);
  }

  lemma LineReads(k: string, v: string, w: string)
    ensures Line(k + "=" + v, w) == Line(k, v + "=" + w) && |k + "=" + v| > |k|
  {
    var head, tail := k + "=", "=" + w + "\n";
    assert Line(k + "=" + v, w) == head + v + tail == Line(k, v + "=" + w);
  }

  /** Neither half of the condition can go: an '=' may move from a key to its value ... */
  lemma SeparatorInKeyCollides(k: string, v: string, w: string)
    ensures var a, b := map[k + "=" + v := w], map[k := v + "=" + w];
      a != b && Serialize(a) == Serialize(b)
  {
    LineReads(k, v, w);
    MovedSeparator(k + "=" + v, w, k, v + "=" + w);
  }

  lemma MovedSeparator(k: string, v: string, l: string, w: string)
    requires Line(k, v) == Line(l, w) && k != l
    ensures var a, b := map[k := v], map[l := w]; a != b && Serialize(a) == Serialize(b)
  {
    var a, b := map[k := v], map[l := w];
    assert k in a && k !in b;
    SerializeOne(a, k);
    SerializeOne(b, l);
  }

  /** ... and a newline in a value may pass for the end of a line. */
  lemma TerminatorInValueCollides(k: string, v: string, l: string, w: string)
    requires Less(k, l)
    ensures var a, b := map[k := v + "\n" + l + "=" + w], map[k := v, l := w];
      a != b && Serialize(a) == Serialize(b)
  {
    var a, b := map[k := v + "\n" + l + "=" + w], map[k := v, l := w];
    LessIrreflexive(k);
    assert l in b && l !in a;
    SerializeOne(a, k);
    SerializeTwo(b, k, l);
    LineSplits(k, v, l, w);
  }

  lemma LineSplits(k: string, v: string, l: string, w: string)
    ensures Line(k, v + "\n" + l + "=" + w) == Line(k, v) + Line(l, w)
  {
    var head, tail := k + "=", l + "=" + w;
    assert v + "\n" + l + "=" + w == v + "\n" + tail;
    assert Line(k, v + "\n" + tail) == head + (v + "\n" + tail) + "\n";
    assert head + (v + "\n" + tail) + "\n" == (head + v + "\n") + (tail + "\n");
  }

  // ---- streams -----------------------------------------------------------

  /** The id covers the full label set, the fingerprint only the low-cardinality labels. */
  datatype Stream = Stream(id: string, labels: map<string, string>, lowCard: map<string, string>,
    highCard: map<string, string>, fingerprint: string)

  ghost function StreamFor(rules: Rules, entries: seq<LogEntry>, threshold: int, labels: map<string, string>): Stream {
    var low := LowCard(entries, threshold, labels);
    Stream(Fingerprint(rules, labels), labels, low, HighCard(entries, threshold, labels), Fingerprint(rules, low))
  }

  /** The stream each entry asks for, classified against all the entries. */
  ghost function Wanted(rules: Rules, entries: seq<LogEntry>, threshold: int): (ss: seq<Stream>)
    ensures |ss| == |entries|
  {
    seq(|entries|, i requires 0 <= i < |entries| => StreamFor(rules, entries, threshold, entries[i].labels))
  }

  /** Some stream has this id. */
  ghost predicate IsNamed(ss: seq<Stream>, id: string) {
    exists s :: s in ss && s.id == id
  }

  /** The first stream of each id, in order. */
  ghost function FirstOfEach(ss: seq<Stream>): seq<Stream> {
    if |ss| == 0 then []
    else
      var before := FirstOfEach(ss[..|ss| - 1]);
      if IsNamed(before, ss[|ss| - 1].id) then before else before + [ss[|ss| - 1]]
  }

  /** The streams, in the order the entries first name them. */
  ghost function StreamsOf(rules: Rules, entries: seq<LogEntry>, threshold: int): seq<Stream> {
    FirstOfEach(Wanted(rules, entries, threshold))
  }

  ghost function StreamIds(rules: Rules, entries: seq<LogEntry>): (ids: seq<string>)
    ensures |ids| == |entries|
  {
    seq(|entries|, i requires 0 <= i < |entries| => Fingerprint(rules, entries[i].labels))
  }

  predicate DistinctStreams(ss: seq<Stream>) {
    forall i, j | 0 <= i < j < |ss| :: ss[i].id != ss[j].id
  }

  lemma NamedSnoc(ss: seq<Stream>, s: Stream, id: string)
    ensures IsNamed(ss + [s], id) <==> IsNamed(ss, id) || s.id == id
  {
    assert (ss + [s])[|ss|] == s;
    assert forall t :: t in ss + [s] <==> t in ss || t == s;
  }

  /** Ids are distinct, each id wanted is kept, and nothing else is. */
  lemma {:induction false} FirstOfEachKeepsIds(ss: seq<Stream>)
    ensures DistinctStreams(FirstOfEach(ss))
    ensures forall i | 0 <= i < |ss| :: IsNamed(FirstOfEach(ss), ss[i].id)
    ensures forall s | s in FirstOfEach(ss) :: s in ss
  {
    if |ss| != 0 {
      var front, s := ss[..|ss| - 1], ss[|ss| - 1];
      var before := FirstOfEach(front);
      FirstOfEachKeepsIds(front);
      assert ss == front + [s];
      forall i | 0 <= i < |ss| ensures IsNamed(FirstOfEach(ss), ss[i].id) {
        NamedSnoc(before, s, ss[i].id);
        assert i < |front| ==> IsNamed(before, front[i].id);
      }
      if !IsNamed(before, s.id) {
        assert forall i | 0 <= i < |before| :: before[i] in before;
      }
    }
  }

  ghost predicate AllClean(entries: seq<LogEntry>) {
    forall e | e in entries :: Clean(e.labels)
  }

  /** Two entries share a stream id exactly when their label sets are equal. */
  lemma SameStreamIffSameLabels(rules: Rules, entries: seq<LogEntry>, i: nat, j: nat)
    requires Injective(rules.labelHash) && AllClean(entries) && i < |entries| && j < |entries|
    ensures StreamIds(rules, entries)[i] == StreamIds(rules, entries)[j] <==> entries[i].labels == entries[j].labels
  {
    assert entries[i] in entries && entries[j] in entries;
    SerializeIsInjective(entries[i].labels, entries[j].labels);
  }

  lemma SameIdSameStream(rules: Rules, entries: seq<LogEntry>, threshold: int, i: nat, j: nat)
    requires Injective(rules.labelHash) && AllClean(entries) && i < |entries| && j < |entries|
    requires Wanted(rules, entries, threshold)[i].id == Wanted(rules, entries, threshold)[j].id
    ensures Wanted(rules, entries, threshold)[i] == Wanted(rules, entries, threshold)[j]
  {
    assert StreamIds(rules, entries)[i] == StreamIds(rules, entries)[j];
    SameStreamIffSameLabels(rules, entries, i, j);
  }

  /** When ids tell streams apart, keeping the first of each id loses none. */
  lemma FirstOfEachKeepsAll(ss: seq<Stream>)
    requires forall i, j | 0 <= i < |ss| && 0 <= j < |ss| && ss[i].id == ss[j].id :: ss[i] == ss[j]
    ensures forall s :: s in FirstOfEach(ss) <==> s in ss
  {
    FirstOfEachKeepsIds(ss);
    forall i | 0 <= i < |ss| ensures ss[i] in FirstOfEach(ss) {
      var t :| t in FirstOfEach(ss) && t.id == ss[i].id;
    }
  }

  /** One stream per distinct label set: the streams are exactly those the entries ask for. */
  lemma OneStreamPerLabelSet(rules: Rules, entries: seq<LogEntry>, threshold: int, s: Stream)
    requires Injective(rules.labelHash) && AllClean(entries)
    ensures s in StreamsOf(rules, entries, threshold) <==> s in Wanted(rules, entries, threshold)
    ensures DistinctStreams(StreamsOf(rules, entries, threshold))
  {
    var wanted := Wanted(rules, entries, threshold);
    forall i, j | 0 <= i < |wanted| && 0 <= j < |wanted| && wanted[i].id == wanted[j].id
      ensures wanted[i] == wanted[j]
    {
      SameIdSameStream(rules, entries, threshold, i, j);
    }
    FirstOfEachKeepsAll(wanted);
    FirstOfEachKeepsIds(wanted);
  }

  /** A stream's low-cardinality labels are some entry's. */
  lemma StreamLabelsAreEntries(rules: Rules, entries: seq<LogEntry>, threshold: int, s: Stream) returns (e: LogEntry)
    requires s in StreamsOf(rules, entries, threshold)
    ensures e in entries && s.lowCard.Keys <= e.labels.Keys
  {
    var wanted := Wanted(rules, entries, threshold);
    FirstOfEachKeepsIds(wanted);
    var i :| 0 <= i < |wanted| && wanted[i] == s;
    e := entries[i];
  }

  /** Order independence: the streams and their label split depend only on which entries there are. */
  lemma StreamsAreOrderFree(rules: Rules, a: seq<LogEntry>, b: seq<LogEntry>, threshold: int, s: Stream)
    requires Injective(rules.labelHash) && AllClean(a) && forall e :: e in a <==> e in b
    ensures s in StreamsOf(rules, a, threshold) <==> s in StreamsOf(rules, b, threshold)
  {
    OneStreamPerLabelSet(rules, a, threshold, s);
    OneStreamPerLabelSet(rules, b, threshold, s);
    if s in Wanted(rules, a, threshold) {
      WantedCarriesOver(rules, a, b, threshold, s);
    }
    if s in Wanted(rules, b, threshold) {
      WantedCarriesOver(rules, b, a, threshold, s);
    }
  }

  lemma WantedCarriesOver(rules: Rules, a: seq<LogEntry>, b: seq<LogEntry>, threshold: int, s: Stream)
    requires forall e :: e in a <==> e in b
    requires s in Wanted(rules, a, threshold)
    ensures s in Wanted(rules, b, threshold)
  {
    var i :| 0 <= i < |a| && s == Wanted(rules, a, threshold)[i];
    assert a[i] in b;
    var j :| 0 <= j < |b| && b[j] == a[i];
    ClassificationIsOrderFree(a, b, threshold, a[i].labels);
    assert Wanted(rules, b, threshold)[j] == s;
  }

  // ---- building them -----------------------------------------------------

  method NewLogStream(rules: Rules, labels: map<string, string>, tracker: CardinalityTracker,
        ghost entries: seq<LogEntry>, ghost limit: int)
    returns (s: Stream)
    requires tracker.HasObserved(entries) && tracker.threshold == Threshold(limit)
    ensures s == StreamFor(rules, entries, limit, labels)
  {
    var lowCard, highCard := tracker.Classify(labels, entries, limit);
    var id := FingerprintLabels(rules, labels);
    var fingerprint := FingerprintLabels(rules, lowCard);
    s := Stream(id, labels, lowCard, highCard, fingerprint);
  }

  ghost function IdsOfStreams(ss: seq<Stream>): (ids: seq<string>)
    ensures |ids| == |ss|
  {
    seq(|ss|, i requires 0 <= i < |ss| => ss[i].id)
  }

  lemma WantedIds(rules: Rules, entries: seq<LogEntry>, threshold: int)
    ensures IdsOfStreams(Wanted(rules, entries, threshold)) == StreamIds(rules, entries)
  {
  }

  /** wanted lists the stream each entry asks for; only a stream's own term unfolds it. */
  ghost predicate Lists(rules: Rules, entries: seq<LogEntry>, threshold: int, wanted: seq<Stream>) {
    |wanted| == |entries|
    && forall i {:trigger StreamFor(rules, entries, threshold, entries[i].labels)} | 0 <= i < |entries| ::
      wanted[i] == StreamFor(rules, entries, threshold, entries[i].labels)
  }

  /** One entry of the second pass: a new stream when its id has not been named yet. */
  method CollectNext(rules: Rules, entries: seq<LogEntry>, i: nat, tracker: CardinalityTracker, streams: seq<Stream>,
        seen: set<string>, ghost threshold: int, ghost wanted: seq<Stream>)
    returns (streams': seq<Stream>, seen': set<string>, id: string)
    requires i < |entries| && tracker.HasObserved(entries) && tracker.threshold == Threshold(threshold)
    requires Lists(rules, entries, threshold, wanted)
    requires streams == FirstOfEach(wanted[..i]) && SeenAre(seen, streams)
    ensures streams' == FirstOfEach(wanted[..i + 1]) && SeenAre(seen', streams') && id == wanted[i].id
  {
    FirstOfEachNext(wanted, i);
    assert wanted[i] == StreamFor(rules, entries, threshold, entries[i].labels);
    streams', seen' := streams, seen;
    id := FingerprintLabels(rules, entries[i].labels);
    if id !in seen {
      var s := NewLogStream(rules, entries[i].labels, tracker, entries, threshold);
      NamesGrow(streams, s, seen);
      streams', seen' := streams + [s], seen + {id};
    }
  }

  /** The second pass: one stream per id, in the order the entries first name them. */
  method CollectStreams(rules: Rules, entries: seq<LogEntry>, tracker: CardinalityTracker, ghost threshold: int,
        ghost wanted: seq<Stream>)
    returns (streams: seq<Stream>, ids: seq<string>)
    requires tracker.HasObserved(entries) && tracker.threshold == Threshold(threshold)
    requires Lists(rules, entries, threshold, wanted)
    ensures streams == FirstOfEach(wanted) && ids == IdsOfStreams(wanted)
  {
    var seen: set<string> := {};
    streams, ids := [], [];
    for i := 0 to |entries|
      invariant streams == FirstOfEach(wanted[..i]) && SeenAre(seen, streams)
      invariant ids == IdsOfStreams(wanted[..i])
    {
      var id;
      streams, seen, id := CollectNext(rules, entries, i, tracker, streams, seen, threshold, wanted);
      IdsNext(wanted, i);
      ids := ids + [id];
    }
    assert wanted[..|entries|] == wanted;
  }

  /**
    Two passes: observe every label of every entry, then build one stream per distinct fingerprint, in
    the order the entries first name them.
   */
  method BuildStreams(rules: Rules, entries: seq<LogEntry>, threshold: int)
    returns (streams: seq<Stream>, ids: seq<string>)
    ensures streams == StreamsOf(rules, entries, threshold) && ids == StreamIds(rules, entries)
  {
    var tracker := new CardinalityTracker(threshold);
    tracker.ObserveAll(entries);
    streams, ids := CollectStreams(rules, entries, tracker, threshold, Wanted(rules, entries, threshold));
    WantedIds(rules, entries, threshold);
  }

  lemma FirstOfEachNext(ss: seq<Stream>, i: nat)
    requires i < |ss|
    ensures var before := FirstOfEach(ss[..i]);
      FirstOfEach(ss[..i + 1]) == if IsNamed(before, ss[i].id) then before else before + [ss[i]]
  {
    assert ss[..i + 1][..i] == ss[..i];
  }

  lemma IdsNext(ss: seq<Stream>, i: nat)
    requires i < |ss|
    ensures IdsOfStreams(ss[..i + 1]) == IdsOfStreams(ss[..i]) + [ss[i].id]
  {
  }

  /** seen holds exactly the ids of these streams. */
  ghost predicate SeenAre(seen: set<string>, ss: seq<Stream>) {
    forall x :: x in seen <==> IsNamed(ss, x)
  }

  lemma NamesGrow(ss: seq<Stream>, s: Stream, seen: set<string>)
    requires SeenAre(seen, ss)
    ensures SeenAre(seen + {s.id}, ss + [s])
  {
    forall x ensures x in seen + {s.id} <==> IsNamed(ss + [s], x) {
      NamedSnoc(ss, s, x);
    }
  }
}
