/** What streams say of the label sets behind them: identity, split, order, and the text their ids are hashed from. */
module StreamLabels {

  import opened Model
  import opened Sorting
  import opened TextLines
  import opened Cardinality
  import opened Streams

  // ---- the text of a label set -------------------------------------------

  predicate SingleLineLabels(labels: map<string, string>) {
    forall k | k in labels :: '\n' !in k && '\n' !in labels[k]
  }

  function PairTexts(labels: map<string, string>, keys: seq<string>): (texts: seq<string>)
    requires forall k | k in keys :: k in labels
    ensures |texts| == |keys|
  {
    seq(|keys|, i requires 0 <= i < |keys| => keys[i] + "=" + labels[keys[i]])
  }

  lemma {:induction false} LinesOfAreWritten(labels: map<string, string>, keys: seq<string>)
    requires forall k | k in keys :: k in labels
    ensures LinesOf(labels, keys) == Written(PairTexts(labels, keys))
  {
    if |keys| != 0 {
      var front, last := keys[..|keys| - 1], keys[|keys| - 1];
      LinesOfAreWritten(labels, front);
      WrittenSnoc(PairTexts(labels, front), last + "=" + labels[last]);
      assert PairTexts(labels, keys) == PairTexts(labels, front) + [last + "=" + labels[last]];
      assert LinesOf(labels, keys) == LinesOf(labels, front) + (last + "=" + labels[last] + "\n");
    }
  }

  /** The text hashed into a stream's id has one line for each label, key=value, in ascending order of the keys. */
  lemma LabelTextReadsBack(labels: map<string, string>, keys: seq<string>)
    requires SingleLineLabels(labels) && Ascending(keys) && forall k :: k in keys <==> k in labels
    ensures var lines := LinesIn(Serialize(labels));
      |lines| == |keys| && forall i | 0 <= i < |keys| :: lines[i] == keys[i] + "=" + labels[keys[i]]
  {
    AscendingUnique(keys, Ordered(labels.Keys));
    LinesOfAreWritten(labels, keys);
    var texts := PairTexts(labels, keys);
    forall i | 0 <= i < |texts| ensures '\n' !in texts[i] {
      assert keys[i] in keys;
    }
    WrittenReadsBack(texts);
  }

  // ---- one stream --------------------------------------------------------

  /** How many distinct values a key holds over all the entries. */
  ghost function Spread(entries: seq<LogEntry>, key: string): nat {
    |set e | e in entries && key in e.labels :: e.labels[key]|
  }

  lemma LowIsNarrow(entries: seq<LogEntry>, threshold: int, key: string)
    ensures IsLow(entries, threshold, key) <==> Spread(entries, key) < if threshold > 0 then threshold else 500
  {
    assert ValuesOf(entries, key) == set e | e in entries && key in e.labels :: e.labels[key];
  }

  lemma SomeEntryWants(rules: Rules, entries: seq<LogEntry>, threshold: int, s: Stream) returns (e: LogEntry)
    requires s in StreamsOf(rules, entries, threshold)
    ensures e in entries && s == StreamFor(rules, entries, threshold, e.labels)
  {
    var wanted := Wanted(rules, entries, threshold);
    FirstOfEachKeepsIds(wanted);
    var i :| 0 <= i < |wanted| && wanted[i] == s;
    e := entries[i];
  }

  lemma StreamForSplits(rules: Rules, entries: seq<LogEntry>, threshold: int, labels: map<string, string>)
    ensures var s := StreamFor(rules, entries, threshold, labels);
      && s.labels == labels && s.lowCard.Keys !! s.highCard.Keys && s.lowCard + s.highCard == labels
      && forall k | k in labels :: k in s.lowCard <==> IsLow(entries, threshold, k)
  {
  }

  /**
    A stream carries some entry's whole label set, split in two: a label is low-cardinality exactly when its key
    holds fewer distinct values over all the entries than the threshold, 500 unless it is positive.
   */
  lemma StreamSplitsItsLabels(rules: Rules, entries: seq<LogEntry>, threshold: int, s: Stream)
    requires s in StreamsOf(rules, entries, threshold)
    ensures exists e :: e in entries && e.labels == s.labels
    ensures s.lowCard.Keys !! s.highCard.Keys && s.lowCard + s.highCard == s.labels
    ensures forall k | k in s.labels ::
      k in s.lowCard <==> Spread(entries, k) < if threshold > 0 then threshold else 500
  {
    var e := SomeEntryWants(rules, entries, threshold, s);
    StreamForSplits(rules, entries, threshold, e.labels);
    forall k | k in s.labels
      ensures k in s.lowCard <==> Spread(entries, k) < if threshold > 0 then threshold else 500
    {
      LowIsNarrow(entries, threshold, k);
    }
  }

  lemma CleanSubset(a: map<string, string>, b: map<string, string>)
    requires Clean(a) && b.Keys <= a.Keys && forall k | k in b :: b[k] == a[k]
    ensures Clean(b)
  {
  }

  /**
    A stream's id stands for its whole label set and its fingerprint for the low-cardinality part alone, in one
    and the same encoding.
   */
  lemma IdsStandForLabels(rules: Rules, entries: seq<LogEntry>, threshold: int, s: Stream, t: Stream)
    requires Injective(rules.labelHash) && AllClean(entries)
    requires s in StreamsOf(rules, entries, threshold) && t in StreamsOf(rules, entries, threshold)
    ensures s.id == t.id <==> s.labels == t.labels
    ensures s.fingerprint == t.fingerprint <==> s.lowCard == t.lowCard
    ensures s.id == t.fingerprint <==> s.labels == t.lowCard
  {
    StreamIsClean(rules, entries, threshold, s);
    StreamIsClean(rules, entries, threshold, t);
    SerializeIsInjective(s.labels, t.labels);
    SerializeIsInjective(s.lowCard, t.lowCard);
    SerializeIsInjective(s.labels, t.lowCard);
  }

  lemma StreamIsClean(rules: Rules, entries: seq<LogEntry>, threshold: int, s: Stream)
    requires AllClean(entries) && s in StreamsOf(rules, entries, threshold)
    ensures Clean(s.labels) && Clean(s.lowCard)
    ensures s.id == Fingerprint(rules, s.labels) && s.fingerprint == Fingerprint(rules, s.lowCard)
  {
    var e := SomeEntryWants(rules, entries, threshold, s);
    CleanSubset(s.labels, s.lowCard);
  }

  /** Every entry is given the id of the stream that carries its labels. */
  lemma EntriesFindTheirStream(rules: Rules, entries: seq<LogEntry>, threshold: int, i: nat)
    requires Injective(rules.labelHash) && AllClean(entries) && i < |entries|
    ensures exists s ::
      s in StreamsOf(rules, entries, threshold) && s.id == StreamIds(rules, entries)[i] && s.labels == entries[i].labels
  {
    var wanted := Wanted(rules, entries, threshold);
    OneStreamPerLabelSet(rules, entries, threshold, wanted[i]);
    assert wanted[i] == StreamFor(rules, entries, threshold, entries[i].labels);
  }

  // ---- their order -------------------------------------------------------

  /** i is the first of the wanted streams with this id. */
  predicate FirstWith(ss: seq<Stream>, i: int, id: string) {
    0 <= i < |ss| && ss[i].id == id && forall j | 0 <= j < i :: ss[j].id != id
  }

  /** The streams stand in the order in which their ids are first wanted. */
  ghost predicate InFirstOrder(ss: seq<Stream>, kept: seq<Stream>) {
    forall a, b, i, j | 0 <= a < b < |kept| && FirstWith(ss, i, kept[a].id) && FirstWith(ss, j, kept[b].id) :: i < j
  }

  lemma {:induction false} FirstOfEachKeepsOrder(ss: seq<Stream>)
    ensures InFirstOrder(ss, FirstOfEach(ss))
  {
    if |ss| != 0 {
      var front, s := ss[..|ss| - 1], ss[|ss| - 1];
      FirstOfEachKeepsOrder(front);
      FirstOfEachKeepsIds(front);
      assert ss == front + [s];
      OrderNext(front, s, FirstOfEach(front));
    }
  }

  lemma FirstWithNext(front: seq<Stream>, s: Stream, i: int, id: string)
    requires FirstWith(front + [s], i, id)
    ensures if i < |front| then FirstWith(front, i, id)
      else id == s.id && forall j | 0 <= j < |front| :: front[j].id != id
  {
    assert forall j | 0 <= j < |front| :: (front + [s])[j] == front[j];
  }

  lemma OrderNext(front: seq<Stream>, s: Stream, before: seq<Stream>)
    requires InFirstOrder(front, before)
    requires (forall t | t in before :: t in front) && forall i | 0 <= i < |front| :: IsNamed(before, front[i].id)
    ensures InFirstOrder(front + [s], if IsNamed(before, s.id) then before else before + [s])
  {
    var kept := if IsNamed(before, s.id) then before else before + [s];
    forall a, b, i, j | 0 <= a < b < |kept|
      && FirstWith(front + [s], i, kept[a].id) && FirstWith(front + [s], j, kept[b].id)
      ensures i < j
    {
      FirstWithNext(front, s, i, kept[a].id);
      FirstWithNext(front, s, j, kept[b].id);
      assert kept[a] in before;
    }
  }

  /** Streams are listed in the order the entries first show them. */
  lemma StreamsKeepEntryOrder(rules: Rules, entries: seq<LogEntry>, threshold: int, a: nat, b: nat, i: nat, j: nat)
    requires a < b < |StreamsOf(rules, entries, threshold)| && i < |entries| && j < |entries|
    requires StreamIds(rules, entries)[i] == StreamsOf(rules, entries, threshold)[a].id
    requires StreamIds(rules, entries)[j] == StreamsOf(rules, entries, threshold)[b].id
    requires forall k | 0 <= k < i :: StreamIds(rules, entries)[k] != StreamIds(rules, entries)[i]
    requires forall k | 0 <= k < j :: StreamIds(rules, entries)[k] != StreamIds(rules, entries)[j]
    ensures i < j
  {
    var wanted := Wanted(rules, entries, threshold);
    FirstOfEachKeepsOrder(wanted);
    WantedIds(rules, entries, threshold);
    assert forall k | 0 <= k < |entries| :: wanted[k].id == StreamIds(rules, entries)[k];
    assert FirstWith(wanted, i, StreamsOf(rules, entries, threshold)[a].id);
    assert FirstWith(wanted, j, StreamsOf(rules, entries, threshold)[b].id);
  }
}
