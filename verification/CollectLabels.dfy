/** From the walk to the label nodes: which of the labels a collect reads become nodes of their own. */
module CollectLabels {

  import opened Model
  import opened Collect
  import opened Graph
  import opened GraphIdentity
  import opened StreamLabels
  import Streams
  import Fetch
  import Normalize
  import Ingest

  lemma KnownKeysArePlain(rules: Rules, entries: seq<LogEntry>)
    requires forall e | e in entries :: e.labels.Keys <= {"log_group", "service", "log_stream"}
    ensures PlainKeys(StreamsFor(rules, entries))
  {
    assert '=' !in "log_group" && '=' !in "service" && '=' !in "log_stream";
    forall s, k | s in StreamsFor(rules, entries) && k in s.lowCard ensures '=' !in k {
      var e := Streams.StreamLabelsAreEntries(rules, entries, CARDINALITY_THRESHOLD, s);
      assert k in e.labels.Keys;
    }
  }

  /** A walk's streams carry the walk's labels, whose keys hold no '='. */
  lemma WalkKeysArePlain(rules: Rules, rd: Normalize.Reader, src: Fetch.Source, p: Fetch.Params, w: Fetch.TimeWindow)
    ensures PlainKeys(StreamsFor(rules, Collected(rules, rd, src, p, w)))
  {
    var walked, entries := Ingest.Walked(rd, src, p, w), Collected(rules, rd, src, p, w);
    Ingest.WalkLabelsAreKnown(rd, src, p, w);
    forall e | e in entries ensures e.labels.Keys <= {"log_group", "service", "log_stream"} {
      var i :| 0 <= i < |entries| && entries[i] == e;
      assert walked[i] in walked;
    }
    KnownKeysArePlain(rules, entries);
  }

  /** Some entry carries the label, and its key holds fewer than 500 distinct values over all the entries. */
  ghost predicate Narrow(entries: seq<LogEntry>, key: string, value: string) {
    Spread(entries, key) < 500 && exists e :: e in entries && key in e.labels && e.labels[key] == value
  }

  lemma NarrowIsStanding(rules: Rules, entries: seq<LogEntry>, key: string, value: string)
    requires Injective(rules.labelHash) && Streams.AllClean(entries)
    ensures Stands(StreamsFor(rules, entries), LabelNode(key, value)) <==> Narrow(entries, key, value)
  {
    var streams := StreamsFor(rules, entries);
    if Stands(streams, LabelNode(key, value)) {
      var s :| s in streams && key in s.lowCard && s.lowCard[key] == value;
      StreamSplitsItsLabels(rules, entries, CARDINALITY_THRESHOLD, s);
      assert key in s.labels && s.labels[key] == value;
    }
    if Narrow(entries, key, value) {
      var e :| e in entries && key in e.labels && e.labels[key] == value;
      var i :| 0 <= i < |entries| && entries[i] == e;
      EntriesFindTheirStream(rules, entries, CARDINALITY_THRESHOLD, i);
      var s :| s in streams && s.labels == entries[i].labels;
      StreamSplitsItsLabels(rules, entries, CARDINALITY_THRESHOLD, s);
      assert key in s.lowCard && s.lowCard[key] == value;
    }
  }

  /**
    What a collect makes of the labels it walks: a label has a node of its own, of its key and value, exactly when
    some entry carries it and its key is not too varied over the whole collect. Labels that share a value keep
    apart.
   */
  lemma CollectedLabelsHaveNodes(rules: Rules, rd: Normalize.Reader, src: Fetch.Source, p: Fetch.Params,
        w: Fetch.TimeWindow, key: string, value: string)
    requires Injective(rules.labelHash) && Ingest.PlainNames(src, p)
    ensures var entries := Collected(rules, rd, src, p, w);
      LabelNode(key, value) in LabelNodesOf(StreamsFor(rules, entries)) <==> Narrow(entries, key, value)
  {
    var entries := Collected(rules, rd, src, p, w);
    Ingest.WalkIsClean(rd, src, p, w);
    ReclassifyKeepsClean(rules, Ingest.Walked(rd, src, p, w));
    WalkKeysArePlain(rules, rd, src, p, w);
    EveryPairHasItsNode(StreamsFor(rules, entries), LabelNode(key, value));
    NarrowIsStanding(rules, entries, key, value);
  }
}
