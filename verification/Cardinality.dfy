/** Which label keys are low-cardinality, decided over the whole collect. */
module Cardinality {

  import opened Model

  const DEFAULT_THRESHOLD: int := 500

  /** A non-positive threshold means the default. */
  function Threshold(threshold: int): int {
    if threshold <= 0 then DEFAULT_THRESHOLD else threshold
  }

  /** The distinct values a key holds anywhere in the collect. */
  ghost function ValuesOf(entries: seq<LogEntry>, key: string): set<string> {
    set e | e in entries && key in e.labels :: e.labels[key]
  }

  /** A key is low-cardinality when its distinct values over the whole collect number fewer than the threshold. */
  ghost predicate IsLow(entries: seq<LogEntry>, threshold: int, key: string) {
    |ValuesOf(entries, key)| < Threshold(threshold)
  }

  ghost function LowCard(entries: seq<LogEntry>, threshold: int, labels: map<string, string>): map<string, string> {
    map k | k in labels && IsLow(entries, threshold, k) :: labels[k]
  }

  ghost function HighCard(entries: seq<LogEntry>, threshold: int, labels: map<string, string>): map<string, string> {
    map k | k in labels && !IsLow(entries, threshold, k) :: labels[k]
  }

  /** The order of the entries, and how often one repeats, does not matter. */
  lemma ClassificationIsOrderFree(a: seq<LogEntry>, b: seq<LogEntry>, threshold: int, labels: map<string, string>)
    requires forall e :: e in a <==> e in b
    ensures forall key :: ValuesOf(a, key) == ValuesOf(b, key)
    ensures LowCard(a, threshold, labels) == LowCard(b, threshold, labels)
    ensures HighCard(a, threshold, labels) == HighCard(b, threshold, labels)
  {
    forall key ensures ValuesOf(a, key) == ValuesOf(b, key) {
    }
  }

  /** A key that no entry carries reads as low-cardinality. */
  lemma UnobservedIsLow(entries: seq<LogEntry>, threshold: int, key: string)
    requires forall e | e in entries :: key !in e.labels
    ensures IsLow(entries, threshold, key)
  {
    assert ValuesOf(entries, key) == {};
  }

  class CardinalityTracker {
    var counts: map<string, set<string>>
    const threshold: int

    constructor (threshold: int)
      ensures counts == map[] && this.threshold == Threshold(threshold)
    {
      counts := map[];
      this.threshold := if threshold <= 0 then DEFAULT_THRESHOLD else threshold;
    }

    /** The values observed under a key. */
    function Seen(key: string): set<string>
      reads this
    {
      if key in counts then counts[key] else {}
    }

    method Observe(key: string, value: string)
      modifies this
      ensures Seen(key) == old(Seen(key)) + {value}
      ensures forall k | k != key :: Seen(k) == old(Seen(k))
    {
      var vals := if key in counts then counts[key] else {};
      counts := counts[key := vals + {value}];
    }

    /** Every label of one entry, in whatever order the map yields them. */
    method ObserveLabels(labels: map<string, string>)
      modifies this
      ensures forall k :: Seen(k) == old(Seen(k)) + if k in labels then {labels[k]} else {}
    {
      var todo := labels.Keys;
      while todo != {}
        invariant todo <= labels.Keys
        invariant forall k :: Seen(k) == old(Seen(k)) + if k in labels && k !in todo then {labels[k]} else {}
        decreases todo
      {
        var k :| k in todo;
        Observe(k, labels[k]);
        todo := todo - {k};
      }
    }

    predicate IsLowCardinality(key: string)
      reads this
    {
      |Seen(key)| < threshold
    }

    /** The tracker has observed exactly these entries. */
    ghost predicate HasObserved(entries: seq<LogEntry>)
      reads this
    {
      forall k :: Seen(k) == ValuesOf(entries, k)
    }

    /** The whole-collect observation pass. */
    method ObserveAll(entries: seq<LogEntry>)
      requires counts == map[]
      modifies this
      ensures HasObserved(entries)
    {
      for i := 0 to |entries|
        invariant HasObserved(entries[..i])
      {
        ObserveLabels(entries[i].labels);
        ValuesNext(entries, i);
      }
      assert entries[..|entries|] == entries;
    }

    /** Splits one label set by the observations. */
    method Classify(labels: map<string, string>, ghost entries: seq<LogEntry>, ghost limit: int)
      returns (lowCard: map<string, string>, highCard: map<string, string>)
      requires HasObserved(entries) && threshold == Threshold(limit)
      ensures lowCard == LowCard(entries, limit, labels) && highCard == HighCard(entries, limit, labels)
    {
      lowCard, highCard := map[], map[];
      var todo := labels.Keys;
      while todo != {}
        invariant todo <= labels.Keys
        invariant forall k :: k in lowCard <==> k in labels && k !in todo && IsLow(entries, limit, k)
        invariant forall k :: k in highCard <==> k in labels && k !in todo && !IsLow(entries, limit, k)
        invariant (forall k | k in lowCard :: lowCard[k] == labels[k])
          && (forall k | k in highCard :: highCard[k] == labels[k])
        decreases todo
      {
        var k :| k in todo;
        assert IsLowCardinality(k) <==> IsLow(entries, limit, k);
        if IsLowCardinality(k) {
          lowCard := lowCard[k := labels[k]];
        } else {
          highCard := highCard[k := labels[k]];
        }
        todo := todo - {k};
      }
    }
  }

  lemma ValuesNext(entries: seq<LogEntry>, i: nat)
    requires i < |entries|
    ensures forall k ::
      ValuesOf(entries[..i + 1], k)
      == ValuesOf(entries[..i], k) + if k in entries[i].labels then {entries[i].labels[k]} else {}
  {
    assert forall e :: e in entries[..i + 1] <==> e in entries[..i] || e == entries[i] by {
      assert entries[..i + 1] == entries[..i] + [entries[i]];
    }
  }
}
