/** Stable sorting by an integer key, as sort.SliceStable does it, and the lexicographic sort of strings. */
module Sorting {

  import opened Strings

  predicate SortedBy<T>(s: seq<T>, key: T -> int) {
    forall i, j | 0 <= i < j < |s| :: key(s[i]) <= key(s[j])
  }

  /** The elements with key k, in order. */
  function WithKey<T>(s: seq<T>, key: T -> int, k: int): seq<T> {
    if |s| == 0 then []
    else WithKey(s[..|s| - 1], key, k) + if key(s[|s| - 1]) == k then [s[|s| - 1]] else []
  }

  /** t is s sorted, with the elements of equal key in the order they had in s. */
  ghost predicate StablySorted<T>(s: seq<T>, t: seq<T>, key: T -> int) {
    SortedBy(t, key) && multiset(t) == multiset(s) && forall k :: WithKey(t, key, k) == WithKey(s, key, k)
  }

  /** There is only one such rearrangement. */
  lemma {:induction false} StablySortedUnique<T>(s: seq<T>, t: seq<T>, u: seq<T>, key: T -> int)
    requires StablySorted(s, t, key) && StablySorted(s, u, key)
    ensures t == u
  {
    SameGroupsSame(t, u, key);
  }

  lemma SameLast<T>(t: seq<T>, u: seq<T>, key: T -> int)
    requires SortedBy(t, key) && SortedBy(u, key) && |t| != 0
    requires forall k :: WithKey(t, key, k) == WithKey(u, key, k)
    ensures |u| != 0 && t[|t| - 1] == u[|u| - 1]
  {
    var x := t[|t| - 1];
    var group := WithKey(t, key, key(x));
    assert group[|group| - 1] == x;
    MaximalKey(u, key, key(x));
    var y := u[|u| - 1];
    assert |WithKey(u, key, key(y))| != 0;
    MaximalKey(t, key, key(y));
    assert group == WithKey(u, key, key(y));
  }

  lemma {:induction false} SameGroupsSame<T>(t: seq<T>, u: seq<T>, key: T -> int)
    requires SortedBy(t, key) && SortedBy(u, key)
    requires forall k :: WithKey(t, key, k) == WithKey(u, key, k)
    ensures t == u
    decreases |t|
  {
    if |t| == 0 {
      if |u| != 0 {
        SameLast(u, t, key);
      }
    } else {
      SameLast(t, u, key);
      var tf, uf, x := t[..|t| - 1], u[..|u| - 1], t[|t| - 1];
      forall k ensures WithKey(tf, key, k) == WithKey(uf, key, k) {
        var a, b := WithKey(tf, key, k), WithKey(uf, key, k);
        assert WithKey(t, key, k) == if key(x) == k then a + [x] else a;
        if key(x) == k {
          assert (a + [x])[..|a|] == a && (b + [x])[..|b|] == b;
        }
      }
      SameGroupsSame(tf, uf, key);
      assert t == tf + [x] && u == uf + [x];
    }
  }

  /** In a sorted list, a key that occurs is at most the last one. */
  lemma {:induction false} MaximalKey<T>(t: seq<T>, key: T -> int, k: int)
    requires SortedBy(t, key) && |WithKey(t, key, k)| != 0
    ensures |t| != 0 && k <= key(t[|t| - 1])
    decreases |t|
  {
    if key(t[|t| - 1]) != k {
      MaximalKey(t[..|t| - 1], key, k);
    }
  }

  /** Inserts x behind the elements whose key does not exceed its own. */
  function Insert<T>(s: seq<T>, x: T, key: T -> int): seq<T> {
    if |s| == 0 || key(s[|s| - 1]) <= key(x) then s + [x] else Insert(s[..|s| - 1], x, key) + [s[|s| - 1]]
  }

  /** The position insertion finds: everything behind it has a greater key, what is just before it has not. */
  lemma {:induction false} InsertAt<T>(s: seq<T>, x: T, key: T -> int, j: nat)
    requires j <= |s| && (forall k | j <= k < |s| :: key(s[k]) > key(x)) && (j == 0 || key(s[j - 1]) <= key(x))
    ensures Insert(s, x, key) == s[..j] + [x] + s[j..]
    decreases |s|
  {
    if j < |s| {
      InsertAt(s[..|s| - 1], x, key, j);
      assert s[..|s| - 1][..j] == s[..j];
      assert s[j..] == s[..|s| - 1][j..] + [s[|s| - 1]];
    } else {
      assert s[..j] == s && s[j..] == [];
    }
  }

  lemma InsertedOnce<T>(s: seq<T>, x: T, j: nat)
    requires j <= |s|
    ensures multiset(s[..j] + [x] + s[j..]) == multiset(s) + multiset{x}
  {
    assert s == s[..j] + s[j..];
  }

  /** sort.SliceStable with "smaller key first". */
  function SortStable<T>(s: seq<T>, key: T -> int): seq<T> {
    if |s| == 0 then [] else Insert(SortStable(s[..|s| - 1], key), s[|s| - 1], key)
  }

  lemma {:induction false} InsertMultiset<T>(s: seq<T>, x: T, key: T -> int)
    ensures multiset(Insert(s, x, key)) == multiset(s) + multiset{x}
  {
    if |s| != 0 && key(s[|s| - 1]) > key(x) {
      InsertMultiset(s[..|s| - 1], x, key);
      assert s == s[..|s| - 1] + [s[|s| - 1]];
    }
  }

  lemma {:induction false} InsertSorted<T>(s: seq<T>, x: T, key: T -> int)
    requires SortedBy(s, key)
    ensures SortedBy(Insert(s, x, key), key)
  {
    if |s| != 0 && key(s[|s| - 1]) > key(x) {
      var front, last := s[..|s| - 1], s[|s| - 1];
      InsertSorted(front, x, key);
      InsertMultiset(front, x, key);
      var r := Insert(front, x, key);
      forall i | 0 <= i < |r| ensures key(r[i]) <= key(last) {
        assert r[i] in multiset(r);
        assert r[i] in front || r[i] == x;
      }
    }
  }

  lemma {:induction false} InsertKeepsGroups<T>(s: seq<T>, x: T, key: T -> int, k: int)
    requires SortedBy(s, key)
    ensures WithKey(Insert(s, x, key), key, k) == WithKey(s, key, k) + if key(x) == k then [x] else []
  {
    if |s| == 0 || key(s[|s| - 1]) <= key(x) {
      assert (s + [x])[..|s|] == s;
    } else {
      var front, last := s[..|s| - 1], s[|s| - 1];
      InsertKeepsGroups(front, x, key, k);
      var r := Insert(front, x, key);
      assert (r + [last])[..|r|] == r;
    }
  }

  /** The stable sort is the unique sorted rearrangement that keeps the order of equal keys. */
  lemma {:induction false} SortStableCorrect<T>(s: seq<T>, key: T -> int)
    ensures StablySorted(s, SortStable(s, key), key)
  {
    if |s| != 0 {
      var front, last := s[..|s| - 1], s[|s| - 1];
      SortStableCorrect(front, key);
      InsertSorted(SortStable(front, key), last, key);
      InsertMultiset(SortStable(front, key), last, key);
      assert s == front + [last];
      forall k ensures WithKey(SortStable(s, key), key, k) == WithKey(s, key, k) {
        InsertKeepsGroups(SortStable(front, key), last, key, k);
      }
    }
  }

  // ---- strings -----------------------------------------------------------

  predicate Ascending(s: seq<string>) {
    forall i, j | 0 <= i < j < |s| :: Less(s[i], s[j])
  }

  /** A strictly ascending list is determined by its elements. */
  lemma {:induction false} AscendingUnique(a: seq<string>, b: seq<string>)
    requires Ascending(a) && Ascending(b)
    requires forall x :: x in a <==> x in b
    ensures a == b
    decreases |a|
  {
    if |a| == 0 {
      HasMember(b);
    } else {
      assert a[0] in b;
      assert b[0] in a;
      FirstIsLeast(a, b[0]);
      FirstIsLeast(b, a[0]);
      if a[0] != b[0] {
        LessAsymmetric(a[0], b[0]);
      }
      NotInTail(a);
      NotInTail(b);
      forall x ensures x in a[1..] <==> x in b[1..] {
        assert x in a <==> x == a[0] || x in a[1..];
        assert x in b <==> x == b[0] || x in b[1..];
      }
      AscendingUnique(a[1..], b[1..]);
      assert a == [a[0]] + a[1..] && b == [b[0]] + b[1..];
    }
  }

  lemma HasMember(a: seq<string>)
    ensures a != [] ==> exists x :: x in a
  {
    if a != [] {
      assert a[0] in a;
    }
  }

  lemma NotInTail(a: seq<string>)
    requires Ascending(a) && |a| != 0
    ensures a[0] !in a[1..]
    ensures forall x :: x in a <==> x == a[0] || x in a[1..]
  {
    LessIrreflexive(a[0]);
    assert a == [a[0]] + a[1..];
  }

  lemma FirstIsLeast(a: seq<string>, x: string)
    requires Ascending(a) && x in a
    ensures x == a[0] || Less(a[0], x)
  {
  }

  function InsertString(s: seq<string>, x: string): seq<string> {
    if |s| == 0 || Less(s[|s| - 1], x) then s + [x] else InsertString(s[..|s| - 1], x) + [s[|s| - 1]]
  }

  lemma {:induction false} InsertStringCorrect(s: seq<string>, x: string)
    requires Ascending(s) && x !in s
    ensures Ascending(InsertString(s, x))
    ensures forall y :: y in InsertString(s, x) <==> y in s || y == x
  {
    if |s| == 0 {
    } else if Less(s[|s| - 1], x) {
      forall i | 0 <= i < |s| - 1 ensures Less(s[i], x) {
        LessTransitive(s[i], s[|s| - 1], x);
      }
    } else {
      var front, last := s[..|s| - 1], s[|s| - 1];
      LessTotal(last, x);
      assert Less(x, last);
      assert s == front + [last];
      InsertStringCorrect(front, x);
      var r := InsertString(front, x);
      forall i | 0 <= i < |r| ensures Less(r[i], last) {
        assert r[i] in r;
        assert r[i] in front || r[i] == x;
      }
    }
  }
}
