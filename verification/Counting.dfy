/** Counting the positions of a list that are marked. */
module Counting {

  /** The marked ones among the first n. */
  ghost function Where(marks: seq<bool>, n: nat): set<int>
    requires n <= |marks|
  {
    set i | 0 <= i < n && marks[i]
  }

  lemma WhereNext(marks: seq<bool>, n: nat)
    requires n < |marks|
    ensures |Where(marks, n + 1)| == |Where(marks, n)| + if marks[n] then 1 else 0
  {
    var was := Where(marks, n);
    if marks[n] {
      assert Where(marks, n + 1) == was + {n as int};
    } else {
      assert Where(marks, n + 1) == was;
    }
  }

  /** A marked position is counted behind it. */
  lemma {:induction false} WhereGrows(marks: seq<bool>, i: nat, n: nat)
    requires i < n <= |marks| && marks[i]
    ensures |Where(marks, i)| < |Where(marks, n)|
  {
    WhereNext(marks, n - 1);
    if i < n - 1 {
      WhereGrows(marks, i, n - 1);
    }
  }
}
