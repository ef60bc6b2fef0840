/** Selecting rows of a table by position, and what "keeps the input order" means. */
module Sequences {

  predicate StrictlyIncreasing(idx: seq<nat>) {
    forall m, n :: 0 <= m < n < |idx| ==> idx[m] < idx[n]
  }

  predicate InBounds(idx: seq<nat>, len: nat) {
    forall m :: 0 <= m < |idx| ==> idx[m] < len
  }

  /** The rows of `s` at the positions `idx`, in that order. */
  function Select<T>(s: seq<T>, idx: seq<nat>): (r: seq<T>)
    requires InBounds(idx, |s|)
    ensures |r| == |idx|
    ensures forall m :: 0 <= m < |idx| ==> r[m] == s[idx[m]]
  {
    seq(|idx|, m requires 0 <= m < |idx| => s[idx[m]])
  }

  /** `r` is `s` with some rows left out and the others in their original order. */
  ghost predicate IsSubsequence<T>(r: seq<T>, s: seq<T>) {
    exists idx: seq<nat> :: StrictlyIncreasing(idx) && InBounds(idx, |s|) && r == Select(s, idx)
  }

  /** Selecting twice is selecting once through the composed positions. */
  lemma {:induction false} SelectSelect<T>(s: seq<T>, outer: seq<nat>, inner: seq<nat>)
    requires InBounds(outer, |s|) && InBounds(inner, |outer|)
    requires StrictlyIncreasing(outer) && StrictlyIncreasing(inner)
    ensures InBounds(Select(outer, inner), |s|)
    ensures StrictlyIncreasing(Select(outer, inner))
    ensures Select(Select(s, outer), inner) == Select(s, Select(outer, inner))
  {
    var both := Select(outer, inner);
    forall m, n | 0 <= m < n < |both| ensures both[m] < both[n] {
      assert inner[m] < inner[n];
    }
  }

  /** The positions below `n` whose flag is set, in increasing order: the index
      a boolean mask leaves when it is used to filter a table. */
  function Positions(keep: seq<bool>, n: nat): (idx: seq<nat>)
    requires n <= |keep|
    ensures InBounds(idx, n)
    ensures |idx| <= n
  {
    if n == 0 then [] else Positions(keep, n - 1) + (if keep[n - 1] then [n - 1] else [])
  }

  /** The positions are increasing, and exactly the flagged ones. */
  lemma {:induction false} PositionsAreFlagged(keep: seq<bool>, n: nat)
    requires n <= |keep|
    ensures StrictlyIncreasing(Positions(keep, n))
    ensures forall m :: 0 <= m < |Positions(keep, n)| ==> keep[Positions(keep, n)[m]]
    ensures forall i :: 0 <= i < n ==> (i in Positions(keep, n) <==> keep[i])
  {
    if n > 0 {
      PositionsAreFlagged(keep, n - 1);
    }
  }

  /** One more row selected at the end. */
  lemma SelectSnoc<T>(s: seq<T>, idx: seq<nat>, i: nat)
    requires InBounds(idx, |s|) && i < |s|
    ensures InBounds(idx + [i], |s|)
    ensures Select(s, idx + [i]) == Select(s, idx) + [s[i]]
  {
  }

  /** With every flag set, the positions are 0, 1, ..., n - 1. */
  lemma {:induction false} PositionsAllSet(keep: seq<bool>, n: nat)
    requires n <= |keep|
    requires forall i :: 0 <= i < n ==> keep[i]
    ensures |Positions(keep, n)| == n
    ensures forall m :: 0 <= m < n ==> Positions(keep, n)[m] == m
  {
    if n > 0 {
      PositionsAllSet(keep, n - 1);
    }
  }

  /** A mask that keeps every row keeps the table as it is. */
  lemma SelectAllFlagged<T>(s: seq<T>, keep: seq<bool>)
    requires |keep| == |s| && forall i :: 0 <= i < |s| ==> keep[i]
    ensures Select(s, Positions(keep, |s|)) == s
  {
    PositionsAllSet(keep, |s|);
  }

  /** A mask that keeps no row leaves no position. */
  lemma {:induction false} PositionsNoneSet(keep: seq<bool>, n: nat)
    requires n <= |keep| && forall i :: 0 <= i < n ==> !keep[i]
    ensures Positions(keep, n) == []
  {
    if n > 0 {
      PositionsNoneSet(keep, n - 1);
    }
  }

  /** Indexing and slicing past a prefix `h` is indexing and slicing `r`. */
  lemma SuffixOfConcat<T>(h: seq<T>, r: seq<T>, m: nat)
    requires |h| <= m < |h| + |r|
    ensures (h + r)[m] == r[m - |h|] && (h + r)[m + 1..] == r[m - |h| + 1..]
  {
  }
}
