/** Filtering a sequence by a predicate, the list comprehension
    `[x for x in s if keep(x)]` and JavaScript's `s.filter(keep)`. */
module Seqs {

  function Filter<T>(s: seq<T>, keep: T -> bool): (r: seq<T>)
    ensures |r| <= |s|
    ensures forall k :: 0 <= k < |r| ==> keep(r[k])
  {
    if s == [] then []
    else (if keep(s[0]) then [s[0]] else []) + Filter(s[1..], keep)
  }

  /** The entries of `s` at the given positions, in the order of the
      positions: `[s[i] for i in positions]`. */
  function Pick<T>(s: seq<T>, positions: seq<nat>): (r: seq<T>)
    requires forall a :: 0 <= a < |positions| ==> positions[a] < |s|
    ensures |r| == |positions|
    ensures forall a :: 0 <= a < |positions| ==> r[a] == s[positions[a]]
  {
    seq(|positions|, a requires 0 <= a < |positions| => s[positions[a]])
  }

  /** `idx` lists, in increasing order, positions of `s` that hold `r`. */
  ghost predicate Embedding<T>(r: seq<T>, s: seq<T>, idx: seq<nat>) {
    && |idx| == |r|
    && (forall k :: 0 <= k < |idx| ==> idx[k] < |s| && s[idx[k]] == r[k])
    && (forall k, l :: 0 <= k < l < |idx| ==> idx[k] < idx[l])
  }

  ghost predicate IsSubsequence<T>(r: seq<T>, s: seq<T>) {
    exists idx :: Embedding(r, s, idx)
  }

  function Shift(idx: seq<nat>): (r: seq<nat>)
    ensures |r| == |idx| && forall k :: 0 <= k < |idx| ==> r[k] == idx[k] + 1
  {
    seq(|idx|, k requires 0 <= k < |idx| => idx[k] + 1)
  }

  /** The positions Filter keeps. */
  function KeptIndices<T>(s: seq<T>, keep: T -> bool): seq<nat> {
    if s == [] then []
    else (if keep(s[0]) then [0] else []) + Shift(KeptIndices(s[1..], keep))
  }

  lemma {:induction false} FilterEmbedding<T>(s: seq<T>, keep: T -> bool)
    ensures Embedding(Filter(s, keep), s, KeptIndices(s, keep))
  {
    if s != [] {
      FilterEmbedding(s[1..], keep);
      var tail := KeptIndices(s[1..], keep);
      assert forall k :: 0 <= k < |tail| ==> s[1..][tail[k]] == s[tail[k] + 1];
    }
  }

  /** What is kept stays in its original order. */
  lemma FilterIsSubsequence<T>(s: seq<T>, keep: T -> bool)
    ensures IsSubsequence(Filter(s, keep), s)
  {
    FilterEmbedding(s, keep);
  }

  /** An element is kept exactly when it occurs and satisfies the predicate. */
  lemma {:induction false} FilterMembers<T>(s: seq<T>, keep: T -> bool)
    ensures forall x :: x in Filter(s, keep) <==> x in s && keep(x)
  {
    if s != [] {
      FilterMembers(s[1..], keep);
      assert s == [s[0]] + s[1..];
    }
  }

  /** A sequence whose every element passes is left as it is. */
  lemma {:induction false} FilterKeepsAll<T>(s: seq<T>, keep: T -> bool)
    requires forall k :: 0 <= k < |s| ==> keep(s[k])
    ensures Filter(s, keep) == s
  {
    if s != [] {
      FilterKeepsAll(s[1..], keep);
      assert [s[0]] + s[1..] == s;
    }
  }

  lemma FilterIdempotent<T>(s: seq<T>, keep: T -> bool)
    ensures Filter(Filter(s, keep), keep) == Filter(s, keep)
  {
    FilterKeepsAll(Filter(s, keep), keep);
  }

  lemma SubsequenceReflexive<T>(s: seq<T>)
    ensures IsSubsequence(s, s)
  {
    var idx := seq(|s|, k requires 0 <= k < |s| => k as nat);
    assert Embedding(s, s, idx);
  }

  /** A subsequence of a subsequence is a subsequence. */
  lemma SubsequenceTransitive<T>(r: seq<T>, s: seq<T>, t: seq<T>)
    requires IsSubsequence(r, s) && IsSubsequence(s, t)
    ensures IsSubsequence(r, t)
  {
    var inner :| Embedding(r, s, inner);
    var outer :| Embedding(s, t, outer);
    var idx := seq(|inner|, k requires 0 <= k < |inner| => outer[inner[k]]);
    assert Embedding(r, t, idx);
  }
}
