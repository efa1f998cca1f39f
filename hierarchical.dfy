/** Agglomerative clustering after the fit: per cluster its size, its top
    terms (positive TF-IDF weights of the cluster's joined documents, with a
    fixed fallback) and its name, then each paper labelled. The labels and
    the per-cluster weight vectors come from the fitted model and are inputs. */
module Hierarchical {
  import opened Wrappers
  import opened PaperRecord
  import opened Seqs
  import opened ClusterBase

  const TopTermCount: nat := 10
  const NamePrefix: string := "Group"
  const FallbackTerms: seq<string> := ["term_0", "term_1", "term_2"]

  /** `len(np.where(cluster_labels == i)[0])`. */
  function Size(labels: seq<int>, i: int): nat {
    if labels == [] then 0
    else Size(labels[..|labels| - 1], i) + (if labels[|labels| - 1] == i then 1 else 0)
  }

  /** Sum of Size(labels, i) for i in [0, n). */
  function SizesBelow(labels: seq<int>, n: nat): nat {
    if n == 0 then 0 else SizesBelow(labels, n - 1) + Size(labels, n - 1)
  }

  lemma {:induction false} SizesBelowStep(labels: seq<int>, last: int, n: nat)
    ensures SizesBelow(labels + [last], n) == SizesBelow(labels, n) + (if 0 <= last < n then 1 else 0)
  {
    if n > 0 {
      SizesBelowStep(labels, last, n - 1);
      assert (labels + [last])[..|labels|] == labels;
    }
  }

  lemma {:induction false} SizesBelowEmpty(n: nat)
    ensures SizesBelow([], n) == 0
  {
    if n > 0 {
      SizesBelowEmpty(n - 1);
    }
  }

  /** When every label lies in [0, n), the n cluster sizes add up to the
      number of papers. */
  lemma {:induction false} SizesSum(labels: seq<int>, n: nat)
    requires LabelsIn(labels, n)
    ensures SizesBelow(labels, n) == |labels|
  {
    if labels != [] {
      var init := labels[..|labels| - 1];
      var last := labels[|labels| - 1];
      assert init + [last] == labels;
      assert 0 <= last < n;
      SizesBelowStep(init, last, n);
      SizesSum(init, n);
    } else {
      SizesBelowEmpty(n);
    }
  }

  /** The test `cluster_center[idx] > 0`. */
  function Positive(weights: seq<real>): nat -> bool {
    (idx: nat) => idx < |weights| && weights[idx] > 0.0
  }

  /** The top positions whose weight is positive, in the order of TopIndices. */
  function PositiveIndices(weights: seq<real>): (kept: seq<nat>)
    ensures |kept| <= TopTermCount
    ensures forall a :: 0 <= a < |kept| ==> kept[a] < |weights| && weights[kept[a]] > 0.0
  {
    Filter(TopIndices(weights, TopTermCount), Positive(weights))
  }

  /** `[feature_names[idx] for idx in top_indices if cluster_center[idx] > 0]`. */
  function PositiveTerms(weights: seq<real>, features: seq<string>): (terms: seq<string>)
    requires |weights| == |features|
    ensures |terms| == |PositiveIndices(weights)|
  {
    Pick(features, PositiveIndices(weights))
  }

  /** The positive positions kept are exactly the chosen ones with a
      positive weight, and they keep their order. */
  lemma PositiveIndicesSpec(weights: seq<real>)
    ensures var top := TopIndices(weights, TopTermCount);
      && (forall j :: j in PositiveIndices(weights) <==> j in top && j < |weights| && weights[j] > 0.0)
      && Seqs.IsSubsequence(PositiveIndices(weights), top)
  {
    var top := TopIndices(weights, TopTermCount);
    FilterMembers(top, Positive(weights));
    FilterIsSubsequence(top, Positive(weights));
  }

  /** The top terms of a cluster of `size` papers: none are looked up for an
      empty cluster, and the fallback replaces an empty list. */
  function TopTerms(size: nat, weights: seq<real>, features: seq<string>): (terms: seq<string>)
    requires |weights| == |features|
    ensures 1 <= |terms| <= TopTermCount
    ensures size == 0 ==> terms == FallbackTerms
  {
    var found := if size > 0 then PositiveTerms(weights, features) else [];
    if found == [] then FallbackTerms else found
  }

  /** The top terms are one to ten words: the features of the positive top
      weights when the cluster is non-empty and has some, and otherwise
      term_0, term_1, term_2. */
  lemma TopTermsSpec(size: nat, weights: seq<real>, features: seq<string>)
    requires |weights| == |features|
    ensures var terms := TopTerms(size, weights, features);
      var kept := PositiveIndices(weights);
      && 1 <= |terms| <= TopTermCount
      && (if size > 0 && kept != [] then
            |terms| == |kept| && forall a :: 0 <= a < |kept| ==> terms[a] == features[kept[a]]
          else terms == FallbackTerms)
  {
  }

  /** The metadata of cluster `i`. */
  function Info(i: nat, size: nat, weights: seq<real>, features: seq<string>): (info: ClusterInfo)
    requires |weights| == |features|
    ensures info.id == i && info.size == Some(size as int)
    ensures 1 <= |info.topWords| <= TopTermCount
  {
    var terms := TopTerms(size, weights, features);
    ClusterInfo(i, ClusterName(NamePrefix, i, terms),
                if terms != [] then terms[..Min(TopTermCount, |terms|)] else [], Some(size))
  }

  /** The entry has id `i` and the size it was given; its top words are the
      whole top-term list (never empty and at most ten, so the `else []`
      branch never applies) and the name comes from them. */
  lemma InfoSpec(i: nat, size: nat, weights: seq<real>, features: seq<string>)
    requires |weights| == |features|
    ensures var info := Info(i, size, weights, features);
      && info.id == i && info.size == Some(size as int)
      && info.topWords == TopTerms(size, weights, features)
      && info.name == ClusterName(NamePrefix, i, info.topWords)
  {
    var terms := TopTerms(size, weights, features);
    TopTermsSpec(size, weights, features);
    assert terms[..|terms|] == terms;
  }

  /** The metadata loop `for i in range(n_clusters)`. */
  method Metadata(n: nat, labels: seq<int>, weights: seq<seq<real>>, features: seq<string>)
    returns (meta: seq<ClusterInfo>)
    requires |weights| == n
    requires forall i :: 0 <= i < n ==> |weights[i]| == |features|
    ensures |meta| == n
    ensures forall i :: 0 <= i < n ==> meta[i] == Info(i, Size(labels, i), weights[i], features)
  {
    meta := [];
    for i := 0 to n
      invariant |meta| == i
      invariant forall k :: 0 <= k < i ==> meta[k] == Info(k, Size(labels, k), weights[k], features)
    {
      var info := Info(i, Size(labels, i), weights[i], features);
      meta := meta + [info];
    }
  }

  /** HierarchicalClustering.cluster after the fit. */
  method Cluster(papers: array<Paper>, n: nat, labels: seq<int>, weights: seq<seq<real>>, features: seq<string>)
    returns (meta: seq<ClusterInfo>)
    requires |labels| == papers.Length && LabelsIn(labels, n)
    requires |weights| == n
    requires forall i :: 0 <= i < n ==> |weights[i]| == |features|
    modifies papers
    ensures |meta| == n && WellIndexed(meta)
    ensures forall i :: 0 <= i < n ==> meta[i] == Info(i, Size(labels, i), weights[i], features)
    ensures papers[..] == Assigned(old(papers[..]), labels, meta)
  {
    meta := Metadata(n, labels, weights, features);
    AssignLabels(papers, labels, meta);
  }
}
