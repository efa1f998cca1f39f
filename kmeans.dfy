/** K-means clustering after the fit: the metadata built from the cluster
    centres, then each paper labelled. The TF-IDF vectors, the centres and
    the labels come from the fitted model and are inputs here. */
module KMeans {
  import opened Wrappers
  import opened PaperRecord
  import opened Seqs
  import opened ClusterBase

  const TopTermCount: nat := 10
  const NamePrefix: string := "Cluster"

  /** The metadata of cluster `i`, from its centre. */
  function Info(i: nat, centre: seq<real>, features: seq<string>): (info: ClusterInfo)
    requires |centre| == |features|
    ensures info.id == i && info.size == None
    ensures |info.topWords| == Min(TopTermCount, |features|)
  {
    var top := TopIndices(centre, TopTermCount);
    TopIndicesSpec(centre, TopTermCount);
    var terms := Pick(features, top);
    ClusterInfo(i, ClusterName(NamePrefix, i, terms), terms, None)
  }

  /** Cluster `i`'s entry has id `i`, is named after its first three terms,
      and lists the features of the ten heaviest centre weights, heaviest
      first; no feature left out weighs more than one listed. */
  lemma InfoSpec(i: nat, centre: seq<real>, features: seq<string>)
    requires |centre| == |features|
    ensures var info := Info(i, centre, features);
      var top := TopIndices(centre, TopTermCount);
      && info.id == i && info.size == None
      && info.name == ClusterName(NamePrefix, i, info.topWords)
      && |info.topWords| == |top| == Min(TopTermCount, |features|)
      && (forall a :: 0 <= a < |top| ==> top[a] < |features| && info.topWords[a] == features[top[a]])
      && (forall a, b :: 0 <= a < b < |top| ==> centre[top[a]] >= centre[top[b]] && top[a] != top[b])
      && (forall j :: 0 <= j < |centre| && j !in top ==>
            forall a :: 0 <= a < |top| ==> centre[j] <= centre[top[a]])
  {
    TopIndicesSpec(centre, TopTermCount);
  }

  /** The metadata loop `for i in range(n_clusters)`. */
  method Metadata(centres: seq<seq<real>>, features: seq<string>) returns (meta: seq<ClusterInfo>)
    requires forall i :: 0 <= i < |centres| ==> |centres[i]| == |features|
    ensures |meta| == |centres|
    ensures forall i :: 0 <= i < |centres| ==> meta[i] == Info(i, centres[i], features)
  {
    meta := [];
    for i := 0 to |centres|
      invariant |meta| == i
      invariant forall k :: 0 <= k < i ==> meta[k] == Info(k, centres[k], features)
    {
      meta := meta + [Info(i, centres[i], features)];
    }
  }

  /** KMeansClustering.cluster after the fit: one centre per cluster, every
      label names one of them. */
  method Cluster(papers: array<Paper>, labels: seq<int>, centres: seq<seq<real>>, features: seq<string>)
    returns (meta: seq<ClusterInfo>)
    requires |labels| == papers.Length && LabelsIn(labels, |centres|)
    requires forall i :: 0 <= i < |centres| ==> |centres[i]| == |features|
    modifies papers
    ensures |meta| == |centres| && WellIndexed(meta)
    ensures forall i :: 0 <= i < |centres| ==> meta[i] == Info(i, centres[i], features)
    ensures papers[..] == Assigned(old(papers[..]), labels, meta)
  {
    meta := Metadata(centres, features);
    AssignLabels(papers, labels, meta);
  }
}
