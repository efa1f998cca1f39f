/** The page's own logic: the filter that narrows the papers shown to a
    selected cluster and a search query, the palette that colours the
    clusters by position, and the reading of the cluster-count input. */
module Page {
  import opened Wrappers
  import opened Text
  import opened Seqs
  import opened PaperRecord
  import opened ClusterBase
  import BubbleGeometry

  // ----- the paper filter -----

  /** The paper's title, abstract, a keyword or an author contains the
      lower-cased query, all compared lower-cased. */
  predicate Matches(p: Paper, query: string) {
    var q := Lower(query);
    Contains(Lower(p.title), q) || Contains(Lower(p.abstractText), q)
      || SomeContains(p.keywords, q) || SomeContains(p.authors, q)
  }

  /** The query's case does not matter: both sides are lower-cased. */
  lemma MatchesCaseInsensitive(p: Paper, query: string)
    ensures Matches(p, Lower(query)) == Matches(p, query)
  {
    LowerIdempotent(query);
  }

  /** A paper matches a query its title contains, in any case. */
  lemma MatchesTitle(p: Paper, query: string, i: nat)
    requires OccursAt(Lower(p.title), Lower(query), i)
    ensures Matches(p, query)
  {
  }

  function MatchesQuery(query: string): Paper -> bool {
    (p: Paper) => Matches(p, query)
  }

  /** The papers of the selected cluster, if any, narrowed to those that
      match the query when the query is not blank. Blankness is judged on
      the trimmed query, but matching uses the query as typed. */
  function FilterPapers(papers: seq<Paper>, selected: Option<int>, query: string): (r: seq<Paper>)
    ensures |r| <= |papers|
    ensures Trim(query) != [] ==> forall k :: 0 <= k < |r| ==> Matches(r[k], query)
  {
    var byCluster := if selected.Some? then Filter(papers, InCluster(selected.value)) else papers;
    if Trim(query) != [] then Filter(byCluster, MatchesQuery(query)) else byCluster
  }

  /** What the filter keeps is in the original order. */
  lemma FilterPapersSubsequence(papers: seq<Paper>, selected: Option<int>, query: string)
    ensures IsSubsequence(FilterPapers(papers, selected, query), papers)
  {
    var byCluster := if selected.Some? then Filter(papers, InCluster(selected.value)) else papers;
    if selected.Some? {
      FilterIsSubsequence(papers, InCluster(selected.value));
    } else {
      SubsequenceReflexive(papers);
    }
    if Trim(query) != [] {
      FilterIsSubsequence(byCluster, MatchesQuery(query));
      SubsequenceTransitive(FilterPapers(papers, selected, query), byCluster, papers);
    }
  }

  /** A paper is shown exactly when it is in the list, belongs to the
      selected cluster if one is selected, and matches the query unless the
      query is blank. */
  lemma FilterPapersMembers(papers: seq<Paper>, selected: Option<int>, query: string, p: Paper)
    ensures p in FilterPapers(papers, selected, query) <==>
      && p in papers
      && (selected.Some? ==> p.clusterId == Some(selected.value))
      && (Trim(query) != [] ==> Matches(p, query))
  {
    var byCluster := if selected.Some? then Filter(papers, InCluster(selected.value)) else papers;
    if selected.Some? {
      FilterMembers(papers, InCluster(selected.value));
    }
    if Trim(query) != [] {
      FilterMembers(byCluster, MatchesQuery(query));
    }
  }

  /** A blank query, spaces only, filters nothing. */
  lemma BlankQueryKeepsAll(papers: seq<Paper>, query: string)
    requires forall i :: 0 <= i < |query| ==> IsSpace(query[i])
    ensures FilterPapers(papers, None, query) == papers
  {
    TrimEmpty(query);
  }

  /** Filtering the filtered papers again changes nothing. */
  lemma FilterPapersIdempotent(papers: seq<Paper>, selected: Option<int>, query: string)
    ensures FilterPapers(FilterPapers(papers, selected, query), selected, query)
      == FilterPapers(papers, selected, query)
  {
    var r := FilterPapers(papers, selected, query);
    forall k | 0 <= k < |r|
      ensures (selected.Some? ==> InCluster(selected.value)(r[k])) && (Trim(query) != [] ==> MatchesQuery(query)(r[k]))
    {
      FilterPapersMembers(papers, selected, query, r[k]);
    }
    if selected.Some? {
      FilterKeepsAll(r, InCluster(selected.value));
    }
    if Trim(query) != [] {
      var byCluster := if selected.Some? then Filter(r, InCluster(selected.value)) else r;
      FilterKeepsAll(byCluster, MatchesQuery(query));
    }
  }

  // ----- cluster colours -----

  const Palette: seq<string> := [
    "#3b82f6", "#10b981", "#f59e0b", "#ef4444", "#8b5cf6",
    "#ec4899", "#06b6d4", "#84cc16", "#f97316", "#6366f1"
  ]

  /** A cluster with the colour the page gives it. */
  datatype ColouredCluster = ColouredCluster(cluster: ClusterInfo, colour: string)

  /** Every cluster, in its place, with the palette colour of its position
      modulo the palette's ten entries. */
  function ClustersWithColors(clusters: seq<ClusterInfo>): (r: seq<ColouredCluster>)
    ensures |r| == |clusters|
    ensures forall i :: 0 <= i < |r| ==> r[i] == ColouredCluster(clusters[i], Palette[i % 10])
  {
    seq(|clusters|, i requires 0 <= i < |clusters| => ColouredCluster(clusters[i], Palette[i % |Palette|]))
  }

  /** Each cluster keeps its fields and place; two clusters share a colour
      exactly when their positions agree modulo ten. */
  lemma ColoursByPosition(clusters: seq<ClusterInfo>, i: nat, j: nat)
    requires i < |clusters| && j < |clusters|
    ensures var r := ClustersWithColors(clusters);
      && r[i].cluster == clusters[i] && r[i].colour == Palette[i % 10] && r[i].colour in Palette
      && (r[i].colour == r[j].colour <==> i % 10 == j % 10)
  {
    var r := ClustersWithColors(clusters);
    assert r[i].colour == Palette[i % 10] && r[j].colour == Palette[j % 10];
    assert forall a, b :: 0 <= a < b < 10 ==> Palette[a] != Palette[b];
  }

  function Ids(coloured: seq<ColouredCluster>): (ids: seq<int>)
    ensures |ids| == |coloured|
  {
    seq(|coloured|, i requires 0 <= i < |coloured| => coloured[i].cluster.id)
  }

  function Colours(coloured: seq<ColouredCluster>): (colours: seq<string>)
    ensures |colours| == |coloured|
  {
    seq(|coloured|, i requires 0 <= i < |coloured| => coloured[i].colour)
  }

  /** Handed to the chart, a paper of the cluster at position `i` is
      painted in palette colour `i % 10`, provided the cluster ids differ. */
  lemma ChartPaintsByPosition(clusters: seq<ClusterInfo>, i: nat)
    requires i < |clusters|
    requires forall a, b :: 0 <= a < b < |clusters| ==> clusters[a].id != clusters[b].id
    ensures var coloured := ClustersWithColors(clusters);
      BubbleGeometry.FillOf(Some(clusters[i].id), Ids(coloured), Colours(coloured))
        == BubbleGeometry.Painted(Palette[i % 10])
  {
    var coloured := ClustersWithColors(clusters);
    var ids := Ids(coloured);
    assert forall a, b :: 0 <= a < b < |ids| ==> ids[a] != ids[b];
    BubbleGeometry.FillOfKnownCluster(ids, Colours(coloured), i);
  }

  // ----- the cluster-count input -----

  const DefaultClusters: int := 5

  /** `parseInt(value) || 5`: an input that does not parse, or parses to 0,
      becomes 5; any other number is taken as it is. */
  function NClustersInput(value: string): (n: int)
    ensures n != 0
    ensures ParseInt(value).Some? && ParseInt(value).value != 0 ==> n == ParseInt(value).value
    ensures ParseInt(value).None? || ParseInt(value) == Some(0) ==> n == DefaultClusters
  {
    match ParseInt(value)
    case None => DefaultClusters
    case Some(k) => if k == 0 then DefaultClusters else k
  }

  /** A positive count typed in decimal is read back; an empty field or a
      typed 0 gives 5. */
  lemma NClustersDecimal(k: nat)
    ensures k > 0 ==> NClustersInput(Decimal(k)) == k
    ensures NClustersInput("") == DefaultClusters
    ensures NClustersInput("0") == DefaultClusters
  {
    ParseDecimal(k);
    ParseDecimal(0);
    assert Decimal(0) == "0";
  }
}
