/** The backend's endpoints over the loaded collection: listing papers with
    optional filters, the weighted keyword search, re-clustering with a
    chosen method, and the collection statistics. The service state (the
    paper list, the cluster metadata and the current algorithm) is a class;
    the queries are functions of that state. */
module Api {
  import opened Wrappers
  import opened Text
  import opened Seqs
  import opened Sorting
  import opened PaperRecord
  import opened ClusterBase
  import KMeans
  import Hierarchical
  import Lda

  // ----- errors -----

  /** The error responses: 422 for a query parameter outside its declared
      range, 400 for an unknown method, 500 for a failed clustering. */
  datatype HttpError =
    | Unprocessable(parameter: string)
    | BadRequest(detail: string)
    | ServerError(detail: string)

  function Status(e: HttpError): (code: int)
    ensures code == 400 || code == 422 || code == 500
  {
    match e
    case Unprocessable(_) => 422
    case BadRequest(_) => 400
    case ServerError(_) => 500
  }

  // ----- listing papers -----

  function InYear(year: int): Paper -> bool {
    (p: Paper) => p.year == year
  }

  /** The lower-cased search term occurs in the lower-cased title, abstract
      or one of the keywords; the authors are not searched. */
  predicate MatchesSearch(p: Paper, search: string) {
    var q := Lower(search);
    Contains(Lower(p.title), q) || Contains(Lower(p.abstractText), q) || SomeContains(p.keywords, q)
  }

  function MatchesSearchOf(search: string): Paper -> bool {
    (p: Paper) => MatchesSearch(p, search)
  }

  /** The papers of `get_papers`: the cluster filter, then the year filter,
      then the search, each applied only when its parameter is given; an
      empty search string is not applied either. */
  function ListPapers(ps: seq<Paper>, clusterId: Option<int>, year: Option<int>, search: Option<string>): (r: seq<Paper>)
    ensures |r| <= |ps|
    ensures clusterId.None? && year.None? && (search.None? || search == Some([])) ==> r == ps
    ensures search.Some? && search.value != [] ==> forall k :: 0 <= k < |r| ==> MatchesSearch(r[k], search.value)
  {
    var byCluster := if clusterId.Some? then Filter(ps, InCluster(clusterId.value)) else ps;
    var byYear := if year.Some? then Filter(byCluster, InYear(year.value)) else byCluster;
    if search.Some? && search.value != [] then Filter(byYear, MatchesSearchOf(search.value)) else byYear
  }

  /** A paper is listed exactly when it is in the collection and passes
      every filter that applies. */
  lemma ListPapersMembers(ps: seq<Paper>, clusterId: Option<int>, year: Option<int>, search: Option<string>, p: Paper)
    ensures p in ListPapers(ps, clusterId, year, search) <==>
      && p in ps
      && (clusterId.Some? ==> p.clusterId == Some(clusterId.value))
      && (year.Some? ==> p.year == year.value)
      && (search.Some? && search.value != [] ==> MatchesSearch(p, search.value))
  {
    var byCluster := if clusterId.Some? then Filter(ps, InCluster(clusterId.value)) else ps;
    var byYear := if year.Some? then Filter(byCluster, InYear(year.value)) else byCluster;
    if clusterId.Some? {
      FilterMembers(ps, InCluster(clusterId.value));
    }
    if year.Some? {
      FilterMembers(byCluster, InYear(year.value));
    }
    if search.Some? && search.value != [] {
      FilterMembers(byYear, MatchesSearchOf(search.value));
    }
  }

  /** The listed papers are in collection order. */
  lemma ListPapersSubsequence(ps: seq<Paper>, clusterId: Option<int>, year: Option<int>, search: Option<string>)
    ensures IsSubsequence(ListPapers(ps, clusterId, year, search), ps)
  {
    var byCluster := if clusterId.Some? then Filter(ps, InCluster(clusterId.value)) else ps;
    var byYear := if year.Some? then Filter(byCluster, InYear(year.value)) else byCluster;
    if clusterId.Some? {
      FilterIsSubsequence(ps, InCluster(clusterId.value));
    } else {
      SubsequenceReflexive(ps);
    }
    if year.Some? {
      FilterIsSubsequence(byCluster, InYear(year.value));
      SubsequenceTransitive(byYear, byCluster, ps);
    }
    if search.Some? && search.value != [] {
      FilterIsSubsequence(byYear, MatchesSearchOf(search.value));
      SubsequenceTransitive(ListPapers(ps, clusterId, year, search), byYear, ps);
    }
  }

  /** A paper found only through an author is not listed by a search. */
  lemma AuthorsNotSearched(ps: seq<Paper>, search: string, p: Paper)
    requires search != []
    requires !Contains(Lower(p.title), Lower(search)) && !Contains(Lower(p.abstractText), Lower(search))
    requires !SomeContains(p.keywords, Lower(search))
    ensures p !in ListPapers(ps, None, None, Some(search))
  {
    ListPapersMembers(ps, None, None, Some(search), p);
  }

  // ----- search scoring -----

  /** How many keywords contain `q` once lower-cased. */
  function KeywordHits(keywords: seq<string>, q: string): (hits: nat)
    ensures hits <= |keywords|
  {
    if keywords == [] then 0
    else KeywordHits(keywords[..|keywords| - 1], q)
         + (if Contains(Lower(keywords[|keywords| - 1]), q) then 1 else 0)
  }

  /** The weighted score of a paper for the lower-cased query `q`. */
  function ScoreOf(p: Paper, q: string): (s: nat)
    ensures Contains(Lower(p.title), q) ==> s >= 10
    ensures s % 5 == (if Contains(Lower(p.abstractText), q) then 2 else 0)
  {
    (if Contains(Lower(p.title), q) then 10 else 0)
      + 5 * KeywordHits(p.keywords, q)
      + (if Contains(Lower(p.abstractText), q) then 2 else 0)
  }

  lemma {:induction false} KeywordHitsPositive(keywords: seq<string>, q: string)
    ensures KeywordHits(keywords, q) > 0 <==> SomeContains(keywords, q)
  {
    if keywords != [] {
      var init := keywords[..|keywords| - 1];
      KeywordHitsPositive(init, q);
      if SomeContains(init, q) {
        var k :| 0 <= k < |init| && Contains(Lower(init[k]), q);
        assert keywords[k] == init[k];
      }
      if SomeContains(keywords, q) && !Contains(Lower(keywords[|keywords| - 1]), q) {
        var k :| 0 <= k < |keywords| && Contains(Lower(keywords[k]), q);
        assert init[k] == keywords[k];
      }
    }
  }

  /** A paper scores exactly when the query occurs in its title, its
      abstract or a keyword, and scores at most 12 plus 5 per keyword. */
  lemma ScoreSpec(p: Paper, q: string)
    ensures ScoreOf(p, q) > 0 <==>
      Contains(Lower(p.title), q) || Contains(Lower(p.abstractText), q) || SomeContains(p.keywords, q)
    ensures ScoreOf(p, q) <= 12 + 5 * |p.keywords|
  {
    KeywordHitsPositive(p.keywords, q);
  }

  /** A paper with score > 0 and its position in the collection. */
  datatype Hit = Hit(position: nat, paper: Paper, score: int)

  /** The `(paper, score)` pairs of the scoring loop: the papers with a
      positive score, in collection order. */
  function Hits(ps: seq<Paper>, q: string): (hits: seq<Hit>)
    ensures |hits| <= |ps|
  {
    if ps == [] then []
    else
      var last := ps[|ps| - 1];
      Hits(ps[..|ps| - 1], q) + (if ScoreOf(last, q) > 0 then [Hit(|ps| - 1, last, ScoreOf(last, q))] else [])
  }

  function ScoreKey(): Hit -> real {
    (h: Hit) => h.score as real
  }

  function PositionRank(): Hit -> int {
    (h: Hit) => h.position as int
  }

  function Scores(q: string): Paper -> bool {
    (p: Paper) => ScoreOf(p, q) > 0
  }

  /** Every hit is a scoring paper at its own position with its own score. */
  lemma {:induction false} HitsSound(ps: seq<Paper>, q: string)
    ensures forall h :: h in Hits(ps, q) ==>
      h.position < |ps| && ps[h.position] == h.paper && h.score == ScoreOf(h.paper, q) > 0
  {
    if ps != [] {
      var init := ps[..|ps| - 1];
      HitsSound(init, q);
      forall h | h in Hits(ps, q)
        ensures h.position < |ps| && ps[h.position] == h.paper && h.score == ScoreOf(h.paper, q) > 0
      {
        if h in Hits(init, q) {
          assert ps[h.position] == init[h.position];
        }
      }
    }
  }

  /** The hits come in increasing position. */
  lemma {:induction false} HitsIncreasing(ps: seq<Paper>, q: string)
    ensures RankIncreasing(Hits(ps, q), PositionRank())
  {
    if ps != [] {
      var init := ps[..|ps| - 1];
      HitsIncreasing(init, q);
      HitsSound(init, q);
      var before := Hits(init, q);
      var hits := Hits(ps, q);
      forall i, j | 0 <= i < j < |hits|
        ensures hits[i].position < hits[j].position
      {
        if j == |before| {
          assert before[i] in before;
        }
      }
    }
  }

  /** Every scoring paper has a hit. */
  lemma {:induction false} HitsComplete(ps: seq<Paper>, q: string)
    ensures forall k :: 0 <= k < |ps| && ScoreOf(ps[k], q) > 0 ==> exists h :: h in Hits(ps, q) && h.position == k
  {
    if ps != [] {
      var init := ps[..|ps| - 1];
      HitsComplete(init, q);
      var before := Hits(init, q);
      var hits := Hits(ps, q);
      forall k | 0 <= k < |ps| && ScoreOf(ps[k], q) > 0
        ensures exists h :: h in hits && h.position == k
      {
        if k < |init| {
          assert init[k] == ps[k];
          var h :| h in before && h.position == k;
          assert h in hits;
        } else {
          assert hits[|hits| - 1].position == k;
        }
      }
    }
  }

  /** There are as many hits as scoring papers. */
  lemma {:induction false} HitsCount(ps: seq<Paper>, q: string)
    ensures |Hits(ps, q)| == |Filter(ps, Scores(q))|
  {
    if ps != [] {
      var init := ps[..|ps| - 1];
      var last := ps[|ps| - 1];
      HitsCount(init, q);
      FilterAppend(init, last, Scores(q));
      assert init + [last] == ps;
    }
  }

  /** Every hit is a scoring paper at its own position with its own score,
      positions increase, and every scoring paper has a hit; there are as
      many hits as scoring papers. */
  lemma HitsSpec(ps: seq<Paper>, q: string)
    ensures var hits := Hits(ps, q);
      && (forall h :: h in hits ==> h.position < |ps| && ps[h.position] == h.paper && h.score == ScoreOf(h.paper, q) > 0)
      && RankIncreasing(hits, PositionRank())
      && (forall k :: 0 <= k < |ps| && ScoreOf(ps[k], q) > 0 ==> exists h :: h in hits && h.position == k)
      && |hits| == |Filter(ps, Scores(q))|
  {
    HitsSound(ps, q);
    HitsIncreasing(ps, q);
    HitsComplete(ps, q);
    HitsCount(ps, q);
  }

  lemma {:induction false} FilterAppend<T>(s: seq<T>, x: T, keep: T -> bool)
    ensures Filter(s + [x], keep) == Filter(s, keep) + (if keep(x) then [x] else [])
  {
    if s == [] {
      assert s + [x] == [x];
    } else {
      assert (s + [x])[1..] == s[1..] + [x];
      FilterAppend(s[1..], x, keep);
    }
  }

  /** `results.sort(key=lambda x: x[1], reverse=True)`. */
  function Ranked(ps: seq<Paper>, q: string): (r: seq<Hit>)
    ensures |r| <= |ps|
    ensures multiset(r) == multiset(Hits(ps, q))
  {
    SortDescending(Hits(ps, q), ScoreKey())
  }

  /** The ranking holds the same hits, highest score first, equal scores
      in collection order. */
  lemma RankedSpec(ps: seq<Paper>, q: string)
    ensures multiset(Ranked(ps, q)) == multiset(Hits(ps, q))
    ensures DescendingThenAscending(Ranked(ps, q), ScoreKey(), PositionRank())
  {
    HitsSpec(ps, q);
    SortIsStable(Hits(ps, q), ScoreKey(), PositionRank());
  }

  /** The dictionaries of the hits' papers. */
  function PaperDicts(hits: seq<Hit>): (ds: seq<Dict>)
    ensures |ds| == |hits|
  {
    seq(|hits|, k requires 0 <= k < |hits| => ToDict(hits[k].paper))
  }

  /** The search response. */
  datatype SearchReply = SearchReply(query: string, results: seq<Dict>, total: nat)

  const MinLimit: int := 1
  const MaxLimit: int := 200

  // ----- clustering -----

  const ValidMethods: seq<string> := ["lda", "kmeans", "hierarchical"]
  const InvalidMethod: string := "Invalid method. Must be one of: lda, kmeans, hierarchical"
  const UnknownMethod: string := "Unknown clustering method: "
  const MinClusters: int := 2
  const MaxClusters: int := 20

  lemma InvalidMethodLists()
    ensures InvalidMethod == "Invalid method. Must be one of: " + Join(", ", ValidMethods)
  {
  }

  /** What a fitted model hands to the post-processing of each algorithm. */
  datatype Fit =
    | KMeansFit(labels: seq<int>, centres: seq<seq<real>>, features: seq<string>)
    | HierarchicalFit(labels: seq<int>, weights: seq<seq<real>>, features: seq<string>)
    | LdaFit(topics: seq<seq<(string, real)>>, docs: seq<seq<(int, real)>>)

  function MethodOf(f: Fit): string {
    match f
    case KMeansFit(_, _, _) => "kmeans"
    case HierarchicalFit(_, _, _) => "hierarchical"
    case LdaFit(_, _) => "lda"
  }

  /** What the fitting libraries guarantee for `count` papers and `n`
      clusters: one label (or one topic list) per paper, naming one of the
      `n` clusters, and one weight vector per cluster over the features. */
  predicate WellFormed(f: Fit, count: nat, n: nat) {
    match f
    case KMeansFit(labels, centres, features) =>
      |labels| == count && |centres| == n && LabelsIn(labels, n)
      && forall i :: 0 <= i < n ==> |centres[i]| == |features|
    case HierarchicalFit(labels, weights, features) =>
      |labels| == count && |weights| == n && LabelsIn(labels, n)
      && forall i :: 0 <= i < n ==> |weights[i]| == |features|
    case LdaFit(topics, docs) =>
      |docs| == count && |topics| == n && Lda.TopicsIn(docs, n)
  }

  /** The cluster metadata the algorithm builds from the fit. */
  function MetadataOf(f: Fit, count: nat, n: nat): (meta: seq<ClusterInfo>)
    requires WellFormed(f, count, n)
    ensures |meta| == n && WellIndexed(meta)
  {
    match f
    case KMeansFit(labels, centres, features) =>
      seq(n, i requires 0 <= i < n => KMeans.Info(i, centres[i], features))
    case HierarchicalFit(labels, weights, features) =>
      seq(n, i requires 0 <= i < n => Hierarchical.Info(i, Hierarchical.Size(labels, i), weights[i], features))
    case LdaFit(topics, docs) =>
      seq(n, i requires 0 <= i < n => Lda.Info(i, topics[i]))
  }

  /** The LDA fit gives every paper some topic, so that `max` succeeds. */
  predicate Assignable(f: Fit) {
    f.LdaFit? ==> forall k :: 0 <= k < |f.docs| ==> f.docs[k] != []
  }

  /** The label each paper receives. */
  function LabelsOf(f: Fit, count: nat, n: nat): (labels: seq<int>)
    requires WellFormed(f, count, n) && Assignable(f)
    ensures |labels| == count && LabelsIn(labels, n)
  {
    match f
    case KMeansFit(labels, _, _) => labels
    case HierarchicalFit(labels, _, _) => labels
    case LdaFit(_, docs) =>
      Lda.DominantsAreLabels(docs, n);
      Lda.Dominants(docs)
  }

  // ----- statistics -----

  function MinYear(ps: seq<Paper>): (m: int)
    requires ps != []
    ensures forall k :: 0 <= k < |ps| ==> m <= ps[k].year
    ensures exists k :: 0 <= k < |ps| && m == ps[k].year
  {
    if |ps| == 1 then ps[0].year
    else
      var rest := MinYear(ps[1..]);
      if ps[0].year <= rest then ps[0].year else rest
  }

  function MaxYear(ps: seq<Paper>): (m: int)
    requires ps != []
    ensures forall k :: 0 <= k < |ps| ==> ps[k].year <= m
    ensures exists k :: 0 <= k < |ps| && m == ps[k].year
  {
    if |ps| == 1 then ps[0].year
    else
      var rest := MaxYear(ps[1..]);
      if ps[0].year >= rest then ps[0].year else rest
  }

  function MaxCitations(ps: seq<Paper>): (m: int)
    requires ps != []
    ensures forall k :: 0 <= k < |ps| ==> ps[k].citations <= m
    ensures exists k :: 0 <= k < |ps| && m == ps[k].citations
  {
    if |ps| == 1 then ps[0].citations
    else
      var rest := MaxCitations(ps[1..]);
      if ps[0].citations >= rest then ps[0].citations else rest
  }

  function TotalCitations(ps: seq<Paper>): int {
    if ps == [] then 0 else ps[0].citations + TotalCitations(ps[1..])
  }

  function Venues(ps: seq<Paper>): set<string> {
    set k | 0 <= k < |ps| :: ps[k].venue
  }

  /** The statistics response; the average is exact here. */
  datatype Stats = Stats(
    totalPapers: nat, totalClusters: nat, currentMethod: string,
    yearMin: int, yearMax: int,
    citationsTotal: int, citationsAverage: real, citationsMax: int,
    venues: nat)

  const NoPapers: string := "No papers loaded"

  function StatsOf(ps: seq<Paper>, clusterCount: nat, algorithm: string): (r: Result<Stats, string>)
    ensures r.Err? <==> ps == []
    ensures r.Err? ==> r.error == NoPapers
  {
    if ps == [] then Err(NoPapers)
    else Ok(Stats(|ps|, clusterCount, algorithm, MinYear(ps), MaxYear(ps),
                  TotalCitations(ps), TotalCitations(ps) as real / |ps| as real, MaxCitations(ps),
                  |Venues(ps)|))
  }

  lemma {:induction false} TotalAtMost(ps: seq<Paper>, bound: int)
    requires forall k :: 0 <= k < |ps| ==> ps[k].citations <= bound
    ensures TotalCitations(ps) <= |ps| * bound
  {
    if ps != [] {
      TotalAtMost(ps[1..], bound);
      assert |ps| * bound == bound + (|ps| - 1) * bound;
    }
  }

  lemma {:induction false} TotalAtLeast(ps: seq<Paper>, bound: int)
    requires forall k :: 0 <= k < |ps| ==> bound <= ps[k].citations
    ensures |ps| * bound <= TotalCitations(ps)
  {
    if ps != [] {
      TotalAtLeast(ps[1..], bound);
      assert |ps| * bound == bound + (|ps| - 1) * bound;
    }
  }

  lemma AverageBetween(total: int, n: int, low: int, high: int)
    requires n > 0 && n * low <= total <= n * high
    ensures low as real <= total as real / n as real <= high as real
  {
    assert (n * low) as real == n as real * low as real;
    assert (n * high) as real == n as real * high as real;
  }

  /** Statistics fail exactly for an empty collection; otherwise the year
      range is ordered and spans every paper's year, the maximum bounds
      every paper's citations, the total is the sum of the citations, the
      average is the total over the count and lies between the smallest
      citations and the maximum, and at most one venue per paper is counted.
      The year bounds and the maximum are attained by some paper. */
  lemma StatsSpec(ps: seq<Paper>, clusterCount: nat, algorithm: string)
    ensures StatsOf(ps, clusterCount, algorithm).Err? <==> ps == []
    ensures ps != [] ==> var s := StatsOf(ps, clusterCount, algorithm).value;
      && s.totalPapers == |ps| && s.totalClusters == clusterCount && s.currentMethod == algorithm
      && s.yearMin <= s.yearMax
      && (forall k :: 0 <= k < |ps| ==> s.yearMin <= ps[k].year <= s.yearMax)
      && (exists k :: 0 <= k < |ps| && ps[k].year == s.yearMin)
      && (exists k :: 0 <= k < |ps| && ps[k].year == s.yearMax)
      && (forall k :: 0 <= k < |ps| ==> ps[k].citations <= s.citationsMax)
      && (exists k :: 0 <= k < |ps| && ps[k].citations == s.citationsMax)
      && s.citationsTotal == TotalCitations(ps)
      && s.citationsAverage == s.citationsTotal as real / |ps| as real
      && (exists k :: 0 <= k < |ps| && (forall j :: 0 <= j < |ps| ==> ps[k].citations <= ps[j].citations)
            && ps[k].citations as real <= s.citationsAverage)
      && s.citationsAverage <= s.citationsMax as real
      && 1 <= s.venues <= |ps|
  {
    if ps != [] {
      var s := StatsOf(ps, clusterCount, algorithm).value;
      var low := MinCitationsIndex(ps);
      TotalAtMost(ps, s.citationsMax);
      TotalAtLeast(ps, ps[low].citations);
      AverageBetween(s.citationsTotal, |ps|, ps[low].citations, s.citationsMax);
      VenuesBounds(ps);
    }
  }

  /** The position of a least-cited paper. */
  function MinCitationsIndex(ps: seq<Paper>): (k: nat)
    requires ps != []
    ensures k < |ps| && forall j :: 0 <= j < |ps| ==> ps[k].citations <= ps[j].citations
  {
    if |ps| == 1 then 0
    else
      var rest := 1 + MinCitationsIndex(ps[1..]);
      if ps[0].citations <= ps[rest].citations then 0 else rest
  }

  lemma {:induction false} VenuesBounds(ps: seq<Paper>)
    requires ps != []
    ensures 1 <= |Venues(ps)| <= |ps|
  {
    assert ps[0].venue in Venues(ps);
    if |ps| > 1 {
      VenuesBounds(ps[1..]);
      assert Venues(ps) == {ps[0].venue} + Venues(ps[1..]) by {
        forall v | v in Venues(ps)
          ensures v in {ps[0].venue} + Venues(ps[1..])
        {
          var k :| 0 <= k < |ps| && ps[k].venue == v;
          if k > 0 {
            assert ps[1..][k - 1].venue == v;
          }
        }
        forall v | v in Venues(ps[1..])
          ensures v in Venues(ps)
        {
          var k :| 0 <= k < |ps[1..]| && ps[1..][k].venue == v;
          assert ps[k + 1].venue == v;
        }
      }
    } else {
      assert Venues(ps) == {ps[0].venue};
    }
  }

  /** The re-clustering response. */
  datatype ClusterReply = ClusterReply(message: string, algorithm: string, nClusters: int, clusters: nat)

  /** The service state: the loaded papers, the metadata of the last
      clustering and the method that produced it. */
  class Backend {
    const papers: array<Paper>
    var clusters: seq<ClusterInfo>
    var currentMethod: string

    /** The state after loading `loaded`, before any clustering. */
    constructor(loaded: seq<Paper>)
      ensures fresh(papers) && papers[..] == loaded
      ensures clusters == [] && currentMethod == "kmeans"
    {
      papers := new Paper[|loaded|](k requires 0 <= k < |loaded| => loaded[k]);
      clusters := [];
      currentMethod := "kmeans";
    }

    /** `get_papers`. */
    method GetPapers(clusterId: Option<int>, year: Option<int>, search: Option<string>) returns (r: seq<Paper>)
      ensures r == ListPapers(papers[..], clusterId, year, search)
    {
      r := ListPapers(papers[..], clusterId, year, search);
    }

    /** The score loop over one paper's title, keywords and abstract. */
    static method Score(p: Paper, q: string) returns (score: int)
      ensures score == ScoreOf(p, q)
    {
      score := 0;
      if Contains(Lower(p.title), q) {
        score := score + 10;
      }
      ghost var base := score;
      for k := 0 to |p.keywords|
        invariant score == base + 5 * KeywordHits(p.keywords[..k], q)
      {
        assert p.keywords[..k + 1][..k] == p.keywords[..k];
        if Contains(Lower(p.keywords[k]), q) {
          score := score + 5;
        }
      }
      assert p.keywords[..|p.keywords|] == p.keywords;
      if Contains(Lower(p.abstractText), q) {
        score := score + 2;
      }
    }

    /** `search_papers`: a limit outside [1, 200] is refused; otherwise the
        ranked hits, cut to the limit, with the number of all hits. */
    method SearchPapers(query: string, limit: int) returns (r: Result<SearchReply, HttpError>)
      ensures !(MinLimit <= limit <= MaxLimit) <==> r == Err(Unprocessable("limit"))
      ensures r.Ok? ==> var ranked := Ranked(papers[..], Lower(query));
        r.value == SearchReply(query, PaperDicts(ranked[..Min(limit, |ranked|)]), |ranked|)
    {
      if !(MinLimit <= limit <= MaxLimit) {
        return Err(Unprocessable("limit"));
      }
      var q := Lower(query);
      var results: seq<Hit> := [];
      for k := 0 to papers.Length
        invariant results == Hits(papers[..k], q)
      {
        assert papers[..k + 1][..k] == papers[..k];
        var score := Score(papers[k], q);
        if score > 0 {
          results := results + [Hit(k, papers[k], score)];
        }
      }
      assert papers[..papers.Length] == papers[..];
      var ranked := SortDescending(results, ScoreKey());
      r := Ok(SearchReply(query, PaperDicts(ranked[..Min(limit, |ranked|)]), |ranked|));
    }

    /** `recluster_papers` with the fit the chosen algorithm produced, or
        the message of the exception it raised. An unknown method raises
        before anything changes. */
    method Recluster(algorithm: string, n: nat, fit: Result<Fit, string>) returns (r: Result<(), string>)
      requires algorithm in ValidMethods && fit.Ok? ==>
        MethodOf(fit.value) == algorithm && WellFormed(fit.value, papers.Length, n)
      modifies this, papers
      ensures algorithm !in ValidMethods ==> r == Err(UnknownMethod + algorithm)
      ensures algorithm in ValidMethods && fit.Err? ==> r == Err(fit.error)
      ensures r.Ok? <==> algorithm in ValidMethods && fit.Ok? && Assignable(fit.value)
      ensures r.Ok? ==>
        && currentMethod == algorithm
        && clusters == MetadataOf(fit.value, papers.Length, n)
        && papers[..] == Assigned(old(papers[..]), LabelsOf(fit.value, papers.Length, n), clusters)
      ensures r.Err? ==> currentMethod == old(currentMethod) && clusters == old(clusters)
      ensures r.Err? && !(algorithm in ValidMethods && fit.Ok? && fit.value.LdaFit?) ==>
        papers[..] == old(papers[..])
      ensures r.Err? && algorithm in ValidMethods && fit.Ok? && fit.value.LdaFit? ==>
        && r.error == Lda.EmptyMax
        && papers[..] == Lda.Relabelled(old(papers[..]), fit.value.docs, fit.value.topics)
    {
      if algorithm !in ValidMethods {
        return Err(UnknownMethod + algorithm);
      }
      if fit.Err? {
        return Err(fit.error);
      }
      var f := fit.value;
      var meta: seq<ClusterInfo>;
      match f {
        case KMeansFit(labels, centres, features) =>
          meta := KMeans.Cluster(papers, labels, centres, features);
        case HierarchicalFit(labels, weights, features) =>
          meta := Hierarchical.Cluster(papers, n, labels, weights, features);
        case LdaFit(topics, docs) =>
          var done := Lda.Cluster(papers, topics, docs);
          if done.Err? {
            return Err(done.error);
          }
          meta := done.value;
      }
      assert meta == MetadataOf(f, papers.Length, n);
      clusters := meta;
      currentMethod := algorithm;
      r := Ok(());
    }

    /** `cluster_papers`: the cluster count is checked first (422), then
        the method (400); a failing clustering is a 500 carrying its message. */
    method ClusterPapers(algorithm: string, n: int, fit: Result<Fit, string>) returns (r: Result<ClusterReply, HttpError>)
      requires MinClusters <= n <= MaxClusters && algorithm in ValidMethods && fit.Ok? ==>
        MethodOf(fit.value) == algorithm && WellFormed(fit.value, papers.Length, n)
      modifies this, papers
      ensures !(MinClusters <= n <= MaxClusters) ==> r == Err(Unprocessable("n_clusters"))
      ensures MinClusters <= n <= MaxClusters && algorithm !in ValidMethods ==> r == Err(BadRequest(InvalidMethod))
      ensures r.Err? && (r.error.Unprocessable? || r.error.BadRequest?) ==>
        papers[..] == old(papers[..]) && clusters == old(clusters) && currentMethod == old(currentMethod)
      ensures MinClusters <= n <= MaxClusters && algorithm in ValidMethods && fit.Err? ==>
        r == Err(ServerError(fit.error))
      ensures MinClusters <= n <= MaxClusters && algorithm in ValidMethods && fit.Ok? ==>
        (r.Ok? <==> Assignable(fit.value))
      ensures r.Err? ==> clusters == old(clusters) && currentMethod == old(currentMethod)
      ensures r.Ok? ==>
        && MinClusters <= n <= MaxClusters && algorithm in ValidMethods && fit.Ok? && Assignable(fit.value)
        && currentMethod == algorithm && |clusters| == n
        && clusters == MetadataOf(fit.value, papers.Length, n)
        && papers[..] == Assigned(old(papers[..]), LabelsOf(fit.value, papers.Length, n), clusters)
        && r.value == ClusterReply("Papers clustered using " + algorithm, algorithm, n, n)
      ensures r.Err? && MinClusters <= n <= MaxClusters && algorithm in ValidMethods && fit.Ok? && fit.value.LdaFit? ==>
        && r == Err(ServerError(Lda.EmptyMax))
        && papers[..] == Lda.Relabelled(old(papers[..]), fit.value.docs, fit.value.topics)
    {
      if !(MinClusters <= n <= MaxClusters) {
        return Err(Unprocessable("n_clusters"));
      }
      if algorithm !in ValidMethods {
        return Err(BadRequest(InvalidMethod));
      }
      var done := Recluster(algorithm, n, fit);
      if done.Err? {
        return Err(ServerError(done.error));
      }
      r := Ok(ClusterReply("Papers clustered using " + algorithm, algorithm, n, |clusters|));
    }

    /** `get_stats`. */
    method GetStats() returns (r: Result<Stats, string>)
      ensures r == StatsOf(papers[..], |clusters|, currentMethod)
    {
      r := StatsOf(papers[..], |clusters|, currentMethod);
    }
  }
}
