/** The sample collection generator: a counting loop that builds each paper
    from one topic's pools of titles, abstracts, venues and keywords and
    from the shared author pool. Every random choice arrives as a `Draw`,
    whose validity is what Python's `random` functions guarantee. */
module SampleData {
  import opened Wrappers
  import opened Text
  import opened Seqs
  import opened PaperRecord

  /** The topic names, in the order of the topic table. */
  const TopicNames: seq<string> := [
    "Information Retrieval",
    "Human-Computer Interaction",
    "Machine Learning",
    "Data Mining",
    "Natural Language Processing",
    "Computer Vision"
  ]

  /** Each topic's keyword pool, by topic position. */
  const TopicKeywords: seq<seq<string>> := [
    [
      "information retrieval",
      "search engines",
      "ranking",
      "relevance",
      "query processing",
      "indexing"
    ],
    [
      "user interface",
      "usability",
      "user experience",
      "interaction design",
      "accessibility",
      "user studies"
    ],
    [
      "deep learning",
      "neural networks",
      "supervised learning",
      "reinforcement learning",
      "classification"
    ],
    [
      "clustering",
      "pattern mining",
      "association rules",
      "classification",
      "anomaly detection"
    ],
    [
      "text processing",
      "sentiment analysis",
      "named entity recognition",
      "machine translation",
      "language models"
    ],
    [
      "image recognition",
      "object detection",
      "image segmentation",
      "convolutional networks",
      "visual understanding"
    ]
  ]

  /** Each topic's venue pool, by topic position. */
  const TopicVenues: seq<seq<string>> := [
    [
      "SIGIR",
      "CIKM",
      "WSDM",
      "ECIR",
      "ICTIR"
    ],
    [
      "CHI",
      "UIST",
      "CSCW",
      "IUI",
      "DIS"
    ],
    [
      "ICML",
      "NeurIPS",
      "ICLR",
      "AAAI",
      "IJCAI"
    ],
    [
      "KDD",
      "ICDM",
      "SDM",
      "PAKDD",
      "PKDD"
    ],
    [
      "ACL",
      "EMNLP",
      "NAACL",
      "COLING",
      "EACL"
    ],
    [
      "CVPR",
      "ICCV",
      "ECCV",
      "BMVC",
      "WACV"
    ]
  ]

  const Authors: seq<string> := [
    "Dr. Sarah Chen",
    "Prof. Michael Johnson",
    "Dr. Emily Rodriguez",
    "Prof. David Kim",
    "Dr. Lisa Wang",
    "Prof. James Anderson",
    "Dr. Maria Garcia",
    "Prof. Robert Taylor",
    "Dr. Jennifer Lee",
    "Prof. Christopher Brown",
    "Dr. Amanda White",
    "Prof. Daniel Martinez",
    "Dr. Jessica Thompson",
    "Prof. Matthew Davis",
    "Dr. Nicole Wilson",
    "Prof. Andrew Moore"
  ]

  /** The pools a paper is drawn from: per topic its name, keywords,
      venues, titles and abstracts, and the shared authors. */
  datatype Pools = Pools(
    names: seq<string>, keywords: seq<seq<string>>, venues: seq<seq<string>>,
    titles: seq<seq<string>>, abstracts: seq<seq<string>>, authors: seq<string>)

  /** The generator's own pools, given its title and abstract texts. */
  function SamplePools(titles: seq<seq<string>>, abstracts: seq<seq<string>>): Pools {
    Pools(TopicNames, TopicKeywords, TopicVenues, titles, abstracts, Authors)
  }

  /** The shape of the title and abstract tables: eight titles and five
      abstracts for each of the six topics. */
  predicate TextTables(titles: seq<seq<string>>, abstracts: seq<seq<string>>) {
    && |titles| == 6 && |abstracts| == 6
    && (forall t :: 0 <= t < 6 ==> |titles[t]| == 8 && |abstracts[t]| == 5)
  }

  predicate NoRepeats(s: seq<string>) {
    forall a, b :: 0 <= a < b < |s| ==> s[a] != s[b]
  }

  /** One entry per topic in every per-topic table, at least three keywords
      per topic, and no entry repeated in a keyword pool or the author pool. */
  predicate WellShaped(pools: Pools) {
    && |pools.keywords| == |pools.names| && |pools.venues| == |pools.names|
    && |pools.titles| == |pools.names| && |pools.abstracts| == |pools.names|
    && (forall t :: 0 <= t < |pools.keywords| ==> |pools.keywords[t]| >= 3 && NoRepeats(pools.keywords[t]))
    && NoRepeats(pools.authors)
  }

  lemma AuthorsNoRepeats()
    ensures |Authors| == 16 && NoRepeats(Authors)
  {
  }

  lemma KeywordPoolsShape()
    ensures |TopicKeywords| == 6
    ensures forall t :: 0 <= t < 6 ==> |TopicKeywords[t]| >= 5 && NoRepeats(TopicKeywords[t])
  {
  }

  lemma TablesShape()
    ensures |TopicNames| == |TopicVenues| == 6
    ensures forall t :: 0 <= t < 6 ==> |TopicVenues[t]| == 5
  {
  }

  /** The generator's pools are well shaped. */
  lemma SamplePoolsWellShaped(titles: seq<seq<string>>, abstracts: seq<seq<string>>)
    requires TextTables(titles, abstracts)
    ensures WellShaped(SamplePools(titles, abstracts))
  {
    AuthorsNoRepeats();
    KeywordPoolsShape();
    TablesShape();
  }

  /** The choices `random` makes for one paper: positions in the pools, the
      author and keyword samples as positions, the year, whether the rare
      high-citation branch was taken, and the citation count. */
  datatype Draw = Draw(
    topic: nat, title: nat, abstractIndex: nat, venue: nat,
    authors: seq<nat>, keywords: seq<nat>,
    year: int, highCitations: bool, citations: int)

  predicate DistinctPositions(s: seq<nat>, bound: nat) {
    && (forall a :: 0 <= a < |s| ==> s[a] < bound)
    && (forall a, b :: 0 <= a < b < |s| ==> s[a] != s[b])
  }

  function Min(a: int, b: int): int {
    if a <= b then a else b
  }

  /** `random.choice` picks a position of its list, `random.sample(pool, k)`
      k distinct positions, `random.randint(a, b)` a number in [a, b]. */
  predicate ValidDraw(pools: Pools, d: Draw)
    requires WellShaped(pools)
  {
    && d.topic < |pools.names|
    && d.title < |pools.titles[d.topic]|
    && d.abstractIndex < |pools.abstracts[d.topic]|
    && d.venue < |pools.venues[d.topic]|
    && 1 <= |d.authors| <= 4 && DistinctPositions(d.authors, |pools.authors|)
    && |d.keywords| == Min(3, |pools.keywords[d.topic]|)
    && DistinctPositions(d.keywords, |pools.keywords[d.topic]|)
    && 2018 <= d.year <= 2024
    && (if d.highCitations then 500 <= d.citations <= 2000 else 0 <= d.citations <= 500)
  }

  /** `f"paper_{paper_id:04d}"`. */
  function PaperId(paperId: nat): string {
    "paper_" + ZeroPad(Decimal(paperId), 4)
  }

  /** The paper the loop body builds with number `paperId` from draw `d`. */
  function MakePaper(pools: Pools, paperId: nat, d: Draw): (p: Paper)
    requires WellShaped(pools) && ValidDraw(pools, d)
    ensures p.id == PaperId(paperId)
  {
    var t := d.topic;
    NewPaper(PaperId(paperId), pools.titles[t][d.title], Pick(pools.authors, d.authors),
             pools.abstracts[t][d.abstractIndex],
             Pick(pools.keywords[t], d.keywords) + [Lower(pools.names[t]) + " research", "academic study"],
             d.year, pools.venues[t][d.venue], d.citations)
  }

  /** Distinct positions in a pool without repeats pick distinct entries. */
  lemma PickDistinct(pool: seq<string>, positions: seq<nat>)
    requires NoRepeats(pool)
    requires DistinctPositions(positions, |pool|)
    ensures NoRepeats(Pick(pool, positions))
  {
    forall a, b | 0 <= a < b < |positions|
      ensures Pick(pool, positions)[a] != Pick(pool, positions)[b]
    {
      if positions[a] < positions[b] {
        assert pool[positions[a]] != pool[positions[b]];
      } else {
        assert pool[positions[b]] != pool[positions[a]];
      }
    }
  }

  /** A generated paper has one to four distinct authors from the author
      pool; exactly five keywords, three distinct ones from its topic's
      pool and then "<topic> research" and "academic study"; a year in
      [2018, 2024]; citations in [0, 2000]; and title, abstract and venue
      from the pools of that same topic. It starts without a cluster. */
  lemma MakePaperSpec(pools: Pools, paperId: nat, d: Draw)
    requires WellShaped(pools) && ValidDraw(pools, d)
    ensures var p := MakePaper(pools, paperId, d);
      && p.id == PaperId(paperId)
      && 1 <= |p.authors| <= 4
      && (forall a :: 0 <= a < |p.authors| ==> p.authors[a] in pools.authors)
      && NoRepeats(p.authors)
      && |p.keywords| == 5
      && NoRepeats(p.keywords[..3])
      && p.keywords[4] == "academic study"
      && 2018 <= p.year <= 2024
      && 0 <= p.citations <= 2000
      && (exists t :: 0 <= t < |pools.names|
           && p.title in pools.titles[t] && p.abstractText in pools.abstracts[t] && p.venue in pools.venues[t]
           && (forall a :: 0 <= a < 3 ==> p.keywords[a] in pools.keywords[t])
           && p.keywords[3] == Lower(pools.names[t]) + " research")
      && p.clusterId == None && p.clusterName == None
  {
    var t := d.topic;
    PickDistinct(pools.authors, d.authors);
    PickDistinct(pools.keywords[t], d.keywords);
    var p := MakePaper(pools, paperId, d);
    assert p.keywords[..3] == Pick(pools.keywords[t], d.keywords);
    assert p.title in pools.titles[t];
  }

  /** Different paper numbers give different ids. */
  lemma PaperIdInjective(j: nat, k: nat)
    requires j != k
    ensures PaperId(j) != PaperId(k)
  {
    PaddedDecimalInjective(j, k, 4);
    assert PaperId(j)[6..] == ZeroPad(Decimal(j), 4);
    assert PaperId(k)[6..] == ZeroPad(Decimal(k), 4);
  }

  /** `generate_sample_papers(num_papers)` over the given pools (the
      generator's own are SamplePools over its title and abstract texts)
      with its random choices: a
      non-positive count gives no papers; otherwise paper k (from 0) is
      built with number k + 1, so the ids are all different. */
  method GenerateSamplePapers(pools: Pools, numPapers: int, draws: seq<Draw>) returns (papers: seq<Paper>)
    requires WellShaped(pools)
    requires |draws| == if numPapers > 0 then numPapers else 0
    requires forall k :: 0 <= k < |draws| ==> ValidDraw(pools, draws[k])
    ensures |papers| == |draws|
    ensures forall k :: 0 <= k < |papers| ==> papers[k] == MakePaper(pools, k + 1, draws[k])
    ensures forall j, k :: 0 <= j < k < |papers| ==> papers[j].id != papers[k].id
  {
    papers := [];
    var paperId := 1;
    for k := 0 to |draws|
      invariant paperId == k + 1
      invariant |papers| == k
      invariant forall i :: 0 <= i < k ==> papers[i] == MakePaper(pools, i + 1, draws[i])
    {
      var p := MakePaper(pools, paperId, draws[k]);
      papers := papers + [p];
      paperId := paperId + 1;
    }
    GeneratedIdsDistinct(pools, draws, papers);
  }

  /** Papers built with numbers 1, 2, ... have pairwise different ids. */
  lemma GeneratedIdsDistinct(pools: Pools, draws: seq<Draw>, papers: seq<Paper>)
    requires WellShaped(pools) && |papers| == |draws|
    requires forall k :: 0 <= k < |draws| ==> ValidDraw(pools, draws[k])
    requires forall k :: 0 <= k < |papers| ==> papers[k] == MakePaper(pools, k + 1, draws[k])
    ensures forall j, k :: 0 <= j < k < |papers| ==> papers[j].id != papers[k].id
  {
    forall j, k | 0 <= j < k < |papers|
      ensures papers[j].id != papers[k].id
    {
      assert papers[j].id == PaperId(j + 1) && papers[k].id == PaperId(k + 1);
      PaperIdInjective(j + 1, k + 1);
    }
  }
}
