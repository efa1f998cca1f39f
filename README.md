# Visualizing Digital Libraries — a Dafny model

The system shows a collection of academic papers as bubbles on a canvas.
Each bubble is sized by its paper's citations and coloured by a topic cluster.
Papers of one cluster are pulled together by a custom force in a d3 force
simulation. The backend is a small Python web service. It holds the paper
list, re-clusters it with one of three algorithms (k-means, agglomerative,
LDA topic model), and answers listing, search and statistics queries. A
generator makes a synthetic collection.

This project models:

- **PaperRecord** (`paper.dfy`): the `Paper` record, its dictionary form and
  the text handed to the clustering algorithms.
- **ClusterBase, KMeans, Hierarchical, Lda** (`cluster_base.dfy`,
  `kmeans.dfy`, `hierarchical.dfy`, `lda.dfy`): everything each algorithm
  does around the fitted model:
  - choosing the top terms;
  - naming clusters "`Cluster 3: a, b, c`";
  - the hierarchical per-cluster sizes and fallback terms;
  - the LDA text preprocessing and dominant-topic choice;
  - writing each label and cluster name into the papers.

  The fitted model's outputs (labels, centres, topic words, document-topic
  probabilities) are inputs.
- **Api** (`api.dfy`): the service state as a class.
  - `get_papers` with its three filters;
  - the weighted `search` (10 per title hit, 5 per keyword, 2 for the
    abstract), its stable ranking and the limit;
  - re-clustering and its error responses (422, 400, 500);
  - `get_stats`.
- **Page** (`page.dfy`): the page's client-side filter, the cluster palette
  and the reading of the cluster-count input.
- **BubbleGeometry** (`bubble_geometry.dfy`): the chart's pure expressions.
  - radius, label text, font size, fill colour;
  - pointer reactions and the clamped tooltip position;
  - canvas sizing and the zoom scale extent.
- **BubbleEngine** (`bubble_engine.dfy`): the chart's mutable part.
  - simulation nodes as objects;
  - the cluster cohesion force, which updates node velocities in place;
  - the simulation's running flag;
  - the component instance, whose effects stop the previous simulation
    before starting a new one, so at most one is ever running.
- **SampleData** (`sample_data.dfy`): the sample collection generator, as a
  counting loop over injected random draws.
- **Text, Seqs, Sorting, Wrappers**: shared string, filter, stable-sort and
  `Option`/`Result` support.

Two behaviours of the code worth noting:

- The chart does not clamp negative citation counts. The radius lemmas
  therefore assume citations >= 0 only where they need it.
- The cohesion centre is `mean || width/2`. A mean of exactly 0 is replaced
  by the canvas centre, as JavaScript's `||` does.

## Model

| member | source | states |
|---|---|---|
| PaperRecord.NewPaper | backend/models/paper.py:6-18 | the dataclass constructor stores each argument in its own field |
| PaperRecord.ConstructorDefaults | backend/models/paper.py:16-18 | omitted, citations are 0 and both cluster fields are None |
| PaperRecord.ToDict | backend/models/paper.py:20-33 | the dictionary has exactly the ten field keys, each mapped to its field, with None as null |
| PaperRecord.FromToDict | backend/models/paper.py:20-49 | reading back a serialised paper gives the same paper |
| PaperRecord.ToFromDict | backend/models/paper.py:20-49 | serialising a paper read from a dictionary reproduces every field key that dictionary had |
| PaperRecord.FromDict | backend/models/paper.py:35-49 | a dictionary reads as a paper only when the seven required keys are present; a missing "id" fails first; absent citations read as 0 and absent cluster fields as None |
| PaperRecord.FromDictFields | backend/models/paper.py:35-49 | each field of a paper read from a dictionary came from its own key |
| PaperRecord.FromDictDefaults | backend/models/paper.py:46-48 | absent citations read as 0, absent cluster fields as None |
| PaperRecord.FromDictMissingKey | backend/models/paper.py:39 | a dictionary without "id" fails with a missing-key error naming "id" |
| PaperRecord.TextForClustering | backend/models/paper.py:51-53 | the text starts with the title, ends with the abstract, and has room for the joined keywords and two separators |
| Text.Lower | backend/clustering/lda_clustering.py:23 | lower-casing keeps the length and folds each character on its own |
| Text.LowerIdempotent | backend/api/main.py:174 | lower-casing twice is lower-casing once |
| Text.TrimEmpty | frontend/app/page.tsx:53 | a query trims to empty exactly when it is all whitespace |
| Text.SplitYieldsWords | backend/clustering/lda_clustering.py:27 | every piece of a whitespace split is non-empty and holds no whitespace |
| Text.SplitJoin | backend/clustering/lda_clustering.py:27 | splitting words joined by single spaces gives back the same words |
| Text.Decimal | backend/clustering/kmeans_clustering.py:50 | a number is written as a non-empty string of digits |
| Text.ZeroPad | backend/data/sample_data_generator.py:185 | padding gives at least the width, ends with the original string and has only zeros before it |
| Text.PaddedDecimalInjective | backend/data/sample_data_generator.py:185 | different numbers have different zero-padded renderings |
| Text.ParseInt | frontend/app/page.tsx:186 | after leading whitespace and an optional sign, parsing fails exactly when no digit follows, and a negative result needs a minus sign |
| Text.ParseDecimal | frontend/app/page.tsx:186 | parseInt reads back the number a decimal rendering writes |
| Sorting.SortDescending | backend/api/main.py:194 | the sort is a permutation of its input |
| Sorting.SortIsDescending | backend/api/main.py:194 | the sort is non-increasing in its key |
| Sorting.SortIsStable | backend/api/main.py:194 | items with equal keys keep their input order |
| ClusterBase.ClusterName | backend/clustering/kmeans_clustering.py:50 | a name starts with its prefix followed by a space |
| ClusterBase.ClusterNameNumber | backend/clustering/kmeans_clustering.py:50 | the number after the prefix reads back as the 1-based cluster number |
| ClusterBase.ClusterNamesDistinct | backend/clustering/hierarchical_clustering.py:66 | two clusters of one algorithm never share a name, whatever their terms |
| ClusterBase.TopIndices | backend/clustering/kmeans_clustering.py:48 | ten positions are chosen, or every position when there are fewer |
| ClusterBase.RankedPositionsSpec | backend/clustering/kmeans_clustering.py:48 | the ranking lists every position once, by descending weight, ties by position |
| ClusterBase.TopIndicesSpec | backend/clustering/kmeans_clustering.py:48 | the chosen positions are valid, heaviest first, and no position left out outweighs a chosen one |
| ClusterBase.Assigned | backend/clustering/kmeans_clustering.py:59-61 | the assignment keeps the number of papers |
| ClusterBase.AssignedSpec | backend/clustering/kmeans_clustering.py:59-61 | all other fields are kept, each id is the paper's label, and each name is the name of the cluster its id designates |
| ClusterBase.AssignedIdempotent | backend/clustering/hierarchical_clustering.py:76-78 | assigning the same labels twice is assigning them once |
| ClusterBase.AssignLabels | backend/clustering/kmeans_clustering.py:59-61 | the loop leaves the array equal to the specified assignment |
| Seqs.Pick | backend/clustering/kmeans_clustering.py:49 | the entries at the chosen positions, one per position, in the order chosen |
| KMeans.Info | backend/clustering/kmeans_clustering.py:44-56 | entry i has id i, no size, and ten terms or one per feature when there are fewer |
| KMeans.InfoSpec | backend/clustering/kmeans_clustering.py:44-56 | entry i has id i, no size, at most ten terms, heaviest centre weights first, and is named after its terms |
| KMeans.Metadata | backend/clustering/kmeans_clustering.py:43-56 | one entry per centre, entry i built from centre i |
| KMeans.Cluster | backend/clustering/kmeans_clustering.py:43-63 | the metadata is indexed by cluster and the papers carry their labels and matching names |
| Hierarchical.SizesSum | backend/clustering/hierarchical_clustering.py:48-72 | with every label in range, the cluster sizes add up to the number of papers |
| Hierarchical.PositiveIndices | backend/clustering/hierarchical_clustering.py:58-59 | at most ten positions are kept, each with a positive weight |
| Hierarchical.PositiveIndicesSpec | backend/clustering/hierarchical_clustering.py:58-59 | the kept positions are exactly the chosen ones with positive weight, in their chosen order |
| Hierarchical.PositiveTerms | backend/clustering/hierarchical_clustering.py:59 | one term per kept position |
| Hierarchical.TopTerms | backend/clustering/hierarchical_clustering.py:54-64 | a cluster has one to ten terms, and an empty cluster has the fallback terms |
| Hierarchical.TopTermsSpec | backend/clustering/hierarchical_clustering.py:54-64 | a cluster has one to ten terms: those of its positive top weights when it is non-empty and has some, otherwise term_0, term_1, term_2 |
| Hierarchical.Info | backend/clustering/hierarchical_clustering.py:63-73 | entry i has id i, its size, and one to ten top words |
| Hierarchical.InfoSpec | backend/clustering/hierarchical_clustering.py:63-73 | entry i has id i, its size, the whole term list as top words, and a name built from them |
| Hierarchical.Metadata | backend/clustering/hierarchical_clustering.py:47-73 | one entry per cluster, entry i built from cluster i's size and weights |
| Hierarchical.Cluster | backend/clustering/hierarchical_clustering.py:46-80 | the metadata is indexed by cluster and the papers carry their labels and matching names |
| Lda.Preprocess | backend/clustering/lda_clustering.py:20-30 | every word kept has at least three characters |
| Lda.PreprocessLetters | backend/clustering/lda_clustering.py:23-25 | every word is made of the lower-case letters a to z only |
| Lda.PreprocessKeepsLongWords | backend/clustering/lda_clustering.py:27-29 | a word is kept exactly when the cleaned text splits into it and it has more than two letters |
| Lda.PreprocessKeepsOrder | backend/clustering/lda_clustering.py:27-29 | the words keep their order in the cleaned text |
| Lda.PreprocessIdempotent | backend/clustering/lda_clustering.py:20-30 | preprocessing the words joined by spaces gives the same words back |
| Lda.Words | backend/clustering/lda_clustering.py:66 | one word per (word, probability) pair |
| Lda.Info | backend/clustering/lda_clustering.py:61-67 | topic i has id i, no size, and one top word per (word, probability) pair |
| Lda.InfoSpec | backend/clustering/lda_clustering.py:61-67 | topic i has id i, its words in the model's order, and the name "Topic i+1: " followed by its first three words |
| Lda.TopicNamesDistinct | backend/clustering/lda_clustering.py:62 | no two topics share a name |
| Lda.Metadata | backend/clustering/lda_clustering.py:59-67 | one entry per topic, indexed by topic |
| Lda.DominantIndex | backend/clustering/lda_clustering.py:73 | max picks a largest probability, the first one on ties |
| Lda.FirstEmpty | backend/clustering/lda_clustering.py:70-75 | the documents before the position found all have topics, and the one at it has none |
| Lda.AssignDominant | backend/clustering/lda_clustering.py:70-75 | success exactly when every document has topics; on failure the papers before the empty document are labelled and the rest are untouched |
| Lda.Dominants | backend/clustering/lda_clustering.py:73 | one dominant topic per document |
| Lda.DominantsAreLabels | backend/clustering/lda_clustering.py:73-75 | the dominant topics are valid cluster labels |
| Lda.Relabelled | backend/clustering/lda_clustering.py:70-75 | the papers as a failing loop leaves them keep their number, and those from the first document without topics on are unchanged |
| Lda.Cluster | backend/clustering/lda_clustering.py:58-77 | succeeds exactly when every document has topics, and then the result is the shared labelling with the indexed metadata; otherwise the error is max's message and the papers before the first empty document carry their dominant topic while the rest are untouched |
| Api.Status | backend/api/main.py:144-163 | every error response is a 400, 422 or 500 |
| Api.ListPapers | backend/api/main.py:111-131 | the listing is never longer than the collection, is the whole collection without filters, and every listed paper matches a non-empty search |
| Api.ListPapersMembers | backend/api/main.py:111-131 | a paper is listed exactly when it is in the collection and passes every filter given |
| Api.ListPapersSubsequence | backend/api/main.py:111-131 | the listed papers are in collection order |
| Api.AuthorsNotSearched | backend/api/main.py:122-129 | a paper matching only by author is not listed by a search |
| Api.KeywordHits | backend/api/main.py:183-185 | no more hits than keywords |
| Api.KeywordHitsPositive | backend/api/main.py:183-185 | some keyword hits exactly when some keyword contains the query |
| Api.ScoreOf | backend/api/main.py:178-188 | a title hit scores at least 10, and the score is 2 modulo 5 exactly when the abstract matches, 0 otherwise |
| Api.ScoreSpec | backend/api/main.py:178-188 | a paper scores exactly when its title, abstract or a keyword contains the query, and by at most 12 plus 5 per keyword |
| Api.Hits | backend/api/main.py:177-191 | no more hits than papers |
| Api.HitsSound | backend/api/main.py:190-191 | every hit is a scoring paper at its own position with its own score |
| Api.HitsIncreasing | backend/api/main.py:177-191 | hits come in increasing position |
| Api.HitsComplete | backend/api/main.py:177-191 | every scoring paper has a hit |
| Api.HitsCount | backend/api/main.py:177-191 | there are as many hits as scoring papers |
| Api.HitsSpec | backend/api/main.py:177-191 | the hits are exactly the scoring papers, in collection order, each with its own score |
| Api.Ranked | backend/api/main.py:194 | the ranking holds the same hits as the scoring loop, so no more than the papers |
| Api.RankedSpec | backend/api/main.py:194 | the ranking is a permutation of the hits, highest score first, equal scores in collection order |
| Api.PaperDicts | backend/api/main.py:199 | one dictionary per hit |
| Api.InvalidMethodLists | backend/api/main.py:147-152 | the 400 message lists exactly the three valid methods |
| Api.MetadataOf | backend/api/main.py:83 | every algorithm gives n entries indexed by cluster |
| Api.LabelsOf | backend/api/main.py:83 | every algorithm gives each paper a label naming one of the n clusters |
| Api.MinYear | backend/api/main.py:220 | the smallest year of some paper, at most every paper's year |
| Api.MaxYear | backend/api/main.py:221 | the largest year of some paper, at least every paper's year |
| Api.MaxCitations | backend/api/main.py:226 | the largest citation count of some paper |
| Api.StatsOf | backend/api/main.py:209-210 | stats fail exactly for an empty collection, with the message "No papers loaded" |
| Api.StatsSpec | backend/api/main.py:204-229 | stats fail exactly for an empty collection; otherwise the year range covers every paper and its ends are years of some paper, the maximum citations is attained, the total is the sum of the citations, the average is the total over the count and lies between the least and the most citations, and there are 1 to n venues |
| Api.VenuesBounds | backend/api/main.py:228 | a non-empty collection has at least one and at most one venue per paper |
| Api.Backend.constructor | backend/api/main.py:31-34 | the service starts with the loaded papers, no clusters and method kmeans |
| Api.Backend.GetPapers | backend/api/main.py:102-131 | the endpoint returns the listing of the current papers under the given filters |
| Api.Backend.Score | backend/api/main.py:178-188 | the scoring loop computes the paper's weighted score |
| Api.Backend.SearchPapers | backend/api/main.py:166-201 | a limit outside 1 to 200 is a 422; otherwise the ranked hits cut to the limit, with the total number of hits |
| Api.Backend.Recluster | backend/api/main.py:70-84 | an unknown method or a failed fit changes no cluster state; success exactly for a valid method whose fit can be assigned, and then the metadata, labels and method are those of the fit; a failing LDA assignment passes on max's message with the papers partly labelled |
| Api.Backend.ClusterPapers | backend/api/main.py:141-163 | a bad count is a 422 and a bad method a 400, both changing nothing; a failed clustering is a 500 carrying its message and leaves the metadata and method as they were; with a valid count, method and fit it succeeds exactly when the fit can be assigned, and then the metadata and labels are those of the fit and the reply reports n clusters; a failing LDA assignment is a 500 with the papers partly labelled |
| Api.Backend.GetStats | backend/api/main.py:204-229 | the endpoint returns the statistics of the current state |
| Page.MatchesCaseInsensitive | frontend/app/page.tsx:53-61 | matching lower-cases the query, so its case does not matter |
| Page.MatchesTitle | frontend/app/page.tsx:57 | a paper whose lower-cased title contains the lower-cased query matches |
| Page.FilterPapers | frontend/app/page.tsx:43-65 | the shown papers are never more than the listed ones, and all match a non-blank query |
| Page.FilterPapersSubsequence | frontend/app/page.tsx:43-65 | the filtered papers are in the original order |
| Page.FilterPapersMembers | frontend/app/page.tsx:43-65 | a paper is shown exactly when it is listed, in the selected cluster if any, and matches a non-blank query |
| Page.BlankQueryKeepsAll | frontend/app/page.tsx:53 | a query of spaces only filters nothing |
| Page.FilterPapersIdempotent | frontend/app/page.tsx:43-65 | filtering the filtered papers again changes nothing |
| Page.ClustersWithColors | frontend/app/page.tsx:108-111 | one coloured cluster per cluster, the cluster at position i with palette colour i mod 10 |
| Page.ColoursByPosition | frontend/app/page.tsx:108-111 | each cluster keeps its fields and gets palette colour i mod 10, and two clusters share a colour exactly when their positions agree modulo 10 |
| Page.Ids | frontend/components/BubbleChart.tsx:37 | one domain entry per cluster |
| Page.Colours | frontend/components/BubbleChart.tsx:38 | one range entry per cluster |
| Page.ChartPaintsByPosition | frontend/components/BubbleChart.tsx:133-138 | with distinct cluster ids, a paper of the cluster at position i is painted palette colour i mod 10 |
| Page.NClustersInput | frontend/app/page.tsx:186 | input that does not parse or parses to 0 becomes 5; any other number is taken as it is |
| Page.NClustersDecimal | frontend/app/page.tsx:186 | a typed positive count is read back; an empty field or a typed 0 gives 5 |
| BubbleGeometry.Radius | frontend/components/BubbleChart.tsx:81 | the radius is at most 50, non-negative for a non-negative root, and 1.5 times the root below the cap |
| BubbleGeometry.RadiusSquare | frontend/components/BubbleChart.tsx:81 | the radius is non-negative, and its square is min(2500, 2.25 * (citations + 25)) |
| BubbleGeometry.RadiusBounds | frontend/components/BubbleChart.tsx:81 | with citations >= 0 the radius lies between 7.5 and 50 |
| BubbleGeometry.RadiusMonotone | frontend/components/BubbleChart.tsx:81 | more citations never give a smaller bubble |
| BubbleGeometry.LabelledIffCitations | frontend/components/BubbleChart.tsx:159 | a bubble is labelled exactly when its paper has more than 119 citations |
| BubbleGeometry.LabelText | frontend/components/BubbleChart.tsx:162 | a title of at most 22 characters is shown whole; a longer one shows its first 22, then an ellipsis |
| BubbleGeometry.LabelTextIdempotent | frontend/components/BubbleChart.tsx:162 | truncating a label again leaves it as it is |
| BubbleGeometry.FontSize | frontend/components/BubbleChart.tsx:163 | the font is radius / 2.8 up to radius 39.2, then 14 |
| BubbleGeometry.Dedup | frontend/components/BubbleChart.tsx:37 | the scale's domain holds exactly the ids the clusters have, each once |
| BubbleGeometry.DedupFirstOccurrence | frontend/components/BubbleChart.tsx:37 | the domain lists the ids in the order of their first occurrence |
| BubbleGeometry.DedupDistinct | frontend/components/BubbleChart.tsx:34-39 | distinct ids form the domain unchanged |
| BubbleGeometry.FillOf | frontend/components/BubbleChart.tsx:133-138 | a paper without a cluster is grey, and an id outside the domain yields the model's UnknownCluster value |
| BubbleGeometry.FillOfKnownCluster | frontend/components/BubbleChart.tsx:133-138 | with distinct ids, a paper of cluster ids[i] is painted colours[i] |
| BubbleGeometry.OnPointerMove | frontend/components/BubbleChart.tsx:143-146 | hovering raises opacity and stroke and shows the paper at the pointer |
| BubbleGeometry.OnPointerLeave | frontend/components/BubbleChart.tsx:147-150 | leaving restores the resting style and clears the tooltip |
| BubbleGeometry.OnClick | frontend/components/BubbleChart.tsx:151-155 | a click forwards exactly the clicked paper, and only when there is a handler |
| BubbleGeometry.TooltipPosition | frontend/components/BubbleChart.tsx:179-198 | with no paper or a zero side the tooltip is at the origin; otherwise it is inside the right and bottom padding |
| BubbleGeometry.TooltipClamped | frontend/components/BubbleChart.tsx:179-198 | the right and bottom clamps always hold; the left and top ones hold exactly when the canvas is at least 282 wide and 152 high; an unclamped pointer is followed exactly |
| BubbleGeometry.TooltipHiddenAtOrigin | frontend/components/BubbleChart.tsx:179-182 | after the pointer leaves, the tooltip sits at the origin |
| BubbleGeometry.InitialDims | frontend/components/BubbleChart.tsx:29-32 | the initial size is the explicit one, or 0 for a missing side |
| BubbleGeometry.SizingFor | frontend/components/BubbleChart.tsx:41-45 | explicit sizes are used exactly when both are present and non-zero |
| BubbleGeometry.ObservedHeight | frontend/components/BubbleChart.tsx:55 | the observed height is 0.65 of the width, at least 320 |
| BubbleGeometry.OnResize | frontend/components/BubbleChart.tsx:51-60 | the new size is the observed width and its height, and a change is reported exactly when it differs from the old size |
| BubbleGeometry.ResizeIdempotent | frontend/components/BubbleChart.tsx:56-60 | observing the same width twice changes the state at most once |
| BubbleGeometry.SvgSize | frontend/components/BubbleChart.tsx:200-201 | the drawn canvas is at least 1 by 1 and otherwise the state's size |
| BubbleGeometry.ReadyIffLarger | frontend/components/BubbleChart.tsx:200-202 | the chart is ready exactly when both sides exceed 1 |
| BubbleGeometry.ClampScale | frontend/components/BubbleChart.tsx:107-109 | every zoom scale is confined to [0.5, 4], and a scale inside the range is kept |
| BubbleEngine.Node.constructor | frontend/components/BubbleChart.tsx:79-84 | a node carries its paper and radius, is placed by scaling the random draws to the canvas, and starts at rest |
| BubbleEngine.CohesionStep | frontend/components/BubbleChart.tsx:92-105 | the force changes only velocities, and leaves a node without a cluster alone |
| BubbleEngine.SamePlacementSameCentre | frontend/components/BubbleChart.tsx:96-99 | a cluster's centre depends only on clusters and positions, so velocity updates earlier in the loop do not move it |
| BubbleEngine.SoleMemberUnpulled | frontend/components/BubbleChart.tsx:96-103 | a node alone in its cluster, away from the origin, feels no pull |
| BubbleEngine.PrefixPull | frontend/components/BubbleChart.tsx:100-103 | along either axis, the velocity changes of a cluster's members add up to the gain of their summed offsets from its centre |
| BubbleEngine.OffsetsAtMean | frontend/components/BubbleChart.tsx:98-99 | along either axis, at a cluster's true mean its members' offsets cancel |
| BubbleEngine.AxisBalanced | frontend/components/BubbleChart.tsx:92-105 | along an axis where the centre is the true mean, the force leaves the cluster's summed velocity unchanged |
| BubbleEngine.CohesionBalanced | frontend/components/BubbleChart.tsx:92-105 | where the centre is the true mean on both axes, the force leaves the cluster's summed velocity unchanged horizontally and vertically |
| BubbleEngine.Simulation.constructor | frontend/components/BubbleChart.tsx:86-92 | creating a simulation starts it over the given nodes and canvas |
| BubbleEngine.Simulation.Stop | frontend/components/BubbleChart.tsx:174-176 | stopping leaves the simulation not running |
| BubbleEngine.Simulation.Centre | frontend/components/BubbleChart.tsx:96-99 | the loop computes the cluster's mean position, or the canvas centre in place of 0 |
| BubbleEngine.Simulation.ClusterForce | frontend/components/BubbleChart.tsx:92-105 | the in-place loop over the nodes leaves them as the cohesion step of their old state |
| BubbleEngine.Simulation.PullNode | frontend/components/BubbleChart.tsx:93-103 | one node's velocity gets the pull towards the centre of the state before the loop |
| BubbleEngine.BuildNodes | frontend/components/BubbleChart.tsx:79-84 | one fresh, distinct node per paper, in order, with its radius, scaled position and zero velocity |
| BubbleEngine.Chart.constructor | frontend/components/BubbleChart.tsx:24-32 | mounting starts with the initial size, no tooltip, no transform and no simulation |
| BubbleEngine.Chart.ApplySizing | frontend/components/BubbleChart.tsx:41-49 | explicit sizes are adopted; otherwise the container is observed and the size is kept |
| BubbleEngine.Chart.Resize | frontend/components/BubbleChart.tsx:51-60 | the observer callback applies the resize update |
| BubbleEngine.Chart.Render | frontend/components/BubbleChart.tsx:68-177 | the previous simulation is stopped, at most one simulation runs, and a new one is started only with papers and a canvas with no zero side |
| BubbleEngine.Chart.Unmount | frontend/components/BubbleChart.tsx:174-177 | after unmounting no simulation this instance started is running |
| BubbleEngine.Chart.TooltipAt | frontend/components/BubbleChart.tsx:179-198 | in the current state, the tooltip is at the origin with no paper or a zero side, and otherwise inside the right and bottom padding |
| BubbleEngine.Chart.PointerMove | frontend/components/BubbleChart.tsx:118-125 | the tooltip shows the paper at the pointer |
| BubbleEngine.Chart.PointerLeave | frontend/components/BubbleChart.tsx:147-150 | the tooltip is cleared |
| BubbleEngine.Chart.Zoom | frontend/components/BubbleChart.tsx:107-112 | the group takes the gesture's translation and its clamped scale |
| SampleData.AuthorsNoRepeats | backend/data/sample_data_generator.py:101-106 | the author pool holds sixteen different names |
| SampleData.KeywordPoolsShape | backend/data/sample_data_generator.py:11-36 | each of the six topics has at least five different keywords |
| SampleData.TablesShape | backend/data/sample_data_generator.py:11-36 | there are six topics, each with five venues |
| SampleData.SamplePoolsWellShaped | backend/data/sample_data_generator.py:11-151 | the generator's tables give every topic the pools a paper is drawn from |
| SampleData.MakePaper | backend/data/sample_data_generator.py:184-193 | the paper's id is the zero-padded paper number |
| SampleData.PickDistinct | backend/data/sample_data_generator.py:171-176 | sampling distinct positions of a pool without repeats gives distinct entries |
| SampleData.MakePaperSpec | backend/data/sample_data_generator.py:160-193 | a paper has one to four distinct authors and five keywords, namely three distinct ones from its topic's pool then two fixed ones; year, citations, title, abstract and venue come from its topic; it has no cluster |
| SampleData.PaperIdInjective | backend/data/sample_data_generator.py:185 | different paper numbers give different ids |
| SampleData.GenerateSamplePapers | backend/data/sample_data_generator.py:154-198 | a non-positive count gives no papers; otherwise paper k is built with number k + 1 from its draw, and all ids differ |
| SampleData.GeneratedIdsDistinct | backend/data/sample_data_generator.py:195-196 | papers numbered 1, 2, ... have pairwise different ids |

## Left out

- The d3 integrator and its other forces (x, y, collision, charge) are not modelled. Neither is position integration nor the alpha decay, which are library code. Only the custom cluster force is modelled, with alpha as a parameter.
- The browser is not modelled: the DOM, React scheduling, `ResizeObserver`, `d3.pointer`, the zoom behaviour's internals, the tick handler that moves circles and labels, and the tooltip markup. Pointer coordinates, observed widths and zoom transforms are parameters.
- Chart.ApplySizing: the checks for a missing container or a missing `ResizeObserver`, which also skip observing, are not modelled.
- Randomness is injected. `Math.random()` positions and every `random` call of the generator are parameters, constrained only by the ranges the library guarantees. Distributions are not modelled, and the rare high-citation branch is a flag of the draw.
- Numbers are exact reals, not IEEE doubles. NaN, infinities and rounding are not modelled.
- BubbleEngine.Node.constructor: the square root of citations + 25 is a parameter with the `IsSqrt` property.
- The `vx || 0` default is not modelled: velocities start at 0.
- Api.StatsSpec: the average is exact division, not a float.
- Lower-casing covers ASCII only; Unicode case folding is not modelled.
- Whitespace is space, `\t`, `\n`, `\v`, `\f` and `\r`. The separators `\x1c` to `\x1f`, which Python's `split()` and `\s` also treat as whitespace, and non-ASCII whitespace are not modelled, so for LDA preprocessing a text such as `"ab\x1ccde"` gives `["abcde"]` in the model where Python gives `["cde"]`.
- BubbleGeometry.FillOf: d3's `scaleOrdinal` adds an id missing from its domain and paints it with the next range colour. That implicit growth of the domain is not modelled; the model returns `UnknownCluster(id)` for such an id instead.
- Lda.EmptyMax: the message modelled is CPython's before 3.12, "max() arg is an empty sequence". From 3.12 on, `max` says "max() iterable argument is empty". The Recluster and ClusterPapers error paths carry this constant.
- BubbleGeometry.LabelText truncates by characters, not by UTF-16 code units.
- ClusterBase.TopIndices: numpy's argsort leaves the order of equal weights to its sort. The model fixes equal weights in increasing position.
- The fits are inputs: TF-IDF vectorising, k-means, agglomerative clustering and the gensim LDA model are not modelled. What they guarantee (one label per paper, labels in range, weight vectors over the features) is stated as preconditions. For the hierarchical algorithm, the TF-IDF vector of each cluster's joined documents is an input.
- Text.ParseInt models base 10 only. Other radixes, and parsing beyond the leading digits into floats, are not modelled.
- Python aliasing is not modelled. The clustering methods mutate the shared `Paper` objects and return the same list; the model mutates one array of paper values.
- Api.Ranked: the in-place `list.sort` is modelled as the stable SortDescending function.
- Input and output are not modelled: `load_papers`, `data_loader`, saving to and loading from JSON, `api.ts`, FastAPI routing, CORS, Pydantic validation, uvicorn and the startup hook. Query bounds appear as the 422 checks.
- The `/` root endpoint (backend/api/main.py:87-99) is constant text and is not modelled.
- `get_clusters` (backend/api/main.py:134-138) only returns the `clusters` field of the Backend class, so it is not modelled separately.
- PaperRecord.FromDict: the KeyError message text is not modelled. Python stores a value of any type without complaint. The model's fields are typed, so it reports such a value as a WrongType error.
- The generator's title and abstract texts are not reproduced. They enter as a parameter of the stated shape (`TextTables`), and GenerateSamplePapers takes the pools as a parameter.
- The `!clusterNodes.length` check (BubbleChart.tsx:97) never fires, because the node itself is in its cluster, so the model omits it.
- Presentation-only files are not part of this model: layout.tsx, PaperCard.tsx, TopicFilter.tsx and the modal markup in page.tsx.
