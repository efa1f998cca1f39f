/** What the three clustering algorithms share once their model has been
    fitted: the cluster metadata record, the "{Prefix} {i+1}: {terms}" names,
    the choice of the highest-weighted terms, and writing each paper's label
    and cluster name into the paper list. */
module ClusterBase {
  import opened Wrappers
  import opened Text
  import opened PaperRecord
  import opened Sorting

  /** A cluster metadata dictionary: id, name, top words and, for the
      hierarchical algorithm, the size. */
  datatype ClusterInfo = ClusterInfo(id: int, name: string, topWords: seq<string>, size: Option<int>)

  function Min(a: int, b: int): int {
    if a <= b then a else b
  }

  /** The metadata lists cluster `i` at position `i`. */
  predicate WellIndexed(meta: seq<ClusterInfo>) {
    forall i :: 0 <= i < |meta| ==> meta[i].id == i
  }

  // ----- cluster names -----

  /** "{prefix} {i+1}: " followed by the first three terms joined by ", ". */
  function ClusterName(prefix: string, i: nat, terms: seq<string>): (name: string)
    ensures |name| > |prefix| + 1 && name[..|prefix|] == prefix && name[|prefix|] == ' '
  {
    prefix + " " + Decimal(i + 1) + ": " + Join(", ", terms[..Min(3, |terms|)])
  }

  lemma {:induction false} DigitPrefixOfDigits(d: string, rest: string)
    requires AllDigits(d)
    requires rest == [] || !IsDigit(rest[0])
    ensures DigitPrefixLength(d + rest) == |d|
  {
    if d != [] {
      assert (d + rest)[1..] == d[1..] + rest;
      DigitPrefixOfDigits(d[1..], rest);
    } else {
      assert d + rest == rest;
    }
  }

  /** A decimal number followed by a non-digit parses as that number. */
  lemma ParseDecimalThen(n: nat, rest: string)
    requires rest != [] && !IsDigit(rest[0]) && !IsSpace(rest[0])
    ensures ParseInt(Decimal(n) + rest) == Some(n)
  {
    var digits := Decimal(n);
    var t := digits + rest;
    assert t[0] == digits[0];
    ParseUnsigned(t);
    DigitPrefixOfDigits(digits, rest);
    assert t[..|digits|] == digits;
    DecimalValue(n);
    assert ParseDigits(t) == Some(n);
  }

  /** The number after the prefix reads back as the 1-based cluster number. */
  lemma ClusterNameNumber(prefix: string, i: nat, terms: seq<string>)
    ensures |prefix| + 1 <= |ClusterName(prefix, i, terms)|
    ensures ParseInt(ClusterName(prefix, i, terms)[|prefix| + 1..]) == Some(i + 1)
  {
    var rest := ": " + Join(", ", terms[..Min(3, |terms|)]);
    assert ClusterName(prefix, i, terms) == (prefix + " ") + (Decimal(i + 1) + rest);
    assert ClusterName(prefix, i, terms)[|prefix| + 1..] == Decimal(i + 1) + rest;
    ParseDecimalThen(i + 1, rest);
  }

  /** Different clusters of one algorithm never share a name. */
  lemma ClusterNamesDistinct(prefix: string, i: nat, j: nat, termsI: seq<string>, termsJ: seq<string>)
    requires i != j
    ensures ClusterName(prefix, i, termsI) != ClusterName(prefix, j, termsJ)
  {
    ClusterNameNumber(prefix, i, termsI);
    ClusterNameNumber(prefix, j, termsJ);
  }

  // ----- highest-weighted terms -----

  function Range(n: nat): (r: seq<nat>)
    ensures |r| == n && forall i :: 0 <= i < n ==> r[i] == i
  {
    seq(n, i requires 0 <= i < n => i)
  }

  function WeightOf(weights: seq<real>): nat -> real {
    (i: nat) => if i < |weights| then weights[i] else 0.0
  }

  function Position(): nat -> int {
    (i: nat) => i as int
  }

  /** All positions, heaviest first, equal weights in increasing position. */
  function RankedPositions(weights: seq<real>): seq<nat> {
    SortDescending(Range(|weights|), WeightOf(weights))
  }

  /** `weights.argsort()[-count:][::-1]`: the positions of the `count` largest
      weights, largest first. numpy leaves the order of equal weights to its
      sort; here equal weights come in increasing position. */
  function TopIndices(weights: seq<real>, count: nat): (top: seq<nat>)
    ensures |top| == Min(count, |weights|)
  {
    RankedPositions(weights)[..Min(count, |weights|)]
  }

  lemma RankedPositionsSpec(weights: seq<real>)
    ensures var ranked := RankedPositions(weights);
      && |ranked| == |weights|
      && (forall a :: 0 <= a < |ranked| ==> ranked[a] < |weights|)
      && (forall j :: 0 <= j < |weights| ==> j in ranked)
      && (forall a, b :: 0 <= a < b < |ranked| ==>
            weights[ranked[a]] > weights[ranked[b]] ||
            (weights[ranked[a]] == weights[ranked[b]] && ranked[a] < ranked[b]))
  {
    var range := Range(|weights|);
    var ranked := RankedPositions(weights);
    SortIsStable(range, WeightOf(weights), Position());
    forall a | 0 <= a < |ranked|
      ensures ranked[a] < |weights|
    {
      assert ranked[a] in multiset(ranked);
      assert ranked[a] in multiset(range);
    }
    forall j | 0 <= j < |weights|
      ensures j in ranked
    {
      assert range[j] == j;
      assert j in multiset(ranked);
    }
  }

  /** The chosen positions are valid, come in non-increasing weight (equal
      weights in increasing position, hence all distinct), and no position
      left out outweighs a chosen one. */
  lemma TopIndicesSpec(weights: seq<real>, count: nat)
    ensures var top := TopIndices(weights, count);
      && (forall a :: 0 <= a < |top| ==> top[a] < |weights|)
      && (forall a, b :: 0 <= a < b < |top| ==>
            weights[top[a]] > weights[top[b]] || (weights[top[a]] == weights[top[b]] && top[a] < top[b]))
      && (forall j :: 0 <= j < |weights| && j !in top ==>
            forall a :: 0 <= a < |top| ==> weights[j] <= weights[top[a]])
  {
    var ranked := RankedPositions(weights);
    var top := TopIndices(weights, count);
    RankedPositionsSpec(weights);
    forall j | 0 <= j < |weights| && j !in top
      ensures forall a :: 0 <= a < |top| ==> weights[j] <= weights[top[a]]
    {
      assert j in ranked;
      var p :| 0 <= p < |ranked| && ranked[p] == j;
      assert p >= |top|;
      forall a | 0 <= a < |top|
        ensures weights[j] <= weights[top[a]]
      {
        assert top[a] == ranked[a];
      }
    }
  }

  // ----- writing the labels into the papers -----

  predicate LabelsIn(labels: seq<int>, n: nat) {
    forall k :: 0 <= k < |labels| ==> 0 <= labels[k] < n
  }

  function Labelled(p: Paper, clusterLabel: int, name: string): Paper {
    p.(clusterId := Some(clusterLabel), clusterName := Some(name))
  }

  /** The papers after the assignment loop: paper `k` carries label `k` and
      that cluster's name. */
  function Assigned(ps: seq<Paper>, labels: seq<int>, meta: seq<ClusterInfo>): (r: seq<Paper>)
    requires |labels| == |ps| && LabelsIn(labels, |meta|)
    ensures |r| == |ps|
  {
    seq(|ps|, k requires 0 <= k < |ps| => Labelled(ps[k], labels[k], meta[labels[k]].name))
  }

  /** A paper with its cluster fields cleared: what the assignment must not touch. */
  function Unassigned(p: Paper): Paper {
    p.(clusterId := None, clusterName := None)
  }

  /** Every paper's cluster name is the name of the cluster its id designates. */
  predicate Consistent(ps: seq<Paper>, meta: seq<ClusterInfo>) {
    forall k :: 0 <= k < |ps| ==>
      ps[k].clusterId.Some? && 0 <= ps[k].clusterId.value < |meta| &&
      ps[k].clusterName == Some(meta[ps[k].clusterId.value].name)
  }

  /** The assignment keeps the list's length, order and every other field,
      sets each id to its label and leaves the names consistent with the ids. */
  lemma AssignedSpec(ps: seq<Paper>, labels: seq<int>, meta: seq<ClusterInfo>)
    requires |labels| == |ps| && LabelsIn(labels, |meta|)
    ensures var r := Assigned(ps, labels, meta);
      && (forall k :: 0 <= k < |ps| ==> Unassigned(r[k]) == Unassigned(ps[k]))
      && (forall k :: 0 <= k < |ps| ==> r[k].clusterId == Some(labels[k]))
      && Consistent(r, meta)
  {
  }

  /** Assigning the same labels twice is assigning them once. */
  lemma AssignedIdempotent(ps: seq<Paper>, labels: seq<int>, meta: seq<ClusterInfo>)
    requires |labels| == |ps| && LabelsIn(labels, |meta|)
    ensures Assigned(Assigned(ps, labels, meta), labels, meta) == Assigned(ps, labels, meta)
  {
  }

  /** The loop `for idx, paper in enumerate(papers)` that writes each label
      and the matching cluster name into the paper. */
  method AssignLabels(papers: array<Paper>, labels: seq<int>, meta: seq<ClusterInfo>)
    requires papers.Length == |labels| && LabelsIn(labels, |meta|)
    modifies papers
    ensures papers[..] == Assigned(old(papers[..]), labels, meta)
  {
    ghost var start := papers[..];
    for k := 0 to papers.Length
      invariant forall j :: 0 <= j < k ==> papers[j] == Labelled(start[j], labels[j], meta[labels[j]].name)
      invariant forall j :: k <= j < papers.Length ==> papers[j] == start[j]
    {
      papers[k] := Labelled(papers[k], labels[k], meta[labels[k]].name);
    }
  }
}
