/** The pure expressions of the bubble chart component: bubble radius, label
    and colour of a bubble, the reactions to the pointer, the clamped tooltip
    position, the canvas size and the zoom scale. */
module BubbleGeometry {
  import opened Wrappers
  import opened PaperRecord

  function Min(a: real, b: real): real {
    if a <= b then a else b
  }

  function Max(a: real, b: real): real {
    if a >= b then a else b
  }

  // ----- bubble radius -----

  const MaxRadius: real := 50.0

  /** `root` is the square root of `v`, as Math.sqrt would return it in exact arithmetic. */
  ghost predicate IsSqrt(root: real, v: real) {
    root >= 0.0 && root * root == v
  }

  /** min(50, √(citations + 25) · 1.5), given the square root. */
  function Radius(root: real): (r: real)
    ensures r <= MaxRadius
    ensures root >= 0.0 ==> r >= 0.0
    ensures root * 1.5 <= MaxRadius ==> r == root * 1.5
  {
    Min(MaxRadius, root * 1.5)
  }

  /** The square of the radius, stated without a square root. */
  function RadiusSquared(citations: int): real {
    Min(MaxRadius * MaxRadius, 2.25 * (citations + 25) as real)
  }

  /** Arithmetic helper for the radius lemmas. */
  lemma SquareMonotone(a: real, b: real)
    requires 0.0 <= a <= b
    ensures a * a <= b * b
  {
    assert a * a <= a * b;
    assert a * b <= b * b;
  }

  /** Arithmetic helper for the radius lemmas. */
  lemma ProductPositive(a: real, b: real)
    requires a > 0.0 && b > 0.0
    ensures a * b > 0.0
  {
  }

  /** Arithmetic helper for the radius lemmas. */
  lemma ProductNonNegative(a: real, b: real)
    requires a >= 0.0 && b >= 0.0
    ensures a * b >= 0.0
  {
  }

  /** Of two non-negative reals, the one with the larger square is the larger. */
  lemma RootMonotone(a: real, b: real)
    requires a >= 0.0 && b >= 0.0 && a * a <= b * b
    ensures a <= b
  {
    if a > b {
      ProductPositive(a, a - b);
      assert a * (a - b) == a * a - a * b;
      ProductNonNegative(b, a - b);
    }
  }

  /** The radius the chart draws is the root of RadiusSquared. */
  lemma RadiusSquare(citations: int, root: real)
    requires IsSqrt(root, (citations + 25) as real)
    ensures Radius(root) >= 0.0
    ensures Radius(root) * Radius(root) == RadiusSquared(citations)
  {
    var scaled := root * 1.5;
    assert scaled * scaled == 2.25 * (citations + 25) as real;
    if scaled <= MaxRadius {
      SquareMonotone(scaled, MaxRadius);
    } else {
      SquareMonotone(MaxRadius, scaled);
    }
  }

  /** For citations >= 0 the radius lies between 7.5 and 50. */
  lemma RadiusBounds(citations: int, root: real)
    requires citations >= 0
    requires IsSqrt(root, (citations + 25) as real)
    ensures 7.5 <= Radius(root) <= MaxRadius
  {
    assert 5.0 * 5.0 <= root * root;
    RootMonotone(5.0, root);
  }

  /** More citations never give a smaller bubble. */
  lemma RadiusMonotone(c1: int, root1: real, c2: int, root2: real)
    requires c1 <= c2
    requires IsSqrt(root1, (c1 + 25) as real) && IsSqrt(root2, (c2 + 25) as real)
    ensures Radius(root1) <= Radius(root2)
  {
    RootMonotone(root1, root2);
  }

  // ----- labels and colour -----

  const LabelThreshold: real := 18.0
  const LabelBudget: nat := 22
  const Ellipsis: char := '\U{2026}'

  /** Only bubbles whose radius exceeds 18 carry a label. */
  predicate HasLabel(radius: real) {
    radius > LabelThreshold
  }

  /** For whole citation counts a bubble is labelled exactly when it has more
      than 119 citations. */
  lemma LabelledIffCitations(citations: int, root: real)
    requires IsSqrt(root, (citations + 25) as real)
    ensures HasLabel(Radius(root)) <==> citations > 119
  {
    RadiusSquare(citations, root);
    var r := Radius(root);
    if citations > 119 {
      assert RadiusSquared(citations) > 18.0 * 18.0;
      RootMonotone(18.0, r);
      assert r != 18.0;
    } else {
      assert RadiusSquared(citations) <= 18.0 * 18.0;
      RootMonotone(r, 18.0);
    }
  }

  /** The label text: the title when it has at most 22 characters, otherwise
      its first 22 characters followed by an ellipsis. */
  function LabelText(title: string): (shown: string)
    ensures |shown| <= LabelBudget + 1
    ensures |title| <= LabelBudget ==> shown == title
    ensures |title| > LabelBudget ==> |shown| == LabelBudget + 1 && shown[..LabelBudget] == title[..LabelBudget]
    ensures |title| > LabelBudget ==> shown[LabelBudget] == Ellipsis
  {
    if |title| > LabelBudget then title[..LabelBudget] + [Ellipsis] else title
  }

  /** A truncated label is left as it is when truncated again. */
  lemma LabelTextIdempotent(title: string)
    ensures LabelText(LabelText(title)) == LabelText(title)
  {
    if |title| > LabelBudget {
      var shown := LabelText(title);
      assert shown[..LabelBudget] + [Ellipsis] == shown;
    }
  }

  /** Label font size: radius / 2.8, at most 14. */
  function FontSize(radius: real): (size: real)
    ensures size <= 14.0
    ensures radius <= 39.2 ==> size == radius / 2.8
    ensures radius >= 39.2 ==> size == 14.0
  {
    Min(radius / 2.8, 14.0)
  }

  const NeutralFill: string := "#94a3b8"

  /** What the ordinal colour scale gives a bubble: the palette colour of its
      cluster, the neutral grey for a paper without a cluster, or an id the
      scale has never seen. */
  datatype Fill = Painted(colour: string) | UnknownCluster(id: int)

  /** The colour scale's domain: the cluster ids with repetitions removed,
      first occurrence kept. */
  function Dedup(ids: seq<int>): (r: seq<int>)
    ensures forall x :: x in r <==> x in ids
    ensures forall i, j :: 0 <= i < j < |r| ==> r[i] != r[j]
  {
    if ids == [] then []
    else
      var init := ids[..|ids| - 1];
      assert ids == init + [ids[|ids| - 1]];
      var rest := Dedup(init);
      if ids[|ids| - 1] in rest then rest else rest + [ids[|ids| - 1]]
  }

  function IndexOf(s: seq<int>, x: int): (k: nat)
    requires x in s
    ensures k < |s| && s[k] == x
    ensures forall j :: 0 <= j < k ==> s[j] != x
  {
    if s[0] == x then 0 else 1 + IndexOf(s[1..], x)
  }

  /** Appending never moves the first occurrence of a value already present. */
  lemma {:induction false} IndexOfAppend(s: seq<int>, t: seq<int>, x: int)
    requires x in s
    ensures IndexOf(s + t, x) == IndexOf(s, x)
  {
    if s[0] != x {
      assert (s + t)[1..] == s[1..] + t;
      IndexOfAppend(s[1..], t, x);
    }
  }

  /** `r` lists values of `ids` in the order of their first occurrence in `ids`. */
  predicate FirstOccurrenceOrder(ids: seq<int>, r: seq<int>) {
    && (forall x :: x in r ==> x in ids)
    && forall i, j :: 0 <= i < j < |r| ==> IndexOf(ids, r[i]) < IndexOf(ids, r[j])
  }

  /** The domain lists the ids in the order of their first occurrence. */
  lemma {:induction false} DedupFirstOccurrence(ids: seq<int>)
    ensures FirstOccurrenceOrder(ids, Dedup(ids))
  {
    if ids != [] {
      var n := |ids| - 1;
      var init := ids[..n];
      assert ids == init + [ids[n]];
      var rest := Dedup(init);
      DedupFirstOccurrence(init);
      assert FirstOccurrenceOrder(init, rest);
      var r := Dedup(ids);
      if ids[n] !in rest {
        assert ids[n] !in init;
        assert IndexOf(ids, ids[n]) == n;
        assert r == rest + [ids[n]];
        forall i, j | 0 <= i < j < |r|
          ensures IndexOf(ids, r[i]) < IndexOf(ids, r[j])
        {
          assert r[i] == rest[i] && rest[i] in init;
          IndexOfAppend(init, [ids[n]], r[i]);
          if j < |rest| {
            assert r[j] == rest[j] && rest[j] in init;
            IndexOfAppend(init, [ids[n]], r[j]);
            assert IndexOf(init, rest[i]) < IndexOf(init, rest[j]);
          } else {
            assert r[j] == ids[n];
          }
        }
      } else {
        assert r == rest;
        forall i, j | 0 <= i < j < |rest|
          ensures IndexOf(ids, rest[i]) < IndexOf(ids, rest[j])
        {
          assert IndexOf(init, rest[i]) < IndexOf(init, rest[j]);
          IndexOfAppend(init, [ids[n]], rest[i]);
          IndexOfAppend(init, [ids[n]], rest[j]);
        }
      }
    }
  }

  lemma DedupDistinct(ids: seq<int>)
    requires forall i, j :: 0 <= i < j < |ids| ==> ids[i] != ids[j]
    ensures Dedup(ids) == ids
  {
    if ids != [] {
      var init := ids[..|ids| - 1];
      DedupDistinct(init);
      assert ids[|ids| - 1] !in init;
      assert init + [ids[|ids| - 1]] == ids;
    }
  }

  /** The fill of a bubble: the ordinal colour scale maps the k-th distinct
      cluster id to the k-th colour, and a paper without a cluster is grey. */
  function FillOf(clusterId: Option<int>, ids: seq<int>, colours: seq<string>): (f: Fill)
    requires |ids| == |colours|
    ensures clusterId == None ==> f == Painted(NeutralFill)
    ensures clusterId.Some? && clusterId.value !in ids ==> f == UnknownCluster(clusterId.value)
  {
    match clusterId
    case None => Painted(NeutralFill)
    case Some(id) =>
      var domain := Dedup(ids);
      if id in domain then Painted(colours[IndexOf(domain, id) % |colours|])
      else UnknownCluster(id)
  }

  /** With distinct cluster ids, a paper of cluster `ids[i]` gets `colours[i]`. */
  lemma FillOfKnownCluster(ids: seq<int>, colours: seq<string>, i: nat)
    requires |ids| == |colours| && i < |ids|
    requires forall a, b :: 0 <= a < b < |ids| ==> ids[a] != ids[b]
    ensures FillOf(Some(ids[i]), ids, colours) == Painted(colours[i])
  {
    DedupDistinct(ids);
    var k := IndexOf(ids, ids[i]);
    assert k == i;
    SmallRemainder(i, |colours|);
  }

  /** Arithmetic helper for FillOfKnownCluster: a position below the
      palette size is its own remainder. */
  lemma SmallRemainder(i: nat, n: nat)
    requires i < n
    ensures i % n == i
  {
  }

  // ----- pointer interaction -----

  datatype Style = Style(opacity: real, strokeWidth: real)

  const RestStyle: Style := Style(0.75, 2.0)
  const HoverStyle: Style := Style(1.0, 3.0)

  /** The tooltip state: the pointer position and the paper under it. */
  datatype Tooltip = Tooltip(x: real, y: real, paper: Option<Paper>)

  const NoTooltip: Tooltip := Tooltip(0.0, 0.0, None)

  /** Moving the pointer over a bubble highlights it and shows its paper at the pointer. */
  function OnPointerMove(pointerX: real, pointerY: real, paper: Paper): (r: (Style, Tooltip))
    ensures r.0.opacity > RestStyle.opacity && r.0.strokeWidth > RestStyle.strokeWidth
    ensures r.1 == Tooltip(pointerX, pointerY, Some(paper))
  {
    (HoverStyle, Tooltip(pointerX, pointerY, Some(paper)))
  }

  /** Leaving a bubble restores its style and clears the tooltip. */
  function OnPointerLeave(): (r: (Style, Tooltip))
    ensures r.0 == RestStyle && r.1.paper == None
  {
    (RestStyle, NoTooltip)
  }

  /** A click forwards the paper to the handler when there is one, and changes nothing else. */
  function OnClick(hasHandler: bool, paper: Paper): (forwarded: Option<Paper>)
    ensures forwarded.Some? <==> hasHandler
    ensures forwarded.Some? ==> forwarded.value == paper
  {
    if hasHandler then Some(paper) else None
  }

  // ----- tooltip position -----

  const Padding: real := 16.0
  const TooltipWidth: real := 250.0
  const TooltipHeight: real := 120.0

  /** The tooltip's top-left corner: right of the pointer and centred on it
      vertically, clamped to the padded canvas; (0, 0) while there is nothing
      to show or a dimension is 0. */
  function TooltipPosition(t: Tooltip, width: real, height: real): (r: (real, real))
    ensures t.paper.None? || width == 0.0 || height == 0.0 ==> r == (0.0, 0.0)
    ensures t.paper.Some? && width != 0.0 && height != 0.0 ==>
      r.0 <= width - TooltipWidth - Padding && r.1 <= height - TooltipHeight - Padding
  {
    if t.paper.None? || width == 0.0 || height == 0.0 then (0.0, 0.0)
    else
      (Min(Max(t.x + Padding, Padding), width - TooltipWidth - Padding),
       Min(Max(t.y - TooltipHeight / 2.0, Padding), height - TooltipHeight - Padding))
  }

  /** The right and bottom clamps always hold; the left and top ones hold
      exactly when the canvas is at least 282 wide and 152 high. */
  lemma TooltipClamped(t: Tooltip, width: real, height: real)
    requires t.paper.Some? && width != 0.0 && height != 0.0
    ensures var (left, top) := TooltipPosition(t, width, height);
      && left <= width - 266.0
      && top <= height - 136.0
      && (left >= 16.0 <==> width >= 282.0)
      && (top >= 16.0 <==> height >= 152.0)
      && (16.0 <= t.x + 16.0 <= width - 266.0 ==> left == t.x + 16.0)
      && (16.0 <= t.y - 60.0 <= height - 136.0 ==> top == t.y - 60.0)
  {
  }

  /** After the pointer leaves, the tooltip sits at the origin. */
  lemma TooltipHiddenAtOrigin(width: real, height: real)
    ensures TooltipPosition(OnPointerLeave().1, width, height) == (0.0, 0.0)
  {
  }

  // ----- canvas size -----

  datatype Dims = Dims(width: real, height: real)

  /** The initial state: the explicit dimensions, or 0 for a missing one. */
  function InitialDims(width: Option<real>, height: Option<real>): (d: Dims)
    ensures d.width == width.GetOr(0.0) && d.height == height.GetOr(0.0)
  {
    Dims(width.GetOr(0.0), height.GetOr(0.0))
  }

  /** JavaScript truthiness of an optional number: present and not 0. */
  predicate Truthy(v: Option<real>) {
    v.Some? && v.value != 0.0
  }

  /** Either the explicit dimensions are used as they are, or the container is observed. */
  datatype Sizing = Fixed(dims: Dims) | Observe

  function SizingFor(width: Option<real>, height: Option<real>): (s: Sizing)
    ensures s.Fixed? <==> Truthy(width) && Truthy(height)
    ensures s.Fixed? ==> s.dims == Dims(width.value, height.value)
  {
    if Truthy(width) && Truthy(height) then Fixed(Dims(width.value, height.value)) else Observe
  }

  /** The height derived from an observed width: 0.65 of it, at least 320. */
  function ObservedHeight(width: real): (h: real)
    ensures h >= 320.0 && h >= 0.65 * width
    ensures h == 320.0 || h == 0.65 * width
  {
    Max(320.0, width * 0.65)
  }

  /** The state update of the observer callback: the previous state is kept
      when the new size equals it, and `changed` says whether a new state was made. */
  function OnResize(prev: Dims, observedWidth: real): (r: (Dims, bool))
    ensures r.0 == Dims(observedWidth, ObservedHeight(observedWidth))
    ensures r.1 <==> prev != r.0
  {
    var next := Dims(observedWidth, ObservedHeight(observedWidth));
    if prev.width == next.width && prev.height == next.height then (prev, false) else (next, true)
  }

  /** Observing the same width twice changes the state at most once. */
  lemma ResizeIdempotent(prev: Dims, observedWidth: real)
    ensures !OnResize(OnResize(prev, observedWidth).0, observedWidth).1
  {
  }

  /** The drawn canvas is at least 1 by 1; it is ready when both sides exceed 1. */
  function SvgSize(d: Dims): (r: (real, real))
    ensures r.0 >= 1.0 && r.1 >= 1.0
    ensures d.width >= 1.0 ==> r.0 == d.width
    ensures d.height >= 1.0 ==> r.1 == d.height
  {
    (Max(1.0, d.width), Max(1.0, d.height))
  }

  predicate IsReady(d: Dims) {
    SvgSize(d).0 > 1.0 && SvgSize(d).1 > 1.0
  }

  lemma ReadyIffLarger(d: Dims)
    ensures IsReady(d) <==> d.width > 1.0 && d.height > 1.0
  {
  }

  // ----- simulation guard and zoom -----

  /** The layout is built only for a non-empty paper list on a canvas with no zero side. */
  predicate CanStart(paperCount: nat, d: Dims) {
    paperCount > 0 && d.width != 0.0 && d.height != 0.0
  }

  const MinScale: real := 0.5
  const MaxScale: real := 4.0

  /** The zoom's scale extent: any requested scale is confined to [0.5, 4]. */
  function ClampScale(k: real): (r: real)
    ensures MinScale <= r <= MaxScale
    ensures MinScale <= k <= MaxScale ==> r == k
    ensures k < MinScale ==> r == MinScale
    ensures k > MaxScale ==> r == MaxScale
  {
    Max(MinScale, Min(MaxScale, k))
  }

  /** The transform applied to the group that holds the bubbles. */
  datatype Transform = Transform(tx: real, ty: real, k: real)

  const Identity: Transform := Transform(0.0, 0.0, 1.0)
}
