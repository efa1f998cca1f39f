/** The stateful part of the bubble chart: the simulation nodes, the cluster
    cohesion force that nudges their velocities, the simulation's running
    flag, and the component instance whose effects build, replace and stop
    simulations. */
module BubbleEngine {
  import opened Wrappers
  import opened PaperRecord
  import opened BubbleGeometry

  /** A simulation node: a paper, its bubble radius, its position and its velocity. */
  class Node {
    const paper: Paper
    const radius: real
    var x: real
    var y: real
    var vx: real
    var vy: real

    /** A paper's node: its radius, and a position drawn uniformly on the
        canvas. `root` is the square root of citations + 25 and `drawX`,
        `drawY` are the two random draws. The velocity starts at 0, as the
        force simulation sets it on nodes that have none. */
    constructor (paper: Paper, root: real, drawX: real, drawY: real, width: real, height: real)
      requires IsSqrt(root, (paper.citations + 25) as real)
      requires 0.0 <= drawX < 1.0 && 0.0 <= drawY < 1.0
      ensures this.paper == paper && radius == Radius(root)
      ensures x == drawX * width && y == drawY * height
      ensures vx == 0.0 && vy == 0.0
    {
      this.paper := paper;
      radius := Radius(root);
      x := drawX * width;
      y := drawY * height;
      vx := 0.0;
      vy := 0.0;
    }
  }

  /** What the cohesion force sees of a node. */
  datatype Body = Body(cluster: Option<int>, x: real, y: real, vx: real, vy: real)

  ghost function BodyOf(n: Node): Body
    reads n
  {
    Body(n.paper.clusterId, n.x, n.y, n.vx, n.vy)
  }

  ghost predicate Distinct(nodes: array<Node>)
    reads nodes
  {
    forall i, j :: 0 <= i < j < nodes.Length ==> nodes[i] != nodes[j]
  }

  ghost function Bodies(nodes: array<Node>): (bs: seq<Body>)
    reads nodes, set k | 0 <= k < nodes.Length :: nodes[k]
    ensures |bs| == nodes.Length
    ensures forall k :: 0 <= k < nodes.Length ==> bs[k] == BodyOf(nodes[k])
  {
    seq(nodes.Length, k requires 0 <= k < nodes.Length
                        reads nodes, set j | 0 <= j < nodes.Length :: nodes[j] => BodyOf(nodes[k]))
  }

  // ----- the cohesion force on values -----

  /** Number of bodies in cluster `c`. */
  function Members(bs: seq<Body>, c: int): nat {
    if bs == [] then 0
    else Members(bs[..|bs| - 1], c) + (if bs[|bs| - 1].cluster == Some(c) then 1 else 0)
  }

  function SumX(bs: seq<Body>, c: int): real {
    if bs == [] then 0.0
    else SumX(bs[..|bs| - 1], c) + (if bs[|bs| - 1].cluster == Some(c) then bs[|bs| - 1].x else 0.0)
  }

  function SumY(bs: seq<Body>, c: int): real {
    if bs == [] then 0.0
    else SumY(bs[..|bs| - 1], c) + (if bs[|bs| - 1].cluster == Some(c) then bs[|bs| - 1].y else 0.0)
  }

  /** The two axes the force acts along. */
  datatype Axis = Horizontal | Vertical

  function Pos(b: Body, a: Axis): real {
    if a == Horizontal then b.x else b.y
  }

  function Vel(b: Body, a: Axis): real {
    if a == Horizontal then b.vx else b.vy
  }

  /** The summed velocity of cluster `c`'s members along axis `a`. */
  function SumV(bs: seq<Body>, c: int, a: Axis): real {
    if bs == [] then 0.0
    else SumV(bs[..|bs| - 1], c, a) + (if bs[|bs| - 1].cluster == Some(c) then Vel(bs[|bs| - 1], a) else 0.0)
  }

  /** The mean of `count` values summing to `sum`, with JavaScript's `|| fallback`:
      the fallback replaces a missing mean and a mean of exactly 0. */
  function MeanOr(sum: real, count: nat, fallback: real): real {
    if count == 0 then fallback
    else
      var mean := sum / count as real;
      if mean == 0.0 then fallback else mean
  }

  /** Where cluster `c` pulls its members: the mean position of its members,
      or the canvas centre in place of a mean of 0. */
  function CentreX(bs: seq<Body>, c: int, width: real): real {
    MeanOr(SumX(bs, c), Members(bs, c), width / 2.0)
  }

  function CentreY(bs: seq<Body>, c: int, height: real): real {
    MeanOr(SumY(bs, c), Members(bs, c), height / 2.0)
  }

  /** The velocity change for an offset from the centre: offset · alpha · 0.1. */
  function Gain(offset: real, alpha: real): real {
    offset * alpha * 0.1
  }

  /** Arithmetic helper for PrefixPull. */
  lemma GainAdditive(a: real, b: real, alpha: real)
    ensures Gain(a, alpha) + Gain(b, alpha) == Gain(a + b, alpha)
  {
  }

  /** One body's velocity after the force: a body without a cluster is left
      alone; otherwise alpha / 10 of its offset from the cluster's centre is
      added to its velocity. */
  function Pull(b: Body, bs: seq<Body>, alpha: real, width: real, height: real): Body {
    match b.cluster
    case None => b
    case Some(c) =>
      b.(vx := b.vx + Gain(CentreX(bs, c, width) - b.x, alpha),
         vy := b.vy + Gain(CentreY(bs, c, height) - b.y, alpha))
  }

  /** The cohesion force applied to every node: velocities change, and
      nothing else does. */
  function CohesionStep(bs: seq<Body>, alpha: real, width: real, height: real): (r: seq<Body>)
    ensures |r| == |bs|
    ensures forall i :: 0 <= i < |bs| ==>
      r[i].cluster == bs[i].cluster && r[i].x == bs[i].x && r[i].y == bs[i].y
    ensures forall i :: 0 <= i < |bs| && bs[i].cluster == None ==> r[i] == bs[i]
  {
    seq(|bs|, i requires 0 <= i < |bs| => Pull(bs[i], bs, alpha, width, height))
  }

  ghost predicate SamePlacement(a: seq<Body>, b: seq<Body>) {
    |a| == |b| &&
    forall k :: 0 <= k < |a| ==> a[k].cluster == b[k].cluster && a[k].x == b[k].x && a[k].y == b[k].y
  }

  /** The centres depend only on clusters and positions, not on velocities. */
  lemma {:induction false} SamePlacementSameCentre(a: seq<Body>, b: seq<Body>, c: int)
    requires SamePlacement(a, b)
    ensures Members(a, c) == Members(b, c) && SumX(a, c) == SumX(b, c) && SumY(a, c) == SumY(b, c)
  {
    if a != [] {
      var n := |a| - 1;
      assert SamePlacement(a[..n], b[..n]);
      SamePlacementSameCentre(a[..n], b[..n], c);
    }
  }

  /** A node alone in its cluster, away from the origin, feels no pull. */
  lemma SoleMemberUnpulled(bs: seq<Body>, i: nat, alpha: real, width: real, height: real)
    requires i < |bs| && bs[i].cluster.Some?
    requires forall k :: 0 <= k < |bs| && k != i ==> bs[k].cluster != bs[i].cluster
    requires bs[i].x != 0.0 && bs[i].y != 0.0
    ensures CohesionStep(bs, alpha, width, height)[i] == bs[i]
  {
    var c := bs[i].cluster.value;
    SoleMember(bs, i, c);
  }

  lemma {:induction false} SoleMember(bs: seq<Body>, i: nat, c: int)
    requires i < |bs| && bs[i].cluster == Some(c)
    requires forall k :: 0 <= k < |bs| && k != i ==> bs[k].cluster != Some(c)
    ensures Members(bs, c) == 1 && SumX(bs, c) == bs[i].x && SumY(bs, c) == bs[i].y
  {
    var n := |bs| - 1;
    if i < n {
      SoleMember(bs[..n], i, c);
    } else {
      NoMember(bs[..n], c);
    }
  }

  lemma {:induction false} NoMember(bs: seq<Body>, c: int)
    requires forall k :: 0 <= k < |bs| ==> bs[k].cluster != Some(c)
    ensures Members(bs, c) == 0 && SumX(bs, c) == 0.0 && SumY(bs, c) == 0.0
  {
    if bs != [] {
      NoMember(bs[..|bs| - 1], c);
    }
  }

  /** The summed position of cluster `c`'s members along axis `a`. */
  function SumPos(bs: seq<Body>, c: int, a: Axis): real {
    if a == Horizontal then SumX(bs, c) else SumY(bs, c)
  }

  /** The point cluster `c` pulls towards along axis `a`. */
  function CentreOn(bs: seq<Body>, c: int, a: Axis, width: real, height: real): real {
    if a == Horizontal then CentreX(bs, c, width) else CentreY(bs, c, height)
  }

  /** The sum of the members' offsets from a point `centre` along axis `a`. */
  function Offsets(bs: seq<Body>, c: int, centre: real, a: Axis): real {
    if bs == [] then 0.0
    else Offsets(bs[..|bs| - 1], c, centre, a) + (if bs[|bs| - 1].cluster == Some(c) then centre - Pos(bs[|bs| - 1], a) else 0.0)
  }

  lemma {:induction false} OffsetsTotal(bs: seq<Body>, c: int, centre: real, a: Axis)
    ensures Offsets(bs, c, centre, a) == Members(bs, c) as real * centre - SumPos(bs, c, a)
  {
    if bs != [] {
      var init := bs[..|bs| - 1];
      OffsetsTotal(init, c, centre, a);
      MulSucc(Members(init, c) as real, centre);
    }
  }

  /** Arithmetic helper for OffsetsTotal. */
  lemma MulSucc(m: real, centre: real)
    ensures (m + 1.0) * centre == m * centre + centre
  {
  }

  /** Over the first `n` bodies, the velocity changes of cluster `c`'s
      members along axis `a` add up to the gain of their summed offsets
      from the centre. */
  lemma {:induction false} PrefixPull(bs: seq<Body>, r: seq<Body>, n: nat, c: int, a: Axis, alpha: real, width: real, height: real)
    requires n <= |bs| && r == CohesionStep(bs, alpha, width, height)
    ensures SumV(r[..n], c, a) - SumV(bs[..n], c, a) == Gain(Offsets(bs[..n], c, CentreOn(bs, c, a, width, height), a), alpha)
  {
    var centre := CentreOn(bs, c, a, width, height);
    if n > 0 {
      PrefixPull(bs, r, n - 1, c, a, alpha, width, height);
      assert r[..n][..n - 1] == r[..n - 1];
      assert bs[..n][..n - 1] == bs[..n - 1];
      var b := bs[n - 1];
      var before := Offsets(bs[..n - 1], c, centre, a);
      if b.cluster == Some(c) {
        assert Vel(r[n - 1], a) == Vel(b, a) + Gain(centre - Pos(b, a), alpha);
        GainAdditive(before, centre - Pos(b, a), alpha);
      } else {
        assert r[n - 1].cluster == b.cluster;
      }
    } else {
      assert Gain(0.0, alpha) == 0.0;
    }
  }

  /** Arithmetic helper for OffsetsAtMean. */
  lemma MeanTimesCount(sum: real, m: real, mean: real)
    requires m != 0.0 && mean == sum / m
    ensures m * mean == sum
  {
  }

  /** Along an axis where a cluster's centre is its true mean, its members'
      velocity changes cancel: the force moves the cluster's velocity sum
      by nothing. */
  lemma AxisBalanced(bs: seq<Body>, c: int, a: Axis, alpha: real, width: real, height: real)
    requires Members(bs, c) > 0 && SumPos(bs, c, a) != 0.0
    ensures SumV(CohesionStep(bs, alpha, width, height), c, a) == SumV(bs, c, a)
  {
    var r := CohesionStep(bs, alpha, width, height);
    var centre := CentreOn(bs, c, a, width, height);
    OffsetsAtMean(bs, c, a, width, height);
    assert r[..|bs|] == r && bs[..|bs|] == bs;
    PrefixPull(bs, r, |bs|, c, a, alpha, width, height);
    GainOfZero(Offsets(bs, c, centre, a), alpha);
  }

  /** Where a cluster's centre is its true mean on both axes, the force
      moves no cluster as a whole: its members' summed velocity is the
      same before and after, horizontally and vertically. */
  lemma CohesionBalanced(bs: seq<Body>, c: int, alpha: real, width: real, height: real)
    requires Members(bs, c) > 0 && SumX(bs, c) != 0.0 && SumY(bs, c) != 0.0
    ensures SumV(CohesionStep(bs, alpha, width, height), c, Horizontal) == SumV(bs, c, Horizontal)
    ensures SumV(CohesionStep(bs, alpha, width, height), c, Vertical) == SumV(bs, c, Vertical)
  {
    AxisBalanced(bs, c, Horizontal, alpha, width, height);
    AxisBalanced(bs, c, Vertical, alpha, width, height);
  }

  /** At the true mean of a cluster its members' offsets cancel. */
  lemma OffsetsAtMean(bs: seq<Body>, c: int, a: Axis, width: real, height: real)
    requires Members(bs, c) > 0 && SumPos(bs, c, a) != 0.0
    ensures Offsets(bs, c, CentreOn(bs, c, a, width, height), a) == 0.0
  {
    var centre := CentreOn(bs, c, a, width, height);
    var m := Members(bs, c) as real;
    var sum := SumPos(bs, c, a);
    assert centre == sum / m;
    MeanTimesCount(sum, m, centre);
    OffsetsTotal(bs, c, centre, a);
  }

  /** Arithmetic helper for AxisBalanced. */
  lemma GainOfZero(offset: real, alpha: real)
    requires offset == 0.0
    ensures Gain(offset, alpha) == 0.0
  {
  }

  /** The d3 force simulation: its nodes, the canvas it centres on, and
      whether its timer is running. */
  class Simulation {
    const nodes: array<Node>
    const width: real
    const height: real
    var running: bool

    /** Creating a simulation starts its timer. */
    constructor (nodes: array<Node>, width: real, height: real)
      ensures this.nodes == nodes && this.width == width && this.height == height
      ensures running
    {
      this.nodes := nodes;
      this.width := width;
      this.height := height;
      running := true;
    }

    /** simulation.stop(): the timer stops, the nodes keep their state. */
    method Stop()
      modifies this
      ensures !running
    {
      running := false;
    }

    /** The centre cluster `c` pulls towards, read off the current nodes. */
    method Centre(c: int) returns (cx: real, cy: real)
      ensures cx == CentreX(Bodies(nodes), c, width)
      ensures cy == CentreY(Bodies(nodes), c, height)
    {
      ghost var bs := Bodies(nodes);
      var count: nat := 0;
      var sx := 0.0;
      var sy := 0.0;
      for k := 0 to nodes.Length
        invariant count == Members(bs[..k], c)
        invariant sx == SumX(bs[..k], c) && sy == SumY(bs[..k], c)
      {
        assert bs[..k + 1][..k] == bs[..k];
        if nodes[k].paper.clusterId == Some(c) {
          count := count + 1;
          sx := sx + nodes[k].x;
          sy := sy + nodes[k].y;
        }
      }
      assert bs[..nodes.Length] == bs;
      cx := MeanOr(sx, count, width / 2.0);
      cy := MeanOr(sy, count, height / 2.0);
    }

    /** The 'cluster' force for one tick: each clustered node's velocity is
        nudged towards its cluster's centre; positions stay as they are, so
        visiting the nodes in order gives the same result as CohesionStep. */
    method ClusterForce(alpha: real)
      requires Distinct(nodes)
      modifies set k | 0 <= k < nodes.Length :: nodes[k]
      ensures Bodies(nodes) == CohesionStep(old(Bodies(nodes)), alpha, width, height)
    {
      ghost var start := Bodies(nodes);
      ghost var target := CohesionStep(start, alpha, width, height);
      for i := 0 to nodes.Length
        invariant forall k :: 0 <= k < i ==> BodyOf(nodes[k]) == target[k]
        invariant forall k :: i <= k < nodes.Length ==> BodyOf(nodes[k]) == start[k]
      {
        assert SamePlacement(Bodies(nodes), start);
        PullNode(i, alpha, start);
        assert BodyOf(nodes[i]) == target[i];
        assert forall k :: 0 <= k < nodes.Length && k != i ==> nodes[k] != nodes[i];
      }
    }

    /** The loop body for node `i`: skip it without a cluster, otherwise
        compute its cluster's centre from the current nodes and add the
        scaled offset to its velocity. */
    method PullNode(i: nat, alpha: real, ghost start: seq<Body>)
      requires i < nodes.Length && SamePlacement(Bodies(nodes), start)
      modifies nodes[i]
      ensures BodyOf(nodes[i]) == Pull(old(BodyOf(nodes[i])), start, alpha, width, height)
    {
      var node := nodes[i];
      match node.paper.clusterId {
        case None =>
        case Some(c) =>
          SamePlacementSameCentre(Bodies(nodes), start, c);
          var cx, cy := Centre(c);
          node.vx := node.vx + Gain(cx - node.x, alpha);
          node.vy := node.vy + Gain(cy - node.y, alpha);
      }
    }
  }

  /** One node per paper, in paper order, each a fresh object. */
  method BuildNodes(papers: seq<Paper>, roots: seq<real>, draws: seq<(real, real)>,
                    width: real, height: real) returns (nodes: array<Node>)
    requires |roots| == |papers| && |draws| == |papers|
    requires forall i :: 0 <= i < |papers| ==> IsSqrt(roots[i], (papers[i].citations + 25) as real)
    requires forall i :: 0 <= i < |papers| ==> 0.0 <= draws[i].0 < 1.0 && 0.0 <= draws[i].1 < 1.0
    ensures fresh(nodes) && nodes.Length == |papers| && Distinct(nodes)
    ensures forall i :: 0 <= i < |papers| ==>
      fresh(nodes[i]) && nodes[i].paper == papers[i] && nodes[i].radius == Radius(roots[i]) &&
      BodyOf(nodes[i]) == Body(papers[i].clusterId, draws[i].0 * width, draws[i].1 * height, 0.0, 0.0)
  {
    var made: seq<Node> := [];
    for i := 0 to |papers|
      invariant |made| == i
      invariant forall k, j :: 0 <= k < j < i ==> made[k] != made[j]
      invariant forall k :: 0 <= k < i ==>
        fresh(made[k]) && made[k].paper == papers[k] && made[k].radius == Radius(roots[k]) &&
        BodyOf(made[k]) == Body(papers[k].clusterId, draws[k].0 * width, draws[k].1 * height, 0.0, 0.0)
    {
      var node := new Node(papers[i], roots[i], draws[i].0, draws[i].1, width, height);
      made := made + [node];
    }
    nodes := new Node[|papers|](k requires 0 <= k < |made| => made[k]);
  }

  /** The chart component's instance: its state (canvas size, tooltip), the
      transform of the bubble group, whether it observes its container, and
      the simulation its last layout started. `started` records every
      simulation this instance has created. */
  class Chart {
    var dims: Dims
    var tooltip: Tooltip
    var transform: Transform
    var observing: bool
    var simulation: Simulation?
    ghost var started: set<Simulation>

    /** The current simulation is one this instance started, and every other
        one it started has been stopped. */
    ghost predicate Valid()
      reads this, started
    {
      (simulation != null ==> simulation in started) &&
      forall s :: s in started && s != simulation ==> !s.running
    }

    /** Mounting: the initial state, before any effect has run. */
    constructor (width: Option<real>, height: Option<real>)
      ensures dims == InitialDims(width, height) && tooltip == NoTooltip
      ensures transform == Identity && !observing && simulation == null && started == {}
      ensures Valid()
    {
      dims := InitialDims(width, height);
      tooltip := NoTooltip;
      transform := Identity;
      observing := false;
      simulation := null;
      started := {};
    }

    /** The sizing effect: explicit dimensions are adopted as they are;
        otherwise the container is observed from now on. The browser checks
        that can also skip the observer are not modelled. */
    method ApplySizing(width: Option<real>, height: Option<real>)
      modifies this`dims, this`observing
      ensures SizingFor(width, height).Fixed? ==> dims == SizingFor(width, height).dims && !observing
      ensures SizingFor(width, height).Observe? ==> dims == old(dims) && observing
    {
      match SizingFor(width, height)
      case Fixed(d) =>
        dims := d;
        observing := false;
      case Observe =>
        observing := true;
    }

    /** The observer callback for a container of the given width. */
    method Resize(observedWidth: real) returns (changed: bool)
      requires observing
      modifies this`dims
      ensures (dims, changed) == OnResize(old(dims), observedWidth)
    {
      var next := OnResize(dims, observedWidth);
      dims := next.0;
      changed := next.1;
    }

    /** The layout effect: the previous layout's simulation is stopped
        first; a new one is built only when there are papers and neither side
        of the canvas is 0, and then the bubble group starts untransformed. */
    method Render(papers: seq<Paper>, roots: seq<real>, draws: seq<(real, real)>)
      requires Valid()
      requires |roots| == |papers| && |draws| == |papers|
      requires forall i :: 0 <= i < |papers| ==> IsSqrt(roots[i], (papers[i].citations + 25) as real)
      requires forall i :: 0 <= i < |papers| ==> 0.0 <= draws[i].0 < 1.0 && 0.0 <= draws[i].1 < 1.0
      modifies this, simulation
      ensures Valid()
      ensures old(simulation) != null ==> !old(simulation).running
      ensures forall s :: s in started && s.running ==> s == simulation
      ensures dims == old(dims) && tooltip == old(tooltip) && observing == old(observing)
      ensures !CanStart(|papers|, dims) ==> simulation == null && transform == old(transform)
      ensures CanStart(|papers|, dims) ==>
        simulation != null && fresh(simulation) && simulation.running &&
        simulation.width == dims.width && simulation.height == dims.height &&
        simulation.nodes.Length == |papers| && Distinct(simulation.nodes) &&
        (forall i :: 0 <= i < |papers| ==>
           (simulation.nodes[i].paper == papers[i] &&
            BodyOf(simulation.nodes[i]) == Body(papers[i].clusterId, draws[i].0 * dims.width,
                                                draws[i].1 * dims.height, 0.0, 0.0))) &&
        transform == Identity
    {
      if simulation != null {
        simulation.Stop();
      }
      if !CanStart(|papers|, dims) {
        simulation := null;
        return;
      }
      var nodes := BuildNodes(papers, roots, draws, dims.width, dims.height);
      var sim := new Simulation(nodes, dims.width, dims.height);
      simulation := sim;
      started := started + {sim};
      transform := Identity;
    }

    /** Unmounting: the simulation is stopped and the observer disconnected. */
    method Unmount()
      requires Valid()
      modifies this, simulation
      ensures Valid() && simulation == null && !observing
      ensures forall s :: s in started ==> !s.running
      ensures dims == old(dims) && tooltip == old(tooltip) && started == old(started)
    {
      if simulation != null {
        simulation.Stop();
      }
      simulation := null;
      observing := false;
    }

    /** Pointer over a bubble: the tooltip shows its paper at the pointer. */
    method PointerMove(pointerX: real, pointerY: real, paper: Paper)
      modifies this`tooltip
      ensures tooltip == Tooltip(pointerX, pointerY, Some(paper))
    {
      tooltip := OnPointerMove(pointerX, pointerY, paper).1;
    }

    /** Pointer leaving a bubble: the tooltip is cleared. */
    method PointerLeave()
      modifies this`tooltip
      ensures tooltip == NoTooltip
    {
      tooltip := OnPointerLeave().1;
    }

    /** A zoom gesture: the group takes the gesture's translation and its
        scale confined to [0.5, 4]. */
    method Zoom(tx: real, ty: real, k: real)
      modifies this`transform
      ensures transform == Transform(tx, ty, ClampScale(k))
    {
      transform := Transform(tx, ty, ClampScale(k));
    }

    /** Where the tooltip is drawn in the current state: at the origin
        while no paper is shown or a side is 0, otherwise inside the
        right and bottom padding. */
    function TooltipAt(): (r: (real, real))
      reads this
      ensures tooltip.paper.None? || dims.width == 0.0 || dims.height == 0.0 ==> r == (0.0, 0.0)
      ensures tooltip.paper.Some? && dims.width != 0.0 && dims.height != 0.0 ==>
        r.0 <= dims.width - TooltipWidth - Padding && r.1 <= dims.height - TooltipHeight - Padding
    {
      TooltipPosition(tooltip, dims.width, dims.height)
    }
  }
}
