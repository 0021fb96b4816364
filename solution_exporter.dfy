/**
 * Read-only, self-describing view of one unit operation's state vector (ISolutionExporter).
 *
 * A concrete unit operation is represented by its `Layout`: the structural counts, the
 * bound states of every component, where each block of the state vector starts in the
 * buffer, in which loop order it is linearised and how far apart its innermost blocks are.
 * Every exporter query is a function of the layout and, for values, of the buffer.
 */
module SolutionExporter {
  import opened Wrappers
  import opened Linearization
  import opened BoundStates

  /** Dimensions of the state vector. An ordering lists them outermost loop first. */
  datatype StateOrdering = Component | AxialCell | RadialCell | BoundState

  /** Coordinates of one DOF; a coordinate the block does not use is 0. */
  datatype Point = Point(component: nat, axialCell: nat, radialCell: nat, boundState: nat)

  /** One block of the state vector: the buffer index of its first element and its loop order. */
  datatype Block = Block(start: nat, ordering: seq<StateOrdering>)

  /** Inlet or outlet slice: the buffer index of component 0 and the distance between components. */
  datatype Port = Port(start: nat, stride: nat)

  /** Volume DOFs: the buffer index of the first one and how many there are. */
  datatype VolumeBlock = VolumeBlock(start: nat, count: nat)

  /**
   * The structure a unit operation reports. numComponents, numAxialCells and numRadialCells are
   * the counts of the same name; an absent optional block is the feature the model lacks.
   */
  datatype Layout = Layout(
    numComponents: nat,
    numAxialCells: nat,
    numRadialCells: nat,
    boundStatesPerComponent: seq<nat>,
    bulk: Block,
    bulkStride: nat,
    flux: Option<Block>,
    particle: Option<Block>,
    particleStride: nat,
    solid: Option<Block>,
    solidStride: nat,
    volume: Option<VolumeBlock>,
    inlet: Port,
    outlet: Port)

  /** The four blocks that carry an ordering descriptor. */
  datatype BlockKind = Bulk | Flux | ParticleMobile | Solid

  // ---------------------------------------------------------------------------
  // Structural flags and counts

  predicate HasParticleFlux(l: Layout) { l.flux.Some? }

  predicate HasParticleMobilePhase(l: Layout) { l.particle.Some? }

  predicate HasSolidPhase(l: Layout) { l.solid.Some? }

  predicate HasVolume(l: Layout) { l.volume.Some? }

  /** Some component has several entries in the solid phase. */
  function HasMultipleBoundStates(l: Layout): (r: bool)
    ensures r <==> exists c :: 0 <= c < |l.boundStatesPerComponent| && l.boundStatesPerComponent[c] > 1
  {
    AnyMultipleIff(l.boundStatesPerComponent);
    AnyMultiple(l.boundStatesPerComponent)
  }

  /** Some component has no solid-phase representation. */
  function HasNonBindingComponents(l: Layout): (r: bool)
    ensures r <==> exists c :: 0 <= c < |l.boundStatesPerComponent| && l.boundStatesPerComponent[c] == 0
  {
    AnyNonBindingIff(l.boundStatesPerComponent);
    AnyNonBinding(l.boundStatesPerComponent)
  }

  lemma BoundRunsFit(s: seq<nat>)
    ensures forall c :: 0 <= c < |s| ==> BoundOffset(s, c) + s[c] <= Sum(s)
  {
    forall c | 0 <= c < |s| ensures BoundOffset(s, c) + s[c] <= Sum(s) {
      BoundOffsetStep(s, c);
      BoundOffsetMonotone(s, c + 1, |s|);
      BoundOffsetAll(s, |s|);
    }
  }

  /** Total number of bound states: the run of every component's bound states fits in it. */
  function NumBoundStates(l: Layout): (r: nat)
    ensures r == BoundOffset(l.boundStatesPerComponent, |l.boundStatesPerComponent|)
    ensures forall c :: 0 <= c < |l.boundStatesPerComponent| ==>
      BoundOffset(l.boundStatesPerComponent, c) + l.boundStatesPerComponent[c] <= r
  {
    BoundOffsetAll(l.boundStatesPerComponent, |l.boundStatesPerComponent|);
    BoundRunsFit(l.boundStatesPerComponent);
    Sum(l.boundStatesPerComponent)
  }

  /** The per-component bound-state counts, one entry per component. */
  function NumBoundStatesPerComponent(l: Layout): (r: seq<nat>)
    requires WellFormed(l)
    ensures |r| == l.numComponents && Sum(r) == NumBoundStates(l)
  {
    l.boundStatesPerComponent
  }

  /** Bound states of one component; the caller keeps comp in range. */
  function NumBoundStatesOf(l: Layout, comp: nat): (r: nat)
    requires comp < |l.boundStatesPerComponent|
    ensures r == l.boundStatesPerComponent[comp] && r <= NumBoundStates(l)
    ensures r == BoundOffset(l.boundStatesPerComponent, comp + 1) - BoundOffset(l.boundStatesPerComponent, comp)
  {
    BoundOffsetStep(l.boundStatesPerComponent, comp);
    l.boundStatesPerComponent[comp]
  }

  lemma SingleBoundStateEach(l: Layout)
    requires WellFormed(l)
    ensures !HasMultipleBoundStates(l) ==> NumBoundStates(l) <= l.numComponents
    ensures !HasNonBindingComponents(l) ==> NumBoundStates(l) >= l.numComponents
    ensures !HasMultipleBoundStates(l) && !HasNonBindingComponents(l) ==> NumBoundStates(l) == l.numComponents
  {
    if !HasMultipleBoundStates(l) {
      SingleBoundStatesAtMostComponents(l.boundStatesPerComponent);
    }
    if !HasNonBindingComponents(l) {
      BindingComponentsAtLeastComponents(l.boundStatesPerComponent);
    }
  }

  // ---------------------------------------------------------------------------
  // Orderings

  predicate Distinct(o: seq<StateOrdering>)
  {
    forall i, j :: 0 <= i < j < |o| ==> o[i] != o[j]
  }

  /**
   * No dimension is listed twice, and the bound states are listed directly after the
   * component they belong to, since their number differs from component to component.
   */
  predicate WellFormedOrdering(o: seq<StateOrdering>)
  {
    Distinct(o) && forall i :: 0 <= i < |o| && o[i] == BoundState ==> 0 < i && o[i - 1] == Component
  }

  /** A Component loop directly enclosing a BoundState loop: one flat bound-state digit. */
  predicate Fused(o: seq<StateOrdering>)
  {
    |o| >= 2 && o[0] == Component && o[1] == BoundState
  }

  /** Extent of one loop; BoundState runs over the flat bound-state positions of a cell. */
  function Extent(l: Layout, t: StateOrdering): nat
  {
    match t
    case Component => l.numComponents
    case AxialCell => l.numAxialCells
    case RadialCell => l.numRadialCells
    case BoundState => NumBoundStates(l)
  }

  /** The digit a point contributes to the loop over t. */
  function Coordinate(l: Layout, t: StateOrdering, p: Point): nat
  {
    match t
    case Component => p.component
    case AxialCell => p.axialCell
    case RadialCell => p.radialCell
    case BoundState => FlatBound(l.boundStatesPerComponent, p.component, p.boundState)
  }

  /** Number of digits of an ordering: a Component fused with BoundState is one digit. */
  function Rank(o: seq<StateOrdering>): nat
  {
    if o == [] then 0 else (if Fused(o) then 0 else 1) + Rank(o[1..])
  }

  function Extents(l: Layout, o: seq<StateOrdering>): (ext: seq<nat>)
    ensures |ext| == Rank(o)
  {
    if o == [] then []
    else if Fused(o) then Extents(l, o[1..])
    else [Extent(l, o[0])] + Extents(l, o[1..])
  }

  function Indices(l: Layout, o: seq<StateOrdering>, p: Point): (idx: seq<nat>)
    ensures |idx| == Rank(o)
  {
    if o == [] then []
    else if Fused(o) then Indices(l, o[1..], p)
    else [Coordinate(l, o[0], p)] + Indices(l, o[1..], p)
  }

  /** The dimensions each block is indexed by. */
  function BlockTags(k: BlockKind): set<StateOrdering>
  {
    match k
    case Bulk => {Component, AxialCell}
    case Flux => {Component, AxialCell}
    case ParticleMobile => {Component, AxialCell, RadialCell}
    case Solid => {Component, AxialCell, RadialCell, BoundState}
  }

  /** o is a loop order over exactly the given dimensions. */
  predicate Covers(o: seq<StateOrdering>, tags: set<StateOrdering>)
  {
    && WellFormedOrdering(o)
    && (forall i :: 0 <= i < |o| ==> o[i] in tags)
    && (forall t :: t in tags ==> t in o)
  }

  // ---------------------------------------------------------------------------
  // Blocks

  predicate Present(l: Layout, k: BlockKind)
  {
    match k
    case Bulk => true
    case Flux => l.flux.Some?
    case ParticleMobile => l.particle.Some?
    case Solid => l.solid.Some?
  }

  function BlockOf(l: Layout, k: BlockKind): Block
    requires Present(l, k)
  {
    match k
    case Bulk => l.bulk
    case Flux => l.flux.value
    case ParticleMobile => l.particle.value
    case Solid => l.solid.value
  }

  /** Innermost extent of an ordering (0 for an empty one). */
  function InnermostExtent(l: Layout, o: seq<StateOrdering>): nat
  {
    var ext := Extents(l, o);
    if ext == [] then 0 else Last(ext)
  }

  /** Distance between innermost blocks; the flux block has no stride query and is dense. */
  function StrideOf(l: Layout, k: BlockKind): nat
  {
    match k
    case Bulk => l.bulkStride
    case Flux => if l.flux.Some? then InnermostExtent(l, l.flux.value.ordering) else 0
    case ParticleMobile => l.particleStride
    case Solid => l.solidStride
  }

  /** The block's ordering names exactly its dimensions and its innermost blocks do not overlap. */
  predicate BlockWellFormed(l: Layout, k: BlockKind)
    requires Present(l, k)
  {
    var o := BlockOf(l, k).ordering;
    Covers(o, BlockTags(k)) && Rank(o) > 0 && InnermostExtent(l, o) <= StrideOf(l, k)
  }

  /** Every element the block addresses lies inside a buffer of n elements. */
  predicate BlockFits(l: Layout, k: BlockKind, n: nat)
    requires Present(l, k) && Rank(BlockOf(l, k).ordering) > 0
  {
    BlockOf(l, k).start + Span(Extents(l, BlockOf(l, k).ordering), StrideOf(l, k)) <= n
  }

  predicate PortFits(p: Port, count: nat, n: nat)
  {
    count == 0 || p.start + (count - 1) * p.stride < n
  }

  /** Consistency of the structural description, independent of any buffer. */
  predicate WellFormed(l: Layout)
  {
    && |l.boundStatesPerComponent| == l.numComponents
    && BlockWellFormed(l, Bulk)
    && (l.flux.Some? ==> BlockWellFormed(l, Flux))
    && (l.particle.Some? ==> BlockWellFormed(l, ParticleMobile))
    && (l.solid.Some? ==> BlockWellFormed(l, Solid))
    && (l.solid.Some? <==> NumBoundStates(l) > 0)
    && (l.volume.Some? ==> l.volume.value.count > 0)
  }

  /** The layout is consistent and every view it describes lies inside buf. */
  predicate Valid(l: Layout, buf: seq<real>)
  {
    && WellFormed(l)
    && BlockFits(l, Bulk, |buf|)
    && (l.flux.Some? ==> BlockFits(l, Flux, |buf|))
    && (l.particle.Some? ==> BlockFits(l, ParticleMobile, |buf|))
    && (l.solid.Some? ==> BlockFits(l, Solid, |buf|))
    && (l.volume.Some? ==> l.volume.value.start + l.volume.value.count <= |buf|)
    && PortFits(l.inlet, l.numComponents, |buf|)
    && PortFits(l.outlet, l.numComponents, |buf|)
  }

  /** The coordinates of a point inside the block of kind k; unused coordinates are 0. */
  predicate PointInRange(l: Layout, k: BlockKind, p: Point)
  {
    && p.component < l.numComponents
    && p.axialCell < l.numAxialCells
    && (if k == ParticleMobile || k == Solid then p.radialCell < l.numRadialCells else p.radialCell == 0)
    && (if k == Solid
        then p.component < |l.boundStatesPerComponent| && p.boundState < l.boundStatesPerComponent[p.component]
        else p.boundState == 0)
  }

  /**
   * Buffer index of point p in a block that starts at start, is looped over in the order o and
   * has innermost blocks stride apart.
   */
  function Position(l: Layout, o: seq<StateOrdering>, p: Point, start: nat, stride: nat): nat
    requires Rank(o) > 0
  {
    start + StridedOffset(Indices(l, o, p), Extents(l, o), stride)
  }

  /** Buffer index of point p in a block whose every level is dense. */
  function DensePosition(l: Layout, o: seq<StateOrdering>, p: Point, start: nat): nat
  {
    start + Linear(Indices(l, o, p), Extents(l, o))
  }

  /** Buffer index of point p of the block of kind k. */
  function ElementOffset(l: Layout, k: BlockKind, p: Point): nat
    requires Present(l, k) && Rank(BlockOf(l, k).ordering) > 0
  {
    Position(l, BlockOf(l, k).ordering, p, BlockOf(l, k).start, StrideOf(l, k))
  }

  // ---------------------------------------------------------------------------
  // Offsets

  lemma CoordinateBelowExtent(l: Layout, k: BlockKind, t: StateOrdering, p: Point)
    requires |l.boundStatesPerComponent| == l.numComponents
    requires t in BlockTags(k) && PointInRange(l, k, p)
    ensures Coordinate(l, t, p) < Extent(l, t)
  {
    if t == BoundState {
      FlatBoundInRange(l.boundStatesPerComponent, p.component, p.boundState);
    }
  }

  /** A point inside a block has digits below the extents of the block's ordering. */
  lemma {:induction false} IndicesInRange(l: Layout, k: BlockKind, o: seq<StateOrdering>, p: Point)
    requires |l.boundStatesPerComponent| == l.numComponents
    requires forall i :: 0 <= i < |o| ==> o[i] in BlockTags(k)
    requires PointInRange(l, k, p)
    ensures InRange(Indices(l, o, p), Extents(l, o))
  {
    if o != [] {
      IndicesInRange(l, k, o[1..], p);
      if !Fused(o) {
        CoordinateBelowExtent(l, k, o[0], p);
      }
    }
  }

  /** Every element of a present block lies between the block's start and the end of the buffer. */
  lemma OffsetWithinBuffer(l: Layout, buf: seq<real>, k: BlockKind, p: Point)
    requires Valid(l, buf) && Present(l, k) && PointInRange(l, k, p)
    ensures Rank(BlockOf(l, k).ordering) > 0
    ensures BlockOf(l, k).start <= ElementOffset(l, k, p) < |buf|
  {
    var o := BlockOf(l, k).ordering;
    IndicesInRange(l, k, o, p);
    StridedWithinSpan(Indices(l, o, p), Extents(l, o), StrideOf(l, k));
  }

  /** Equal digits mean equal coordinates on every dimension the ordering names. */
  lemma {:induction false} IndicesAgree(l: Layout, o: seq<StateOrdering>, p: Point, q: Point)
    requires Indices(l, o, p) == Indices(l, o, q)
    ensures forall t :: t in o && t != Component ==> Coordinate(l, t, p) == Coordinate(l, t, q)
    ensures Component in o && BoundState !in o ==> p.component == q.component
  {
    if o != [] {
      if Fused(o) {
        var r := o[1..];
        var ip, iq := Indices(l, r[1..], p), Indices(l, r[1..], q);
        assert Indices(l, o, p) == [Coordinate(l, BoundState, p)] + ip;
        assert Indices(l, o, q) == [Coordinate(l, BoundState, q)] + iq;
        assert ([Coordinate(l, BoundState, p)] + ip)[1..] == ip;
        assert ([Coordinate(l, BoundState, q)] + iq)[1..] == iq;
        IndicesAgree(l, r[1..], p, q);
        assert o == [Component, BoundState] + r[1..];
      } else {
        var ip, iq := Indices(l, o[1..], p), Indices(l, o[1..], q);
        assert Indices(l, o, p) == [Coordinate(l, o[0], p)] + ip;
        assert Indices(l, o, q) == [Coordinate(l, o[0], q)] + iq;
        assert ([Coordinate(l, o[0], p)] + ip)[1..] == ip;
        assert ([Coordinate(l, o[0], q)] + iq)[1..] == iq;
        IndicesAgree(l, o[1..], p, q);
        assert o == [o[0]] + o[1..];
      }
    }
  }

  /** Non-overlapping blocks: points at the same buffer element have the same digits. */
  lemma SameIndices(l: Layout, k: BlockKind, p: Point, q: Point)
    requires |l.boundStatesPerComponent| == l.numComponents
    requires Present(l, k) && BlockWellFormed(l, k)
    requires PointInRange(l, k, p) && PointInRange(l, k, q)
    requires ElementOffset(l, k, p) == ElementOffset(l, k, q)
    ensures Indices(l, BlockOf(l, k).ordering, p) == Indices(l, BlockOf(l, k).ordering, q)
  {
    var o := BlockOf(l, k).ordering;
    IndicesInRange(l, k, o, p);
    IndicesInRange(l, k, o, q);
    StridedInjective(Indices(l, o, p), Indices(l, o, q), Extents(l, o), StrideOf(l, k));
  }

  /** An ordering naming every dimension of a block: equal digits mean the same point. */
  lemma SamePoint(l: Layout, k: BlockKind, p: Point, q: Point)
    requires Present(l, k) && Covers(BlockOf(l, k).ordering, BlockTags(k))
    requires PointInRange(l, k, p) && PointInRange(l, k, q)
    requires Indices(l, BlockOf(l, k).ordering, p) == Indices(l, BlockOf(l, k).ordering, q)
    ensures p == q
  {
    var o := BlockOf(l, k).ordering;
    IndicesAgree(l, o, p, q);
    assert AxialCell in BlockTags(k);
    assert Coordinate(l, AxialCell, p) == Coordinate(l, AxialCell, q);
    match k
    case Solid =>
      assert RadialCell in BlockTags(k) && BoundState in BlockTags(k);
      assert Coordinate(l, RadialCell, p) == Coordinate(l, RadialCell, q);
      assert Coordinate(l, BoundState, p) == Coordinate(l, BoundState, q);
      FlatBoundInjective(l.boundStatesPerComponent, p.component, p.boundState, q.component, q.boundState);
    case ParticleMobile =>
      assert RadialCell in BlockTags(k) && BoundState !in BlockTags(k);
      assert Coordinate(l, RadialCell, p) == Coordinate(l, RadialCell, q);
    case Bulk =>
      assert BoundState !in BlockTags(k);
    case Flux =>
      assert BoundState !in BlockTags(k);
  }

  /** Distinct points of a well-formed block occupy distinct buffer elements. */
  lemma OffsetInjective(l: Layout, k: BlockKind, p: Point, q: Point)
    requires WellFormed(l) && Present(l, k)
    requires PointInRange(l, k, p) && PointInRange(l, k, q)
    requires ElementOffset(l, k, p) == ElementOffset(l, k, q)
    ensures p == q
  {
    assert BlockWellFormed(l, k);
    SameIndices(l, k, p, q);
    SamePoint(l, k, p, q);
  }

  // ---------------------------------------------------------------------------
  // DOF counts

  function ComponentFactor(l: Layout, o: seq<StateOrdering>): nat
  {
    if Component in o && BoundState !in o then l.numComponents else 1
  }

  function AxialFactor(l: Layout, o: seq<StateOrdering>): nat
  {
    if AxialCell in o then l.numAxialCells else 1
  }

  function RadialFactor(l: Layout, o: seq<StateOrdering>): nat
  {
    if RadialCell in o then l.numRadialCells else 1
  }

  function BoundFactor(l: Layout, o: seq<StateOrdering>): nat
  {
    if BoundState in o then NumBoundStates(l) else 1
  }

  /**
   * Number of DOFs of a block, dimension by dimension and regardless of the loop order;
   * a component's bound states are counted by the flat bound-state dimension.
   */
  function DofCount(l: Layout, o: seq<StateOrdering>): nat
  {
    ComponentFactor(l, o) * AxialFactor(l, o) * RadialFactor(l, o) * BoundFactor(l, o)
  }

  lemma SuffixWellFormed(o: seq<StateOrdering>)
    requires WellFormedOrdering(o) && o != []
    ensures o[0] != BoundState && o[0] !in o[1..]
    ensures Fused(o) ==> WellFormedOrdering(o[2..]) && Component !in o[2..] && BoundState !in o[2..]
    ensures !Fused(o) ==> WellFormedOrdering(o[1..]) && (o[0] == Component ==> BoundState !in o)
  {
    forall j | 0 <= j < |o| - 1 ensures o[1..][j] != o[0] {
      assert o[1..][j] == o[j + 1];
    }
    if Fused(o) {
      var r := o[2..];
      forall i | 0 <= i < |r| ensures r[i] != BoundState && r[i] != Component {
        assert r[i] == o[i + 2];
      }
    } else {
      var r := o[1..];
      forall i | 0 <= i < |r| && r[i] == BoundState ensures 0 < i && r[i - 1] == Component {
        assert r[i] == o[i + 1];
      }
      if o[0] == Component {
        forall j | 0 <= j < |o| ensures o[j] != BoundState {
          assert j >= 2 ==> o[0] != o[j - 1];
          assert j == 1 ==> o[1] != BoundState;
        }
      }
    }
  }

  lemma ProductStepComponent(n: nat, a: nat, r: nat) ensures n * (1 * a * r * 1) == n * a * r * 1 {}
  lemma ProductStepAxial(n: nat, c: nat, r: nat, b: nat) ensures n * (c * 1 * r * b) == c * n * r * b {}
  lemma ProductStepRadial(n: nat, c: nat, a: nat, b: nat) ensures n * (c * a * 1 * b) == c * a * n * b {}
  lemma ProductStepBound(n: nat, a: nat, r: nat) ensures n * (1 * a * r * 1) == 1 * a * r * n {}

  lemma {:induction false} ExtentsProduct(l: Layout, o: seq<StateOrdering>)
    requires WellFormedOrdering(o)
    ensures Product(Extents(l, o)) == DofCount(l, o)
  {
    if o != [] {
      SuffixWellFormed(o);
      if Fused(o) {
        var r := o[2..];
        assert o == [Component, BoundState] + r;
        ExtentsProduct(l, r);
        assert Extents(l, o) == [NumBoundStates(l)] + Extents(l, r);
        assert ComponentFactor(l, r) == 1 && BoundFactor(l, r) == 1;
        assert ComponentFactor(l, o) == 1 && BoundFactor(l, o) == NumBoundStates(l);
        assert AxialFactor(l, o) == AxialFactor(l, r) && RadialFactor(l, o) == RadialFactor(l, r);
        ProductStepBound(NumBoundStates(l), AxialFactor(l, r), RadialFactor(l, r));
      } else {
        var r := o[1..];
        assert o == [o[0]] + r;
        ExtentsProduct(l, r);
        assert Extents(l, o) == [Extent(l, o[0])] + Extents(l, r);
        match o[0]
        case Component =>
          assert ComponentFactor(l, r) == 1 && BoundFactor(l, r) == 1;
          assert ComponentFactor(l, o) == l.numComponents && BoundFactor(l, o) == 1;
          assert AxialFactor(l, o) == AxialFactor(l, r) && RadialFactor(l, o) == RadialFactor(l, r);
          ProductStepComponent(l.numComponents, AxialFactor(l, r), RadialFactor(l, r));
        case AxialCell =>
          assert AxialFactor(l, r) == 1 && AxialFactor(l, o) == l.numAxialCells;
          assert ComponentFactor(l, o) == ComponentFactor(l, r);
          assert RadialFactor(l, o) == RadialFactor(l, r) && BoundFactor(l, o) == BoundFactor(l, r);
          ProductStepAxial(l.numAxialCells, ComponentFactor(l, r), RadialFactor(l, r), BoundFactor(l, r));
        case RadialCell =>
          assert RadialFactor(l, r) == 1 && RadialFactor(l, o) == l.numRadialCells;
          assert ComponentFactor(l, o) == ComponentFactor(l, r);
          assert AxialFactor(l, o) == AxialFactor(l, r) && BoundFactor(l, o) == BoundFactor(l, r);
          ProductStepRadial(l.numRadialCells, ComponentFactor(l, r), AxialFactor(l, r), BoundFactor(l, r));
      }
    }
  }

  /** DOF count of each block kind in terms of the structural counts. */
  function KindDofs(l: Layout, k: BlockKind): nat
  {
    match k
    case Bulk => l.numComponents * l.numAxialCells
    case Flux => l.numComponents * l.numAxialCells
    case ParticleMobile => l.numComponents * l.numAxialCells * l.numRadialCells
    case Solid => l.numAxialCells * l.numRadialCells * NumBoundStates(l)
  }

  /** The product of the extents of a block's ordering does not depend on the loop order. */
  lemma BlockDofs(l: Layout, k: BlockKind)
    requires WellFormed(l) && Present(l, k)
    ensures Product(Extents(l, BlockOf(l, k).ordering)) == KindDofs(l, k)
  {
    var o := BlockOf(l, k).ordering;
    ExtentsProduct(l, o);
    assert Component in o && AxialCell in o;
    assert RadialCell in o <==> RadialCell in BlockTags(k);
    assert BoundState in o <==> BoundState in BlockTags(k);
  }

  /** Number of elements a present block addresses, 0 for an absent one. */
  function NumDofs(l: Layout, k: BlockKind): (r: nat)
    requires WellFormed(l)
    ensures r == if Present(l, k) then KindDofs(l, k) else 0
  {
    if Present(l, k) then
      BlockDofs(l, k);
      Product(Extents(l, BlockOf(l, k).ordering))
    else 0
  }

  function NumBulkDofs(l: Layout): (r: nat)
    requires WellFormed(l)
    ensures r == l.numComponents * l.numAxialCells
  {
    NumDofs(l, Bulk)
  }

  function NumFluxDofs(l: Layout): (r: nat)
    requires WellFormed(l)
    ensures r == if HasParticleFlux(l) then l.numComponents * l.numAxialCells else 0
  {
    NumDofs(l, Flux)
  }

  function NumParticleMobilePhaseDofs(l: Layout): (r: nat)
    requires WellFormed(l)
    ensures r == if HasParticleMobilePhase(l) then l.numComponents * l.numAxialCells * l.numRadialCells else 0
  {
    NumDofs(l, ParticleMobile)
  }

  function NumSolidPhaseDofs(l: Layout): (r: nat)
    requires WellFormed(l)
    ensures r == if HasSolidPhase(l) then l.numAxialCells * l.numRadialCells * NumBoundStates(l) else 0
  {
    NumDofs(l, Solid)
  }

  function NumVolumeDofs(l: Layout): (r: nat)
    requires WellFormed(l)
    ensures HasVolume(l) <==> r > 0
    ensures !HasVolume(l) ==> r == 0
    ensures HasVolume(l) ==> r == l.volume.value.count
  {
    match l.volume
    case None => 0
    case Some(v) => v.count
  }

  /** A block whose stride equals its innermost extent. */
  predicate Dense(l: Layout, k: BlockKind)
    requires Present(l, k)
  {
    StrideOf(l, k) == InnermostExtent(l, BlockOf(l, k).ordering)
  }

  /**
   * In a dense block the element of p sits where nesting the loops in the block's order
   * reaches it, and the block occupies exactly its DOF count of elements.
   */
  lemma DenseOffset(l: Layout, k: BlockKind, p: Point)
    requires WellFormed(l) && Present(l, k)
    ensures Dense(l, k) ==> var o := BlockOf(l, k).ordering;
      ElementOffset(l, k, p) == DensePosition(l, o, p, BlockOf(l, k).start)
      && Span(Extents(l, o), StrideOf(l, k)) == NumDofs(l, k)
  {
    var o := BlockOf(l, k).ordering;
    DenseStrided(Indices(l, o, p), Extents(l, o));
  }

  // ---------------------------------------------------------------------------
  // Ordering descriptors

  function Elements(o: seq<StateOrdering>): set<StateOrdering>
  {
    set t | t in o
  }

  lemma {:induction false} DistinctLength(o: seq<StateOrdering>)
    requires Distinct(o)
    ensures |Elements(o)| == |o|
  {
    if o != [] {
      var r := o[1..];
      assert Distinct(r) by {
        forall i, j | 0 <= i < j < |r| ensures r[i] != r[j] {
          assert r[i] == o[i + 1] && r[j] == o[j + 1];
        }
      }
      DistinctLength(r);
      forall j | 0 <= j < |r| ensures r[j] != o[0] {
        assert r[j] == o[j + 1];
      }
      assert o == [o[0]] + r;
      assert Elements(o) == {o[0]} + Elements(r);
    }
  }

  /** A loop order over exactly the dimensions of a block lists each of them once. */
  lemma OrderingLength(o: seq<StateOrdering>, tags: set<StateOrdering>)
    requires Covers(o, tags)
    ensures |o| == |tags|
  {
    DistinctLength(o);
    assert Elements(o) == tags;
  }

  function ConcentrationOrdering(l: Layout): (r: seq<StateOrdering>)
    requires WellFormed(l)
    ensures Covers(r, {Component, AxialCell}) && |r| == 2
  {
    OrderingLength(l.bulk.ordering, BlockTags(Bulk));
    l.bulk.ordering
  }

  function FluxOrdering(l: Layout): (r: Option<seq<StateOrdering>>)
    requires WellFormed(l)
    ensures r.None? <==> !HasParticleFlux(l)
    ensures r.Some? ==> Covers(r.value, {Component, AxialCell}) && |r.value| == 2
  {
    match l.flux
    case None => None
    case Some(b) =>
      OrderingLength(b.ordering, BlockTags(Flux));
      Some(b.ordering)
  }

  function MobilePhaseOrdering(l: Layout): (r: Option<seq<StateOrdering>>)
    requires WellFormed(l)
    ensures r.None? <==> !HasParticleMobilePhase(l)
    ensures r.Some? ==> Covers(r.value, {Component, AxialCell, RadialCell}) && |r.value| == 3
  {
    match l.particle
    case None => None
    case Some(b) =>
      OrderingLength(b.ordering, BlockTags(ParticleMobile));
      Some(b.ordering)
  }

  function SolidPhaseOrdering(l: Layout): (r: Option<seq<StateOrdering>>)
    requires WellFormed(l)
    ensures r.None? <==> !HasSolidPhase(l)
    ensures r.Some? ==> Covers(r.value, {Component, AxialCell, RadialCell, BoundState}) && |r.value| == 4
  {
    match l.solid
    case None => None
    case Some(b) =>
      OrderingLength(b.ordering, BlockTags(Solid));
      Some(b.ordering)
  }

  // ---------------------------------------------------------------------------
  // Strides

  /** Distance between bulk blocks: at least the innermost extent, so blocks do not overlap. */
  function BulkMobilePhaseStride(l: Layout): (r: nat)
    requires WellFormed(l)
    ensures r >= InnermostExtent(l, ConcentrationOrdering(l))
  {
    l.bulkStride
  }

  function ParticleMobilePhaseStride(l: Layout): (r: nat)
    requires WellFormed(l)
    ensures HasParticleMobilePhase(l) ==> r >= InnermostExtent(l, MobilePhaseOrdering(l).value)
  {
    l.particleStride
  }

  function SolidPhaseStride(l: Layout): (r: nat)
    requires WellFormed(l)
    ensures HasSolidPhase(l) ==> r >= InnermostExtent(l, SolidPhaseOrdering(l).value)
  {
    l.solidStride
  }

  /**
   * Consecutive bulk blocks are one stride apart: with the axial cell outermost the next cell,
   * with the component outermost the next component.
   */
  lemma BulkBlockStep(l: Layout, component: nat, axialCell: nat)
    requires WellFormed(l)
    ensures ConcentrationOrdering(l) == [AxialCell, Component] ==>
      ElementOffset(l, Bulk, Point(component, axialCell + 1, 0, 0))
      == ElementOffset(l, Bulk, Point(component, axialCell, 0, 0)) + BulkMobilePhaseStride(l)
    ensures ConcentrationOrdering(l) == [Component, AxialCell] ==>
      ElementOffset(l, Bulk, Point(component + 1, axialCell, 0, 0))
      == ElementOffset(l, Bulk, Point(component, axialCell, 0, 0)) + BulkMobilePhaseStride(l)
  {
    var o := l.bulk.ordering;
    var p := Point(component, axialCell, 0, 0);
    if o == [AxialCell, Component] {
      var p' := Point(component, axialCell + 1, 0, 0);
      assert Indices(l, o, p) == [axialCell, component];
      assert Indices(l, o, p') == Indices(l, o, p)[0 := axialCell + 1];
      NextBlock(Indices(l, o, p), Extents(l, o), l.bulkStride);
    } else if o == [Component, AxialCell] {
      var p' := Point(component + 1, axialCell, 0, 0);
      assert Indices(l, o, p) == [component, axialCell];
      assert Indices(l, o, p') == Indices(l, o, p)[0 := component + 1];
      NextBlock(Indices(l, o, p), Extents(l, o), l.bulkStride);
    }
  }

  // ---------------------------------------------------------------------------
  // Bulk views: the buffer index of a block's first element, None when the feature is absent

  /** Every unit operation has a main mobile phase, so this view is never absent. */
  function ConcentrationView(l: Layout): (r: Option<nat>)
    ensures r.Some?
  {
    Some(l.bulk.start)
  }

  function FluxView(l: Layout): (r: Option<nat>)
    ensures r.None? <==> !HasParticleFlux(l)
  {
    if l.flux.Some? then Some(l.flux.value.start) else None
  }

  function MobilePhaseView(l: Layout): (r: Option<nat>)
    ensures r.None? <==> !HasParticleMobilePhase(l)
  {
    if l.particle.Some? then Some(l.particle.value.start) else None
  }

  function SolidPhaseView(l: Layout): (r: Option<nat>)
    ensures r.None? <==> !HasSolidPhase(l)
  {
    if l.solid.Some? then Some(l.solid.value.start) else None
  }

  function VolumeView(l: Layout): (r: Option<nat>)
    ensures r.None? <==> !HasVolume(l)
  {
    if l.volume.Some? then Some(l.volume.value.start) else None
  }

  /**
   * Each feature flag says whether the matching part of the state exists: a flag that holds
   * comes with a view, an ordering (where the part has one) and its closed-form DOF count; a
   * flag that does not hold leaves no view and no DOFs. There is a volume exactly when there
   * are volume DOFs, and a solid phase exactly when some component binds.
   */
  lemma FeatureFlags(l: Layout)
    requires WellFormed(l)
    ensures HasParticleFlux(l) <==> FluxView(l).Some? && FluxOrdering(l).Some?
    ensures HasParticleFlux(l) ==> NumFluxDofs(l) == l.numComponents * l.numAxialCells
    ensures HasParticleMobilePhase(l) <==> MobilePhaseView(l).Some? && MobilePhaseOrdering(l).Some?
    ensures HasParticleMobilePhase(l) ==> NumParticleMobilePhaseDofs(l) == l.numComponents * l.numAxialCells * l.numRadialCells
    ensures HasSolidPhase(l) <==> SolidPhaseView(l).Some? && SolidPhaseOrdering(l).Some?
    ensures HasSolidPhase(l) ==> NumSolidPhaseDofs(l) == l.numAxialCells * l.numRadialCells * NumBoundStates(l)
    ensures HasVolume(l) <==> VolumeView(l).Some?
    ensures !HasParticleFlux(l) ==> NumFluxDofs(l) == 0
    ensures !HasParticleMobilePhase(l) ==> NumParticleMobilePhaseDofs(l) == 0
    ensures !HasSolidPhase(l) ==> NumSolidPhaseDofs(l) == 0
    ensures !HasVolume(l) ==> NumVolumeDofs(l) == 0
    ensures HasVolume(l) <==> NumVolumeDofs(l) > 0
    ensures HasSolidPhase(l) <==> NumBoundStates(l) > 0
    ensures HasMultipleBoundStates(l) ==> HasSolidPhase(l)
  {
  }

  // ---------------------------------------------------------------------------
  // Indexed accessors; keeping the indices in range is the caller's responsibility

  /** The buffer element of point p in block k, with the facts the accessors below state about it. */
  function Element(l: Layout, buf: seq<real>, k: BlockKind, p: Point): (r: real)
    requires Valid(l, buf) && Present(l, k) && PointInRange(l, k, p)
    ensures ElementOffset(l, k, p) < |buf| && r == buf[ElementOffset(l, k, p)]
    ensures Dense(l, k) ==> ElementOffset(l, k, p) == DensePosition(l, BlockOf(l, k).ordering, p, BlockOf(l, k).start)
  {
    OffsetWithinBuffer(l, buf, k, p);
    DenseOffset(l, k, p);
    buf[ElementOffset(l, k, p)]
  }

  /**
   * Main mobile phase concentration: the element a consumer finds from concentration(),
   * concentrationOrdering() and bulkMobilePhaseStride(); when blocks are dense, the element
   * reached by nesting the loops in concentrationOrdering() order.
   */
  function Concentration(l: Layout, buf: seq<real>, component: nat, axialCell: nat): (r: real)
    requires Valid(l, buf) && component < l.numComponents && axialCell < l.numAxialCells
    ensures var o, p := ConcentrationOrdering(l), Point(component, axialCell, 0, 0);
      Position(l, o, p, ConcentrationView(l).value, BulkMobilePhaseStride(l)) < |buf| && r == buf[Position(l, o, p, ConcentrationView(l).value, BulkMobilePhaseStride(l))]
    ensures Dense(l, Bulk) ==> var o, p := ConcentrationOrdering(l), Point(component, axialCell, 0, 0);
      DensePosition(l, o, p, ConcentrationView(l).value) < |buf| && r == buf[DensePosition(l, o, p, ConcentrationView(l).value)]
  {
    Element(l, buf, Bulk, Point(component, axialCell, 0, 0))
  }

  /** Bulk-to-particle flux; the flux block is dense and ordered by fluxOrdering(). */
  function ParticleFlux(l: Layout, buf: seq<real>, component: nat, axialCell: nat): (r: real)
    requires Valid(l, buf) && HasParticleFlux(l)
    requires component < l.numComponents && axialCell < l.numAxialCells
    ensures var o, p := FluxOrdering(l).value, Point(component, axialCell, 0, 0);
      DensePosition(l, o, p, FluxView(l).value) < |buf| && r == buf[DensePosition(l, o, p, FluxView(l).value)]
  {
    Element(l, buf, Flux, Point(component, axialCell, 0, 0))
  }

  /** Particle mobile phase concentration, located by mobilePhase(), its ordering and its stride. */
  function MobilePhase(l: Layout, buf: seq<real>, component: nat, axialCell: nat, radialCell: nat): (r: real)
    requires Valid(l, buf) && HasParticleMobilePhase(l)
    requires component < l.numComponents && axialCell < l.numAxialCells && radialCell < l.numRadialCells
    ensures var o, p := MobilePhaseOrdering(l).value, Point(component, axialCell, radialCell, 0);
      Position(l, o, p, MobilePhaseView(l).value, ParticleMobilePhaseStride(l)) < |buf| && r == buf[Position(l, o, p, MobilePhaseView(l).value, ParticleMobilePhaseStride(l))]
    ensures Dense(l, ParticleMobile) ==> var o, p := MobilePhaseOrdering(l).value, Point(component, axialCell, radialCell, 0);
      DensePosition(l, o, p, MobilePhaseView(l).value) < |buf| && r == buf[DensePosition(l, o, p, MobilePhaseView(l).value)]
  {
    Element(l, buf, ParticleMobile, Point(component, axialCell, radialCell, 0))
  }

  /** Solid phase concentration, located by solidPhase(), its ordering and its stride. */
  function SolidPhase(l: Layout, buf: seq<real>, component: nat, axialCell: nat, radialCell: nat, boundState: nat): (r: real)
    requires Valid(l, buf) && HasSolidPhase(l)
    requires component < l.numComponents && axialCell < l.numAxialCells && radialCell < l.numRadialCells
    requires component < |l.boundStatesPerComponent| && boundState < l.boundStatesPerComponent[component]
    ensures var o, p := SolidPhaseOrdering(l).value, Point(component, axialCell, radialCell, boundState);
      Position(l, o, p, SolidPhaseView(l).value, SolidPhaseStride(l)) < |buf| && r == buf[Position(l, o, p, SolidPhaseView(l).value, SolidPhaseStride(l))]
    ensures Dense(l, Solid) ==> var o, p := SolidPhaseOrdering(l).value, Point(component, axialCell, radialCell, boundState);
      DensePosition(l, o, p, SolidPhaseView(l).value) < |buf| && r == buf[DensePosition(l, o, p, SolidPhaseView(l).value)]
  {
    Element(l, buf, Solid, Point(component, axialCell, radialCell, boundState))
  }

  /** Volume DOF dof, counted from the start of the volume slice. */
  function Volume(l: Layout, buf: seq<real>, dof: nat): (r: real)
    requires Valid(l, buf) && HasVolume(l) && dof < NumVolumeDofs(l)
    ensures VolumeView(l).value + dof < |buf| && r == buf[VolumeView(l).value + dof]
  {
    buf[l.volume.value.start + dof]
  }

  // ---------------------------------------------------------------------------
  // Inlet and outlet

  /** The n values starting at index start and stride apart. */
  function StridedValues(buf: seq<real>, start: nat, stride: nat, n: nat): (r: seq<real>)
    requires n == 0 || start + (n - 1) * stride < |buf|
    ensures |r| == n
    ensures forall i :: 0 <= i < n ==> start + i * stride < |buf| && r[i] == buf[start + i * stride]
  {
    if n == 0 then []
    else
      assert n - 1 == 0 || start + (n - 2) * stride < |buf| by {
        if n > 1 {
          MulMonotone(n - 2, n - 1, stride);
        }
      }
      StridedValues(buf, start, stride, n - 1) + [buf[start + (n - 1) * stride]]
  }

  /** With stride 1 the values are the contiguous slice. */
  lemma ContiguousValues(buf: seq<real>, start: nat, n: nat)
    requires start + n <= |buf|
    ensures StridedValues(buf, start, 1, n) == buf[start..start + n]
  {
  }

  /** The inlet: one value per component, component i at the inlet start plus i times its stride. */
  function Inlet(l: Layout, buf: seq<real>): (r: seq<real>)
    requires Valid(l, buf)
    ensures |r| == l.numComponents
    ensures forall i :: 0 <= i < |r| ==> l.inlet.start + i * l.inlet.stride < |buf| && r[i] == buf[l.inlet.start + i * l.inlet.stride]
  {
    StridedValues(buf, l.inlet.start, l.inlet.stride, l.numComponents)
  }

  /** The outlet: one value per component, component i at the outlet start plus i times its stride. */
  function Outlet(l: Layout, buf: seq<real>): (r: seq<real>)
    requires Valid(l, buf)
    ensures |r| == l.numComponents
    ensures forall i :: 0 <= i < |r| ==> l.outlet.start + i * l.outlet.stride < |buf| && r[i] == buf[l.outlet.start + i * l.outlet.stride]
  {
    StridedValues(buf, l.outlet.start, l.outlet.stride, l.numComponents)
  }

  // ---------------------------------------------------------------------------
  // Two components in ten axial cells, no particles and no bound states

  /** Inlet values at 0 and 1, the bulk block from index 2 on. */
  function TwoByTen(o: seq<StateOrdering>, stride: nat, outlet: Port): Layout
  {
    Layout(2, 10, 0, [0, 0], Block(2, o), stride, None, None, 0, None, 0, None, Port(0, 1), outlet)
  }

  /** Cell-major: the two components of a cell are adjacent and cells are 2 apart. */
  function CellMajor(): Layout
  {
    TwoByTen([AxialCell, Component], 2, Port(20, 1))
  }

  /** Component-major: the ten cells of a component are adjacent and components are 10 apart. */
  function ComponentMajor(): Layout
  {
    TwoByTen([Component, AxialCell], 10, Port(11, 10))
  }

  lemma BulkOrderingsCover(o: seq<StateOrdering>)
    requires o == [AxialCell, Component] || o == [Component, AxialCell]
    ensures Covers(o, BlockTags(Bulk))
  {
    assert o[0] != o[1];
  }

  lemma TwoByTenExtents(l: Layout, o: seq<StateOrdering>)
    requires l.numComponents == 2 && l.numAxialCells == 10
    requires o == [AxialCell, Component] || o == [Component, AxialCell]
    ensures Extents(l, o) == if o[0] == AxialCell then [10, 2] else [2, 10]
  {
    assert !Fused(o) && !Fused(o[1..]) && o[1..][1..] == [];
  }

  lemma CellMajorValid(buf: seq<real>)
    requires |buf| == 22
    ensures Valid(CellMajor(), buf) && NumBulkDofs(CellMajor()) == 20
  {
    var l, o := CellMajor(), [AxialCell, Component];
    TwoByTenExtents(l, o);
    BulkOrderingsCover(o);
    assert Span([10, 2], 2) == 20;
    assert WellFormed(l);
  }

  lemma ComponentMajorValid(buf: seq<real>)
    requires |buf| == 22
    ensures Valid(ComponentMajor(), buf) && NumBulkDofs(ComponentMajor()) == 20
  {
    var l, o := ComponentMajor(), [Component, AxialCell];
    TwoByTenExtents(l, o);
    BulkOrderingsCover(o);
    assert Span([2, 10], 10) == 20;
    assert WellFormed(l);
  }

  /** Cell-major: component c of cell j is element 2 + 2j + c. */
  lemma CellMajorElement(buf: seq<real>, c: nat, j: nat)
    requires |buf| == 22 && c < 2 && j < 10
    ensures Valid(CellMajor(), buf) && Concentration(CellMajor(), buf, c, j) == buf[2 + 2 * j + c]
  {
    var l, o := CellMajor(), [AxialCell, Component];
    CellMajorValid(buf);
    TwoByTenExtents(l, o);
    assert Indices(l, o, Point(c, j, 0, 0)) == [j, c];
    StridedTwoLevels(j, c, 10, 2, 2);
  }

  /** Component-major: component c of cell j is element 2 + 10c + j. */
  lemma ComponentMajorElement(buf: seq<real>, c: nat, j: nat)
    requires |buf| == 22 && c < 2 && j < 10
    ensures Valid(ComponentMajor(), buf) && Concentration(ComponentMajor(), buf, c, j) == buf[2 + 10 * c + j]
  {
    var l, o := ComponentMajor(), [Component, AxialCell];
    ComponentMajorValid(buf);
    TwoByTenExtents(l, o);
    assert Indices(l, o, Point(c, j, 0, 0)) == [c, j];
    StridedTwoLevels(c, j, 2, 10, 10);
  }

  lemma TwoValues(buf: seq<real>, start: nat, stride: nat)
    requires start + stride < |buf|
    ensures StridedValues(buf, start, stride, 2) == [buf[start], buf[start + stride]]
  {
    var r := StridedValues(buf, start, stride, 2);
    assert r[0] == buf[start] && r[1] == buf[start + stride];
  }

  /** The outlet of the cell-major layout holds the concentrations of the last cell. */
  lemma CellMajorOutlet(buf: seq<real>)
    requires |buf| == 22
    ensures Valid(CellMajor(), buf)
    ensures Outlet(CellMajor(), buf) == [Concentration(CellMajor(), buf, 0, 9), Concentration(CellMajor(), buf, 1, 9)]
  {
    var l := CellMajor();
    CellMajorValid(buf);
    CellMajorElement(buf, 0, 9);
    CellMajorElement(buf, 1, 9);
    assert Concentration(l, buf, 0, 9) == buf[20] && Concentration(l, buf, 1, 9) == buf[21];
    assert Outlet(l, buf) == StridedValues(buf, 20, 1, 2);
    TwoValues(buf, 20, 1);
  }

  /** The outlet of the component-major layout, stride 10, holds the concentrations of the last cell. */
  lemma ComponentMajorOutlet(buf: seq<real>)
    requires |buf| == 22
    ensures Valid(ComponentMajor(), buf)
    ensures Outlet(ComponentMajor(), buf) == [Concentration(ComponentMajor(), buf, 0, 9), Concentration(ComponentMajor(), buf, 1, 9)]
  {
    var l := ComponentMajor();
    ComponentMajorValid(buf);
    ComponentMajorElement(buf, 0, 9);
    ComponentMajorElement(buf, 1, 9);
    assert Concentration(l, buf, 0, 9) == buf[11] && Concentration(l, buf, 1, 9) == buf[21];
    assert Outlet(l, buf) == StridedValues(buf, 11, 10, 2);
    TwoValues(buf, 11, 10);
  }
}
