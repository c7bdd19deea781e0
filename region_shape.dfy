// The region shape: a compound shape whose children are not stored but asked
// for, query by query, from a host-side IndexedShapeCollector. Every query
// walks the children the collector returns, in order, hands each one to the
// narrow phase under a sub-shape ID made from its index, and stops early when
// the query's collector says no better result can come.

module Region {
  import opened Geometry
  import opened SubShapeIds
  import opened ShapeIndex
  import opened Traversal
  import opened Wrappers

  /** A ray: an origin and a direction whose length is the ray's reach. */
  datatype RayCast = RayCast(origin: Vec3, direction: Vec3)

  /** One question put to the host collector. */
  datatype CollectorQuery =
    | CollectAtQuery(box: AABox)
    | CastRayQuery(ray: RayCast)
    | CollectCastRayQuery(ray: RayCast)
    | GetShapeAtQuery(index: bv32)

  /**
   * The host's IndexedShapeCollector. Its answers are fixed functions of the
   * question; `queries` records the questions asked, in order.
   */
  class IndexedShapeCollector {
    const collectAt: AABox -> seq<IndexedShape>
    const castRay: RayCast -> Option<IndexedShape>
    const collectCastRay: RayCast -> seq<IndexedShape>
    const shapeAt: bv32 -> IndexedShape
    ghost var queries: seq<CollectorQuery>

    constructor (collectAt: AABox -> seq<IndexedShape>, castRay: RayCast -> Option<IndexedShape>,
                 collectCastRay: RayCast -> seq<IndexedShape>, shapeAt: bv32 -> IndexedShape)
      ensures this.collectAt == collectAt && this.castRay == castRay
      ensures this.collectCastRay == collectCastRay && this.shapeAt == shapeAt
      ensures queries == []
    {
      this.collectAt := collectAt;
      this.castRay := castRay;
      this.collectCastRay := collectCastRay;
      this.shapeAt := shapeAt;
      queries := [];
    }

    /** The children that may touch the box. */
    method CollectAt(box: AABox) returns (shapes: seq<IndexedShape>)
      modifies this
      ensures shapes == collectAt(box)
      ensures queries == old(queries) + [CollectAtQuery(box)]
    {
      shapes := collectAt(box);
      queries := queries + [CollectAtQuery(box)];
    }

    /** The one child the ray hits first, if any. */
    method CastRay(ray: RayCast) returns (shape: Option<IndexedShape>)
      modifies this
      ensures shape == castRay(ray)
      ensures queries == old(queries) + [CastRayQuery(ray)]
    {
      shape := castRay(ray);
      queries := queries + [CastRayQuery(ray)];
    }

    /** Every child the ray may hit. */
    method CollectCastRay(ray: RayCast) returns (shapes: seq<IndexedShape>)
      modifies this
      ensures shapes == collectCastRay(ray)
      ensures queries == old(queries) + [CollectCastRayQuery(ray)]
    {
      shapes := collectCastRay(ray);
      queries := queries + [CollectCastRayQuery(ray)];
    }

    /** The child with the given index. */
    method GetShapeAt(index: bv32) returns (shape: IndexedShape)
      modifies this
      ensures shape == shapeAt(index)
      ensures queries == old(queries) + [GetShapeAtQuery(index)]
    {
      shape := shapeAt(index);
      queries := queries + [GetShapeAtQuery(index)];
    }
  }

  /**
   * Where a query's results go: a collide, cast or point collector, or the
   * single hit record of a ray cast. `narrow` stands for the narrow phase each
   * child is handed to, `state` is what the early-out tests read, and `log`
   * records the children handed on, in order.
   */
  class ResultCollector {
    const narrow: NarrowPhase
    var state: QueryState
    ghost var log: seq<Dispatch>

    constructor (narrow: NarrowPhase, state: QueryState)
      ensures this.narrow == narrow && this.state == state && log == []
    {
      this.narrow := narrow;
      this.state := state;
      log := [];
    }

    /** Hand one child to the narrow phase; the answer says whether it hit. */
    method Receive(d: Dispatch) returns (hit: bool)
      modifies this
      ensures hit == narrow(d, old(state)).hit
      ensures state == narrow(d, old(state)).after
      ensures log == old(log) + [d]
    {
      var r := narrow(d, state);
      hit := r.hit;
      state := r.after;
      log := log + [d];
    }

    /** The first count of calls have been received, starting from the state start. */
    ghost predicate Received(calls: seq<Dispatch>, count: nat, start: QueryState, log0: seq<Dispatch>)
      reads this
      requires count <= |calls|
    {
      log == log0 + calls[..count] && state == StateAfter(start, Run(narrow, calls[..count], start))
    }

    /** Receive call i of a sequence of calls, the next one in order. */
    method ReceiveNext(d: Dispatch, ghost calls: seq<Dispatch>, ghost i: nat, ghost start: QueryState, ghost log0: seq<Dispatch>)
      requires i < |calls| && d == calls[i] && Received(calls, i, start, log0)
      modifies this
      ensures Received(calls, i + 1, start, log0)
    {
      var _ := Receive(d);
      RunStepState(narrow, calls, start, i);
      PrefixStep(calls, i);
    }
  }

  /**
   * The six visitors, with the boxes they test. The ray-box tests are Jolt
   * library code and are given as the answer of the test for each box.
   */
  datatype VisitorKind =
    | CollideCompoundVsShapeVisitor(boundsOf1: AABox, boundsOf2InSpaceOf1: AABox)
    | CollideShapeVsCompoundVisitor(boundsOf2: AABox, boundsOf1InSpaceOf2: AABox)
    | CastShapeVisitor(worldBoundsOfShape: AABox, castHitsBox: AABox -> bool)
    | CastRayVisitor(shapeBounds: AABox, rayHitsBox: AABox -> bool)
    | CollidePointVisitor(shapeBounds: AABox, point: Vec3)
    | CastRayVisitorCollector(shapeBounds: AABox, rayHitsBox: AABox -> bool)
  {
    /** ShouldAbort: the ray visitor reads the hit fraction, the others the collector's early out. */
    function Rule(): AbortRule
    {
      if CastRayVisitor? then OnNonPositiveFraction else OnEarlyOut
    }

    /**
     * TestBounds. Both ray visitors test the degenerate box from the local
     * maximum corner to itself.
     */
    predicate TestBounds()
    {
      match this
      case CollideCompoundVsShapeVisitor(boundsOf1, boundsOf2InSpaceOf1) => boundsOf2InSpaceOf1.Overlaps(boundsOf1)
      case CollideShapeVsCompoundVisitor(boundsOf2, boundsOf1InSpaceOf2) => boundsOf2.Overlaps(boundsOf1InSpaceOf2)
      case CastShapeVisitor(worldBoundsOfShape, castHitsBox) => castHitsBox(worldBoundsOfShape)
      case CastRayVisitor(shapeBounds, rayHitsBox) => rayHitsBox(AABox(shapeBounds.max, shapeBounds.max))
      case CollidePointVisitor(shapeBounds, point) => shapeBounds.Contains(point)
      case CastRayVisitorCollector(shapeBounds, rayHitsBox) => rayHitsBox(AABox(shapeBounds.max, shapeBounds.max))
    }

    /** GetTestWorldSpaceBounds: the box the collector is asked about. */
    function GetTestWorldSpaceBounds(): AABox
    {
      match this
      case CollideCompoundVsShapeVisitor(_, boundsOf2InSpaceOf1) => boundsOf2InSpaceOf1
      case CollideShapeVsCompoundVisitor(_, boundsOf1InSpaceOf2) => boundsOf1InSpaceOf2
      case CastShapeVisitor(worldBoundsOfShape, _) => worldBoundsOfShape
      case CastRayVisitor(shapeBounds, _) => shapeBounds
      case CollidePointVisitor(shapeBounds, _) => shapeBounds
      case CastRayVisitorCollector(shapeBounds, _) => shapeBounds
    }
  }

  /** The two collide visitors ask the collector about exactly the box they test for overlap. */
  lemma CollideVisitorsCollectWhatTheyTest(kind: VisitorKind)
    requires kind.CollideCompoundVsShapeVisitor? || kind.CollideShapeVsCompoundVisitor?
    ensures kind.CollideCompoundVsShapeVisitor? ==>
      (kind.TestBounds() <==> kind.GetTestWorldSpaceBounds().Overlaps(kind.boundsOf1))
    ensures kind.CollideShapeVsCompoundVisitor? ==>
      (kind.TestBounds() <==> kind.GetTestWorldSpaceBounds().Overlaps(kind.boundsOf2))
  {
  }

  /** The ray visitors' bounds test sees only the maximum corner of the shape's bounds. */
  lemma RayBoundsTestIgnoresMinimum(a: AABox, b: AABox, rayHitsBox: AABox -> bool)
    requires a.max == b.max
    ensures CastRayVisitor(a, rayHitsBox).TestBounds() == CastRayVisitor(b, rayHitsBox).TestBounds()
    ensures CastRayVisitorCollector(a, rayHitsBox).TestBounds() == CastRayVisitorCollector(b, rayHitsBox).TestBounds()
  {
  }

  /** What WalkSubShapes did: the collector questions and the loop over the answer. */
  datatype Trace = Trace(queries: seq<CollectorQuery>, sweep: Sweep)

  /**
   * WalkSubShapes as a value: nothing at all when the bounds test fails;
   * otherwise one CollectAt for the visitor's box and a sweep over the
   * children, each under its own index, until the visitor aborts.
   */
  function Walk(kind: VisitorKind, c: SubShapeIDCreator, collectAt: AABox -> seq<IndexedShape>,
                narrow: NarrowPhase, start: QueryState): Trace
    requires HasRoom(c, MaxBits)
  {
    if !kind.TestBounds() then Trace([], Sweep([], start, false))
    else
      var box := kind.GetTestWorldSpaceBounds();
      Trace([CollectAtQuery(box)], SweepUntilAbort(narrow, ByShapeIndex(collectAt(box), c), kind.Rule(), start))
  }

  /**
   * A failed bounds test asks and visits nothing; a passing one visits, in the
   * collector's order and under their own indices, a prefix of the children
   * that ends at the first abort.
   */
  lemma WalkVisitsPrefixUntilAbort(kind: VisitorKind, c: SubShapeIDCreator, collectAt: AABox -> seq<IndexedShape>,
                                   narrow: NarrowPhase, start: QueryState)
    requires HasRoom(c, MaxBits)
    ensures var t := Walk(kind, c, collectAt, narrow, start);
      && (!kind.TestBounds() ==> t.queries == [] && t.sweep.visits == [] && t.sweep.final == start)
      && (kind.TestBounds() ==>
            var shapes := collectAt(kind.GetTestWorldSpaceBounds());
            && |t.sweep.visits| <= |shapes|
            && (forall j :: 0 <= j < |t.sweep.visits| ==>
                  t.sweep.visits[j].shape == shapes[j] && t.sweep.visits[j].id.id == SubShapeID(shapes[j].shapeIndex))
            && (|t.sweep.visits| < |shapes| ==> Aborts(kind.Rule(), t.sweep.final)))
  {
    if kind.TestBounds() {
      var shapes := collectAt(kind.GetTestWorldSpaceBounds());
      var calls := ByShapeIndex(shapes, c);
      var visits := Walk(kind, c, collectAt, narrow, start).sweep.visits;
      forall j | 0 <= j < |visits|
        ensures visits[j].shape == shapes[j] && visits[j].id.id == SubShapeID(shapes[j].shapeIndex)
      {
        assert visits[j] == calls[j];
      }
    }
  }

  /** A ray walk whose responses never hit leaves the ray visitor's return value as it was. */
  lemma RayWalkWithoutHitReturnsFalse(kind: VisitorKind, c: SubShapeIDCreator, collectAt: AABox -> seq<IndexedShape>,
                                      narrow: NarrowPhase, start: QueryState)
    requires HasRoom(c, MaxBits) && kind.TestBounds()
    requires forall d, s :: !narrow(d, s).hit
    ensures !Walk(kind, c, collectAt, narrow, start).sweep.hit
  {
    var t := Walk(kind, c, collectAt, narrow, start);
    var run := Run(narrow, t.sweep.visits, start);
    if AnyHit(run) {
      var j :| 0 <= j < |run| && run[j].hit;
      RunPrefix(narrow, t.sweep.visits, start, j + 1);
    }
  }

  /**
   * A visitor: what it tests, where its results go, the creator it pushes
   * each child's index onto and with how many bits, and the ray visitor's
   * return value.
   */
  class Visitor {
    const kind: VisitorKind
    const sink: ResultCollector
    const creator: SubShapeIDCreator
    const subShapeBits: Width
    var returnValue: bool

    constructor (kind: VisitorKind, sink: ResultCollector, creator: SubShapeIDCreator, shape: RegionShape)
      requires HasRoom(creator, shape.GetSubShapeIDBits())
      ensures this.kind == kind && this.sink == sink && this.creator == creator
      ensures subShapeBits == shape.GetSubShapeIDBits() && !returnValue
      ensures Valid()
    {
      this.kind := kind;
      this.sink := sink;
      this.creator := creator;
      subShapeBits := shape.GetSubShapeIDBits();
      returnValue := false;
    }

    ghost predicate Valid()
    {
      subShapeBits == MaxBits && HasRoom(creator, subShapeBits)
    }

    predicate ShouldAbort()
      reads sink
    {
      Aborts(kind.Rule(), sink.state)
    }

    predicate TestBounds() { kind.TestBounds() }

    function GetTestWorldSpaceBounds(): AABox { kind.GetTestWorldSpaceBounds() }

    /**
     * Hand one child to the narrow phase under the creator with its index
     * pushed at the region's width; the ray visitor remembers any hit.
     */
    method VisitShape(subShape: IndexedShape, subShapeIndex: bv32)
      requires Valid()
      modifies this, sink
      ensures var d := Dispatch(subShape, RegionPush(creator, subShapeIndex));
        && sink.log == old(sink.log) + [d]
        && sink.state == sink.narrow(d, old(sink.state)).after
        && returnValue == (old(returnValue) || (kind.CastRayVisitor? && sink.narrow(d, old(sink.state)).hit))
    {
      var id := RegionPush(creator, subShapeIndex);
      var hit := sink.Receive(Dispatch(subShape, id));
      if kind.CastRayVisitor? && hit {
        returnValue := true;
      }
    }

    /**
     * The first count children of shapes have been handed on, each under
     * its own index, starting from the query state start.
     */
    ghost predicate Visited(shapes: seq<IndexedShape>, count: nat, start: QueryState, log0: seq<Dispatch>, returned0: bool)
      reads this, sink
      requires Valid() && count <= |shapes|
    {
      var calls := ByShapeIndex(shapes, creator)[..count];
      var run := Run(sink.narrow, calls, start);
      && sink.log == log0 + calls
      && sink.state == StateAfter(start, run)
      && returnValue == (returned0 || (kind.CastRayVisitor? && AnyHit(run)))
    }

    /** One turn of the WalkSubShapes loop: visit child index. */
    method VisitNext(shapes: seq<IndexedShape>, index: nat, ghost start: QueryState, ghost log0: seq<Dispatch>, ghost returned0: bool)
      requires Valid() && index < |shapes| && Visited(shapes, index, start, log0, returned0)
      modifies this, sink
      ensures Visited(shapes, index + 1, start, log0, returned0)
    {
      ghost var calls := ByShapeIndex(shapes, creator);
      ByShapeIndexAt(shapes, creator, index);
      VisitShape(shapes[index], shapes[index].shapeIndex);
      RunStepState(sink.narrow, calls, start, index);
      PrefixStep(calls, index);
    }
  }

  /** A shape's physics material: the default one or one the child supplies. */
  datatype PhysicsMaterial = DefaultMaterial | MaterialAt(address: nat)

  /** ShapeSettings::ShapeResult as the region settings cache it. */
  datatype ShapeResult = NoResult | Valid(shape: RegionShape)

  class RegionShape {
    const shapeCollector: IndexedShapeCollector
    const halfExtent: Vec3

    /** Copy the collector and half extent from the settings and store this shape as their result. */
    constructor (settings: RegionShapeSettings)
      modifies settings
      ensures shapeCollector == settings.shapeCollector && halfExtent == settings.halfExtent
      ensures settings.cachedResult == Valid(this)
    {
      shapeCollector := settings.shapeCollector;
      halfExtent := settings.halfExtent;
      new;
      settings.cachedResult := Valid(this);
    }

    /** The box from -halfExtent to +halfExtent, symmetric about the origin. */
    function GetLocalBounds(): (b: AABox)
      ensures b.max == halfExtent && b.min == halfExtent.Neg()
      ensures forall p :: b.Contains(p) <==> b.Contains(p.Neg())
      ensures b.Center() == Vec3(0.0, 0.0, 0.0)
    {
      CenteredBox(halfExtent)
    }

    /** Every level below the root gets the whole 32-bit ID. */
    function GetSubShapeIDBits(): (bits: Width)
      ensures bits == MaxBits
    {
      32
    }

    /** ID to index at the region's width: the index is the whole ID and nothing remains. */
    function GetSubShapeIndexFromID(id: SubShapeID): (r: (bv32, SubShapeID))
      ensures r == (id.value, EmptyID)
    {
      PopFullWidth(id);
      PopID(id, GetSubShapeIDBits())
    }

    /** Index to ID at the same width, so the index comes back out of the ID. */
    function GetSubShapeIDFromIndex(index: bv32, parent: SubShapeIDCreator): (r: SubShapeIDCreator)
      requires HasRoom(parent, GetSubShapeIDBits())
      ensures r.id == SubShapeID(index) && r.currentBit == MaxBits
      ensures GetSubShapeIndexFromID(r.id) == (index, EmptyID)
    {
      RegionPush(parent, index)
    }

    /**
     * The material of a sub-shape: ask the collector for the child under the
     * decoded index; a null child has the default material, any other is
     * asked with the remaining ID.
     */
    method GetMaterial(id: SubShapeID, childMaterial: (ShapeRef, SubShapeID) -> PhysicsMaterial) returns (m: PhysicsMaterial)
      modifies shapeCollector
      ensures shapeCollector.queries == old(shapeCollector.queries) + [GetShapeAtQuery(id.value)]
      ensures shapeCollector.shapeAt(id.value).shape.Null? ==> m == DefaultMaterial
      ensures shapeCollector.shapeAt(id.value).shape.ShapeAt? ==> m == childMaterial(shapeCollector.shapeAt(id.value).shape, EmptyID)
    {
      var (index, remainder) := GetSubShapeIndexFromID(id);
      var shape := shapeCollector.GetShapeAt(index);
      if shape.shape.Null? {
        return DefaultMaterial;
      }
      m := childMaterial(shape.shape, remainder);
    }

    /**
     * Drive a visitor: if its bounds test fails, return at once; otherwise
     * collect the children at its box and visit them in order.
     */
    method WalkSubShapes(v: Visitor)
      requires v.Valid()
      modifies v, v.sink, shapeCollector
      ensures var t := Walk(v.kind, v.creator, shapeCollector.collectAt, v.sink.narrow, old(v.sink.state));
        && shapeCollector.queries == old(shapeCollector.queries) + t.queries
        && v.sink.log == old(v.sink.log) + t.sweep.visits
        && v.sink.state == t.sweep.final
        && v.returnValue == (old(v.returnValue) || (v.kind.CastRayVisitor? && t.sweep.hit))
    {
      if !v.TestBounds() {
        return;
      }
      var collectAt := v.GetTestWorldSpaceBounds();
      var shapes := shapeCollector.CollectAt(collectAt);
      VisitChildren(v, shapes);
    }

    /**
     * The loop of WalkSubShapes: visit the children in order, each under its
     * own index, stopping right after the first visit that aborts.
     */
    static method VisitChildren(v: Visitor, shapes: seq<IndexedShape>)
      requires v.Valid()
      modifies v, v.sink
      ensures var sweep := SweepUntilAbort(v.sink.narrow, ByShapeIndex(shapes, v.creator), v.kind.Rule(), old(v.sink.state));
        && v.sink.log == old(v.sink.log) + sweep.visits
        && v.sink.state == sweep.final
        && v.returnValue == (old(v.returnValue) || (v.kind.CastRayVisitor? && sweep.hit))
    {
      var sink := v.sink;
      ghost var narrow := sink.narrow;
      ghost var calls := ByShapeIndex(shapes, v.creator);
      ghost var start := sink.state;
      ghost var log0 := sink.log;
      ghost var returned0 := v.returnValue;
      ghost var rule := v.kind.Rule();
      var index := 0;
      while index < |shapes|
        invariant 0 <= index <= |shapes|
        invariant v.Visited(shapes, index, start, log0, returned0)
        invariant NoAbortBefore(narrow, calls, rule, start, index)
      {
        v.VisitNext(shapes, index, start, log0, returned0);
        index := index + 1;
        if v.ShouldAbort() {
          SweepEnd(narrow, calls, rule, start, index, true);
          return;
        }
        SweepStep(narrow, calls, rule, start, index - 1);
      }
      SweepEnd(narrow, calls, rule, start, index, false);
    }

    /**
     * The single-hit ray cast: ask the collector for the child the ray hits;
     * with none, report no hit; otherwise hand that child on under its own
     * index and report what the child reports.
     */
    method CastRay(ray: RayCast, creator: SubShapeIDCreator, hit: ResultCollector) returns (r: bool)
      requires HasRoom(creator, GetSubShapeIDBits())
      modifies shapeCollector, hit
      ensures shapeCollector.queries == old(shapeCollector.queries) + [CastRayQuery(ray)]
      ensures shapeCollector.castRay(ray).None? ==> !r && hit.log == old(hit.log) && hit.state == old(hit.state)
      ensures shapeCollector.castRay(ray).Some? ==>
        var child := shapeCollector.castRay(ray).value;
        var d := Dispatch(child, RegionPush(creator, child.shapeIndex));
        && r == hit.narrow(d, old(hit.state)).hit
        && hit.state == hit.narrow(d, old(hit.state)).after
        && hit.log == old(hit.log) + [d]
    {
      var shape := shapeCollector.CastRay(ray);
      if shape.None? {
        return false;
      }
      var child := shape.value;
      var id := RegionPush(creator, child.shapeIndex);
      r := hit.Receive(Dispatch(child, id));
    }

    /**
     * The collecting ray cast: every child the collector offers for the ray is
     * handed on, in order and under its own index, with no early out.
     */
    method CastRayCollect(ray: RayCast, creator: SubShapeIDCreator, collector: ResultCollector)
      requires HasRoom(creator, GetSubShapeIDBits())
      modifies shapeCollector, collector
      ensures shapeCollector.queries == old(shapeCollector.queries) + [CollectCastRayQuery(ray)]
      ensures var calls := ByShapeIndex(shapeCollector.collectCastRay(ray), creator);
        && collector.log == old(collector.log) + calls
        && collector.state == StateAfter(old(collector.state), Run(collector.narrow, calls, old(collector.state)))
    {
      var shapes := shapeCollector.CollectCastRay(ray);
      ghost var calls := ByShapeIndex(shapes, creator);
      var index := 0;
      while index < |shapes|
        invariant 0 <= index <= |shapes|
        invariant shapeCollector.queries == old(shapeCollector.queries) + [CollectCastRayQuery(ray)]
        invariant collector.Received(calls, index, old(collector.state), old(collector.log))
      {
        var subShape := shapes[index];
        var id := RegionPush(creator, subShape.shapeIndex);
        ByShapeIndexAt(shapes, creator, index);
        collector.ReceiveNext(Dispatch(subShape, id), calls, index, old(collector.state), old(collector.log));
        index := index + 1;
      }
      assert calls[..index] == calls;
    }

    /** A point query walks the children with the point visitor over the local bounds. */
    method CollidePoint(point: Vec3, creator: SubShapeIDCreator, collector: ResultCollector)
      requires HasRoom(creator, GetSubShapeIDBits())
      modifies shapeCollector, collector
      ensures var t := Walk(CollidePointVisitor(GetLocalBounds(), point), creator, shapeCollector.collectAt,
                            collector.narrow, old(collector.state));
        && shapeCollector.queries == old(shapeCollector.queries) + t.queries
        && collector.log == old(collector.log) + t.sweep.visits
        && collector.state == t.sweep.final
    {
      var visitor := new Visitor(CollidePointVisitor(GetLocalBounds(), point), collector, creator, this);
      WalkSubShapes(visitor);
    }

    /**
     * Soft-body vertices: nothing for an empty vertex list; otherwise the
     * bounds of all vertices, carried into local space by `toLocal`, are
     * handed to the collector and every child it returns is visited in order.
     */
    method CollideSoftBodyVertices(vertices: seq<Vec3>, toLocal: AABox -> AABox) returns (visited: seq<IndexedShape>)
      modifies shapeCollector
      ensures vertices == [] ==> visited == [] && shapeCollector.queries == old(shapeCollector.queries)
      ensures vertices != [] ==>
        var box := toLocal(VertexBounds(vertices));
        && shapeCollector.queries == old(shapeCollector.queries) + [CollectAtQuery(box)]
        && visited == shapeCollector.collectAt(box)
    {
      if |vertices| == 0 {
        return [];
      }
      var minPosition, maxPosition := FoldVertexBounds(vertices);
      var collectAt := toLocal(AABox(minPosition, maxPosition));
      visited := shapeCollector.CollectAt(collectAt);
    }

    /** Region against another shape: the compound visitor over this region's local bounds. */
    static method CollideCompoundVsShape(shape1: RegionShape, boundsOf2InSpaceOf1: AABox,
                                         creator1: SubShapeIDCreator, collector: ResultCollector)
      requires HasRoom(creator1, shape1.GetSubShapeIDBits())
      modifies shape1.shapeCollector, collector
      ensures var t := Walk(CollideCompoundVsShapeVisitor(shape1.GetLocalBounds(), boundsOf2InSpaceOf1), creator1,
                            shape1.shapeCollector.collectAt, collector.narrow, old(collector.state));
        && shape1.shapeCollector.queries == old(shape1.shapeCollector.queries) + t.queries
        && collector.log == old(collector.log) + t.sweep.visits
        && collector.state == t.sweep.final
    {
      var visitor := new Visitor(CollideCompoundVsShapeVisitor(shape1.GetLocalBounds(), boundsOf2InSpaceOf1),
                                 collector, creator1, shape1);
      shape1.WalkSubShapes(visitor);
    }

    /**
     * Another shape against the region: the other shape's bounds, already in
     * the region's space, grown by the maximum separation distance.
     */
    static method CollideShapeVsCompound(shape2: RegionShape, boundsOf1InSpaceOf2: AABox, maxSeparationDistance: real,
                                         creator2: SubShapeIDCreator, collector: ResultCollector)
      requires HasRoom(creator2, shape2.GetSubShapeIDBits())
      modifies shape2.shapeCollector, collector
      ensures var kind := CollideShapeVsCompoundVisitor(shape2.GetLocalBounds(),
                                                        boundsOf1InSpaceOf2.ExpandBy(Replicate(maxSeparationDistance)));
        var t := Walk(kind, creator2, shape2.shapeCollector.collectAt, collector.narrow, old(collector.state));
        && shape2.shapeCollector.queries == old(shape2.shapeCollector.queries) + t.queries
        && collector.log == old(collector.log) + t.sweep.visits
        && collector.state == t.sweep.final
    {
      var kind := CollideShapeVsCompoundVisitor(shape2.GetLocalBounds(),
                                                boundsOf1InSpaceOf2.ExpandBy(Replicate(maxSeparationDistance)));
      var visitor := new Visitor(kind, collector, creator2, shape2);
      shape2.WalkSubShapes(visitor);
    }

    /** A shape cast against the region: the cast visitor over the region's world bounds. */
    static method CastShapeVsCompound(shape: RegionShape, worldBoundsOfShape: AABox, castHitsBox: AABox -> bool,
                                      creator2: SubShapeIDCreator, collector: ResultCollector)
      requires HasRoom(creator2, shape.GetSubShapeIDBits())
      modifies shape.shapeCollector, collector
      ensures var t := Walk(CastShapeVisitor(worldBoundsOfShape, castHitsBox), creator2,
                            shape.shapeCollector.collectAt, collector.narrow, old(collector.state));
        && shape.shapeCollector.queries == old(shape.shapeCollector.queries) + t.queries
        && collector.log == old(collector.log) + t.sweep.visits
        && collector.state == t.sweep.final
    {
      var visitor := new Visitor(CastShapeVisitor(worldBoundsOfShape, castHitsBox), collector, creator2, shape);
      shape.WalkSubShapes(visitor);
    }

    /**
     * The region cast against another shape: collect at the cast's world
     * bounds with no bounds test first, and hand each child on under its
     * position in the collected list, stopping after the first early out.
     */
    static method CastCompoundVsShape(compound: RegionShape, shapeWorldBounds: AABox,
                                      creator1: SubShapeIDCreator, collector: ResultCollector)
      requires HasRoom(creator1, compound.GetSubShapeIDBits())
      modifies compound.shapeCollector, collector
      ensures var calls := ByPosition(compound.shapeCollector.collectAt(shapeWorldBounds), creator1);
        var s := SweepUntilAbort(collector.narrow, calls, OnEarlyOut, old(collector.state));
        && compound.shapeCollector.queries == old(compound.shapeCollector.queries) + [CollectAtQuery(shapeWorldBounds)]
        && collector.log == old(collector.log) + s.visits
        && collector.state == s.final
    {
      var shapes := compound.shapeCollector.CollectAt(shapeWorldBounds);
      var n := |shapes|;
      var subShapeBits := compound.GetSubShapeIDBits();
      ghost var calls := ByPosition(shapes, creator1);
      ghost var start := collector.state;
      ghost var log0 := collector.log;
      var i := 0;
      while i < n
        invariant 0 <= i <= n
        invariant compound.shapeCollector.queries == old(compound.shapeCollector.queries) + [CollectAtQuery(shapeWorldBounds)]
        invariant collector.Received(calls, i, start, log0)
        invariant NoAbortBefore(collector.narrow, calls, OnEarlyOut, start, i)
      {
        var shape := shapes[i];
        var position := PositionIndex(i);
        var id := RegionPush(creator1, position);
        ByPositionAt(shapes, creator1, i);
        collector.ReceiveNext(Dispatch(shape, id), calls, i, start, log0);
        i := i + 1;
        if collector.state.earlyOut {
          SweepEnd(collector.narrow, calls, OnEarlyOut, start, i, true);
          return;
        }
        SweepStep(collector.narrow, calls, OnEarlyOut, start, i - 1);
      }
      SweepEnd(collector.narrow, calls, OnEarlyOut, start, i, false);
    }
  }

  /** The bounds of the vertices: componentwise minimum and maximum, folded from the empty box. */
  function VertexBounds(vertices: seq<Vec3>): (b: AABox)
    ensures forall k :: 0 <= k < |vertices| ==> b.Contains(vertices[k])
    decreases |vertices|
  {
    if vertices == [] then EmptyBox
    else
      var earlier := VertexBounds(vertices[..|vertices| - 1]);
      var v := vertices[|vertices| - 1];
      AABox(MinVec(earlier.min, v), MaxVec(earlier.max, v))
  }

  /** The min/max loop of CollideSoftBodyVertices. */
  method FoldVertexBounds(vertices: seq<Vec3>) returns (minPosition: Vec3, maxPosition: Vec3)
    ensures AABox(minPosition, maxPosition) == VertexBounds(vertices)
  {
    minPosition, maxPosition := Replicate(FltMax), Replicate(-FltMax);
    var k := 0;
    while k < |vertices|
      invariant 0 <= k <= |vertices|
      invariant AABox(minPosition, maxPosition) == VertexBounds(vertices[..k])
    {
      assert vertices[..k + 1][..k] == vertices[..k];
      minPosition := MinVec(minPosition, vertices[k]);
      maxPosition := MaxVec(maxPosition, vertices[k]);
      k := k + 1;
    }
    assert vertices[..k] == vertices;
  }

  /** Every coordinate lies within the single-precision range. */
  predicate InFloatRange(v: Vec3)
  {
    -FltMax <= v.x <= FltMax && -FltMax <= v.y <= FltMax && -FltMax <= v.z <= FltMax
  }

  /**
   * For vertices within the single-precision range, each face of the bounds
   * touches some vertex, so no smaller box contains them all.
   */
  lemma {:induction false} VertexBoundsTight(vertices: seq<Vec3>, box: AABox)
    requires vertices != []
    requires forall k :: 0 <= k < |vertices| ==> InFloatRange(vertices[k]) && box.Contains(vertices[k])
    ensures box.min.AllLessOrEqual(VertexBounds(vertices).min)
    ensures VertexBounds(vertices).max.AllLessOrEqual(box.max)
    decreases |vertices|
  {
    var m := |vertices| - 1;
    var v := vertices[m];
    assert box.Contains(v);
    if m > 0 {
      var earlier := vertices[..m];
      forall k | 0 <= k < |earlier|
        ensures InFloatRange(earlier[k]) && box.Contains(earlier[k])
      {
        assert earlier[k] == vertices[k];
      }
      VertexBoundsTight(earlier, box);
    } else {
      assert vertices[..m] == [];
    }
  }

  /** RegionShapeSettings: the collector, the half extent and the cached creation result. */
  class RegionShapeSettings {
    const shapeCollector: IndexedShapeCollector
    const halfExtent: Vec3
    var cachedResult: ShapeResult

    /** Settings over a collector and half extent; nothing created yet. */
    constructor (shapeCollector: IndexedShapeCollector, halfExtent: Vec3)
      ensures this.shapeCollector == shapeCollector && this.halfExtent == halfExtent
      ensures cachedResult == NoResult
    {
      this.shapeCollector := shapeCollector;
      this.halfExtent := halfExtent;
      cachedResult := NoResult;
    }

    /**
     * Build a region shape only when no result is cached, and return the
     * cached result: every call after the first returns the same shape.
     */
    method Create() returns (r: ShapeResult)
      modifies this
      ensures old(cachedResult).NoResult? ==>
        r.Valid? && fresh(r.shape) && r.shape.shapeCollector == shapeCollector && r.shape.halfExtent == halfExtent
      ensures old(cachedResult).Valid? ==> r == old(cachedResult)
      ensures cachedResult == r
    {
      if cachedResult.NoResult? {
        var shape := new RegionShape(this);
      }
      return cachedResult;
    }
  }
}
