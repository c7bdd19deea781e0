// What a region shape's sub-shape loops do, as values: the narrow-phase calls
// they issue, the responses those calls produce in order, and where the loop
// stops. The loops in module Region are proved against these functions.

module Traversal {
  import opened SubShapeIds
  import opened ShapeIndex

  /** What the early-out tests read from the query's collector or hit record. */
  datatype QueryState = QueryState(earlyOut: bool, fraction: real)

  /** One call into the narrow phase: a sub-shape and the ID creator built for it. */
  datatype Dispatch = Dispatch(shape: IndexedShape, id: SubShapeIDCreator)

  /** What a narrow-phase call reports: whether it hit, and the query state afterwards. */
  datatype Response = Response(hit: bool, after: QueryState)

  /**
   * The collision dispatch or child-shape query a visit hands on to. It is not
   * part of this model, so it is a parameter: a deterministic function of the
   * call and the state of the query before it.
   */
  type NarrowPhase = (Dispatch, QueryState) -> Response

  /**
   * When a loop gives up: CastRayVisitor stops once the hit fraction is at most
   * zero; every other visitor, and the compound cast loop, stops once the
   * collector asks for an early out.
   */
  datatype AbortRule = OnEarlyOut | OnNonPositiveFraction

  predicate Aborts(rule: AbortRule, s: QueryState)
  {
    match rule
    case OnEarlyOut => s.earlyOut
    case OnNonPositiveFraction => s.fraction <= 0.0
  }

  /** The state after a run of responses, or the start state if there were none. */
  function StateAfter(start: QueryState, run: seq<Response>): QueryState
  {
    if run == [] then start else run[|run| - 1].after
  }

  /** The responses to the calls, issued in order, each seeing the state the previous one left. */
  function Run(narrow: NarrowPhase, calls: seq<Dispatch>, start: QueryState): (r: seq<Response>)
    ensures |r| == |calls|
    decreases |calls|
  {
    if calls == [] then []
    else
      var earlier := Run(narrow, calls[..|calls| - 1], start);
      earlier + [narrow(calls[|calls| - 1], StateAfter(start, earlier))]
  }

  /** How many calls a loop that checks `rule` after each call makes: up to and including the first abort. */
  function StopPoint(rule: AbortRule, run: seq<Response>): (n: nat)
    ensures n <= |run|
    ensures run != [] ==> 0 < n
  {
    if run == [] then 0
    else if Aborts(rule, run[0].after) then 1
    else 1 + StopPoint(rule, run[1..])
  }

  /** Some response in the run was a hit. */
  predicate AnyHit(run: seq<Response>)
  {
    exists j :: 0 <= j < |run| && run[j].hit
  }

  /**
   * Index to ID with the region's width: the ID of a creator with all 32 bits
   * free becomes exactly the index, and no bit is left for deeper levels.
   */
  function RegionPush(c: SubShapeIDCreator, index: bv32): (r: SubShapeIDCreator)
    requires HasRoom(c, MaxBits)
    ensures r.id == SubShapeID(index) && r.currentBit == MaxBits
    ensures !HasRoom(r, 1)
  {
    FullWidthPushAt(c, index);
    PushID(c, index, MaxBits)
  }

  /** The calls WalkSubShapes and the collector CastRay make: each shape under its own index. */
  function ByShapeIndex(shapes: seq<IndexedShape>, c: SubShapeIDCreator): (calls: seq<Dispatch>)
    requires HasRoom(c, MaxBits)
    ensures |calls| == |shapes|
  {
    seq(|shapes|, j requires 0 <= j < |shapes| => Dispatch(shapes[j], RegionPush(c, shapes[j].shapeIndex)))
  }

  /** A loop position as the 32-bit sub-shape index PushID receives, modulo 2^32. */
  function PositionIndex(j: nat): bv32
  {
    (j % 0x1_0000_0000) as bv32
  }

  /** The calls sCastCompoundVsShape makes: each shape under its position in the collected array. */
  function ByPosition(shapes: seq<IndexedShape>, c: SubShapeIDCreator): (calls: seq<Dispatch>)
    requires HasRoom(c, MaxBits)
    ensures |calls| == |shapes|
  {
    seq(|shapes|, j requires 0 <= j < |shapes| => Dispatch(shapes[j], RegionPush(c, PositionIndex(j))))
  }

  /** Call j of ByShapeIndex: shape j under its own index. */
  lemma ByShapeIndexAt(shapes: seq<IndexedShape>, c: SubShapeIDCreator, j: nat)
    requires HasRoom(c, MaxBits) && j < |shapes|
    ensures ByShapeIndex(shapes, c)[j] == Dispatch(shapes[j], RegionPush(c, shapes[j].shapeIndex))
  {
  }

  /** Call j of ByPosition: shape j under the position j. */
  lemma ByPositionAt(shapes: seq<IndexedShape>, c: SubShapeIDCreator, j: nat)
    requires HasRoom(c, MaxBits) && j < |shapes|
    ensures ByPosition(shapes, c)[j] == Dispatch(shapes[j], RegionPush(c, PositionIndex(j)))
  {
  }

  /** A prefix one longer is the prefix plus the next element. */
  lemma PrefixStep<T>(s: seq<T>, i: nat)
    requires i < |s|
    ensures s[..i + 1] == s[..i] + [s[i]]
  {
  }

  /** Issuing one more call extends the run by that call's response. */
  lemma RunStep(narrow: NarrowPhase, calls: seq<Dispatch>, start: QueryState, i: nat)
    requires i < |calls|
    ensures Run(narrow, calls[..i + 1], start)
         == Run(narrow, calls[..i], start) + [narrow(calls[i], StateAfter(start, Run(narrow, calls[..i], start)))]
  {
    assert calls[..i + 1][..i] == calls[..i];
  }

  /** What one more call changes: the state is that call's, and the run has a hit iff before or now. */
  lemma RunStepState(narrow: NarrowPhase, calls: seq<Dispatch>, start: QueryState, i: nat)
    requires i < |calls|
    ensures var r := narrow(calls[i], StateAfter(start, Run(narrow, calls[..i], start)));
      && StateAfter(start, Run(narrow, calls[..i + 1], start)) == r.after
      && (AnyHit(Run(narrow, calls[..i + 1], start)) <==> AnyHit(Run(narrow, calls[..i], start)) || r.hit)
  {
    RunStep(narrow, calls, start, i);
    AnyHitAppend(Run(narrow, calls[..i], start), narrow(calls[i], StateAfter(start, Run(narrow, calls[..i], start))));
  }

  /** Responses depend only on earlier calls: the run of a prefix is the prefix of the run. */
  lemma {:induction false} RunPrefix(narrow: NarrowPhase, calls: seq<Dispatch>, start: QueryState, i: nat)
    requires i <= |calls|
    ensures Run(narrow, calls[..i], start) == Run(narrow, calls, start)[..i]
    decreases |calls|
  {
    if i < |calls| {
      var m := |calls| - 1;
      assert calls[..m][..i] == calls[..i];
      RunPrefix(narrow, calls[..m], start, i);
    } else {
      assert calls[..i] == calls;
    }
  }

  /** StopPoint is the position just after the first abort, or the whole run if none aborts. */
  lemma {:induction false} StopPointIsFirstAbort(rule: AbortRule, run: seq<Response>)
    ensures forall j :: 0 <= j && j + 1 < StopPoint(rule, run) ==> !Aborts(rule, run[j].after)
    ensures StopPoint(rule, run) < |run| ==> Aborts(rule, run[StopPoint(rule, run) - 1].after)
  {
    if run != [] && !Aborts(rule, run[0].after) {
      StopPointIsFirstAbort(rule, run[1..]);
      var n := StopPoint(rule, run);
      forall j | 0 <= j && j + 1 < n
        ensures !Aborts(rule, run[j].after)
      {
        if j > 0 {
          assert run[j] == run[1..][j - 1];
        }
      }
    }
  }

  /** Conversely, a count that stops at the first abort and nowhere earlier is the StopPoint. */
  lemma {:induction false} StopPointUnique(rule: AbortRule, run: seq<Response>, n: nat)
    requires n <= |run|
    requires forall j :: 0 <= j && j + 1 < n ==> !Aborts(rule, run[j].after)
    requires n < |run| ==> 0 < n && Aborts(rule, run[n - 1].after)
    ensures StopPoint(rule, run) == n
  {
    if run != [] && n > 1 {
      assert !Aborts(rule, run[0].after);
      forall j | 0 <= j && j + 1 < n - 1
        ensures !Aborts(rule, run[1..][j].after)
      {
        assert run[1..][j] == run[j + 1];
      }
      StopPointUnique(rule, run[1..], n - 1);
    }
  }

  /** The state the loop leaves behind is that of its last call, before any later call. */
  lemma StopPointState(rule: AbortRule, run: seq<Response>, start: QueryState)
    requires run != []
    ensures StateAfter(start, run[..StopPoint(rule, run)]) == run[StopPoint(rule, run) - 1].after
  {
  }

  /** A response appended to a run is a hit in the longer run exactly when it or an earlier one is. */
  lemma AnyHitAppend(run: seq<Response>, r: Response)
    ensures AnyHit(run + [r]) <==> AnyHit(run) || r.hit
  {
    if AnyHit(run) {
      var j :| 0 <= j < |run| && run[j].hit;
      assert (run + [r])[j] == run[j];
    }
    assert (run + [r])[|run|] == r;
  }

  /** What a loop that may stop early did: the calls it made, the state it left, whether any hit. */
  datatype Sweep = Sweep(visits: seq<Dispatch>, final: QueryState, hit: bool)

  /**
   * Issue the calls in order and check `rule` after each one, stopping right
   * after the first call that left an aborting state. The calls made are a
   * prefix of the calls offered, none of them but the last aborted, and if
   * the loop stopped short the last one did.
   */
  function SweepUntilAbort(narrow: NarrowPhase, calls: seq<Dispatch>, rule: AbortRule, start: QueryState): (s: Sweep)
    ensures s.visits <= calls
    ensures calls != [] ==> s.visits != []
    ensures var run := Run(narrow, s.visits, start);
      && s.final == StateAfter(start, run)
      && (s.hit <==> AnyHit(run))
      && (forall j :: 0 <= j && j + 1 < |s.visits| ==> !Aborts(rule, run[j].after))
      && (|s.visits| < |calls| ==> Aborts(rule, s.final))
  {
    var run := Run(narrow, calls, start);
    var n := StopPoint(rule, run);
    StopPointIsFirstAbort(rule, run);
    RunPrefix(narrow, calls, start, n);
    Sweep(calls[..n], StateAfter(start, run[..n]), AnyHit(run[..n]))
  }

  /** None of the first i calls left an aborting state. */
  ghost predicate NoAbortBefore(narrow: NarrowPhase, calls: seq<Dispatch>, rule: AbortRule, start: QueryState, i: nat)
    requires i <= |calls|
  {
    forall j :: 0 <= j < i ==> !Aborts(rule, Run(narrow, calls[..i], start)[j].after)
  }

  /** One more call that does not abort keeps the loop's invariant. */
  lemma SweepStep(narrow: NarrowPhase, calls: seq<Dispatch>, rule: AbortRule, start: QueryState, i: nat)
    requires i < |calls| && NoAbortBefore(narrow, calls, rule, start, i)
    requires !Aborts(rule, StateAfter(start, Run(narrow, calls[..i + 1], start)))
    ensures NoAbortBefore(narrow, calls, rule, start, i + 1)
  {
    RunStep(narrow, calls, start, i);
    RunStepState(narrow, calls, start, i);
  }

  /**
   * A loop that made n calls and stopped, either because the calls ran out
   * with none aborting or because call n aborted and none before it did, did
   * what SweepUntilAbort says.
   */
  lemma SweepEnd(narrow: NarrowPhase, calls: seq<Dispatch>, rule: AbortRule, start: QueryState, n: nat, aborted: bool)
    requires n <= |calls|
    requires !aborted ==> n == |calls| && NoAbortBefore(narrow, calls, rule, start, n)
    requires aborted ==> 0 < n && NoAbortBefore(narrow, calls, rule, start, n - 1)
                         && Aborts(rule, StateAfter(start, Run(narrow, calls[..n], start)))
    ensures SweepUntilAbort(narrow, calls, rule, start)
         == Sweep(calls[..n], StateAfter(start, Run(narrow, calls[..n], start)), AnyHit(Run(narrow, calls[..n], start)))
  {
    var run := Run(narrow, calls, start);
    RunPrefix(narrow, calls, start, n);
    if aborted {
      RunPrefix(narrow, calls, start, n - 1);
      assert calls[..n][..n - 1] == calls[..n - 1];
      RunPrefix(narrow, calls[..n], start, n - 1);
    }
    StopPointUnique(rule, run, n);
  }
}
