// The broad-phase insertion sample test: each pre-physics update sweeps a
// batch of a tenth of the bodies into the broad phase (on the way up) or out
// of it (on the way down), jiggles some inserted bodies, and then checks a
// ray cast through the broad phase before and after it is optimised.

module BroadPhaseInsertion {
  import opened Wrappers

  /** A body is identified by its index in the body manager's body list. */
  type BodyId = int

  /** cNumBodiesToMove: how many random moves each update makes. */
  const MovesPerStep: nat := 100

  /**
   * When an ascending sweep turns round: as written, once the counter has
   * reached the body count; corrected, once a whole batch no longer fits.
   */
  datatype TurnRule = AsWritten | Corrected

  /** The test's counter mCurrentBody and its direction mDirection. */
  datatype Sweep = Sweep(current: int, direction: int)

  const Start: Sweep := Sweep(0, 1)

  /** num_this_step: the body count divided by ten, rounded down. */
  function StepSize(maxBodies: nat): (step: nat)
    ensures step * 10 <= maxBodies < step * 10 + 10
  {
    maxBodies / 10
  }

  /** The condition under which an ascending sweep turns round. */
  predicate Exhausted(current: int, maxBodies: nat, rule: TurnRule)
  {
    match rule
    case AsWritten => current >= maxBodies
    case Corrected => current + StepSize(maxBodies) > maxBodies
  }

  /**
   * The direction check at the start of an update: an exhausted ascending
   * sweep turns down, then a descending sweep at zero turns up again.
   */
  function Turned(s: Sweep, maxBodies: nat, rule: TurnRule): (t: Sweep)
    ensures t.current == s.current
    ensures s.direction == 1 || s.direction == -1 ==>
      && (t.direction == 1 || t.direction == -1)
      && (t.direction == -1 <==> s.current != 0 && (s.direction == -1 || Exhausted(s.current, maxBodies, rule)))
  {
    var down := if s.direction == 1 && Exhausted(s.current, maxBodies, rule) then -1 else s.direction;
    Sweep(s.current, if down == -1 && s.current == 0 then 1 else down)
  }

  /** The first index of the batch: a descending sweep steps down before it. */
  function BatchStart(s: Sweep, maxBodies: nat, rule: TurnRule): int
  {
    var t := Turned(s, maxBodies, rule);
    if t.direction < 0 then t.current - StepSize(maxBodies) else t.current
  }

  /** Every index of the batch [start, start + step) names a body. */
  ghost predicate BatchInRange(s: Sweep, maxBodies: nat, rule: TurnRule)
  {
    0 <= BatchStart(s, maxBodies, rule) && BatchStart(s, maxBodies, rule) + StepSize(maxBodies) <= maxBodies
  }

  /** The counter and direction after an update that completes. */
  function Next(s: Sweep, maxBodies: nat, rule: TurnRule): Sweep
  {
    var t := Turned(s, maxBodies, rule);
    var start := BatchStart(s, maxBodies, rule);
    Sweep(if t.direction > 0 then start + StepSize(maxBodies) else start, t.direction)
  }

  /** The sweep after n completed updates from the initial counter. */
  function Run(maxBodies: nat, n: nat, rule: TurnRule): Sweep
  {
    if n == 0 then Start else Next(Run(maxBodies, n - 1, rule), maxBodies, rule)
  }

  /**
   * A sweep the test can be in: moving up or down, the counter a whole
   * number k of batches and not past the body count.
   */
  ghost predicate ConsistentAt(s: Sweep, maxBodies: nat, k: nat)
  {
    && (s.direction == 1 || s.direction == -1)
    && s.current == k * StepSize(maxBodies)
    && s.current <= maxBodies
  }

  /** The bodies [0, current) the broad phase holds while the counter is current. */
  function Membership(current: int): (m: set<BodyId>)
    ensures forall b :: b in m <==> 0 <= b < current
    decreases current
  {
    if current <= 0 then {} else Membership(current - 1) + {current - 1}
  }

  /**
   * From a consistent sweep the batch starts inside the body list, a
   * descending batch always fits, and under the corrected rule every batch
   * fits.
   */
  lemma BatchStartInBounds(s: Sweep, maxBodies: nat, k: nat, rule: TurnRule)
    requires ConsistentAt(s, maxBodies, k)
    ensures 0 <= BatchStart(s, maxBodies, rule) <= maxBodies
    ensures Turned(s, maxBodies, rule).direction == -1 ==> BatchInRange(s, maxBodies, rule)
    ensures rule == Corrected ==> BatchInRange(s, maxBodies, rule)
  {
    var step := StepSize(maxBodies);
    var t := Turned(s, maxBodies, rule);
    if t.direction == -1 {
      assert k != 0;
      assert s.current == (k - 1) * step + step;
    }
  }

  /** A completed update keeps the sweep consistent, one batch further or back. */
  lemma NextConsistent(s: Sweep, maxBodies: nat, k: nat, rule: TurnRule)
    requires ConsistentAt(s, maxBodies, k) && BatchInRange(s, maxBodies, rule)
    ensures Turned(s, maxBodies, rule).direction > 0 ==> ConsistentAt(Next(s, maxBodies, rule), maxBodies, k + 1)
    ensures Turned(s, maxBodies, rule).direction < 0 ==> k > 0 && ConsistentAt(Next(s, maxBodies, rule), maxBodies, k - 1)
  {
    var step := StepSize(maxBodies);
    if Turned(s, maxBodies, rule).direction > 0 {
      assert (k + 1) * step == k * step + step;
    } else {
      assert k != 0;
      assert (k - 1) * step == k * step - step;
    }
  }

  /**
   * As written, an ascending batch fits whenever the body count is a whole
   * number m of batches.
   */
  lemma InRangeWhenStepDivides(s: Sweep, maxBodies: nat, k: nat, m: nat)
    requires ConsistentAt(s, maxBodies, k) && WholeBatches(maxBodies, m)
    ensures BatchInRange(s, maxBodies, AsWritten)
  {
    BatchStartInBounds(s, maxBodies, k, AsWritten);
    var step := StepSize(maxBodies);
    if Turned(s, maxBodies, AsWritten).direction == 1 && step > 0 && s.current < maxBodies {
      assert k * step < m * step;
      MultiplyCancel(k, m, step);
      MultiplyMonotone(k + 1, m, step);
      assert (k + 1) * step == k * step + step;
    }
  }

  lemma MultiplyCancel(a: nat, b: nat, c: nat)
    ensures a * c < b * c ==> a < b
  {
    if b <= a {
      MultiplyMonotone(b, a, c);
    }
  }

  lemma MultiplyMonotone(a: nat, b: nat, c: nat)
    requires a <= b
    ensures a * c <= b * c
  {
    assert b * c == a * c + (b - a) * c;
  }

  /** The body count is a whole number m of batches. */
  ghost predicate WholeBatches(maxBodies: nat, m: nat)
  {
    maxBodies == m * StepSize(maxBodies)
  }

  /**
   * Under the corrected rule, or as written when the body count is a whole
   * number of batches, every update of the run finds the sweep consistent.
   */
  lemma {:induction false} RunConsistent(maxBodies: nat, n: nat, rule: TurnRule, m: nat)
    requires rule == Corrected || WholeBatches(maxBodies, m)
    ensures exists k: nat :: ConsistentAt(Run(maxBodies, n, rule), maxBodies, k)
  {
    if n == 0 {
      assert ConsistentAt(Run(maxBodies, 0, rule), maxBodies, 0);
    } else {
      RunConsistent(maxBodies, n - 1, rule, m);
      var before := Run(maxBodies, n - 1, rule);
      var k: nat :| ConsistentAt(before, maxBodies, k);
      if rule == Corrected {
        BatchStartInBounds(before, maxBodies, k, rule);
      } else {
        InRangeWhenStepDivides(before, maxBodies, k, m);
      }
      NextConsistent(before, maxBodies, k, rule);
      if Turned(before, maxBodies, rule).direction > 0 {
        assert ConsistentAt(Run(maxBodies, n, rule), maxBodies, k + 1);
      } else {
        assert ConsistentAt(Run(maxBodies, n, rule), maxBodies, k - 1);
      }
    }
  }

  /**
   * As written, when the body count is a whole number of batches, every
   * update of the test's run fetches only existing bodies.
   */
  lemma RunInRangeWhenStepDivides(maxBodies: nat, m: nat, n: nat)
    requires WholeBatches(maxBodies, m)
    ensures BatchInRange(Run(maxBodies, n, AsWritten), maxBodies, AsWritten)
  {
    RunConsistent(maxBodies, n, AsWritten, m);
    var k: nat :| ConsistentAt(Run(maxBodies, n, AsWritten), maxBodies, k);
    InRangeWhenStepDivides(Run(maxBodies, n, AsWritten), maxBodies, k, m);
  }

  /** With 25 bodies the batch is 2 and the first twelve updates climb by 2. */
  lemma {:induction false} AsWrittenRunAt25(n: nat)
    requires n <= 12
    ensures Run(25, n, AsWritten) == Sweep(2 * n, 1)
  {
    if n > 0 {
      AsWrittenRunAt25(n - 1);
    }
  }

  /**
   * As written, with 25 bodies the first twelve updates complete and the
   * thirteenth asks for the batch [24, 26), whose index 25 names no body.
   */
  lemma BatchOverrunsAt25()
    ensures forall n: nat :: n < 12 ==> BatchInRange(Run(25, n, AsWritten), 25, AsWritten)
    ensures BatchStart(Run(25, 12, AsWritten), 25, AsWritten) == 24 && StepSize(25) == 2
    ensures !BatchInRange(Run(25, 12, AsWritten), 25, AsWritten)
  {
    forall n: nat | n < 12
      ensures BatchInRange(Run(25, n, AsWritten), 25, AsWritten)
    {
      AsWrittenRunAt25(n);
    }
    AsWrittenRunAt25(12);
  }

  /**
   * With the corrected turn, every update of the run, for every body count,
   * fetches only existing bodies.
   */
  lemma CorrectedRunInRange(maxBodies: nat, n: nat)
    ensures BatchInRange(Run(maxBodies, n, Corrected), maxBodies, Corrected)
  {
    RunConsistent(maxBodies, n, Corrected, 0);
    var k: nat :| ConsistentAt(Run(maxBodies, n, Corrected), maxBodies, k);
    BatchStartInBounds(Run(maxBodies, n, Corrected), maxBodies, k, Corrected);
  }

  /** Why a check of the update throws. */
  datatype Failure =
    | MoreHitsAfter
    | AfterHitNotBefore(id: BodyId)
    | MissedIntersection(id: BodyId)
    | FalseIntersection(id: BodyId)

  /** How an update ends: normally, on a body index out of range, or on a failed check. */
  datatype Outcome = Passed | IndexOutOfRange(index: int) | CheckFailed(failure: Failure)

  /** The first hit after optimisation whose body the hits before lack. */
  function MissingFromBefore(before: seq<BodyId>, after: seq<BodyId>): (r: Option<BodyId>)
    ensures r.None? <==> forall a :: a in after ==> a in before
    ensures r.Some? ==> r.value in after && r.value !in before
  {
    if |after| == 0 then None
    else if after[0] in before then MissingFromBefore(before, after[1..])
    else
      var x := after[0];
      assert x in after && x !in before && !(forall a :: a in after ==> a in before);
      Some(x)
  }

  /**
   * The comparison of the hits before and after optimisation: there may be
   * no more hits after, and every hit after must have been a hit before.
   */
  function HitsFailure(before: seq<BodyId>, after: seq<BodyId>): (r: Option<Failure>)
    ensures r.None? <==> |after| <= |before| && forall a :: a in after ==> a in before
    ensures r.Some? ==> r.value == MoreHitsAfter || (r.value.AfterHitNotBefore? && r.value.id in after && r.value.id !in before)
  {
    if |after| > |before| then Some(MoreHitsAfter)
    else match MissingFromBefore(before, after)
      case None => None
      case Some(id) => Some(AfterHitNotBefore(id))
  }

  /** A body as the brute-force check sees it. */
  datatype Body = Body(id: BodyId, inBroadPhase: bool, rayHitsBounds: bool)

  /** The body list: body i has id i, is in the broad phase when in members, and rayHits(i) says whether the ray hits its bounds. */
  function Bodies(maxBodies: nat, members: set<BodyId>, rayHits: BodyId -> bool): (bodies: seq<Body>)
    ensures |bodies| == maxBodies
    ensures forall i :: 0 <= i < maxBodies ==> bodies[i] == Body(i, i in members, rayHits(i))
  {
    seq(maxBodies, i => Body(i, i in members, rayHits(i)))
  }

  /**
   * The brute-force check: the first body that is in the broad phase and
   * hit by the ray but not among the hits, or among the hits without being both.
   */
  function BruteForceFailure(bodies: seq<Body>, hits: seq<BodyId>): (r: Option<Failure>)
    ensures r.None? <==> forall b :: b in bodies ==> (b.id in hits <==> b.inBroadPhase && b.rayHitsBounds)
    ensures r.Some? && r.value.MissedIntersection? ==> r.value.id !in hits
    ensures r.Some? && r.value.FalseIntersection? ==> r.value.id in hits
    ensures r.Some? ==> r.value.MissedIntersection? || r.value.FalseIntersection?
  {
    if bodies == [] then None
    else
      var b := bodies[0];
      var found := b.id in hits;
      if b.inBroadPhase && b.rayHitsBounds && !found then Some(MissedIntersection(b.id))
      else if !(b.inBroadPhase && b.rayHitsBounds) && found then Some(FalseIntersection(b.id))
      else BruteForceFailure(bodies[1..], hits)
  }

  /**
   * The checks after an update, in order: the before/after comparison, then
   * the brute-force check; they pass exactly when the hits after are no more
   * than and among the hits before, and are the bodies in the broad phase
   * whose bounds the ray hits.
   */
  function ChecksFailure(before: seq<BodyId>, after: seq<BodyId>, bodies: seq<Body>): (r: Option<Failure>)
    ensures r.None? <==>
      && |after| <= |before|
      && (forall a :: a in after ==> a in before)
      && (forall b :: b in bodies ==> (b.id in after <==> b.inBroadPhase && b.rayHitsBounds))
  {
    if HitsFailure(before, after).Some? then HitsFailure(before, after) else BruteForceFailure(bodies, after)
  }

  /** The two checks after an update, the second only when the first passes. */
  method RunChecks(before: seq<BodyId>, after: seq<BodyId>, bodies: seq<Body>) returns (r: Option<Failure>)
    ensures r == ChecksFailure(before, after, bodies)
  {
    r := CheckHits(before, after);
    if r.None? {
      r := CheckBruteForce(bodies, after);
    }
  }

  /** The inner search loop: whether some element of ids equals id. */
  method Find(ids: seq<BodyId>, id: BodyId) returns (found: bool)
    ensures found <==> id in ids
  {
    found := false;
    var j := 0;
    while j < |ids|
      invariant 0 <= j <= |ids|
      invariant id !in ids[..j]
    {
      if ids[j] == id {
        found := true;
        return;
      }
      assert ids[..j + 1] == ids[..j] + [ids[j]];
      j := j + 1;
    }
    assert ids[..j] == ids;
  }

  /** The before/after comparison loop. */
  method CheckHits(before: seq<BodyId>, after: seq<BodyId>) returns (r: Option<Failure>)
    ensures r == HitsFailure(before, after)
  {
    if |after| > |before| {
      return Some(MoreHitsAfter);
    }
    var i := 0;
    while i < |after|
      invariant 0 <= i <= |after|
      invariant MissingFromBefore(before, after) == MissingFromBefore(before, after[i..])
    {
      var found := Find(before, after[i]);
      if !found {
        return Some(AfterHitNotBefore(after[i]));
      }
      assert after[i..][1..] == after[i + 1..];
      i := i + 1;
    }
    return None;
  }

  /** The brute-force loop over every body of the body manager. */
  method CheckBruteForce(bodies: seq<Body>, hits: seq<BodyId>) returns (r: Option<Failure>)
    ensures r == BruteForceFailure(bodies, hits)
  {
    var i := 0;
    while i < |bodies|
      invariant 0 <= i <= |bodies|
      invariant BruteForceFailure(bodies, hits) == BruteForceFailure(bodies[i..], hits)
    {
      var b := bodies[i];
      var found := Find(hits, b.id);
      if b.inBroadPhase && b.rayHitsBounds {
        if !found {
          return Some(MissedIntersection(b.id));
        }
      } else {
        if found {
          return Some(FalseIntersection(b.id));
        }
      }
      assert bodies[i..][1..] == bodies[i + 1..];
      i := i + 1;
    }
    return None;
  }

  /**
   * The random moves: each draw of the engine picks a body in
   * [0, current - 1], the range of the uniform distribution.
   */
  method PickBodies(draws: seq<nat>, current: int) returns (moved: seq<BodyId>)
    requires current > 0
    ensures |moved| == |draws|
    ensures forall i :: 0 <= i < |moved| ==> 0 <= moved[i] < current && moved[i] == draws[i] % current
  {
    moved := [];
    var i := 0;
    while i < |draws|
      invariant 0 <= i <= |draws|
      invariant |moved| == i
      invariant forall j :: 0 <= j < i ==> 0 <= moved[j] < current && moved[j] == draws[j] % current
    {
      moved := moved + [draws[i] % current];
      i := i + 1;
    }
  }

  /** What fetching the batch from the body list gives. */
  datatype Fetched = Fetched(ids: seq<BodyId>) | OutOfRange(index: int)

  /**
   * The batch loop: fetch bodies start, start + 1, ... start + count - 1;
   * the list throws on the first index that names no body.
   */
  method FetchBatch(start: int, count: nat, bodyCount: nat) returns (f: Fetched)
    requires 0 <= start
    ensures f.OutOfRange? <==> count > 0 && start + count > bodyCount
    ensures f.OutOfRange? ==> f.index == if start < bodyCount then bodyCount else start
    ensures f.Fetched? ==> f.ids == seq(count, b => start + b)
  {
    var ids: seq<BodyId> := [];
    var b := 0;
    while b < count
      invariant 0 <= b <= count
      invariant start + b <= bodyCount || b == 0
      invariant ids == seq(b, j => start + j)
    {
      if start + b >= bodyCount {
        return OutOfRange(start + b);
      }
      ids := ids + [start + b];
      b := b + 1;
    }
    return Fetched(ids);
  }

  /** The test's state: its sweep counter and which bodies the broad phase holds. */
  class InsertionSweep {
    /** mBodyManager.getMaxBodies(). */
    const maxBodies: nat
    var currentBody: int
    var direction: int
    var inBroadPhase: set<BodyId>
    /** How many batches the counter stands for. */
    ghost var batches: nat

    function State(): Sweep
      reads this
    {
      Sweep(currentBody, direction)
    }

    ghost predicate Valid()
      reads this
    {
      ConsistentAt(State(), maxBodies, batches) && inBroadPhase == Membership(currentBody)
    }

    /** A fresh test: counter at zero, ascending, no body in the broad phase. */
    constructor (maxBodies: nat)
      ensures this.maxBodies == maxBodies && State() == Start && inBroadPhase == {}
      ensures Valid()
    {
      this.maxBodies := maxBodies;
      currentBody := 0;
      direction := 1;
      inBroadPhase := {};
      batches := 0;
    }

    /**
     * PrePhysicsUpdate. The engine's draws, the broad phase's hits before
     * and after optimisation and the ray-versus-bounds test are given.
     * The direction is turned first and a descending counter steps down;
     * then the outcome is an index out of range when the batch overruns the
     * body list, else the first failed check, else a pass, after which the
     * sweep has advanced by Next and the broad phase holds [0, current).
     */
    method PrePhysicsUpdate(draws: seq<nat>, hitsBefore: seq<BodyId>, hitsAfter: seq<BodyId>, rayHits: BodyId -> bool)
      returns (r: Outcome)
      requires Valid() && |draws| == MovesPerStep
      modifies this
      ensures direction == Turned(old(State()), maxBodies, AsWritten).direction
      ensures r.IndexOutOfRange? <==> !BatchInRange(old(State()), maxBodies, AsWritten)
      ensures r.IndexOutOfRange? ==> r.index == maxBodies && State() == old(State()) && inBroadPhase == old(inBroadPhase)
      ensures !r.IndexOutOfRange? ==> inBroadPhase == Membership(Next(old(State()), maxBodies, AsWritten).current)
      ensures !r.IndexOutOfRange? ==>
        r == match ChecksFailure(hitsBefore, hitsAfter, Bodies(maxBodies, inBroadPhase, rayHits))
             case None => Passed
             case Some(f) => CheckFailed(f)
      ensures r.CheckFailed? ==> currentBody == BatchStart(old(State()), maxBodies, AsWritten)
      ensures r.Passed? ==> State() == Next(old(State()), maxBodies, AsWritten) && Valid()
    {
      ghost var s := State();
      var numThisStep := TurnAndStepBack();
      ghost var next := Next(s, maxBodies, AsWritten);
      ghost var nextBatches: nat := 0;
      if BatchInRange(s, maxBodies, AsWritten) {
        NextConsistent(s, maxBodies, batches, AsWritten);
        nextBatches := if direction > 0 then batches + 1 else batches - 1;
      }
      r := FinishUpdate(draws, numThisStep, hitsBefore, hitsAfter, rayHits, next, nextBatches);
    }

    /**
     * The rest of an update once the counter is at the batch: the random
     * moves, the batch, the insertion or removal, the checks, and for an
     * ascending sweep the step forward to next.
     */
    method FinishUpdate(draws: seq<nat>, numThisStep: nat, hitsBefore: seq<BodyId>, hitsAfter: seq<BodyId>,
                        rayHits: BodyId -> bool, ghost next: Sweep, ghost nextBatches: nat)
      returns (r: Outcome)
      requires direction == 1 || direction == -1
      requires numThisStep == StepSize(maxBodies) && 0 <= currentBody <= maxBodies
      requires direction == 1 ==> inBroadPhase == Membership(currentBody)
      requires direction == -1 ==> inBroadPhase == Membership(currentBody + numThisStep)
      requires next == Sweep(if direction > 0 then currentBody + numThisStep else currentBody, direction)
      requires currentBody + numThisStep <= maxBodies ==> ConsistentAt(next, maxBodies, nextBatches)
      modifies this
      ensures direction == old(direction)
      ensures r.IndexOutOfRange? <==> old(currentBody) + numThisStep > maxBodies
      ensures r.IndexOutOfRange? ==> r.index == maxBodies && State() == old(State()) && inBroadPhase == old(inBroadPhase)
      ensures !r.IndexOutOfRange? ==> inBroadPhase == Membership(next.current)
      ensures !r.IndexOutOfRange? ==>
        r == match ChecksFailure(hitsBefore, hitsAfter, Bodies(maxBodies, inBroadPhase, rayHits))
             case None => Passed
             case Some(f) => CheckFailed(f)
      ensures r.CheckFailed? ==> currentBody == old(currentBody)
      ensures r.Passed? ==> State() == next && Valid()
    {
      if currentBody > 0 {
        var moved := MoveBodies(draws);
      }
      var fetched := FetchBatch(currentBody, numThisStep, maxBodies);
      if fetched.OutOfRange? {
        return IndexOutOfRange(fetched.index);
      }
      AddOrRemove(fetched.ids, currentBody, numThisStep);
      var failure := RunChecks(hitsBefore, hitsAfter, Bodies(maxBodies, inBroadPhase, rayHits));
      if failure.Some? {
        return CheckFailed(failure.value);
      }
      if direction > 0 {
        currentBody := currentBody + numThisStep;
      }
      batches := nextBatches;
      return Passed;
    }

    /**
     * The random moves: every picked body exists and is in the broad phase,
     * as the test asserts before moving it.
     */
    method MoveBodies(draws: seq<nat>) returns (moved: seq<BodyId>)
      requires 0 < currentBody <= maxBodies
      requires forall b :: 0 <= b < currentBody ==> b in inBroadPhase
      ensures |moved| == |draws|
      ensures forall i :: 0 <= i < |moved| ==> 0 <= moved[i] < maxBodies && moved[i] in inBroadPhase
    {
      moved := PickBodies(draws, currentBody);
    }

    /**
     * The direction check, and for a descending sweep the step back, that
     * open an update.
     */
    method TurnAndStepBack() returns (numThisStep: nat)
      requires Valid()
      modifies this
      ensures numThisStep == StepSize(maxBodies)
      ensures direction == Turned(old(State()), maxBodies, AsWritten).direction
      ensures currentBody == BatchStart(old(State()), maxBodies, AsWritten) && 0 <= currentBody <= maxBodies
      ensures direction == 1 ==> inBroadPhase == Membership(currentBody)
      ensures direction == -1 ==> inBroadPhase == Membership(currentBody + numThisStep)
      ensures batches == old(batches)
      ensures BatchInRange(old(State()), maxBodies, AsWritten) <==> currentBody + numThisStep <= maxBodies
      ensures Next(old(State()), maxBodies, AsWritten)
        == Sweep(if direction > 0 then currentBody + numThisStep else currentBody, direction)
    {
      BatchStartInBounds(State(), maxBodies, batches, AsWritten);
      if direction == 1 && currentBody >= maxBodies {
        direction := -1;
      }
      if direction == -1 && currentBody == 0 {
        direction := 1;
      }
      numThisStep := maxBodies / 10;
      if direction < 0 {
        currentBody := currentBody - numThisStep;
      }
    }

    /**
     * Insert the batch into the broad phase when ascending, remove it when
     * descending; the broad phase then holds [0, current) of the sweep
     * after the batch.
     */
    method AddOrRemove(ids: seq<BodyId>, start: int, count: nat)
      requires direction == 1 || direction == -1
      requires 0 <= start == currentBody && ids == seq(count, b => start + b)
      requires direction == 1 ==> inBroadPhase == Membership(currentBody)
      requires direction == -1 ==> inBroadPhase == Membership(currentBody + count)
      modifies this
      ensures inBroadPhase == Membership(if direction == 1 then currentBody + count else currentBody)
      ensures currentBody == old(currentBody) && direction == old(direction) && batches == old(batches)
    {
      var batch := set b | b in ids;
      assert forall b :: b in batch <==> start <= b < start + count by {
        forall b | start <= b < start + count
          ensures b in batch
        {
          assert ids[b - start] == b;
        }
      }
      if direction == 1 {
        // adding: none of the batch is in the broad phase yet
        assert batch !! inBroadPhase;
        inBroadPhase := inBroadPhase + batch;
      } else {
        // removing: all of the batch is in the broad phase
        assert batch <= inBroadPhase;
        inBroadPhase := inBroadPhase - batch;
      }
    }
  }
}
