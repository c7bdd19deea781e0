// The ownership protocol between the Java wrappers and the native objects
// they stand for. A wrapper holds a native address and, when it owns the
// object, the action that frees it; counted references (Ref<T>) keep a
// reference count on their target up to date as they are copied and freed.

module Ownership {
  import opened Geometry

  /** The native objects the wrappers in this model create and reach. */
  datatype NativeObject =
    | Box(box: AABox)
      /** A RefTarget (IndexedShape, CharacterVirtual, PathConstraintPath) with its reference count. */
    | Target(refCount: nat)
      /** A VehicleCollisionTesterCastCylinder, itself a RefTarget. */
    | CastCylinderTester(objectLayer: nat, convexRadiusFraction: real, refCount: nat)
      /** A Ref<T> or RefConst<T>; target 0 is the empty reference. */
    | CountedRef(target: nat)
  {
    predicate IsTarget() { Target? || CastCylinderTester? }

    function RefCount(): nat
      requires IsTarget()
    {
      refCount
    }

    function WithRefCount(n: nat): (o: NativeObject)
      requires IsTarget()
      ensures o.IsTarget() && o.RefCount() == n
    {
      if Target? then Target(n) else CastCylinderTester(objectLayer, convexRadiusFraction, n)
    }
  }

  /** One more counted reference to t (Ref<T>'s AddRef). */
  function AddRef(objects: map<nat, NativeObject>, t: nat): (r: map<nat, NativeObject>)
    ensures r.Keys == objects.Keys
    ensures forall a :: a in objects && a != t ==> r[a] == objects[a]
  {
    if t in objects && objects[t].IsTarget() then objects[t := objects[t].WithRefCount(objects[t].RefCount() + 1)]
    else objects
  }

  /** One counted reference fewer to t (Ref<T>'s Release); a count never drops below zero. */
  function Release(objects: map<nat, NativeObject>, t: nat): (r: map<nat, NativeObject>)
    ensures r.Keys == objects.Keys
    ensures forall a :: a in objects && a != t ==> r[a] == objects[a]
  {
    if t in objects && objects[t].IsTarget() && objects[t].RefCount() > 0
    then objects[t := objects[t].WithRefCount(objects[t].RefCount() - 1)]
    else objects
  }

  /** Making a counted reference and then freeing it leaves every object as it was. */
  lemma ReleaseUndoesAddRef(objects: map<nat, NativeObject>, t: nat)
    ensures Release(AddRef(objects, t), t) == objects
  {
    if t in objects && objects[t].IsTarget() {
      var o := objects[t];
      assert o.WithRefCount(o.RefCount() + 1).WithRefCount(o.RefCount()) == o;
    }
  }

  /** The effect on the other objects of freeing object o. */
  function AfterFree(objects: map<nat, NativeObject>, o: NativeObject): map<nat, NativeObject>
  {
    if o.CountedRef? then Release(objects, o.target) else objects
  }

  /** Each entry of the log names a different address. */
  ghost predicate Distinct(log: seq<nat>)
  {
    forall i, j :: 0 <= i < j < |log| ==> log[i] != log[j]
  }

  /**
   * The native heap: the live objects by address, the next unused address,
   * and the log of every address freed so far.
   */
  class NativeHeap {
    var objects: map<nat, NativeObject>
    var next: nat
    ghost var freeLog: seq<nat>
    /** The wrapper that owns each owned object: the one whose freeing action frees it. */
    ghost var owners: map<nat, JoltObject>

    /**
     * Addresses are never zero and never reused, so nothing is freed twice;
     * every registered owner is assigned its own live object and frees
     * exactly that address.
     */
    ghost predicate Valid()
      reads this, owners.Values
    {
      && 0 < next
      && (forall a :: a in objects ==> 0 < a < next)
      && (forall i :: 0 <= i < |freeLog| ==> 0 < freeLog[i] < next && freeLog[i] !in objects)
      && Distinct(freeLog)
      && (forall a :: a in owners ==> a in objects && owners[a].va == a && owners[a].freeingAction == FreeAt(a))
    }

    /** w is the registered owner of the object it is assigned. */
    ghost predicate IsOwner(w: JoltObject)
      reads this, w
    {
      w.va in owners && owners[w.va] == w
    }

    constructor ()
      ensures Valid() && objects == map[] && freeLog == [] && owners == map[]
    {
      objects := map[];
      next := 1;
      freeLog := [];
      owners := map[];
    }

    /** A registered owner holds a live object and frees exactly that address. */
    lemma OwnerIsLive(w: JoltObject)
      requires Valid() && IsOwner(w)
      ensures w.va in objects && w.OwnsNativeObject() && w.HasAssignedNativeObject()
      ensures w.va !in freeLog
    {
    }

    /** A view (no freeing action) is never the owner, so it can never free. */
    lemma ViewIsNeverOwner(w: JoltObject)
      requires Valid() && !w.OwnsNativeObject()
      ensures !IsOwner(w)
    {
      if IsOwner(w) {
        OwnerIsLive(w);
      }
    }

    /** A closed wrapper (no object) is never the owner, so it cannot free again. */
    lemma ClosedIsNeverOwner(w: JoltObject)
      requires Valid() && !w.HasAssignedNativeObject()
      ensures !IsOwner(w)
    {
      if IsOwner(w) {
        OwnerIsLive(w);
      }
    }

    /** Record a wrapper just made the owner of a live object nobody owns yet. */
    ghost method Register(w: JoltObject)
      requires Valid() && w.va in objects && w.va !in owners && w.freeingAction == FreeAt(w.va)
      modifies this
      ensures Valid() && IsOwner(w) && owners == old(owners)[w.va := w]
      ensures objects == old(objects) && next == old(next) && freeLog == old(freeLog)
    {
      owners := owners[w.va := w];
    }

    /** A new object at an address that is neither live nor ever freed. */
    method Allocate(o: NativeObject) returns (va: nat)
      requires Valid()
      modifies this
      ensures Valid()
      ensures va != 0 && va !in old(objects) && va !in freeLog && va !in owners
      ensures objects == old(objects)[va := o] && freeLog == old(freeLog) && owners == old(owners)
    {
      va := next;
      objects := objects[va := o];
      next := next + 1;
    }

    /**
     * The native free(va): delete the object; deleting a reference releases
     * its target. The object has no owner any more.
     */
    method Free(va: nat)
      requires Valid() && va in objects
      modifies this
      ensures Valid()
      ensures objects == AfterFree(old(objects) - {va}, old(objects)[va])
      ensures freeLog == old(freeLog) + [va] && owners == old(owners) - {va}
    {
      var o := objects[va];
      objects := AfterFree(objects - {va}, o);
      freeLog := freeLog + [va];
      owners := owners - {va};
    }

    /** The native copy(refVa): a new reference to the same target, counted. */
    method Copy(refVa: nat) returns (copyVa: nat)
      requires Valid() && refVa in objects && objects[refVa].CountedRef?
      modifies this
      ensures Valid() && copyVa != refVa && copyVa !in old(objects)
      ensures objects == AddRef(old(objects), old(objects)[refVa].target)[copyVa := CountedRef(old(objects)[refVa].target)]
      ensures freeLog == old(freeLog) && owners == old(owners) && copyVa !in owners
    {
      var target := objects[refVa].target;
      objects := AddRef(objects, target);
      copyVa := Allocate(CountedRef(target));
    }

    /** The native toRef(targetVa): a new counted reference to a target. */
    method ToRef(targetVa: nat) returns (refVa: nat)
      requires Valid() && targetVa in objects && objects[targetVa].IsTarget()
      modifies this
      ensures Valid() && refVa !in old(objects)
      ensures objects == AddRef(old(objects), targetVa)[refVa := CountedRef(targetVa)]
      ensures targetVa in objects && objects[targetVa].IsTarget()
      ensures objects[targetVa].RefCount() == old(objects[targetVa].RefCount()) + 1
      ensures freeLog == old(freeLog) && owners == old(owners) && refVa !in owners
    {
      objects := AddRef(objects, targetVa);
      refVa := Allocate(CountedRef(targetVa));
    }
  }

  /** What a wrapper runs to free its object: nothing, or free at an address. */
  datatype FreeingAction = NoAction | FreeAt(va: nat)

  /**
   * JoltPhysicsObject: the address of the assigned native object (0 when
   * none) and the freeing action, present exactly when the wrapper owns it.
   */
  class JoltObject {
    var va: nat
    var freeingAction: FreeingAction

    /**
     * setVirtualAddress(va, owner ? () -> free(va) : null), the constructor
     * of every owner-dependent wrapper.
     */
    constructor (va: nat, owner: bool)
      ensures this.va == va && freeingAction == (if owner then FreeAt(va) else NoAction)
    {
      this.va := va;
      freeingAction := if owner then FreeAt(va) else NoAction;
    }

    /** setVirtualAddress(va) or setVirtualAddress(va, null): a view that never frees. */
    constructor View(va: nat)
      ensures this.va == va && freeingAction == NoAction
    {
      this.va := va;
      freeingAction := NoAction;
    }

    predicate OwnsNativeObject()
      reads this
    {
      freeingAction != NoAction
    }

    predicate HasAssignedNativeObject()
      reads this
    {
      va != 0
    }

    /**
     * AaBox.close: only the registered owner may close; the box is freed
     * once, the wrapper is no longer its owner and is left with no object,
     * so it cannot close again.
     */
    method Close(heap: NativeHeap)
      requires heap.Valid() && heap.IsOwner(this)
      modifies this, heap
      ensures heap.Valid() && heap.freeLog == old(heap.freeLog) + [old(va)]
      ensures heap.objects == AfterFree(old(heap.objects) - {old(va)}, old(heap.objects)[old(va)])
      ensures heap.owners == old(heap.owners) - {old(va)} && !heap.IsOwner(this)
      ensures !HasAssignedNativeObject() && !OwnsNativeObject()
    {
      heap.OwnerIsLive(this);
      heap.Free(va);
      assert forall a :: a in heap.owners ==> heap.owners[a].va == a != va;
      va := 0;
      freeingAction := NoAction;
    }
  }

  /** new AaBox(): an owned box with the empty default extent. */
  method NewAaBox(heap: NativeHeap) returns (b: JoltObject)
    requires heap.Valid()
    modifies heap
    ensures fresh(b) && heap.Valid() && b.OwnsNativeObject() && b.HasAssignedNativeObject()
    ensures heap.IsOwner(b) && heap.owners == old(heap.owners)[b.va := b] && heap.freeLog == old(heap.freeLog)
    ensures b.va !in old(heap.objects) && heap.objects == old(heap.objects)[b.va := Box(EmptyBox)]
  {
    var boxVa := heap.Allocate(Box(EmptyBox));
    b := new JoltObject(boxVa, true);
    heap.Register(b);
  }

  /** new AaBox(minimum, maximum): an owned box with the given corners. */
  method NewAaBoxFromCorners(heap: NativeHeap, minimum: Vec3, maximum: Vec3) returns (b: JoltObject)
    requires heap.Valid()
    modifies heap
    ensures fresh(b) && heap.Valid() && b.OwnsNativeObject() && b.HasAssignedNativeObject()
    ensures heap.IsOwner(b) && heap.owners == old(heap.owners)[b.va := b] && heap.freeLog == old(heap.freeLog)
    ensures b.va !in old(heap.objects) && heap.objects == old(heap.objects)[b.va := Box(AABox(minimum, maximum))]
  {
    var boxVa := heap.Allocate(Box(AABox(minimum, maximum)));
    b := new JoltObject(boxVa, true);
    heap.Register(b);
  }

  /** AaBox.sBiggest(): an owned copy of the biggest finite box. */
  method BiggestAaBox(heap: NativeHeap) returns (b: JoltObject)
    requires heap.Valid()
    modifies heap
    ensures fresh(b) && heap.Valid() && b.OwnsNativeObject() && b.HasAssignedNativeObject()
    ensures heap.IsOwner(b) && heap.owners == old(heap.owners)[b.va := b] && heap.freeLog == old(heap.freeLog)
    ensures b.va !in old(heap.objects) && heap.objects == old(heap.objects)[b.va := Box(BiggestBox)]
  {
    var boxVa := heap.Allocate(Box(BiggestBox));
    b := new JoltObject(boxVa, true);
    heap.Register(b);
  }

  /** AaBox.setEmpty: the only change to a box after construction. */
  method SetEmpty(heap: NativeHeap, b: JoltObject)
    requires heap.Valid() && b.va in heap.objects && heap.objects[b.va].Box?
    modifies heap
    ensures heap.Valid() && heap.objects == old(heap.objects)[b.va := Box(EmptyBox)]
    ensures heap.freeLog == old(heap.freeLog) && heap.owners == old(heap.owners)
  {
    heap.objects := heap.objects[b.va := Box(EmptyBox)];
  }

  /**
   * The box a wrapper reads; contains, getCenter, getExtent, getMin,
   * getMax, getSize, getVolume and isValid are AABox members of it, all
   * read without a change.
   */
  function BoxOf(heap: NativeHeap, b: JoltObject): (box: AABox)
    reads heap, b
    requires b.va in heap.objects && heap.objects[b.va].Box?
    ensures Box(box) == heap.objects[b.va]
  {
    heap.objects[b.va].box
  }

  /** new PathConstraintPathRef(): an owned, empty counted reference. */
  method NewEmptyRef(heap: NativeHeap) returns (r: JoltObject)
    requires heap.Valid()
    modifies heap
    ensures fresh(r) && heap.Valid() && r.OwnsNativeObject() && r.HasAssignedNativeObject()
    ensures heap.IsOwner(r) && heap.owners == old(heap.owners)[r.va := r] && heap.freeLog == old(heap.freeLog)
    ensures r.va !in old(heap.objects) && heap.objects == old(heap.objects)[r.va := CountedRef(0)]
  {
    var refVa := heap.Allocate(CountedRef(0));
    r := new JoltObject(refVa, true);
    heap.Register(r);
  }

  /** getPtr on a counted reference: a non-owning view of the target; nothing changes. */
  method GetPtr(heap: NativeHeap, r: JoltObject) returns (view: JoltObject)
    requires r.va in heap.objects && heap.objects[r.va].CountedRef?
    ensures fresh(view) && view.va == heap.objects[r.va].target && !view.OwnsNativeObject()
  {
    view := new JoltObject.View(heap.objects[r.va].target);
  }

  /**
   * toRef (and IndexedShapeRef.toRefC) on a counted reference: a new,
   * distinct, owning reference to the same target; the source wrapper and
   * its reference stay as they were.
   */
  method CopyRef(heap: NativeHeap, r: JoltObject) returns (copy: JoltObject)
    requires heap.Valid() && r.va in heap.objects && heap.objects[r.va].CountedRef?
    modifies heap
    ensures fresh(copy) && heap.Valid() && copy.OwnsNativeObject() && copy.va != r.va
    ensures heap.IsOwner(copy) && heap.owners == old(heap.owners)[copy.va := copy] && heap.freeLog == old(heap.freeLog)
    ensures copy.va in heap.objects && r.va in heap.objects
    ensures heap.objects[copy.va] == CountedRef(old(heap.objects[r.va].target))
    ensures heap.objects[r.va] == old(heap.objects[r.va])
  {
    var copyVa := heap.Copy(r.va);
    copy := new JoltObject(copyVa, true);
    heap.Register(copy);
  }

  /**
   * toRef on a RefTarget (IndexedShape, VehicleCollisionTesterCastCylinder):
   * a new owning reference, and one more count on the target.
   */
  method TargetToRef(heap: NativeHeap, t: JoltObject) returns (r: JoltObject)
    requires heap.Valid() && t.va in heap.objects && heap.objects[t.va].IsTarget()
    modifies heap
    ensures fresh(r) && heap.Valid() && r.OwnsNativeObject() && r.va != t.va
    ensures heap.IsOwner(r) && heap.owners == old(heap.owners)[r.va := r] && heap.freeLog == old(heap.freeLog)
    ensures r.va in heap.objects && t.va in heap.objects && heap.objects[t.va].IsTarget()
    ensures heap.objects[r.va] == CountedRef(t.va)
    ensures heap.objects[t.va].RefCount() == old(heap.objects[t.va].RefCount()) + 1
  {
    var refVa := heap.ToRef(t.va);
    r := new JoltObject(refVa, true);
    heap.Register(r);
  }

  /** getRefCount: the target's count, read without a change. */
  function GetRefCount(heap: NativeHeap, t: JoltObject): (n: nat)
    reads heap, t
    requires t.va in heap.objects && heap.objects[t.va].IsTarget()
    ensures n == heap.objects[t.va].RefCount()
  {
    heap.objects[t.va].RefCount()
  }

  /** The convex radius fraction of the one-argument tester constructor. */
  const DefaultConvexRadiusFraction: real := 0.1

  /** new VehicleCollisionTesterCastCylinder(objectLayer, convexRadiusFraction): owned. */
  method NewCastCylinderTester(heap: NativeHeap, objectLayer: nat, convexRadiusFraction: real) returns (t: JoltObject)
    requires heap.Valid()
    modifies heap
    ensures fresh(t) && heap.Valid() && t.OwnsNativeObject() && t.va !in old(heap.objects)
    ensures heap.IsOwner(t) && heap.owners == old(heap.owners)[t.va := t] && heap.freeLog == old(heap.freeLog)
    ensures heap.objects == old(heap.objects)[t.va := CastCylinderTester(objectLayer, convexRadiusFraction, 0)]
  {
    var testerVa := heap.Allocate(CastCylinderTester(objectLayer, convexRadiusFraction, 0));
    t := new JoltObject(testerVa, true);
    heap.Register(t);
  }

  /** new VehicleCollisionTesterCastCylinder(objectLayer): the fraction defaults to 0.1. */
  method NewDefaultCastCylinderTester(heap: NativeHeap, objectLayer: nat) returns (t: JoltObject)
    requires heap.Valid()
    modifies heap
    ensures fresh(t) && heap.Valid() && t.OwnsNativeObject() && t.va !in old(heap.objects)
    ensures heap.IsOwner(t) && heap.owners == old(heap.owners)[t.va := t] && heap.freeLog == old(heap.freeLog)
    ensures heap.objects == old(heap.objects)[t.va := CastCylinderTester(objectLayer, DefaultConvexRadiusFraction, 0)]
  {
    t := NewCastCylinderTester(heap, objectLayer, DefaultConvexRadiusFraction);
  }
}
