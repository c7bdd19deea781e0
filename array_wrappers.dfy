// The Java wrappers over Jolt arrays: IndexedShapes, a view of the
// Array<IndexedShape> a RegionShape holds, and ContactList, the character's
// list of contacts. Each forwards to the native array through its address.

module ArrayWrappers {
  import opened Wrappers
  import opened NativeArrays
  import opened Ownership
  import opened ShapeIndex

  /**
   * IndexedShapes: a JVM object assigned to an existing native vector with
   * no freeing action, so closing it never frees the vector.
   */
  class IndexedShapes {
    const handle: JoltObject
    const vector: NativeArray<IndexedShape>

    ghost predicate Valid()
      reads this, handle, vector
    {
      vector.Valid() && !handle.OwnsNativeObject()
    }

    /** IndexedShapes(vectorVa): setVirtualAddress(vectorVa, null). */
    constructor (vectorVa: nat, vector: NativeArray<IndexedShape>)
      requires vector.Valid()
      ensures Valid() && fresh(handle) && handle.va == vectorVa && this.vector == vector
    {
      handle := new JoltObject.View(vectorVa);
      this.vector := vector;
    }

    /** How many shapes the storage can hold, never below the size. */
    function Capacity(): (c: nat)
      reads this, handle, vector, vector.elements
      requires Valid()
      ensures c >= |vector.Contents()|
    {
      vector.Capacity()
    }

    /** How many shapes the vector holds. */
    function Size(): (n: nat)
      reads this, handle, vector, vector.elements
      requires Valid()
      ensures n == |vector.Contents()|
    {
      vector.Size()
    }

    /** erase(startIndex, stopIndex): drop shapes start to stop - 1, keeping the order of the rest. */
    method Erase(start: nat, stop: nat)
      requires Valid() && start <= stop <= Size()
      modifies vector, vector.elements
      ensures Valid()
      ensures vector.Contents() == old(vector.Contents())[..start] + old(vector.Contents())[stop..]
    {
      vector.Erase(start, stop);
    }

    /**
     * get(elementIndex): the glue returns the address of element i, which
     * is never 0, so the null result is never produced and the view reads
     * element i.
     */
    method Get(i: nat) returns (r: Option<IndexedShape>)
      requires Valid() && i < Size()
      ensures r.Some? && r.value == vector.Contents()[i]
    {
      r := Some(vector.At(i));
    }

    /**
     * resize(numBodies): truncate to n shapes or append default-constructed
     * ones, whose shape reference is null.
     */
    method Resize(n: nat, fill: IndexedShape)
      requires Valid() && fill.shape == Null
      modifies vector, vector.elements
      ensures Valid() && Size() == n
      ensures forall j :: 0 <= j < n && j < old(Size()) ==> vector.Contents()[j] == old(vector.Contents())[j]
      ensures forall j :: old(Size()) <= j < n ==> vector.Contents()[j].shape == Null
    {
      vector.Resize(n, fill);
    }

    /** set(elementIndex, shape): element i becomes a copy of shape; nothing else changes. */
    method Set(i: nat, shape: IndexedShape)
      requires Valid() && i < Size()
      modifies vector.elements
      ensures Valid() && Size() == old(Size())
      ensures vector.Contents()[i] == shape
      ensures forall j :: 0 <= j < Size() && j != i ==> vector.Contents()[j] == old(vector.Contents())[j]
    {
      vector.Set(i, shape);
    }
  }

  /**
   * ContactList: a JVM object assigned to a native list of character
   * contacts, owning it exactly when constructed as owner. The contact
   * value C is left abstract.
   */
  class ContactList<C(0)> {
    const handle: JoltObject
    const list: NativeArray<C>

    ghost predicate Valid()
      reads this, list
    {
      list.Valid()
    }

    /** ContactList(listVa, owner): a freeing action for listVa exactly when owner. */
    constructor (listVa: nat, owner: bool, list: NativeArray<C>)
      requires list.Valid()
      ensures Valid() && fresh(handle) && handle.va == listVa && this.list == list
      ensures handle.OwnsNativeObject() <==> owner
    {
      handle := new JoltObject(listVa, owner);
      this.list := list;
    }

    /** How many contacts the storage can hold, never below the size. */
    function Capacity(): (c: nat)
      reads this, list, list.elements
      requires Valid()
      ensures c >= |list.Contents()|
    {
      list.Capacity()
    }

    /** How many contacts the list holds. */
    function Size(): (n: nat)
      reads this, list, list.elements
      requires Valid()
      ensures n == |list.Contents()|
    {
      list.Size()
    }

    /** empty(): true exactly when the size is 0. */
    function Empty(): (e: bool)
      reads this, list, list.elements
      requires Valid()
      ensures e <==> list.Contents() == []
    {
      if Size() == 0 then true else false
    }

    /**
     * get(elementIndex): a new JVM Contact that owns the address refVa the
     * native get returns for element i; the contact it reads is element i.
     */
    method Get(i: nat, refVa: nat) returns (contact: C, wrapper: JoltObject)
      requires Valid() && i < Size()
      ensures contact == list.Contents()[i]
      ensures fresh(wrapper) && wrapper.va == refVa && wrapper.OwnsNativeObject()
    {
      contact := list.At(i);
      wrapper := new JoltObject(refVa, true);
    }

    /** resize(numElements): truncate to n contacts or append fill. */
    method Resize(n: nat, fill: C)
      requires Valid()
      modifies list, list.elements
      ensures Valid() && Size() == n
      ensures n <= old(Size()) ==> list.Contents() == old(list.Contents())[..n]
      ensures n > old(Size()) ==> list.Contents() == old(list.Contents()) + seq(n - old(Size()), _ => fill)
    {
      list.Resize(n, fill);
    }

    /** set(elementIndex, contact): element i becomes a copy of contact; nothing else changes. */
    method Set(i: nat, contact: C)
      requires Valid() && i < Size()
      modifies list.elements
      ensures Valid() && list.Contents() == old(list.Contents())[i := contact]
    {
      list.Set(i, contact);
    }
  }
}
