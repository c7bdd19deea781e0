// Jolt's Array<T>, the growable buffer behind IndexedShapes and the
// character contact list: a block of `capacity` slots of which the first
// `size` hold elements. The JNI glue exposes size, capacity, element access,
// resize, erase and set.

module NativeArrays {

  class NativeArray<T(0)> {
    var elements: array<T>
    var size: nat

    ghost predicate Valid()
      reads this
    {
      size <= elements.Length
    }

    /** The elements in order. */
    ghost function Contents(): seq<T>
      reads this, elements
      requires Valid()
    {
      elements[..size]
    }

    /** An empty array with no storage. */
    constructor ()
      ensures Valid() && Contents() == [] && fresh(elements)
    {
      elements := new T[0];
      size := 0;
    }

    /** Number of elements. */
    function Size(): (n: nat)
      reads this, elements
      requires Valid()
      ensures n == |Contents()|
    {
      size
    }

    /** ContactList.empty: whether there are no elements. */
    function Empty(): (e: bool)
      reads this, elements
      requires Valid()
      ensures e <==> Contents() == []
    {
      Size() == 0
    }

    /** Number of slots; never below the size. */
    function Capacity(): (c: nat)
      reads this, elements
      requires Valid()
      ensures c >= Size()
    {
      elements.Length
    }

    /** Element i (Array::at, which asserts that i is in range). */
    function At(i: nat): (e: T)
      reads this, elements
      requires Valid() && i < Size()
      ensures e == Contents()[i]
    {
      elements[i]
    }

    /**
     * Array::resize: keep the first min(old size, n) elements and fill new
     * slots with a default-constructed element. Storage grows to exactly n
     * when n exceeds the capacity and never shrinks.
     */
    method Resize(n: nat, fill: T)
      requires Valid()
      modifies this, elements
      ensures Valid()
      ensures n <= old(size) ==> Contents() == old(Contents())[..n]
      ensures n > old(size) ==> Contents() == old(Contents()) + seq(n - old(size), _ => fill)
      ensures Capacity() == if n > old(elements.Length) then n else old(elements.Length)
    {
      if n > elements.Length {
        var grown := new T[n];
        CopyPrefix(elements, grown, size);
        elements := grown;
      }
      if n > size {
        FillRange(elements, size, n, fill);
        assert elements[..n] == elements[..size] + elements[size..n];
      }
      size := n;
    }

    /**
     * Array::erase(begin + start, begin + stop): drop the elements at
     * positions start to stop - 1 and move the later ones down, in order.
     */
    method Erase(start: nat, stop: nat)
      requires Valid() && start <= stop <= Size()
      modifies this, elements
      ensures Valid() && elements == old(elements)
      ensures Contents() == old(Contents())[..start] + old(Contents())[stop..]
      ensures Size() == old(Size()) - (stop - start)
    {
      ShiftDown(elements, start, stop, size);
      size := size - (stop - start);
    }

    /** at(i) = e: overwrite element i by a copy of e; nothing else changes. */
    method Set(i: nat, e: T)
      requires Valid() && i < Size()
      modifies elements
      ensures Valid() && Contents() == old(Contents())[i := e]
      ensures Size() == old(Size()) && Capacity() == old(Capacity())
    {
      elements[i] := e;
    }

    /** The element-by-element copy of the first count slots into new storage. */
    static method CopyPrefix(source: array<T>, target: array<T>, count: nat)
      requires count <= source.Length && count <= target.Length && source != target
      modifies target
      ensures target[..count] == source[..count]
    {
      var i := 0;
      while i < count
        invariant 0 <= i <= count
        invariant target[..i] == source[..i]
      {
        target[i] := source[i];
        i := i + 1;
      }
    }

    /** Default-construct the slots from to to - 1. */
    static method FillRange(a: array<T>, from: nat, to: nat, fill: T)
      requires from <= to <= a.Length
      modifies a
      ensures a[..from] == old(a[..from])
      ensures a[from..to] == seq(to - from, _ => fill)
    {
      var j := from;
      while j < to
        invariant from <= j <= to
        invariant a[..from] == old(a[..from])
        invariant forall k :: from <= k < j ==> a[k] == fill
      {
        a[j] := fill;
        j := j + 1;
      }
    }

    /** The move of the elements at stop to end - 1 down to start, in order. */
    static method ShiftDown(a: array<T>, start: nat, stop: nat, end: nat)
      requires start <= stop <= end <= a.Length
      modifies a
      ensures a[..end - (stop - start)] == old(a[..start]) + old(a[stop..end])
    {
      ghost var was := a[..];
      var gap := stop - start;
      var k := start;
      while k < end - gap
        invariant start <= k <= end - gap
        invariant forall j :: 0 <= j < start ==> a[j] == was[j]
        invariant forall j :: start <= j < k ==> a[j] == was[j + gap]
        invariant forall j :: k <= j < a.Length ==> a[j] == was[j]
      {
        a[k] := a[k + gap];
        k := k + 1;
      }
      Spliced(a[..], was, start, stop, end);
    }
  }

  /** The pointwise description of the shifted storage, as a sequence. */
  lemma Spliced<T>(now: seq<T>, was: seq<T>, start: nat, stop: nat, end: nat)
    requires start <= stop <= end <= |was| == |now|
    requires forall j :: 0 <= j < start ==> now[j] == was[j]
    requires forall j :: start <= j < end - (stop - start) ==> now[j] == was[j + (stop - start)]
    ensures now[..end - (stop - start)] == was[..start] + was[stop..end]
  {
    assert forall j :: 0 <= j < end - (stop - start) ==> now[j] == (was[..start] + was[stop..end])[j];
  }
}
