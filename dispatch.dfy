// Jolt's collision dispatch tables as RegionShape::sRegister fills them: a
// cast handler and a collide handler per ordered pair of shape sub-types,
// and per sub-type the functions that construct a shape and colour it.

module Dispatch {

  /** EShapeSubType: the user sub-type the region shape claims, or another one. */
  datatype SubShapeType = User1 | Other(code: nat)

  type TypePair = (SubShapeType, SubShapeType)

  /** The handlers a cast between two sub-types can be dispatched to. */
  datatype CastHandler = CastCompoundVsShape | CastShapeVsCompound | OtherCast(code: nat)

  /** The handlers a collision between two sub-types can be dispatched to. */
  datatype CollideHandler = CollideCompoundVsShape | CollideShapeVsCompound | OtherCollide(code: nat)

  /** The shape factory of a sub-type; the region one makes an empty RegionShape. */
  datatype Construct = ConstructRegionShape | OtherConstruct(code: nat)

  datatype Color = DarkRed | OtherColor(rgba: nat)

  /** ShapeFunctions: how to construct and colour a shape of one sub-type. */
  datatype ShapeFunctions = ShapeFunctions(construct: Construct, color: Color)

  /**
   * The table after registering, for each s of types in order, handler a
   * for (User1, s) and then handler b for (s, User1).
   */
  function Registered<V>(table: map<TypePair, V>, types: seq<SubShapeType>, a: V, b: V): map<TypePair, V>
    decreases |types|
  {
    if types == [] then table
    else
      var s := types[|types| - 1];
      Registered(table, types[..|types| - 1], a, b)[(User1, s) := a][(s, User1) := b]
  }

  /** The entry Registered leaves for key k, stated without the order of the updates. */
  function RegisteredEntry<V>(table: map<TypePair, V>, types: seq<SubShapeType>, a: V, b: V, k: TypePair): V
    requires k in table || (k.0 == User1 && k.1 in types) || (k.1 == User1 && k.0 in types)
  {
    if k.1 == User1 && k.0 in types then b
    else if k.0 == User1 && k.1 in types then a
    else table[k]
  }

  /**
   * Registering over types adds a key (User1, s) and a key (s, User1) for
   * each s of types; (s, User1) holds b, (User1, s) holds a unless s is
   * User1 itself (the second registration wins), and every other key keeps
   * its entry.
   */
  lemma {:induction false} RegisteredEntries<V>(table: map<TypePair, V>, types: seq<SubShapeType>, a: V, b: V)
    ensures var t := Registered(table, types, a, b);
      && (forall k :: k in t <==> k in table || (k.0 == User1 && k.1 in types) || (k.1 == User1 && k.0 in types))
      && (forall k :: k in t ==> t[k] == RegisteredEntry(table, types, a, b, k))
    decreases |types|
  {
    if types != [] {
      var init := types[..|types| - 1];
      assert types == init + [types[|types| - 1]];
      RegisteredEntries(table, init, a, b);
    }
  }

  /** Registering the same handlers twice leaves the tables as registering once. */
  lemma RegisteredIdempotent<V>(table: map<TypePair, V>, types: seq<SubShapeType>, a: V, b: V)
    ensures Registered(Registered(table, types, a, b), types, a, b) == Registered(table, types, a, b)
  {
    var once := Registered(table, types, a, b);
    RegisteredEntries(table, types, a, b);
    RegisteredEntries(once, types, a, b);
  }

  /** The process-wide dispatch state that sRegister writes. */
  class CollisionDispatch {
    /** sAllSubShapeTypes, in declaration order. */
    const allSubShapeTypes: seq<SubShapeType>
    var castTable: map<TypePair, CastHandler>
    var collideTable: map<TypePair, CollideHandler>
    var functions: map<SubShapeType, ShapeFunctions>

    constructor (allSubShapeTypes: seq<SubShapeType>, castTable: map<TypePair, CastHandler>,
                 collideTable: map<TypePair, CollideHandler>, functions: map<SubShapeType, ShapeFunctions>)
      ensures this.allSubShapeTypes == allSubShapeTypes && this.castTable == castTable
      ensures this.collideTable == collideTable && this.functions == functions
    {
      this.allSubShapeTypes := allSubShapeTypes;
      this.castTable := castTable;
      this.collideTable := collideTable;
      this.functions := functions;
    }

    /**
     * RegionShape::sRegister: give User1 the region factory and dark red,
     * then for every sub-type s register the compound-vs-shape handlers
     * for (User1, s) and the shape-vs-compound handlers for (s, User1).
     */
    method RegisterRegionShape()
      modifies this
      ensures functions == old(functions)[User1 := ShapeFunctions(ConstructRegionShape, DarkRed)]
      ensures castTable == Registered(old(castTable), allSubShapeTypes, CastCompoundVsShape, CastShapeVsCompound)
      ensures collideTable == Registered(old(collideTable), allSubShapeTypes, CollideCompoundVsShape, CollideShapeVsCompound)
    {
      functions := functions[User1 := ShapeFunctions(ConstructRegionShape, DarkRed)];
      var i := 0;
      while i < |allSubShapeTypes|
        invariant 0 <= i <= |allSubShapeTypes|
        invariant functions == old(functions)[User1 := ShapeFunctions(ConstructRegionShape, DarkRed)]
        invariant castTable == Registered(old(castTable), allSubShapeTypes[..i], CastCompoundVsShape, CastShapeVsCompound)
        invariant collideTable == Registered(old(collideTable), allSubShapeTypes[..i], CollideCompoundVsShape, CollideShapeVsCompound)
      {
        var s := allSubShapeTypes[i];
        assert allSubShapeTypes[..i + 1][..i] == allSubShapeTypes[..i];
        castTable := castTable[(User1, s) := CastCompoundVsShape];
        castTable := castTable[(s, User1) := CastShapeVsCompound];
        collideTable := collideTable[(User1, s) := CollideCompoundVsShape];
        collideTable := collideTable[(s, User1) := CollideShapeVsCompound];
        i := i + 1;
      }
      assert allSubShapeTypes[..i] == allSubShapeTypes;
    }
  }

  /**
   * After sRegister, a cast or collision with a region shape on either side
   * goes to the region's handlers: shape-vs-compound whenever the second
   * shape is User1, compound-vs-shape when only the first is.
   */
  lemma RegionHandlersReachable(all: seq<SubShapeType>, cast: map<TypePair, CastHandler>, s: SubShapeType)
    requires s in all
    ensures var t := Registered(cast, all, CastCompoundVsShape, CastShapeVsCompound);
      && (s, User1) in t && t[(s, User1)] == CastShapeVsCompound
      && (User1, s) in t && (s != User1 ==> t[(User1, s)] == CastCompoundVsShape)
  {
    RegisteredEntries(cast, all, CastCompoundVsShape, CastShapeVsCompound);
    assert RegisteredEntry(cast, all, CastCompoundVsShape, CastShapeVsCompound, (s, User1)) == CastShapeVsCompound;
  }
}
