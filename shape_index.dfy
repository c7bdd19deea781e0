// The element a region shape hands to the collision code: a child shape, the
// 32-bit index the host gave it, and the centre-of-mass position in the
// region's local space. The index packs a voxel position: x in bits 0-8,
// y in bits 9-17, z in bits 18-26, and a sub-shape index in bits 27-31.

module ShapeIndex {
  import opened Geometry

  /** RefConst<Shape>: a counted reference to a Jolt shape, or null. */
  datatype ShapeRef = Null | ShapeAt(address: nat)

  /** The three 9-bit voxel coordinates of an index. */
  datatype Voxel = Voxel(x: bv32, y: bv32, z: bv32)

  /** Width mask of one coordinate field. */
  const FieldMask: bv32 := 0x1FF

  /** The bits that hold the voxel coordinates (0-26). */
  const VoxelBits: bv32 := 0x7FF_FFFF

  /** The coordinate fields of an index, as LoadShapeFromHalfExtent extracts them. */
  function DecodeVoxel(index: bv32): (v: Voxel)
    ensures v.x < 512 && v.y < 512 && v.z < 512
  {
    Voxel(index & FieldMask, (index >> 9) & FieldMask, (index >> 18) & FieldMask)
  }

  /** Bits 27 to 31 of the index never change the decoded voxel. */
  lemma DecodeIgnoresHighBits(a: bv32, b: bv32)
    requires a & VoxelBits == b & VoxelBits
    ensures DecodeVoxel(a) == DecodeVoxel(b)
  {
  }

  /** The documented layout, with the sub-shape index in bits 27-31. */
  function EncodeIndex(subShape: bv32, v: Voxel): (index: bv32)
    requires subShape < 32 && v.x < 512 && v.y < 512 && v.z < 512
  {
    (subShape << 27) | (v.z << 18) | (v.y << 9) | v.x
  }

  /** Encoding then decoding returns the voxel and the sub-shape index. */
  lemma EncodeThenDecode(subShape: bv32, v: Voxel)
    requires subShape < 32 && v.x < 512 && v.y < 512 && v.z < 512
    ensures DecodeVoxel(EncodeIndex(subShape, v)) == v
    ensures EncodeIndex(subShape, v) >> 27 == subShape
  {
  }

  /** Every index is the encoding of its own fields, so the layout is a bijection. */
  lemma DecodeThenEncode(index: bv32)
    ensures EncodeIndex(index >> 27, DecodeVoxel(index)) == index
  {
  }

  /**
   * The layout as the Java documentation spells it, `(s & 0x1F << 27) | ...`.
   * Shift binds tighter than `&` in Java and C, so the sub-shape index is
   * masked with 0xF8000000 instead of being shifted.
   */
  function DocumentedIndex(subShape: bv32, v: Voxel): bv32
  {
    (subShape & (0x1F << 27)) | (v.z << 18) | (v.y << 9) | v.x
  }

  /** Read literally, the documented layout loses every sub-shape index 1 to 31. */
  lemma DocumentedIndexLosesSubShape(subShape: bv32, v: Voxel)
    requires 0 < subShape < 32 && v.x < 512 && v.y < 512 && v.z < 512
    ensures DocumentedIndex(subShape, v) >> 27 == 0 != subShape
    ensures DocumentedIndex(subShape, v) == EncodeIndex(0, v)
  {
  }

  /** A 32-bit unsigned value as a real, as UVec4::ToFloat converts it. */
  function ToReal(b: bv32): real { (b as int) as real }

  /**
   * The centre of the voxel an index names, in the region's local space:
   * the coordinates minus the half extent minus one half on every axis.
   */
  function VoxelCenter(index: bv32, halfExtent: Vec3): (c: Vec3)
    ensures var v := DecodeVoxel(index);
      c.Add(halfExtent).Add(Replicate(0.5)) == Vec3(ToReal(v.x), ToReal(v.y), ToReal(v.z))
  {
    var v := DecodeVoxel(index);
    Vec3(ToReal(v.x), ToReal(v.y), ToReal(v.z)).Sub(halfExtent).Sub(Replicate(0.5))
  }

  /** Two indices give the same centre exactly when they name the same voxel. */
  lemma VoxelCenterInjective(a: bv32, b: bv32, halfExtent: Vec3)
    ensures VoxelCenter(a, halfExtent) == VoxelCenter(b, halfExtent) <==> DecodeVoxel(a) == DecodeVoxel(b)
  {
    var va, vb := DecodeVoxel(a), DecodeVoxel(b);
    if VoxelCenter(a, halfExtent) == VoxelCenter(b, halfExtent) {
      ToRealInjective(va.x, vb.x);
      ToRealInjective(va.y, vb.y);
      ToRealInjective(va.z, vb.z);
    }
  }

  lemma ToRealInjective(a: bv32, b: bv32)
    requires ToReal(a) == ToReal(b)
    ensures a == b
  {
    assert a as int == b as int;
    assert (a as int) as bv32 == a && (b as int) as bv32 == b;
  }

  /** Quat; the region's children are never rotated. */
  datatype Quat = Quat(x: real, y: real, z: real, w: real)

  const IdentityQuat: Quat := Quat(0.0, 0.0, 0.0, 1.0)

  /** Mat44::sTranslation: a transform that only moves points. */
  datatype Translation = Translation(offset: Vec3)
  {
    function Apply(p: Vec3): Vec3 { p.Add(offset) }
  }

  /** A translation moves every point by the same vector, so differences are kept. */
  lemma TranslationKeepsDifferences(t: Translation, p: Vec3, q: Vec3)
    ensures t.Apply(p).Sub(t.Apply(q)) == p.Sub(q)
  {
  }

  /** The IndexedShape struct: child shape, host index, centre-of-mass position. */
  datatype IndexedShape = IndexedShape(shape: ShapeRef, shapeIndex: bv32, positionCOM: Vec3)
  {
    /** The struct after LoadShapeFromHalfExtent: the position is the voxel centre of the index. */
    function LoadShapeFromHalfExtent(inShape: ShapeRef, inShapeIndex: bv32, halfExtent: Vec3): (r: IndexedShape)
      ensures r.shape == inShape && r.shapeIndex == inShapeIndex
      ensures r.GetPositionCOM() == VoxelCenter(inShapeIndex, halfExtent)
    {
      this.LoadShape(inShape, inShapeIndex, VoxelCenter(inShapeIndex, halfExtent))
    }

    /** The struct after LoadShape: exactly the given shape, index and position. */
    function LoadShape(inShape: ShapeRef, inShapeIndex: bv32, inPositionCOM: Vec3): (r: IndexedShape)
      ensures r.shape == inShape && r.shapeIndex == inShapeIndex && r.GetPositionCOM() == inPositionCOM
    {
      IndexedShape(inShape, inShapeIndex, positionCOM).SetPositionCOM(inPositionCOM)
    }

    /** The struct after SetPositionCOM: only the position changes. */
    function SetPositionCOM(inPositionCOM: Vec3): (r: IndexedShape)
      ensures r.GetPositionCOM() == inPositionCOM
      ensures r.shape == shape && r.shapeIndex == shapeIndex
    {
      this.(positionCOM := inPositionCOM)
    }

    function GetPositionCOM(): Vec3 { positionCOM }

    function GetRotation(): Quat { IdentityQuat }

    /** A pure translation that carries the local origin to the scaled position. */
    function GetLocalTransformNoScale(scale: Vec3): (t: Translation)
      ensures t.Apply(Vec3(0.0, 0.0, 0.0)) == scale.Mul(GetPositionCOM())
    {
      Translation(scale.Mul(GetPositionCOM()))
    }
  }

  /** Loading from a half extent and loading an explicit centre agree. */
  lemma LoadFromHalfExtentIsLoadAtCenter(s: IndexedShape, inShape: ShapeRef, index: bv32, halfExtent: Vec3)
    ensures s.LoadShapeFromHalfExtent(inShape, index, halfExtent)
         == s.LoadShape(inShape, index, VoxelCenter(index, halfExtent))
  {
  }

  /** Loading overwrites every field, so the previous contents never show through. */
  lemma LoadShapeForgetsPrevious(a: IndexedShape, b: IndexedShape, inShape: ShapeRef, index: bv32, p: Vec3)
    ensures a.LoadShape(inShape, index, p) == b.LoadShape(inShape, index, p)
  {
  }
}
