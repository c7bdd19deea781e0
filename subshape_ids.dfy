// Jolt's sub-shape identifiers: a 32-bit value into which every level of a
// compound hierarchy writes its child index with a fixed bit width, starting
// at bit 0. Unused bits are 1, so the empty ID is all ones.
//
// Widths and bit positions are Jolt's unsigned shift amounts; they never
// exceed 32, so they are modelled as 6-bit values.

module SubShapeIds {

  /** A width or a bit position: 0 to 32 in use. */
  type Width = bv6

  /** SubShapeID::MaxBits. */
  const MaxBits: Width := 32

  /** SubShapeID::cEmpty. */
  const EmptyValue: bv32 := 0xFFFF_FFFF

  datatype SubShapeID = SubShapeID(value: bv32)

  const EmptyID: SubShapeID := SubShapeID(EmptyValue)

  /** A creator carries the ID built so far and the first free bit. */
  datatype SubShapeIDCreator = SubShapeIDCreator(id: SubShapeID, currentBit: Width)

  /** The creator a query starts from. */
  const RootCreator: SubShapeIDCreator := SubShapeIDCreator(EmptyID, 0)

  /** The low `bits` bits set, computed without overflowing at 32. */
  function Mask(bits: Width): bv32
    requires bits <= MaxBits
  {
    if bits == MaxBits then EmptyValue else (1 << bits) - 1
  }

  /** A value fits in `bits` bits. */
  predicate Fits(value: bv32, bits: Width)
    requires bits <= MaxBits
  {
    value & Mask(bits) == value
  }

  /** A creator still has room for a field of `bits` bits. */
  predicate HasRoom(c: SubShapeIDCreator, bits: Width)
  {
    c.currentBit <= MaxBits && bits <= MaxBits - c.currentBit
  }

  /**
   * SubShapeIDCreator::PushID: clear the field at currentBit, write the value
   * there and move currentBit past it. Jolt asserts both that the value fits
   * and that the field fits in 32 bits.
   */
  function PushID(c: SubShapeIDCreator, value: bv32, bits: Width): (r: SubShapeIDCreator)
    requires bits <= MaxBits && HasRoom(c, bits) && Fits(value, bits)
    ensures r.currentBit == c.currentBit + bits
  {
    SubShapeIDCreator(SubShapeID(Pushed(c.id.value, value, c.currentBit, bits)), c.currentBit + bits)
  }

  /** The ID bits after writing v into the n-bit field at bit p. */
  function Pushed(was: bv32, v: bv32, p: Width, n: Width): bv32
    requires p <= MaxBits && n <= MaxBits
  {
    (was & !(Mask(n) << p)) | (v << p)
  }

  /**
   * SubShapeID::PopID: the low `bits` bits, and the ID shifted down with
   * ones filled in at the top.
   */
  function PopID(id: SubShapeID, bits: Width): (r: (bv32, SubShapeID))
    requires bits <= MaxBits
    ensures Fits(r.0, bits) && r.0 == id.value & Mask(bits)
  {
    (id.value & Mask(bits), SubShapeID((id.value >> bits) | (EmptyValue << (MaxBits - bits))))
  }

  /** Bit i of the mask is set exactly when i is below the width. */
  lemma MaskBit(bits: Width, i: Width)
    requires bits <= MaxBits && i < MaxBits
    ensures (Mask(bits) >> i) & 1 == 1 <==> i < bits
  {
  }

  /** PushID leaves the fields below currentBit, written by the levels above, as they were. */
  lemma PushKeepsLowerFields(c: SubShapeIDCreator, value: bv32, bits: Width)
    requires bits <= MaxBits && HasRoom(c, bits) && Fits(value, bits)
    ensures PushID(c, value, bits).id.value & Mask(c.currentBit) == c.id.value & Mask(c.currentBit)
  {
    PushLow(c.id.value, value, c.currentBit, bits);
  }

  /** The remainder PopID leaves has its top `bits` bits set, so an exhausted ID reads as empty. */
  lemma PopFillsWithOnes(id: SubShapeID, bits: Width)
    requires bits <= MaxBits
    ensures PopID(id, bits).1.value >> (MaxBits - bits) == Mask(bits)
  {
  }

  /** Below its filled top, the remainder PopID leaves is the ID shifted down by `bits`. */
  lemma PopShiftsRest(id: SubShapeID, bits: Width)
    requires bits <= MaxBits
    ensures PopID(id, bits).1.value & Mask(MaxBits - bits) == id.value >> bits
  {
  }

  /**
   * Pushing any value that fits, at any width, from the root and popping
   * the same width reads the value back ...
   */
  lemma PushPopReadsValue(value: bv32, bits: Width)
    requires bits <= MaxBits && Fits(value, bits)
    ensures PopID(PushID(RootCreator, value, bits).id, bits).0 == value
  {
    PushLow(EmptyValue, value, 0, bits);
  }

  /** ... and leaves the empty ID, so nothing is left to read. */
  lemma PushPopLeavesEmpty(value: bv32, bits: Width)
    requires bits <= MaxBits && Fits(value, bits)
    ensures PopID(PushID(RootCreator, value, bits).id, bits).1 == EmptyID
  {
    RootShiftedDown(value, bits);
    FillCompletes(bits);
  }

  /**
   * Pushing a value at the root with the full width and popping the same
   * width gives the value back and leaves the empty ID: a shape whose
   * index-to-ID and ID-to-index conversions both use 32 bits gets its index
   * back.
   */
  lemma PushPopRoundTrip(value: bv32)
    ensures Fits(value, MaxBits)
    ensures PopID(PushID(RootCreator, value, MaxBits).id, MaxBits) == (value, EmptyID)
  {
    FullWidthPushAt(RootCreator, value);
    PopFullWidth(SubShapeID(value));
  }

  /** Popping all 32 bits takes the whole value and leaves the empty ID. */
  lemma PopFullWidth(id: SubShapeID)
    ensures PopID(id, MaxBits) == (id.value, EmptyID)
  {
  }

  /** A creator with all 32 bits free: pushing a full-width value makes the ID that value. */
  lemma FullWidthPushAt(c: SubShapeIDCreator, value: bv32)
    requires HasRoom(c, MaxBits)
    ensures Fits(value, MaxBits)
    ensures PushID(c, value, MaxBits) == SubShapeIDCreator(SubShapeID(value), MaxBits)
  {
    FullWidthFits(value);
    assert c == SubShapeIDCreator(c.id, 0);
    FullWidthPushAtZero(c.id, value);
  }

  lemma FullWidthFits(value: bv32)
    ensures Fits(value, MaxBits)
  {
  }

  lemma FullWidthPushAtZero(id: SubShapeID, value: bv32)
    requires Fits(value, MaxBits)
    ensures PushID(SubShapeIDCreator(id, 0), value, MaxBits).id.value == value
  {
  }

  /*
   * Bit-vector steps. Each states one fact, guarded rather than required, so
   * that the lemmas above combine them without new proof obligations.
   */

  /** A value shifted up by p has nothing below bit p. */
  lemma ShiftedClearsLow(x: bv32, p: Width)
    ensures p <= MaxBits ==> (x << p) & Mask(p) == 0
  {
  }

  /** Clearing and setting bits outside a mask leaves the bits under it alone. */
  lemma ClearAndSet(was: bv32, y: bv32, z: bv32, m: bv32)
    ensures y & m == 0 && z & m == 0 ==> ((was & !y) | z) & m == was & m
  {
  }

  /** The push expression at bit p keeps the bits below p. */
  lemma PushLow(was: bv32, v: bv32, p: Width, n: Width)
    ensures p <= MaxBits && n <= MaxBits ==> Pushed(was, v, p, n) & Mask(p) == was & Mask(p)
  {
    if p <= MaxBits && n <= MaxBits {
      ShiftedClearsLow(Mask(n), p);
      ShiftedClearsLow(v, p);
      ClearAndSet(was, Mask(n) << p, v << p, Mask(p));
    }
  }

  /** The root ID with a fitting value pushed, shifted down past it, is all ones below the top. */
  lemma RootShiftedDown(v: bv32, n: Width)
    ensures n <= MaxBits && v & Mask(n) == v ==>
      Pushed(EmptyValue, v, 0, n) >> n == EmptyValue >> n
  {
  }

  /** The ones PopID fills in complete an all-ones value shifted down. */
  lemma FillCompletes(n: Width)
    ensures n <= MaxBits ==> (EmptyValue >> n) | (EmptyValue << (MaxBits - n)) == EmptyValue
  {
  }
}
