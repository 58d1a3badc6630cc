/** Rotations of a 64-bit word, and of its two 32-bit halves by shifting and adding. */
module WordShifts {
  /** Cyclic shift by k bits towards the most significant bit. */
  function Rotate(x: bv64, k: bv8): bv64
    requires k < 64
  {
    (x << k) | (x >> (64 - k))
  }

  function Glue(high: bv32, low: bv32): bv64 {
    ((high as bv64) << 32) | (low as bv64)
  }

  /** One half of a rotation. A shift right by the full width gives zero, which a rotation by 0 or
      32 relies on. */
  function ShiftAdd(x: bv32, y: bv32, r: bv8): bv32
    requires r <= 32
  {
    (x << r) + (y >> (32 - r))
  }

  function HighHalf(x: bv64): bv32 {
    (x >> 32) as bv32
  }

  function LowHalf(x: bv64): bv32 {
    (x & 0xFFFF_FFFF) as bv32
  }

  /** A shift count below 64, in two parts. */
  lemma ShiftCount(k: nat)
    requires k < 32
    ensures k as bv8 < 32 && (k + 32) as bv8 == 32 + (k as bv8)
  {
  }

  lemma GlueParts(h: bv32, l: bv32)
    ensures LowHalf(Glue(h, l)) == l && HighHalf(Glue(h, l)) == h
  {
  }

  lemma HalvesGlue(x: bv64)
    ensures Glue(HighHalf(x), LowHalf(x)) == x
  {
  }

  // One half of one rotation at a time, over eight shift counts: below 32 the halves rotate in place,
  // from 32 on they are crossed over.

  lemma InPlaceHigh0(h: bv32, l: bv32, r: bv8)
    requires 0 <= r < 8
    ensures ShiftAdd(h, l, r) == HighHalf(Rotate(Glue(h, l), r))
  {
  }

  lemma InPlaceLow0(h: bv32, l: bv32, r: bv8)
    requires 0 <= r < 8
    ensures ShiftAdd(l, h, r) == LowHalf(Rotate(Glue(h, l), r))
  {
  }

  lemma CrossedHigh0(h: bv32, l: bv32, r: bv8)
    requires 0 <= r < 8
    ensures ShiftAdd(l, h, r) == HighHalf(Rotate(Glue(h, l), 32 + r))
  {
  }

  lemma CrossedLow0(h: bv32, l: bv32, r: bv8)
    requires 0 <= r < 8
    ensures ShiftAdd(h, l, r) == LowHalf(Rotate(Glue(h, l), 32 + r))
  {
  }

  lemma InPlaceHigh1(h: bv32, l: bv32, r: bv8)
    requires 8 <= r < 16
    ensures ShiftAdd(h, l, r) == HighHalf(Rotate(Glue(h, l), r))
  {
  }

  lemma InPlaceLow1(h: bv32, l: bv32, r: bv8)
    requires 8 <= r < 16
    ensures ShiftAdd(l, h, r) == LowHalf(Rotate(Glue(h, l), r))
  {
  }

  lemma CrossedHigh1(h: bv32, l: bv32, r: bv8)
    requires 8 <= r < 16
    ensures ShiftAdd(l, h, r) == HighHalf(Rotate(Glue(h, l), 32 + r))
  {
  }

  lemma CrossedLow1(h: bv32, l: bv32, r: bv8)
    requires 8 <= r < 16
    ensures ShiftAdd(h, l, r) == LowHalf(Rotate(Glue(h, l), 32 + r))
  {
  }

  lemma InPlaceHigh2(h: bv32, l: bv32, r: bv8)
    requires 16 <= r < 24
    ensures ShiftAdd(h, l, r) == HighHalf(Rotate(Glue(h, l), r))
  {
  }

  lemma InPlaceLow2(h: bv32, l: bv32, r: bv8)
    requires 16 <= r < 24
    ensures ShiftAdd(l, h, r) == LowHalf(Rotate(Glue(h, l), r))
  {
  }

  lemma CrossedHigh2(h: bv32, l: bv32, r: bv8)
    requires 16 <= r < 24
    ensures ShiftAdd(l, h, r) == HighHalf(Rotate(Glue(h, l), 32 + r))
  {
  }

  lemma CrossedLow2(h: bv32, l: bv32, r: bv8)
    requires 16 <= r < 24
    ensures ShiftAdd(h, l, r) == LowHalf(Rotate(Glue(h, l), 32 + r))
  {
  }

  lemma InPlaceHigh3(h: bv32, l: bv32, r: bv8)
    requires 24 <= r < 32
    ensures ShiftAdd(h, l, r) == HighHalf(Rotate(Glue(h, l), r))
  {
  }

  lemma InPlaceLow3(h: bv32, l: bv32, r: bv8)
    requires 24 <= r < 32
    ensures ShiftAdd(l, h, r) == LowHalf(Rotate(Glue(h, l), r))
  {
  }

  lemma CrossedHigh3(h: bv32, l: bv32, r: bv8)
    requires 24 <= r < 32
    ensures ShiftAdd(l, h, r) == HighHalf(Rotate(Glue(h, l), 32 + r))
  {
  }

  lemma CrossedLow3(h: bv32, l: bv32, r: bv8)
    requires 24 <= r < 32
    ensures ShiftAdd(h, l, r) == LowHalf(Rotate(Glue(h, l), 32 + r))
  {
  }

  /** Shifting and adding the halves rotates the whole. */
  lemma RotateHalves(h: bv32, l: bv32, r: bv8)
    requires r < 32
    ensures Glue(ShiftAdd(h, l, r), ShiftAdd(l, h, r)) == Rotate(Glue(h, l), r)
    ensures Glue(ShiftAdd(l, h, r), ShiftAdd(h, l, r)) == Rotate(Glue(h, l), 32 + r)
  {
    hide Rotate, Glue, ShiftAdd, HighHalf, LowHalf;
    HalvesGlue(Rotate(Glue(h, l), r));
    HalvesGlue(Rotate(Glue(h, l), 32 + r));
    if r < 8 {
      InPlaceHigh0(h, l, r);
      InPlaceLow0(h, l, r);
      CrossedHigh0(h, l, r);
      CrossedLow0(h, l, r);
    } else if r < 16 {
      InPlaceHigh1(h, l, r);
      InPlaceLow1(h, l, r);
      CrossedHigh1(h, l, r);
      CrossedLow1(h, l, r);
    } else if r < 24 {
      InPlaceHigh2(h, l, r);
      InPlaceLow2(h, l, r);
      CrossedHigh2(h, l, r);
      CrossedLow2(h, l, r);
    } else {
      InPlaceHigh3(h, l, r);
      InPlaceLow3(h, l, r);
      CrossedHigh3(h, l, r);
      CrossedLow3(h, l, r);
    }
  }
}
