/** 64-bit lanes as the keccak_special5 circuit holds them: two 32-bit words, four 16-bit limbs or
    eight bytes, and the operations on those pieces that amount to operations on lanes. */
module KeccakHalves {
  import opened KeccakSpec
  import opened WordPieces
  import opened WordShifts

  datatype Halves = Halves(low: bv32, high: bv32)

  function Join(u: Halves): Lane {
    Lane(Glue(u.high, u.low))
  }

  function XorHalves(u: Halves, v: Halves): Halves {
    Halves(Xor32(u.low, v.low), Xor32(u.high, v.high))
  }

  function AndNotHalves(u: Halves, v: Halves): Halves {
    Halves(AndNot32(u.low, v.low), AndNot32(u.high, v.high))
  }

  function RotlHalves(u: Halves, k: nat): Halves
    requires k < 64
  {
    ShiftCount(k % 32);
    var r := (k % 32) as bv8;
    if k < 32 then Halves(ShiftAdd(u.low, u.high, r), ShiftAdd(u.high, u.low, r))
    else Halves(ShiftAdd(u.high, u.low, r), ShiftAdd(u.low, u.high, r))
  }

  lemma JoinXor(u: Halves, v: Halves)
    ensures Join(XorHalves(u, v)) == Xor(Join(u), Join(v))
  {
  }

  lemma JoinAndNot(u: Halves, v: Halves)
    ensures Join(AndNotHalves(u, v)) == AndNot(Join(u), Join(v))
  {
  }

  /** For every rotation, shifting and adding the halves is the 64-bit rotation. */
  lemma JoinRotl(u: Halves, k: nat)
    requires k < 64
    ensures Join(RotlHalves(u, k)) == Rotl(Join(u), k)
  {
    hide Glue, Rotate, ShiftAdd;
    ShiftCount(k % 32);
    RotateHalves(u.high, u.low, (k % 32) as bv8);
    assert k == if k < 32 then k % 32 else k % 32 + 32;
  }
}
