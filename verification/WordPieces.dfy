/** The 16-bit limbs and bytes of 32-bit words, the integers they stand for, and how operations on
    words act on them. The operations are named, so that users need no bit-level reasoning. */
module WordPieces {
  import opened WordShifts

  function LowLimb(x: bv32): bv16 {
    (x & 0xFFFF) as bv16
  }

  function HighLimb(x: bv32): bv16 {
    (x >> 16) as bv16
  }

  /** Two limbs put together: the high one shifted left by 16, and the low one added. */
  function Word32(high: bv16, low: bv16): bv32 {
    ((high as bv32) << 16) + (low as bv32)
  }

  function LowByte(w: bv16): bv8 {
    (w & 0xFF) as bv8
  }

  function HighByte(w: bv16): bv8 {
    (w >> 8) as bv8
  }

  function Pack(high: bv8, low: bv8): bv16 {
    ((high as bv16) << 8) | (low as bv16)
  }

  function Value8(b: bv8): (n: nat)
    ensures n < 256
  {
    b as int
  }

  function Value16(w: bv16): (n: nat)
    ensures n < 0x1_0000
  {
    Value8(LowByte(w)) + 256 * Value8(HighByte(w))
  }

  function Byte8(n: nat): bv8
    requires n < 256
  {
    n as bv8
  }

  function Word16(n: nat): bv16
    requires n < 0x1_0000
  {
    Pack(Byte8(n / 256), Byte8(n % 256))
  }

  function Xor32(x: bv32, y: bv32): bv32 {
    x ^ y
  }

  function AndNot32(x: bv32, y: bv32): bv32 {
    !x & y
  }

  function Xor16(x: bv16, y: bv16): bv16 {
    x ^ y
  }

  function AndNot16(x: bv16, y: bv16): bv16 {
    !x & y
  }

  function Xor8(x: bv8, y: bv8): bv8 {
    x ^ y
  }

  function AndNot8(x: bv8, y: bv8): bv8 {
    !x & y
  }

  function Left16(x: bv16, r: bv8): bv16
    requires r <= 16
  {
    x << r
  }

  function Right16(x: bv16, r: bv8): bv16
    requires r <= 16
  {
    x >> r
  }

  function Or16(x: bv16, y: bv16): bv16 {
    x | y
  }

  function Or8(x: bv8, y: bv8): bv8 {
    x | y
  }

  predicate Disjoint16(x: bv16, y: bv16) {
    x & y == 0
  }

  predicate Disjoint8(x: bv8, y: bv8) {
    x & y == 0
  }

  lemma LimbsWord(x: bv32)
    ensures Word32(HighLimb(x), LowLimb(x)) == x
  {
  }

  lemma ByteValue(b: bv8)
    ensures Byte8(Value8(b)) == b
  {
  }

  lemma PackBytes(w: bv16)
    ensures Pack(HighByte(w), LowByte(w)) == w
  {
  }

  /** A 16-bit word is recovered from the integer it stands for. */
  lemma WordValue(w: bv16)
    ensures Word16(Value16(w)) == w
  {
    ByteValue(LowByte(w));
    ByteValue(HighByte(w));
    PackBytes(w);
    hide Pack, Byte8, LowByte, HighByte, Value8;
  }

  lemma ShiftsOfZero(w: bv16, r: bv8)
    requires w == 0 && r <= 16
    ensures Value16(w) == 0 && Value16(Left16(w, r)) == 0 && Value16(Right16(w, 16 - r)) == 0
  {
  }

  lemma XorPieces(x: bv32, y: bv32)
    ensures LowLimb(Xor32(x, y)) == Xor16(LowLimb(x), LowLimb(y))
    ensures HighLimb(Xor32(x, y)) == Xor16(HighLimb(x), HighLimb(y))
  {
  }

  lemma XorBytes(x: bv16, y: bv16)
    ensures LowByte(Xor16(x, y)) == Xor8(LowByte(x), LowByte(y))
    ensures HighByte(Xor16(x, y)) == Xor8(HighByte(x), HighByte(y))
  {
  }

  lemma AndNotPieces(x: bv32, y: bv32)
    ensures LowLimb(AndNot32(x, y)) == AndNot16(LowLimb(x), LowLimb(y))
    ensures HighLimb(AndNot32(x, y)) == AndNot16(HighLimb(x), HighLimb(y))
  {
  }

  lemma AndNotBytes(x: bv16, y: bv16)
    ensures LowByte(AndNot16(x, y)) == AndNot8(LowByte(x), LowByte(y))
    ensures HighByte(AndNot16(x, y)) == AndNot8(HighByte(x), HighByte(y))
  {
  }

  /** A limb of a rotation: one limb shifted left, the limb below it shifted right. */
  function Carry(x: bv16, y: bv16, r: bv8): bv16
    requires r <= 16
  {
    Or16(Left16(x, r), Right16(y, 16 - r))
  }

  lemma ShiftAddLimbs(x: bv32, y: bv32, r: bv8)
    requires r < 16
    ensures LowLimb(ShiftAdd(x, y, r)) == Carry(LowLimb(x), HighLimb(y), r)
    ensures HighLimb(ShiftAdd(x, y, r)) == Carry(HighLimb(x), LowLimb(x), r)
  {
  }

  lemma ShiftAddLimbsUp(x: bv32, y: bv32, r: bv8)
    requires r < 16
    ensures LowLimb(ShiftAdd(x, y, 16 + r)) == Carry(HighLimb(y), LowLimb(y), r)
    ensures HighLimb(ShiftAdd(x, y, 16 + r)) == Carry(LowLimb(x), HighLimb(y), r)
  {
  }

  lemma ShiftsDisjoint(x: bv16, y: bv16, r: bv8)
    requires r <= 16
    ensures Disjoint16(Left16(x, r), Right16(y, 16 - r))
  {
  }

  lemma OrBytes(x: bv16, y: bv16)
    ensures LowByte(Or16(x, y)) == Or8(LowByte(x), LowByte(y)) && HighByte(Or16(x, y)) == Or8(HighByte(x), HighByte(y))
    ensures Disjoint16(x, y) ==> Disjoint8(LowByte(x), LowByte(y)) && Disjoint8(HighByte(x), HighByte(y))
  {
  }

  lemma Nibbles(x: bv8)
    ensures Value8(x) == Value8(x & 0xF) + 0x10 * Value8(x >> 4)
  {
  }

  lemma DisjointNibbles(x: bv8, y: bv8)
    requires Disjoint8(x, y) && x < 0x10 && y < 0x10
    ensures Value8(x) + Value8(y) == Value8(Or8(x, y))
  {
  }

  lemma OrNibbles(x: bv8, y: bv8)
    requires Disjoint8(x, y)
    ensures Or8(x, y) & 0xF == Or8(x & 0xF, y & 0xF) && Or8(x, y) >> 4 == Or8(x >> 4, y >> 4)
    ensures Disjoint8(x & 0xF, y & 0xF) && Disjoint8(x >> 4, y >> 4)
    ensures x & 0xF < 0x10 && y & 0xF < 0x10 && x >> 4 < 0x10 && y >> 4 < 0x10
  {
  }

  lemma DisjointSum8(x: bv8, y: bv8)
    requires Disjoint8(x, y)
    ensures Value8(x) + Value8(y) == Value8(Or8(x, y))
  {
    hide *;
    Nibbles(x);
    Nibbles(y);
    Nibbles(Or8(x, y));
    OrNibbles(x, y);
    DisjointNibbles(x & 0xF, y & 0xF);
    DisjointNibbles(x >> 4, y >> 4);
  }

  /** The two shifted limbs share no bit, so the sum of their integers is the limb of the rotation. */
  lemma CarrySum(x: bv16, y: bv16, r: bv8)
    requires r <= 16
    ensures Value16(Left16(x, r)) + Value16(Right16(y, 16 - r)) == Value16(Carry(x, y, r))
  {
    ShiftsDisjoint(x, y, r);
    hide Left16, Right16, Or16, Or8, LowByte, HighByte, Value8, Disjoint8, Disjoint16;
    var p, q := Left16(x, r), Right16(y, 16 - r);
    OrBytes(p, q);
    DisjointSum8(LowByte(p), LowByte(q));
    DisjointSum8(HighByte(p), HighByte(q));
  }

  function PowerOfTwo(r: nat): (p: nat)
    ensures p > 0
  {
    if r == 0 then 1 else 2 * PowerOfTwo(r - 1)
  }

  lemma ByteDoubled(b: bv8)
    ensures Value8(b << 1) + 256 * Value8(b >> 7) == 2 * Value8(b)
  {
  }

  lemma BytesShifted(y: bv16)
    ensures LowByte(Left16(y, 1)) == LowByte(y) << 1
    ensures HighByte(Left16(y, 1)) == Or8(HighByte(y) << 1, LowByte(y) >> 7)
    ensures LowByte(Right16(y, 15)) == HighByte(y) >> 7 && HighByte(Right16(y, 15)) == 0
  {
  }

  lemma LowestBitFree(a: bv8, b: bv8)
    ensures Disjoint8(a << 1, b >> 7)
  {
  }

  /** Shifting a limb by one position: the bit that falls out has the weight of the next limb. */
  lemma ShiftedByOne(y: bv16)
    ensures Value16(Left16(y, 1)) + 0x1_0000 * Value16(Right16(y, 15)) == 2 * Value16(y)
  {
    hide Left16, Right16, LowByte, HighByte, Value8, Or8, Disjoint8;
    var low, high := LowByte(y), HighByte(y);
    BytesShifted(y);
    LowestBitFree(high, low);
    DisjointSum8(high << 1, low >> 7);
    ByteDoubled(low);
    ByteDoubled(high);
    ZeroByte();
  }

  lemma ZeroByte()
    ensures Value8(0) == 0
  {
  }

  lemma SmallShifted(z: bv16)
    requires z < 0x8000
    ensures Right16(z, 15) == 0
  {
  }

  lemma ZeroLimb()
    ensures Value16(0) == 0
  {
  }

  lemma AppendedBytes(z: bv16, y: bv16)
    ensures
      var low, high := LowByte(Left16(z, 1)), LowByte(Right16(y, 15));
      && LowByte(Or16(Left16(z, 1), Right16(y, 15))) == Or8(low, high) && Disjoint8(low, high)
      && HighByte(Or16(Left16(z, 1), Right16(y, 15))) == HighByte(Left16(z, 1)) && HighByte(Right16(y, 15)) == 0
  {
  }

  lemma BitAppended(z: bv16, y: bv16)
    requires z < 0x8000
    ensures Value16(Or16(Left16(z, 1), Right16(y, 15))) == 2 * Value16(z) + Value16(Right16(y, 15))
  {
    hide Left16, Right16, Or16, LowByte, HighByte, Value8, Or8, Disjoint8;
    AppendedBytes(z, y);
    DisjointSum8(LowByte(Left16(z, 1)), LowByte(Right16(y, 15)));
    ShiftedByOne(z);
    SmallShifted(z);
    ZeroLimb();
    ZeroByte();
  }

  /** One more position of a shift in two limbs. */
  lemma OnePositionMore(x: bv16, r: bv8)
    requires r < 16
    ensures Left16(x, r + 1) == Left16(Left16(x, r), 1)
    ensures Right16(x, 15 - r) == Or16(Left16(Right16(x, 16 - r), 1), Right16(Left16(x, r), 15))
    ensures Right16(x, 16 - r) < 0x8000
  {
  }

  /** The two parts of a shifted limb are the halves of its product with a power of two. */
  lemma {:induction false} ShiftIsProduct(x: bv16, r: nat)
    requires r <= 16
    ensures r as bv8 <= 16
    ensures Value16(Left16(x, r as bv8)) + 0x1_0000 * Value16(Right16(x, 16 - (r as bv8))) == Value16(x) * PowerOfTwo(r)
  {
    hide Left16, Right16, Value16, Or16;
    if r == 0 {
      NothingShifted(x);
    } else {
      ShiftIsProduct(x, r - 1);
      CountBefore(r);
      ShiftOnce(x, (r - 1) as bv8, PowerOfTwo(r - 1));
    }
  }

  lemma ShiftOnce(x: bv16, k: bv8, power: nat)
    requires k < 16 && Value16(Left16(x, k)) + 0x1_0000 * Value16(Right16(x, 16 - k)) == Value16(x) * power
    ensures Value16(Left16(x, k + 1)) + 0x1_0000 * Value16(Right16(x, 15 - k)) == Value16(x) * (2 * power)
  {
    hide *;
    ShiftTwice(x, k);
    TwiceProduct(Value16(x), power);
  }

  lemma ShiftTwice(x: bv16, k: bv8)
    requires k < 16
    ensures Value16(Left16(x, k + 1)) + 0x1_0000 * Value16(Right16(x, 15 - k))
      == 2 * (Value16(Left16(x, k)) + 0x1_0000 * Value16(Right16(x, 16 - k)))
  {
    hide Left16, Right16, Value16, Or16;
    OnePositionMore(x, k);
    ShiftedByOne(Left16(x, k));
    BitAppended(Right16(x, 16 - k), Left16(x, k));
  }

  lemma TwiceProduct(v: nat, power: nat)
    ensures v * (2 * power) == 2 * (v * power)
  {
  }

  lemma NothingShifted(x: bv16)
    ensures Left16(x, 0) == x && Value16(Right16(x, 16)) == 0
  {
  }

  lemma CountBefore(r: nat)
    requires 0 < r <= 16
    ensures (r - 1) as bv8 < 16 && r as bv8 == (r - 1) as bv8 + 1
  {
  }
}
