/** The 64-bit multiply-add relation that the multiplication and division circuits check in four
    16-bit columns: op1 * op2 + addend = destination modulo 2^64, every factor sign-extended. */
module MulRelation {
  const TWO16 := 0x1_0000
  const TWO32 := 0x1_0000_0000
  const TWO48 := 0x1_0000_0000_0000
  const TWO64 := 0x1_0000_0000_0000_0000

  /** A 32-bit factor in bytes, lowest first. */
  datatype Bytes = Bytes(b0: nat, b1: nat, b2: nat, b3: nat) {
    predicate Valid() {
      b0 < 256 && b1 < 256 && b2 < 256 && b3 < 256
    }

    function Value(): nat {
      b0 + 0x100 * b1 + 0x1_0000 * b2 + 0x100_0000 * b3
    }
  }

  function Bit(b: bool): (n: nat)
    ensures n <= 1
  {
    if b then 1 else 0
  }

  /** The integer that a 32-bit word means under a sign flag. */
  function Signed(v: nat, negative: bool): int {
    v - TWO32 * Bit(negative)
  }

  /** The byte above the top of a factor. */
  function Extension(negative: bool): (n: nat)
    ensures n <= 255
  {
    255 * Bit(negative)
  }

  /** The four column sums. Products whose weight is 2^64 or more are left out. */
  function Column0(a: Bytes, b: Bytes, addend: nat): nat {
    a.b0 * b.b0 + 256 * (a.b0 * b.b1) + 256 * (a.b1 * b.b0) + addend
  }

  function Column1(a: Bytes, b: Bytes, addend: nat): nat {
    a.b0 * b.b2 + 256 * (a.b0 * b.b3) + a.b1 * b.b1 + 256 * (a.b1 * b.b2)
    + a.b2 * b.b0 + 256 * (a.b2 * b.b1) + 256 * (a.b3 * b.b0) + addend
  }

  function Column2(a: Bytes, aNeg: bool, b: Bytes, bNeg: bool, addNeg: bool): nat {
    var x, y := Extension(aNeg), Extension(bNeg);
    a.b0 * y + 256 * (a.b0 * y) + a.b1 * b.b3 + 256 * (a.b1 * y) + a.b2 * b.b2 + 256 * (a.b2 * b.b3)
    + a.b3 * b.b1 + 256 * (a.b3 * b.b2) + x * b.b0 + 256 * (x * b.b1) + 256 * (x * b.b0) + 65535 * Bit(addNeg)
  }

  function Column3(a: Bytes, aNeg: bool, b: Bytes, bNeg: bool, addNeg: bool): nat {
    var x, y := Extension(aNeg), Extension(bNeg);
    a.b0 * y + 256 * (a.b0 * y) + a.b1 * y + 256 * (a.b1 * y) + a.b2 * y + 256 * (a.b2 * y)
    + a.b3 * b.b3 + 256 * (a.b3 * y) + x * b.b2 + 256 * (x * b.b3) + x * b.b1 + 256 * (x * b.b2)
    + x * b.b0 + 256 * (x * b.b1) + 256 * (x * b.b0) + 65535 * Bit(addNeg)
  }

  lemma TimesBytes(x: int, b: Bytes)
    ensures x * b.Value() == x * b.b0 + 0x100 * (x * b.b1) + 0x1_0000 * (x * b.b2) + 0x100_0000 * (x * b.b3)
  {
  }

  lemma BytesTimesBytes(a: Bytes, b: Bytes)
    ensures a.Value() * b.Value()
      == a.b0 * b.Value() + 0x100 * (a.b1 * b.Value()) + 0x1_0000 * (a.b2 * b.Value()) + 0x100_0000 * (a.b3 * b.Value())
  {
  }

  /** The signed product over the integers, in terms of the unsigned one. */
  lemma SignedProduct(u: nat, aNeg: bool, v: nat, bNeg: bool)
    ensures Signed(u, aNeg) * Signed(v, bNeg)
      == u * v - TWO32 * (Bit(bNeg) * u) - TWO32 * (Bit(aNeg) * v) + TWO64 * (Bit(aNeg) * Bit(bNeg))
  {
    if aNeg && bNeg {
      assert (u - TWO32) * (v - TWO32) == u * v - TWO32 * u - TWO32 * v + TWO64;
    } else if aNeg {
      assert (u - TWO32) * v == u * v - TWO32 * v;
    } else if bNeg {
      assert u * (v - TWO32) == u * v - TWO32 * u;
    }
  }

  /** How many times 2^64 the four columns exceed the signed multiply-add. */
  function Overflow(a: Bytes, aNeg: bool, b: Bytes, bNeg: bool, addNeg: bool): int {
    Bit(bNeg) * ByteSum(a) + Bit(aNeg) * ByteSum(b) + Bit(addNeg)
    - Bit(aNeg) * Bit(bNeg)
  }

  /** The parts of the columns that do not come from sign extension. */
  function Core2(a: Bytes, b: Bytes): nat {
    a.b1 * b.b3 + a.b2 * b.b2 + 256 * (a.b2 * b.b3) + a.b3 * b.b1 + 256 * (a.b3 * b.b2)
  }

  function Core3(a: Bytes, b: Bytes): nat {
    a.b3 * b.b3
  }

  lemma CoreSum(a: Bytes, b: Bytes)
    ensures Column0(a, b, 0) + TWO16 * Column1(a, b, 0) + TWO32 * Core2(a, b) + TWO48 * Core3(a, b)
      == a.Value() * b.Value()
  {
    BytesTimesBytes(a, b);
    TimesBytes(a.b0, b);
    TimesBytes(a.b1, b);
    TimesBytes(a.b2, b);
    TimesBytes(a.b3, b);
  }

  function ByteSum(a: Bytes): nat {
    a.b0 + a.b1 + a.b2 + a.b3
  }

  /** What a negative factor adds: its extension bytes times the other factor's bytes. */
  lemma ExtensionColumns(a: Bytes, aNeg: bool, b: Bytes, bNeg: bool, addNeg: bool)
    ensures Column2(a, aNeg, b, bNeg, addNeg)
      == Core2(a, b) + 255 * (Bit(bNeg) * (257 * a.b0 + 256 * a.b1)) + 255 * (Bit(aNeg) * (257 * b.b0 + 256 * b.b1))
         + 65535 * Bit(addNeg)
    ensures Column3(a, aNeg, b, bNeg, addNeg)
      == Core3(a, b) + 255 * (Bit(bNeg) * (257 * (a.b0 + a.b1 + a.b2) + 256 * a.b3))
         + 255 * (Bit(aNeg) * (257 * (b.b0 + b.b1 + b.b2) + 256 * b.b3)) + 65535 * Bit(addNeg)
  {
  }

  /** Those parts sum to minus 2^32 times the other factor, up to a multiple of 2^64. */
  lemma ExtensionSum(neg: bool, v: Bytes)
    ensures
      TWO32 * (255 * (Bit(neg) * (257 * v.b0 + 256 * v.b1)))
      + TWO48 * (255 * (Bit(neg) * (257 * (v.b0 + v.b1 + v.b2) + 256 * v.b3)))
      == TWO64 * (Bit(neg) * ByteSum(v)) - TWO32 * (Bit(neg) * v.Value())
  {
  }

  /** The columns, weighted, are the signed multiply-add up to a multiple of 2^64. */
  lemma ColumnsSum(a: Bytes, aNeg: bool, b: Bytes, bNeg: bool, lo: nat, hi: nat, addNeg: bool)
    ensures
      Column0(a, b, lo) + TWO16 * Column1(a, b, hi) + TWO32 * Column2(a, aNeg, b, bNeg, addNeg)
      + TWO48 * Column3(a, aNeg, b, bNeg, addNeg)
      == Signed(a.Value(), aNeg) * Signed(b.Value(), bNeg) + Signed(lo + TWO16 * hi, addNeg)
         + TWO64 * Overflow(a, aNeg, b, bNeg, addNeg)
  {
    assert Column0(a, b, lo) == Column0(a, b, 0) + lo && Column1(a, b, hi) == Column1(a, b, 0) + hi;
    hide Column0, Column1, Column2, Column3, Core2, Core3, Bytes.Value;
    SignedProduct(a.Value(), aNeg, b.Value(), bNeg);
    CoreSum(a, b);
    ExtensionColumns(a, aNeg, b, bNeg, addNeg);
    ExtensionSum(bNeg, a);
    ExtensionSum(aNeg, b);
  }

  lemma ByteProduct(x: nat, y: nat)
    requires x < 256 && y < 256
    ensures 0 <= x * y <= 65025
  {
    assert x * y <= 255 * y by {
      assert (255 - x) * y >= 0;
    }
  }

  /** The bounds that the source derives for its range checks: no column sum reaches 2^28. */
  lemma ColumnBounds(a: Bytes, aNeg: bool, b: Bytes, bNeg: bool, lo: nat, hi: nat, addNeg: bool)
    requires a.Valid() && b.Valid() && lo < TWO16 && hi < TWO16
    ensures Column0(a, b, lo) <= 33423360 && Column1(a, b, hi) <= 66846210
    ensures Column2(a, aNeg, b, bNeg, addNeg) <= 100269060 && Column3(a, aNeg, b, bNeg, addNeg) <= 133691910
  {
    var x, y := Extension(aNeg), Extension(bNeg);
    ByteProduct(a.b0, b.b0); ByteProduct(a.b0, b.b1); ByteProduct(a.b0, b.b2); ByteProduct(a.b0, b.b3);
    ByteProduct(a.b1, b.b0); ByteProduct(a.b1, b.b1); ByteProduct(a.b1, b.b2); ByteProduct(a.b1, b.b3);
    ByteProduct(a.b2, b.b0); ByteProduct(a.b2, b.b1); ByteProduct(a.b2, b.b2); ByteProduct(a.b2, b.b3);
    ByteProduct(a.b3, b.b0); ByteProduct(a.b3, b.b1); ByteProduct(a.b3, b.b2); ByteProduct(a.b3, b.b3);
    ByteProduct(a.b0, y); ByteProduct(a.b1, y); ByteProduct(a.b2, y); ByteProduct(a.b3, y);
    ByteProduct(x, b.b0); ByteProduct(x, b.b1); ByteProduct(x, b.b2); ByteProduct(x, b.b3);
  }

  /** The multiply-add holds modulo 2^64. */
  ghost predicate Holds(a: Bytes, aNeg: bool, b: Bytes, bNeg: bool, addend: nat, addNeg: bool, dest: nat) {
    (Signed(a.Value(), aNeg) * Signed(b.Value(), bNeg) + Signed(addend, addNeg) - dest) % TWO64 == 0
  }

  /** What the circuits compute for a carry: a 32-bit difference shifted right by 16. */
  function CarryOut(t: int, d: nat): nat {
    ((t - d) % TWO32) / TWO16
  }

  /** A 64-bit destination in 16-bit limbs. */
  datatype Limbs = Limbs(d0: nat, d1: nat, d2: nat, d3: nat) {
    predicate Valid() {
      d0 < TWO16 && d1 < TWO16 && d2 < TWO16 && d3 < TWO16
    }

    function Value(): nat {
      d0 + TWO16 * d1 + TWO32 * d2 + TWO48 * d3
    }
  }

  lemma CarryExact(t: int, d: nat, c: int)
    requires t - d == TWO16 * c && 0 <= c < TWO16
    ensures CarryOut(t, d) == c
  {
  }

  /** Column sums that agree with the destination modulo 2^64 leave whole carries. */
  lemma CarriesDivide(t0: nat, t1: nat, t2: nat, t3: nat, d: Limbs, k: int) returns (c0: int, c1: int, c2: int, c3: int)
    requires d.Valid() && t0 + TWO16 * t1 + TWO32 * t2 + TWO48 * t3 == d.Value() + TWO64 * k
    ensures t0 - d.d0 == TWO16 * c0 && t1 + c0 - d.d1 == TWO16 * c1
    ensures t2 + c1 - d.d2 == TWO16 * c2 && t3 + c2 - d.d3 == TWO16 * c3
    ensures c0 >= 0 && c1 >= 0 && c2 >= 0 && c3 >= 0
  {
    c3 := k;
    c2 := TWO16 * c3 + d.d3 - t3;
    c1 := TWO16 * c2 + d.d2 - t2;
    c0 := TWO16 * c1 + d.d1 - t1;
  }

  /** For every relation that holds, each column minus its limb is an exact non-negative multiple of
      2^16, so no 32-bit subtraction wraps, and the carries are as small as the range checks need. */
  lemma CarriesClose(a: Bytes, aNeg: bool, b: Bytes, bNeg: bool, lo: nat, hi: nat, addNeg: bool, d: Limbs)
    requires a.Valid() && b.Valid() && lo < TWO16 && hi < TWO16 && d.Valid()
    requires Holds(a, aNeg, b, bNeg, lo + TWO16 * hi, addNeg, d.Value())
    ensures
      var t0, t1 := Column0(a, b, lo), Column1(a, b, hi);
      var t2, t3 := Column2(a, aNeg, b, bNeg, addNeg), Column3(a, aNeg, b, bNeg, addNeg);
      var c0 := CarryOut(t0, d.d0);
      var c1 := CarryOut(t1 + c0, d.d1);
      var c2 := CarryOut(t2 + c1, d.d2);
      var c3 := CarryOut(t3 + c2, d.d3);
      && t0 == d.d0 + TWO16 * c0 && c0 <= 510
      && t1 + c0 == d.d1 + TWO16 * c1 && c1 <= 1020
      && t2 + c1 == d.d2 + TWO16 * c2 && c2 <= 1530
      && t3 + c2 == d.d3 + TWO16 * c3 && c3 <= 2040
  {
    hide Column0, Column1, Column2, Column3, Bytes.Value, Signed, Overflow, CarryOut;
    var t0, t1 := Column0(a, b, lo), Column1(a, b, hi);
    var t2, t3 := Column2(a, aNeg, b, bNeg, addNeg), Column3(a, aNeg, b, bNeg, addNeg);
    ColumnBounds(a, aNeg, b, bNeg, lo, hi, addNeg);
    ColumnsSum(a, aNeg, b, bNeg, lo, hi, addNeg);
    var excess := Signed(a.Value(), aNeg) * Signed(b.Value(), bNeg) + Signed(lo + TWO16 * hi, addNeg) - d.Value();
    var c0, c1, c2, c3 := CarriesDivide(t0, t1, t2, t3, d, excess / TWO64 + Overflow(a, aNeg, b, bNeg, addNeg));
    CarryExact(t0, d.d0, c0);
    CarryExact(t1 + c0, d.d1, c1);
    CarryExact(t2 + c1, d.d2, c2);
    CarryExact(t3 + c2, d.d3, c3);
  }

  /** Four columns that close with the carries c0 to c3, each of which enters the next column. */
  ghost predicate Balanced(a: Bytes, aNeg: bool, b: Bytes, bNeg: bool, lo: nat, hi: nat, addNeg: bool, d: Limbs,
                           c0: nat, c1: nat, c2: nat, c3: nat) {
    && Column0(a, b, lo) == d.d0 + TWO16 * c0
    && Column1(a, b, hi) + c0 == d.d1 + TWO16 * c1
    && Column2(a, aNeg, b, bNeg, addNeg) + c1 == d.d2 + TWO16 * c2
    && Column3(a, aNeg, b, bNeg, addNeg) + c2 == d.d3 + TWO16 * c3
  }

  /** And the other way round: whole carries out of all four columns prove the relation. */
  lemma CarriesProve(a: Bytes, aNeg: bool, b: Bytes, bNeg: bool, lo: nat, hi: nat, addNeg: bool, d: Limbs,
                     c0: int, c1: int, c2: int, c3: int)
    requires Column0(a, b, lo) - d.d0 == TWO16 * c0
    requires Column1(a, b, hi) + c0 - d.d1 == TWO16 * c1
    requires Column2(a, aNeg, b, bNeg, addNeg) + c1 - d.d2 == TWO16 * c2
    requires Column3(a, aNeg, b, bNeg, addNeg) + c2 - d.d3 == TWO16 * c3
    ensures Holds(a, aNeg, b, bNeg, lo + TWO16 * hi, addNeg, d.Value())
  {
    hide Column0, Column1, Column2, Column3, Bytes.Value, Signed, Overflow;
    ColumnsSum(a, aNeg, b, bNeg, lo, hi, addNeg);
    var excess := Signed(a.Value(), aNeg) * Signed(b.Value(), bNeg) + Signed(lo + TWO16 * hi, addNeg) - d.Value();
    assert excess == TWO64 * (c3 - Overflow(a, aNeg, b, bNeg, addNeg));
  }
}
