/** What the multiplication and division circuits compute, and why their checks accept it. */
module MulDivSemantics {
  import opened MulRelation
  import opened RiscvM

  /** The four decoded flags: division, result in the first register, rs1 signed, rs2 signed. */
  datatype Flags = Flags(division: bool, first: bool, signed1: bool, signed2: bool)

  /** The flags that the decoder gives to an instruction. */
  function Decoded(op: Operation): Flags {
    match op
    case MUL => Flags(false, true, true, true)
    case MULH => Flags(false, false, true, true)
    case MULHSU => Flags(false, false, true, false)
    case MULHU => Flags(false, false, false, false)
    case DIV => Flags(true, true, true, true)
    case DIVU => Flags(true, true, false, false)
    case REM => Flags(true, false, true, true)
    case REMU => Flags(true, false, false, false)
  }

  /** The 64-bit product, as widening_product_bits and its variants give it. */
  function Product(f: Flags, rs1: Word, rs2: Word): (p: nat)
    ensures p < TWO64
  {
    (if f.signed1 && f.signed2 then AsSigned(rs1) * AsSigned(rs2)
     else if f.signed1 || f.signed2 then AsSigned(rs1) * rs2
     else rs1 * rs2) % TWO64
  }

  /** i32 division with the wrapping that RISC-V asks for. */
  function SignedDivRem(n: Word, d: Word): (Word, Word)
    requires d != 0
  {
    if n == 0x8000_0000 && d == 0xFFFF_FFFF then (0x8000_0000, 0)
    else (ToWord(Quot(AsSigned(n), AsSigned(d))), ToWord(Rem(AsSigned(n), AsSigned(d))))
  }

  /** Quotient and remainder; a zero divisor is first replaced by another one. */
  function Division(f: Flags, rs1: Word, rs2: Word): (Word, Word) {
    var divisor := if rs2 == 0 then 0x7FF_FFFF else rs2;
    var qr := if f.signed1 && f.signed2 then SignedDivRem(rs1, divisor) else UnsignedDivRem(rs1, divisor);
    if rs2 == 0 then (0xFFFF_FFFF, rs1) else qr
  }

  function UnsignedDivRem(n: Word, d: Word): (Word, Word)
    requires d != 0
  {
    UnsignedBounds(n, d);
    (n / d, n % d)
  }

  lemma UnsignedBounds(n: Word, d: Word)
    requires d != 0
    ensures 0 <= n / d < TWO32 && 0 <= n % d < TWO32
  {
    NaturalDivision(n, d);
    QuotientBounds(n, d, n / d, n % d);
  }

  /** The two result registers: product low and high, or quotient and remainder. */
  function Results(f: Flags, rs1: Word, rs2: Word): (Word, Word) {
    if f.division then Division(f, rs1, rs2)
    else (Product(f, rs1, rs2) % TWO32, Product(f, rs1, rs2) / TWO32)
  }

  /** The sign flags of the operands, and those derived for quotient and remainder. */
  function Negative1(f: Flags, rs1: Word): bool {
    f.signed1 && rs1 >= 0x8000_0000
  }

  function Negative2(f: Flags, rs2: Word): bool {
    f.signed2 && rs2 >= 0x8000_0000
  }

  function NegativeQuotient(n1: bool, n2: bool, q: Word): bool {
    n1 != n2 && q != 0
  }

  function NegativeRemainder(n1: bool, r: Word): bool {
    n1 && r != 0
  }

  lemma HalvesOf(x: int)
    ensures (x % TWO64) % TWO32 == x % TWO32
    ensures (x % TWO64) / TWO32 == (x / TWO32) % TWO32
  {
  }

  /** The low half of a product does not depend on how the factors are extended. */
  lemma LowHalfUnsigned(u: Word, v: Word)
    ensures (AsSigned(u) * AsSigned(v)) % TWO32 == (u * v) % TWO32
  {
    var n, m := u >= 0x8000_0000, v >= 0x8000_0000;
    SignedProduct(u, n, v, m);
    var k := -(Bit(m) * u) - Bit(n) * v + TWO32 * (Bit(n) * Bit(m));
    assert AsSigned(u) * AsSigned(v) == u * v + TWO32 * k;
  }

  lemma MultiplyBound(a: nat, b: nat, c: nat)
    requires a <= b
    ensures 0 <= a * c <= b * c
  {
  }

  lemma UnsignedProductFits(u: Word, v: Word)
    ensures 0 <= u * v < TWO64
  {
    MultiplyBound(u, TWO32 - 1, v);
  }

  /** For each of the eight instructions, the register that the first-result flag picks holds exactly
      what the manual asks for, on all inputs. */
  lemma ResultsAreIsa(op: Operation, rs1: Word, rs2: Word)
    ensures
      var f := Decoded(op);
      var (first, second) := Results(f, rs1, rs2);
      (if f.first then first else second) == Result(op, rs1, rs2)
  {
    hide Quot, Rem;
    match op
    case MUL =>
      HalvesOf(AsSigned(rs1) * AsSigned(rs2));
      LowHalfUnsigned(rs1, rs2);
    case MULH => HalvesOf(AsSigned(rs1) * AsSigned(rs2));
    case MULHSU => HalvesOf(AsSigned(rs1) * rs2);
    case MULHU =>
      HalvesOf(rs1 * rs2);
      UnsignedProductFits(rs1, rs2);
    case _ =>
  }

  /** A product satisfies the multiply-add relation with no addend. */
  lemma MultiplicationHolds(f: Flags, rs1: Word, rs2: Word)
    requires !f.division && (f.signed2 ==> f.signed1)
    ensures
      var (low, high) := Results(f, rs1, rs2);
      (Signed(rs1, Negative1(f, rs1)) * Signed(rs2, Negative2(f, rs2)) - (low + TWO32 * high)) % TWO64 == 0
  {
    var p := Signed(rs1, Negative1(f, rs1)) * Signed(rs2, Negative2(f, rs2));
    assert Product(f, rs1, rs2) == p % TWO64;
    assert (p - p % TWO64) % TWO64 == 0;
  }

  /** Quotient and remainder of one signed division under their derived sign flags. */
  lemma SignedDivisionMeans(n: Word, d: Word)
    requires d != 0
    ensures
      var (q, r) := SignedDivRem(n, d);
      var n1, n2 := n >= 0x8000_0000, d >= 0x8000_0000;
      var qv, rv := Signed(q, NegativeQuotient(n1, n2, q)), Signed(r, NegativeRemainder(n1, r));
      qv == Quot(AsSigned(n), AsSigned(d)) && rv == Rem(AsSigned(n), AsSigned(d))
  {
    var x, y := Quot(AsSigned(n), AsSigned(d)), Rem(AsSigned(n), AsSigned(d));
    QuotRem(AsSigned(n), AsSigned(d));
    QuotSign(AsSigned(n), AsSigned(d));
    hide Quot, Rem;
    WordMeans(x);
    WordMeans(y);
    if n == 0x8000_0000 && d == 0xFFFF_FFFF {
      assert x * -1 + y == -0x8000_0000 && Abs(y) < 1;
    }
  }

  /** A signed result keeps its value through a word and a sign flag, +2^31 included. */
  lemma WordMeans(x: int)
    requires -0x8000_0000 <= x <= 0x8000_0000
    ensures Signed(ToWord(x), x < 0) == x && (ToWord(x) == 0 <==> x == 0)
  {
  }

  lemma QuotSign(n: int, d: int)
    requires d != 0
    ensures Quot(n, d) < 0 <==> (n < 0) != (d < 0) && Quot(n, d) != 0
    ensures Rem(n, d) < 0 <==> n < 0 && Rem(n, d) != 0
  {
    NaturalDivision(Abs(n), Abs(d));
  }

  /** Every division by a nonzero divisor, under the derived sign flags, is exact over the integers
      and leaves a remainder smaller than the divisor in magnitude. With divisor zero the remainder
      alone is the dividend. */
  lemma DivisionHolds(f: Flags, rs1: Word, rs2: Word)
    requires f.division && f.signed1 == f.signed2
    ensures
      var (q, r) := Results(f, rs1, rs2);
      var n1, n2 := Negative1(f, rs1), Negative2(f, rs2);
      var qv, rv := Signed(q, NegativeQuotient(n1, n2, q)), Signed(r, NegativeRemainder(n1, r));
      && qv * Signed(rs2, n2) + rv == Signed(rs1, n1)
      && (rs2 != 0 ==> Abs(rv) < Abs(Signed(rs2, n2)))
      && (rs2 == 0 ==> rv == Signed(rs1, n1))
  {
    hide Quot, Rem;
    if rs2 != 0 {
      if f.signed1 {
        SignedDivisionMeans(rs1, rs2);
        QuotRem(AsSigned(rs1), AsSigned(rs2));
      } else {
        NaturalDivision(rs1, rs2);
        UnsignedBounds(rs1, rs2);
      }
    }
  }

  /** The magnitude test on the remainder: add or subtract according to the signs, then read the
      overflow and the zero test of the 32-bit outcome. */
  function RemainderTest(r: Word, rNeg: bool, d: Word, dNeg: bool): bool {
    var opposite := rNeg != dNeg;
    var out := if opposite then (r + d) % TWO32 else (r - d) % TWO32;
    var overflow := if opposite then r + d >= TWO32 else r < d;
    var condition := opposite != overflow;
    if rNeg then !condition && out != 0 else condition
  }

  /** For every sign combination the test says whether the remainder is smaller in magnitude. */
  lemma RemainderTestMeans(r: Word, rNeg: bool, d: Word, dNeg: bool)
    ensures RemainderTest(r, rNeg, d, dNeg) <==> Abs(Signed(r, rNeg)) < Abs(Signed(d, dNeg))
  {
  }

  /** Only one quotient goes with a dividend, a divisor and a small enough remainder of its sign. */
  lemma DivisionUnique(d: int, q1: int, r1: int, q2: int, r2: int)
    requires d != 0 && q1 * d + r1 == q2 * d + r2
    requires Abs(r1) < Abs(d) && Abs(r2) < Abs(d)
    requires (r1 >= 0 && r2 >= 0) || (r1 <= 0 && r2 <= 0)
    ensures q1 == q2 && r1 == r2
  {
    var k := q1 - q2;
    assert k * d == r2 - r1 by {
      assert k * d == q1 * d - q2 * d;
    }
    if k != 0 {
      MultipleTooLarge(k, d);
      assert false;
    }
  }

  lemma MultipleTooLarge(k: int, d: int)
    requires k != 0
    ensures Abs(k * d) >= Abs(d)
  {
    if k > 0 {
      MultiplyBound(1, k, Abs(d));
      assert k * d == k * Abs(d) || k * d == -(k * Abs(d));
    } else {
      MultiplyBound(1, -k, Abs(d));
      assert k * d == (-k) * Abs(d) || k * d == -((-k) * Abs(d));
    }
  }

  lemma OperandRanges(f: Flags, rs1: Word, rs2: Word)
    ensures
      var n, d := Signed(rs1, Negative1(f, rs1)), Signed(rs2, Negative2(f, rs2));
      && (if f.signed1 then Abs(n) <= 0x8000_0000 else 0 <= n < TWO32)
      && (if f.signed2 then Abs(d) <= 0x8000_0000 else 0 <= d < TWO32)
  {
  }

  lemma ProductWithin(q: int, d: int)
    requires Abs(q) <= TWO32
    ensures Abs(q * d) <= TWO32 * Abs(d)
  {
    MultiplyBound(Abs(q), TWO32, Abs(d));
    assert q * d == Abs(q) * Abs(d) || q * d == -(Abs(q) * Abs(d));
  }

  lemma OnlyZero(e: int)
    requires -TWO64 < e < TWO64 && e % TWO64 == 0
    ensures e == 0
  {
  }

  /** A multiple of 2^64 within (-2^64, 2^64) is zero, so the relation modulo 2^64 is exact here. */
  lemma DivisionRelationExact(f: Flags, rs1: Word, rs2: Word, qv: int, rv: int)
    requires f.signed1 == f.signed2
    requires -TWO32 < qv < TWO32 && (!f.signed1 ==> qv >= 0 && rv >= 0)
    requires Abs(rv) < Abs(Signed(rs2, Negative2(f, rs2)))
    requires (qv * Signed(rs2, Negative2(f, rs2)) + rv - Signed(rs1, Negative1(f, rs1))) % TWO64 == 0
    ensures qv * Signed(rs2, Negative2(f, rs2)) + rv == Signed(rs1, Negative1(f, rs1))
  {
    hide Signed, Negative1, Negative2;
    OperandRanges(f, rs1, rs2);
    var d, n := Signed(rs2, Negative2(f, rs2)), Signed(rs1, Negative1(f, rs1));
    if f.signed1 {
      ProductWithin(qv, d);
    } else {
      MultiplyBound(qv, TWO32 - 1, d);
      MultiplyBound(0, qv, d);
    }
    OnlyZero(qv * d + rv - n);
  }

  /** The checks leave no choice: whatever words pass the relation and the magnitude test for a
      nonzero divisor, under sign flags derived from them, are the quotient and remainder. */
  lemma OnlyResultsPass(f: Flags, rs1: Word, rs2: Word, q: Word, r: Word)
    requires f.division && f.signed1 == f.signed2 && rs2 != 0
    requires
      var n1, n2 := Negative1(f, rs1), Negative2(f, rs2);
      var qv, rv := Signed(q, NegativeQuotient(n1, n2, q)), Signed(r, NegativeRemainder(n1, r));
      && (qv * Signed(rs2, n2) + rv - Signed(rs1, n1)) % TWO64 == 0
      && RemainderTest(r, NegativeRemainder(n1, r), rs2, n2)
    ensures (q, r) == Results(f, rs1, rs2)
  {
    hide Results, RemainderTest;
    var n1, n2 := Negative1(f, rs1), Negative2(f, rs2);
    var d := Signed(rs2, n2);
    var qv, rv := Signed(q, NegativeQuotient(n1, n2, q)), Signed(r, NegativeRemainder(n1, r));
    RemainderTestMeans(r, NegativeRemainder(n1, r), rs2, n2);
    DivisionRelationExact(f, rs1, rs2, qv, rv);
    DivisionHolds(f, rs1, rs2);
    var (q', r') := Results(f, rs1, rs2);
    var qv', rv' := Signed(q', NegativeQuotient(n1, n2, q')), Signed(r', NegativeRemainder(n1, r'));
    DivisionUnique(d, qv, rv, qv', rv');
  }
}
