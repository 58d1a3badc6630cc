/** What the constraints of the signed multiplication and division circuit leave a prover no choice
    about: a row that satisfies them holds the results of its instruction, and an evaluated row does. */
module MulDivSoundness {
  import opened Mersenne31
  import opened Witness
  import opened LimbArithmetic
  import opened MulRelation
  import opened RiscvM
  import opened MulDivSemantics
  import opened MulDivCircuit

  lemma FieldZero(v: int)
    requires -P < v < P
    ensures v % P == 0 <==> v == 0
  {
  }

  /** A column equation in the field is one over the integers, because range checks keep it small. */
  lemma ColumnOverIntegers(t: nat, carryIn: nat, limb: nat, carryOut: nat)
    requires t <= 133691910 && carryIn < 0x800 && limb < TWO16 && carryOut < 0x800
    requires (t + carryIn - limb - TWO16 * carryOut) % P == 0
    ensures t + carryIn - limb == TWO16 * carryOut
  {
    FieldZero(t + carryIn - limb - TWO16 * carryOut);
  }

  /** The four byte places from k on recompose to the limbs of v in the field. */
  ghost predicate Decomposed(row: array<Fp>, k: nat, v: Word)
    requires k + 3 < row.Length
    reads row
  {
    && Add(row[k], Mul(0x100, row[k + 1])) == v % TWO16
    && Add(row[k + 2], Mul(0x100, row[k + 3])) == v / TWO16
  }

  lemma BytesInField(low: Fp, high: Fp)
    requires low < 0x100 && high < 0x100
    ensures Add(low, Mul(0x100, high)) == low + 0x100 * high && U8(low) == low && U8(high) == high
  {
  }

  /** Bytes recompose in the field exactly when they are the bytes of the word. */
  lemma DecomposedValue(row: array<Fp>, k: nat, v: Word)
    requires k + 3 < row.Length
    requires row[k] < 0x100 && row[k + 1] < 0x100 && row[k + 2] < 0x100 && row[k + 3] < 0x100
    ensures Decomposed(row, k, v) <==> FactorAt(row, k).Value() == v
  {
    hide Add, Mul, U8;
    BytesInField(row[k], row[k + 1]);
    BytesInField(row[k + 2], row[k + 3]);
  }

  /** Four columns that close in the field. */
  ghost predicate BalancedInField(a: Bytes, aNeg: bool, b: Bytes, bNeg: bool, lo: nat, hi: nat, addNeg: bool, d: Limbs,
                                  c0: nat, c1: nat, c2: nat, c3: nat) {
    && (Column0(a, b, lo) - d.d0 - TWO16 * c0) % P == 0
    && (Column1(a, b, hi) + c0 - d.d1 - TWO16 * c1) % P == 0
    && (Column2(a, aNeg, b, bNeg, addNeg) + c1 - d.d2 - TWO16 * c2) % P == 0
    && (Column3(a, aNeg, b, bNeg, addNeg) + c2 - d.d3 - TWO16 * c3) % P == 0
  }

  /** The four column equations over the places of the row: bytes, signs, limbs, and every carry as its
      byte and its weighted bits. */
  ghost predicate ColumnEquations(row: array<Fp>)
    requires row.Length >= 80 && InRange(row)
    reads row
  {
    BalancedInField(
      Bytes(row[9], row[10], row[11], row[12]), row[59] == 1, Bytes(row[13], row[14], row[15], row[16]), row[34] == 1,
      row[60], row[61], row[62] == 1, Limbs(row[63], row[64], row[65], row[66]),
      row[17] + 0x100 * row[35], row[18] + 0x100 * row[36] + 0x200 * row[37],
      row[19] + 0x100 * row[38] + 0x200 * row[39] + 0x400 * row[40],
      row[20] + 0x100 * row[41] + 0x200 * row[42] + 0x400 * row[43])
  }

  /** The two limb equations in the field of the sum or difference that compares magnitudes, over places
      checked to be 16-bit or boolean, and place 77 as its boolean gates make it. */
  ghost predicate ComparisonEquations(row: array<Fp>, r: Word, rNeg: bool, d: Word, dNeg: bool)
    requires row.Length >= 80
    reads row
  {
    var opposite, low, high, c, o := rNeg != dNeg, row[27], row[28], row[44], row[45];
    var condition := opposite != (o == 1);
    && low < TWO16 && high < TWO16 && c <= 1 && o <= 1
    && (if opposite then
          && (r % TWO16 + d % TWO16 - low - TWO16 * c) % P == 0
          && (r / TWO16 + d / TWO16 + c - high - TWO16 * o) % P == 0
        else
          && (r % TWO16 - d % TWO16 - low + TWO16 * c) % P == 0
          && (r / TWO16 - d / TWO16 - c - high + TWO16 * o) % P == 0)
    && row[77] == FromBool(if rNeg then !condition && !(low == 0 && high == 0) else condition)
  }

  /** In the field the comparison is what it is over the integers. */
  lemma ComparisonExact(row: array<Fp>, r: Word, rNeg: bool, d: Word, dNeg: bool)
    requires row.Length >= 80
    ensures ComparisonEquations(row, r, rNeg, d, dNeg) <==> Compared(row, r, rNeg, d, dNeg)
  {
    var low, high, c, o := row[27], row[28], row[44], row[45];
    if low < TWO16 && high < TWO16 && c <= 1 && o <= 1 {
      if rNeg != dNeg {
        FieldZero(r % TWO16 + d % TWO16 - low - TWO16 * c);
        FieldZero(r / TWO16 + d / TWO16 + c - high - TWO16 * o);
      } else {
        FieldZero(r % TWO16 - d % TWO16 - low + TWO16 * c);
        FieldZero(r / TWO16 - d / TWO16 - c - high + TWO16 * o);
      }
    }
  }

  /** The constraints on a row whose result places hold the words first and second: signs and limbs of
      the relation, byte decompositions, column equations, and the two rules for divisions. */
  ghost predicate Constrained(p: Proxy, f: Flags, rs1: Word, rs2: Word, first: Word, second: Word)
    requires p.Valid(20, 80, 3)
    reads p.witnessRow
  {
    var w, r := p.witnessRow, RelationFor(f, rs1, rs2, first, second);
    && Holds32(w, 23, 24, first) && Holds32(w, 25, 26, second) && LimbsDone(p, r)
    && Decomposed(w, 9, r.op1) && Decomposed(w, 13, r.op2) && InRange(w) && ColumnEquations(w)
    && ComparisonEquations(w, second, NegativeRemainder(Negative1(f, rs1), second), rs2, Negative2(f, rs2))
    && (f.division && rs2 != 0 ==> w[77] == 1) && (f.division && rs2 == 0 ==> w[23] == 0xFFFF && w[24] == 0xFFFF)
  }

  /** Columns of bytes and small carries that close in the field close over the integers. */
  lemma NumbersProve(a: Bytes, aNeg: bool, b: Bytes, bNeg: bool, lo: nat, hi: nat, addNeg: bool, d: Limbs,
                     c0: nat, c1: nat, c2: nat, c3: nat)
    requires a.Valid() && b.Valid() && lo < TWO16 && hi < TWO16 && d.Valid()
    requires c0 < 0x800 && c1 < 0x800 && c2 < 0x800 && c3 < 0x800
    requires BalancedInField(a, aNeg, b, bNeg, lo, hi, addNeg, d, c0, c1, c2, c3)
    ensures Holds(a, aNeg, b, bNeg, lo + TWO16 * hi, addNeg, d.Value())
  {
    hide Column0, Column1, Column2, Column3, Holds, Bytes.Value, Bytes.Valid, Limbs.Value;
    ColumnBounds(a, aNeg, b, bNeg, lo, hi, addNeg);
    ColumnOverIntegers(Column0(a, b, lo), 0, d.d0, c0);
    ColumnOverIntegers(Column1(a, b, hi), c0, d.d1, c1);
    ColumnOverIntegers(Column2(a, aNeg, b, bNeg, addNeg), c1, d.d2, c2);
    ColumnOverIntegers(Column3(a, aNeg, b, bNeg, addNeg), c2, d.d3, c3);
    CarriesProve(a, aNeg, b, bNeg, lo, hi, addNeg, d, c0, c1, c2, c3);
  }

  /** Four equations in the field prove the multiply-add. */
  lemma EquationsProve(p: Proxy, r: Relation)
    requires p.Valid(20, 80, 3) && LimbsDone(p, r) && InRange(p.witnessRow) && ColumnEquations(p.witnessRow)
    requires Decomposed(p.witnessRow, 9, r.op1) && Decomposed(p.witnessRow, 13, r.op2)
    ensures Holds(FactorAt(p.witnessRow, 9), r.neg1, FactorAt(p.witnessRow, 13), r.neg2, r.addend, r.addNeg,
      r.low + TWO32 * r.high)
    ensures FactorAt(p.witnessRow, 9).Value() == r.op1 && FactorAt(p.witnessRow, 13).Value() == r.op2
  {
    hide BalancedInField, U8, Decomposed, Bytes.Value, Signed, Holds;
    var w := p.witnessRow;
    DecomposedValue(w, 9, r.op1);
    DecomposedValue(w, 13, r.op2);
    FactorPlaces(w, 9);
    FactorPlaces(w, 13);
    NumbersProve(FactorAt(w, 9), r.neg1, FactorAt(w, 13), r.neg2, r.addend % TWO16, r.addend / TWO16, r.addNeg,
      LimbsOf(r.low, r.high),
      w[17] + 0x100 * w[35], w[18] + 0x100 * w[36] + 0x200 * w[37],
      w[19] + 0x100 * w[38] + 0x200 * w[39] + 0x400 * w[40], w[20] + 0x100 * w[41] + 0x200 * w[42] + 0x400 * w[43]);
  }

  lemma CongruentWords(x: int, u: nat, v: nat)
    requires u < TWO64 && v < TWO64 && (x - u) % TWO64 == 0 && (x - v) % TWO64 == 0
    ensures u == v
  {
  }

  lemma CongruentShift(x: int, u: int, v: int)
    requires (x - u) % TWO64 == 0 && (v - u) % TWO64 == 0
    ensures (x - v) % TWO64 == 0
  {
  }

  lemma EqualHalves(a: Word, b: Word, c: Word, d: Word)
    requires a + TWO32 * b == c + TWO32 * d
    ensures a == c && b == d
  {
  }

  lemma ProductForced(f: Flags, rs1: Word, rs2: Word, first: Word, second: Word)
    requires !f.division && Consistent(f)
    requires (Signed(rs1, Negative1(f, rs1)) * Signed(rs2, Negative2(f, rs2)) - (first + TWO32 * second)) % TWO64 == 0
    ensures (first, second) == Results(f, rs1, rs2)
  {
    hide Results, Signed, Negative1, Negative2;
    MultiplicationHolds(f, rs1, rs2);
    var (low, high) := Results(f, rs1, rs2);
    var x := Signed(rs1, Negative1(f, rs1)) * Signed(rs2, Negative2(f, rs2));
    CongruentWords(x, first + TWO32 * second, low + TWO32 * high);
    EqualHalves(first, second, low, high);
  }

  lemma ZeroDivisorForced(f: Flags, rs1: Word, second: Word)
    requires
      var n1 := Negative1(f, rs1);
      (Signed(second, NegativeRemainder(n1, second)) - Signed(rs1, n1)) % TWO64 == 0
    ensures second == rs1
  {
  }

  /** The relation and the two rules for divisions force the results, products, quotients by any
      nonzero divisor and divisions by zero alike. */
  lemma RelationForces(f: Flags, rs1: Word, rs2: Word, first: Word, second: Word)
    requires Consistent(f)
    requires
      var r := RelationFor(f, rs1, rs2, first, second);
      (Signed(r.op1, r.neg1) * Signed(r.op2, r.neg2) + Signed(r.addend, r.addNeg) - (r.low + TWO32 * r.high)) % TWO64
        == 0
    requires f.division && rs2 != 0 ==>
      RemainderTest(second, NegativeRemainder(Negative1(f, rs1), second), rs2, Negative2(f, rs2))
    requires f.division && rs2 == 0 ==> first == 0xFFFF_FFFF
    ensures (first, second) == Results(f, rs1, rs2)
  {
    hide Results, Signed, NegativeQuotient, NegativeRemainder, RemainderTest, Negative1, Negative2;
    var n1, n2 := Negative1(f, rs1), Negative2(f, rs2);
    if !f.division {
      SignedZero();
      ProductForced(f, rs1, rs2, first, second);
    } else {
      var qv, rv := Signed(first, NegativeQuotient(n1, n2, first)), Signed(second, NegativeRemainder(n1, second));
      SignExtension(rs1, n1);
      CongruentShift(qv * Signed(rs2, n2) + rv, rs1 + TWO32 * ((TWO32 - 1) * Bit(n1)), Signed(rs1, n1));
      if rs2 != 0 {
        OnlyResultsPass(f, rs1, rs2, first, second);
      } else {
        ZeroDivisorSign(f);
        ZeroDivisorForced(f, rs1, second);
        ZeroDivisorResults(f, rs1);
      }
    }
  }

  lemma ZeroDivisorSign(f: Flags)
    ensures Signed(0, Negative2(f, 0)) == 0
  {
  }

  lemma ZeroDivisorResults(f: Flags, rs1: Word)
    requires f.division
    ensures Results(f, rs1, 0) == (0xFFFF_FFFF, rs1)
  {
    hide SignedDivRem, UnsignedDivRem;
  }

  /** Whatever fills the places of a row, if the constraints hold then the result places hold what the
      instruction computes: for every instruction, all operands, divisor zero included. */
  lemma OnlyResultsSatisfy(p: Proxy, f: Flags, rs1: Word, rs2: Word, first: Word, second: Word)
    requires p.Valid(20, 80, 3) && Consistent(f) && Constrained(p, f, rs1, rs2, first, second)
    ensures (first, second) == Results(f, rs1, rs2)
    ensures forall op: Operation :: f == Decoded(op) ==> (if f.first then first else second) == Result(op, rs1, rs2)
  {
    hide Results, Result, Decoded, Signed, NegativeQuotient, NegativeRemainder, RemainderTest, Negative1, Negative2,
      Decomposed, ColumnEquations, ComparisonEquations, Compared, InRange, RelationFor, Bytes.Value, U8;
    var r := RelationFor(f, rs1, rs2, first, second);
    EquationsProve(p, r);
    var nr, n2 := NegativeRemainder(Negative1(f, rs1), second), Negative2(f, rs2);
    ComparisonExact(p.witnessRow, second, nr, rs2, n2);
    ComparedMeans(p.witnessRow, second, nr, rs2, n2);
    RelationForces(f, rs1, rs2, first, second);
    forall op: Operation | f == Decoded(op) ensures (if f.first then first else second) == Result(op, rs1, rs2) {
      ResultsAreIsa(op, rs1, rs2);
    }
  }

  /** The four equations hold of exact carries. */
  lemma CarriesSolve(p: Proxy, r: Relation)
    requires p.Valid(20, 80, 3) && LimbsDone(p, r) && InRange(p.witnessRow) && ColumnsClosed(p, r)
    ensures ColumnEquations(p.witnessRow)
  {
    hide Column0, Column1, Column2, Column3, ColumnsClosed, LimbsDone, InRange;
    ColumnsOnPlaces(p, r);
  }

  /** One evaluation satisfies every constraint, for all flags that the decoder produces. */
  lemma ResultsSatisfy(p: Proxy, f: Flags, rs1: Word, rs2: Word)
    requires p.Valid(20, 80, 3) && Consistent(f) && Evaluated(p, f, rs1, rs2)
    ensures
      var (first, second) := Results(f, rs1, rs2);
      Constrained(p, f, rs1, rs2, first, second)
  {
    hide Results, Result, Decoded, Signed, NegativeQuotient, NegativeRemainder, RemainderTest, Negative1, Negative2,
      Decomposed, ColumnEquations, RelationFor, Bytes.Value, U8;
    var r := RelationOf(f, rs1, rs2);
    CarriesSolve(p, r);
    DecomposedValue(p.witnessRow, 9, r.op1);
    DecomposedValue(p.witnessRow, 13, r.op2);
  }
}
