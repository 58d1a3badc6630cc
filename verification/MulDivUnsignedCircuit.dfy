/** The witness evaluator of the unsigned variant, which leaves out the sign places, two bits of the
    third carry and the whole fourth carry. Places are numbered as in that circuit's layout. */
module MulDivUnsignedCircuit {
  import opened Mersenne31
  import opened Witness
  import opened LimbArithmetic
  import opened MulRelation
  import opened ColumnAccumulator
  import opened RiscvM
  import opened MulDivSemantics
  import opened MulDivCircuit

  /** Flags with both signs clear. */
  predicate Unsigned(f: Flags) {
    !f.signed1 && !f.signed2
  }

  /** The flags in places 30 and 31. */
  function UnsignedFlagsOf(p: Proxy): (f: Flags)
    requires p.Valid(20, 80, 3)
    ensures Unsigned(f)
    reads p.witnessRow
  {
    Flags(Mask(p.witnessRow[30]), Mask(p.witnessRow[31]), false, false)
  }

  /** The flags that this circuit's decoder word spells. */
  function UnsignedFlagsIn(x: nat): Flags {
    Flags(x % 2 == 1, x / 2 % 2 == 1, false, false)
  }

  method EvalFn1To5(p: Proxy)
    requires Ready(p)
    modifies p.witnessRow
    ensures UnsignedFlagsOf(p) == UnsignedFlagsIn(old(p.witnessRow[4])) && p.witnessRow[30] <= 1
    ensures p.witnessRow[30] == old(p.witnessRow[4]) % 2 && p.witnessRow[31] == old(p.witnessRow[4]) / 2 % 2
    ensures p.witnessRow[26] == p.witnessRow[27] == p.witnessRow[28] == p.witnessRow[29] == 0
    ensures OnlyChanged(p.witnessRow, 26, 31, 26, 31)
  {
    var w := p.witnessRow;
    var x := w[4];
    w[26] := 0;
    w[27] := 0;
    w[28] := 0;
    w[29] := 0;
    w[30] := x % 2;
    w[31] := x / 2 % 2;
  }

  lemma UnsignedProduct(f: Flags, rs1: Word, rs2: Word)
    requires Unsigned(f)
    ensures Product(f, rs1, rs2) == rs1 * rs2
  {
    UnsignedProductFits(rs1, rs2);
  }

  /** The two result registers, by the selections that this evaluator makes. */
  method ComputeUnsignedResults(f: Flags, rs1: Word, rs2: Word) returns (first: Word, second: Word)
    requires Unsigned(f)
    ensures (first, second) == Results(f, rs1, rs2)
  {
    hide SignedDivRem, UnsignedDivRem, Product;
    UnsignedProductFits(rs1, rs2);
    UnsignedProduct(f, rs1, rs2);
    var multiplication := !f.division;
    var product := rs1 * rs2;
    var zero := rs2 == 0;
    var divisor: Word := if zero then 0x7FF_FFFF else rs2;
    var (quotient, remainder) := UnsignedDivRem(rs1, divisor);
    first := if multiplication then product % TWO32 else if zero then 0xFFFF_FFFF else quotient;
    second := if multiplication then product / TWO32 else if zero then rs1 else remainder;
  }

  method EvalFn8(p: Proxy)
    requires Ready(p)
    modifies p.witnessRow
    ensures
      var (first, second) := Results(UnsignedFlagsOf(p), Rs1(p), Rs2(p));
      Holds32(p.witnessRow, 20, 21, first) && Holds32(p.witnessRow, 22, 23, second)
    ensures OnlyChanged(p.witnessRow, 20, 23, 20, 23)
  {
    hide Results;
    var w := p.witnessRow;
    var rs1: Word := Add32(TWO16 * U16(p.memoryRow[3]), U16(p.memoryRow[2]));
    var rs2: Word := Add32(TWO16 * U16(p.memoryRow[8]), U16(p.memoryRow[7]));
    assert rs1 == Rs1(p) && rs2 == Rs2(p);
    var first, second := ComputeUnsignedResults(UnsignedFlagsOf(p), rs1, rs2);
    w[20] := first % TWO16;
    w[21] := first / TWO16;
    w[22] := second % TWO16;
    w[23] := second / TWO16;
  }

  /** The first factor, the addend and the destination, chosen between the two kinds of operation. */
  method EvalFn9To16(p: Proxy, ghost first: Word, ghost second: Word)
    requires Ready(p)
    requires Holds32(p.witnessRow, 20, 21, first) && Holds32(p.witnessRow, 22, 23, second)
    modifies p.witnessRow, p.scratchSpace
    ensures
      var w, division := p.witnessRow, Mask(p.witnessRow[30]);
      && Holds32(p.scratchSpace, 0, 1, if division then first else Rs1(p))
      && Holds32(w, 43, 44, if division then second else 0)
      && Holds32(w, 45, 46, if division then Rs1(p) else first)
      && Holds32(w, 47, 48, if division then 0 else second)
    ensures OnlyChanged(p.witnessRow, 43, 48, 43, 48)
  {
    var w, s := p.witnessRow, p.scratchSpace;
    var division := Mask(w[30]);
    s[0] := if !division then p.memoryRow[2] else w[20];
    s[1] := if !division then p.memoryRow[3] else w[21];
    w[43] := if division then w[22] else 0;
    w[44] := if division then w[23] else 0;
    w[45] := if !division then w[20] else p.memoryRow[2];
    w[46] := if !division then w[21] else p.memoryRow[3];
    w[47] := if division then 0 else w[22];
    w[48] := if division then 0 else w[23];
  }

  method EvalFn17To18(p: Proxy, ghost op1: Word)
    requires Ready(p) && Holds32(p.scratchSpace, 0, 1, op1)
    modifies p.witnessRow
    ensures FactorAt(p.witnessRow, 9).Value() == op1 && FactorAt(p.witnessRow, 13).Value() == Rs2(p)
    ensures forall k: nat | 9 <= k < 17 :: p.witnessRow[k] < 0x100
    ensures OnlyChanged(p.witnessRow, 9, 16, 9, 16)
  {
    EvalFn23To24(p, op1);
  }

  method EvalFn19(p: Proxy, ghost a: Bytes, ghost b: Bytes)
    requires Ready(p) && FactorAt(p.witnessRow, 9) == a && FactorAt(p.witnessRow, 13) == b
    modifies p.witnessRow
    ensures
      var w := p.witnessRow;
      StoredCarry(w, 17, 32, 1) == CarryOut(Column0(a, b, old(U16(w[43]))), old(U16(w[45]))) % 0x200
    ensures
      var w := p.witnessRow;
      var c := CarryOut(Column0(a, b, old(U16(w[43]))), old(U16(w[45])));
      w[17] == c % 0x100 && w[32] == c / 0x100 % 2
    ensures p.witnessRow[17] < 0x100 && forall k: nat | 32 <= k < 33 :: p.witnessRow[k] <= 1
    ensures OnlyChanged(p.witnessRow, 17, 17, 32, 32)
  {
    hide Column0, U8, U16, Mask, Bit;
    var w := p.witnessRow;
    var v := Accumulate0(FactorAt(w, 9), FactorAt(w, 13), U16(w[43]), U16(w[45]));
    StoreCarry(w, v / TWO16, 17, 32, 1);
  }

  method EvalFn20(p: Proxy, ghost a: Bytes, ghost b: Bytes)
    requires Ready(p) && FactorAt(p.witnessRow, 9) == a && FactorAt(p.witnessRow, 13) == b
    modifies p.witnessRow
    ensures
      var w := p.witnessRow;
      StoredCarry(w, 18, 33, 2)
      == CarryOut(Column1(a, b, old(U16(w[44]))) + old(StoredCarry(w, 17, 32, 1)), old(U16(w[46]))) % 0x400
    ensures
      var w := p.witnessRow;
      var c := CarryOut(Column1(a, b, old(U16(w[44]))) + old(StoredCarry(w, 17, 32, 1)), old(U16(w[46])));
      w[18] == c % 0x100 && w[33] == c / 0x100 % 2 && w[34] == c / 0x200 % 2
    ensures p.witnessRow[18] < 0x100 && forall k: nat | 33 <= k < 35 :: p.witnessRow[k] <= 1
    ensures OnlyChanged(p.witnessRow, 18, 18, 33, 34)
  {
    hide Column1, U8, U16, Mask, Bit;
    var w := p.witnessRow;
    var carry := StoredCarry(w, 17, 32, 1);
    var v := Accumulate1(FactorAt(w, 9), FactorAt(w, 13), U16(w[44]), carry, U16(w[46]));
    StoreCarry(w, v / TWO16, 18, 33, 2);
  }

  method AccumulateCore2(a: Bytes, b: Bytes, carry: nat, d: nat) returns (v: nat)
    ensures v == (Core2(a, b) + carry - d) % TWO32
  {
    ghost var sum := 0;
    v, sum := AddTerm(0, sum, carry);
    v, sum := AddProduct(v, sum, a.b1, b.b3);
    v, sum := AddProduct(v, sum, a.b2, b.b2);
    v, sum := AddShifted(v, sum, a.b2, b.b3);
    v, sum := AddProduct(v, sum, a.b3, b.b1);
    v, sum := AddShifted(v, sum, a.b3, b.b2);
    v := SubtractLimb(v, sum, d);
  }

  method EvalFn21(p: Proxy, ghost a: Bytes, ghost b: Bytes)
    requires Ready(p) && FactorAt(p.witnessRow, 9) == a && FactorAt(p.witnessRow, 13) == b
    modifies p.witnessRow
    ensures
      var w := p.witnessRow;
      StoredCarry(w, 19, 35, 1) == CarryOut(Core2(a, b) + old(StoredCarry(w, 18, 33, 2)), old(U16(w[47]))) % 0x200
    ensures
      var w := p.witnessRow;
      var c := CarryOut(Core2(a, b) + old(StoredCarry(w, 18, 33, 2)), old(U16(w[47])));
      w[19] == c % 0x100 && w[35] == c / 0x100 % 2
    ensures p.witnessRow[19] < 0x100 && forall k: nat | 35 <= k < 36 :: p.witnessRow[k] <= 1
    ensures OnlyChanged(p.witnessRow, 19, 19, 35, 35)
  {
    hide Core2, U8, U16, Mask, Bit;
    var w := p.witnessRow;
    var carry := StoredCarry(w, 18, 33, 2);
    var v := AccumulateCore2(FactorAt(w, 9), FactorAt(w, 13), carry, U16(w[47]));
    StoreCarry(w, v / TWO16, 19, 35, 1);
  }

  method EvalFn22To25(p: Proxy, ghost first: Word, ghost second: Word)
    requires Ready(p) && p.witnessRow[30] <= 1
    requires Holds32(p.witnessRow, 20, 21, first) && Holds32(p.witnessRow, 22, 23, second)
    modifies p.witnessRow
    ensures Holds32(p.witnessRow, 49, 50, if Mask(p.witnessRow[31]) then first else second)
    ensures p.witnessRow[51] == FromBool(Rs2(p) == 0)
    ensures p.witnessRow[53] == FromBool(Mask(p.witnessRow[30]) && Rs2(p) == 0)
    ensures OnlyChanged(p.witnessRow, 49, 53, 49, 53)
  {
    var w := p.witnessRow;
    w[49] := if Mask(w[31]) then w[20] else w[22];
    w[50] := if Mask(w[31]) then w[21] else w[23];
    ZeroTest(Rs2(p));
    w[51] := FromBool(Add(p.memoryRow[7], p.memoryRow[8]) == 0);
    BooleanFields(Mask(w[30]), Rs2(p) == 0);
    w[53] := Add(0, Mul(w[30], w[51]));
  }

  lemma UnsignedTest(r: Word, d: Word)
    ensures RemainderTest(r, false, d, false) == (r < d)
  {
  }

  /** A word read from two limb places is the word itself. */
  lemma WordOfLimbs(low: nat, high: nat, v: Word)
    requires low == v % TWO16 && high == v / TWO16
    ensures Add32(TWO16 * U16(high), U16(low)) == v
  {
  }

  lemma WrappedDifference(a: Word, b: Word)
    ensures Sub32(a, b) == (a - b) % TWO32
  {
  }

  /** One 32-bit subtraction decides the remainder comparison here. */
  method EvalFn26(p: Proxy, ghost second: Word)
    requires Ready(p) && Holds32(p.witnessRow, 22, 23, second)
    modifies p.witnessRow
    ensures Holds32(p.witnessRow, 24, 25, (second - Rs2(p)) % TWO32)
    ensures p.witnessRow[36] == FromBool(RemainderTest(second, false, Rs2(p), false))
    ensures OnlyChanged(p.witnessRow, 24, 25, 36, 36)
  {
    hide U16, RemainderTest, Add32, Sub32;
    var w := p.witnessRow;
    var remainder := Add32(TWO16 * U16(w[23]), U16(w[22]));
    var divisor := Add32(TWO16 * U16(p.memoryRow[8]), U16(p.memoryRow[7]));
    TwoLimbs(p.memoryRow[7], p.memoryRow[8]);
    WordOfLimbs(w[22], w[23], second);
    WordOfLimbs(p.memoryRow[7], p.memoryRow[8], Rs2(p));
    UnsignedTest(second, Rs2(p));
    WrappedDifference(second, Rs2(p));
    var difference := Sub32(remainder, divisor);
    w[24] := difference % TWO16;
    w[25] := difference / TWO16;
    w[36] := FromBool(remainder < divisor);
  }

  /** Places 37 and 38 hold the carries of pc + 4. */
  ghost predicate UnsignedStepCarries(p: Proxy)
    requires Ready(p)
    reads p.memoryRow, p.witnessRow
  {
    var w, low, high := p.witnessRow, p.memoryRow[18], p.memoryRow[19];
    && w[37] <= 1 && w[38] <= 1
    && 0 <= low + 4 - TWO16 * w[37] < TWO16 && 0 <= high + w[37] - TWO16 * w[38] < TWO16
  }

  method EvalFn30To31(p: Proxy)
    requires Ready(p)
    modifies p.witnessRow
    ensures UnsignedStepCarries(p)
    ensures OnlyChanged(p.witnessRow, 37, 38, 54, 55)
  {
    var w := p.witnessRow;
    w[37] := FromBool(U16(p.memoryRow[18]) + 4 >= TWO16);
    w[38] := FromBool(U16(p.memoryRow[19]) + U16(w[37]) >= TWO16);
  }

  lemma NoFourthCarry(t0: nat, t1: nat, t2: nat, t3: nat, d: Limbs, c0: nat, c1: nat, c2: nat, c3: nat)
    requires t0 == d.d0 + TWO16 * c0 && t1 + c0 == d.d1 + TWO16 * c1
    requires t2 + c1 == d.d2 + TWO16 * c2 && t3 + c2 == d.d3 + TWO16 * c3
    requires t0 + TWO16 * t1 + TWO32 * t2 + TWO48 * t3 == d.Value()
    requires t2 <= 33487875 && c1 <= 1020
    ensures c2 <= 510 && c3 == 0
  {
  }

  /** Without signs the multiply-add is exact over the integers, so the third carry needs nine bits
      and nothing is carried out of the fourth column. */
  lemma UnsignedCarriesClose(a: Bytes, b: Bytes, lo: nat, hi: nat, d: Limbs)
    requires a.Valid() && b.Valid() && lo < TWO16 && hi < TWO16 && d.Valid()
    requires a.Value() * b.Value() + lo + TWO16 * hi == d.Value()
    ensures
      var c0 := CarryOut(Column0(a, b, lo), d.d0);
      var c1 := CarryOut(Column1(a, b, hi) + c0, d.d1);
      var c2 := CarryOut(Core2(a, b) + c1, d.d2);
      && Column0(a, b, lo) == d.d0 + TWO16 * c0 && c0 <= 510
      && Column1(a, b, hi) + c0 == d.d1 + TWO16 * c1 && c1 <= 1020
      && Core2(a, b) + c1 == d.d2 + TWO16 * c2 && c2 <= 510
      && Core3(a, b) + c2 == d.d3
  {
    hide *;
    Core2Bound(a, b);
    UnsignedSum(a, b, lo, hi, d);
    NoExtension(a, b);
    RelationByValue(a, b, lo + TWO16 * hi, d.Value());
    CarriesClose(a, false, b, false, lo, hi, false, d);
    var c0 := CarryOut(Column0(a, b, lo), d.d0);
    var c1 := CarryOut(Column1(a, b, hi) + c0, d.d1);
    var c2 := CarryOut(Core2(a, b) + c1, d.d2);
    var c3 := CarryOut(Core3(a, b) + c2, d.d3);
    NoFourthCarry(Column0(a, b, lo), Column1(a, b, hi), Core2(a, b), Core3(a, b), d, c0, c1, c2, c3);
  }

  /** The weighted columns are the exact multiply-add. */
  lemma UnsignedSum(a: Bytes, b: Bytes, lo: nat, hi: nat, d: Limbs)
    requires lo < TWO16 && hi < TWO16
    requires a.Value() * b.Value() + lo + TWO16 * hi == d.Value()
    ensures Column0(a, b, lo) + TWO16 * Column1(a, b, hi) + TWO32 * Core2(a, b) + TWO48 * Core3(a, b) == d.Value()
  {
    hide *;
    UnsignedSigned(a.Value());
    UnsignedSigned(b.Value());
    UnsignedSigned(lo + TWO16 * hi);
    ColumnsSum(a, false, b, false, lo, hi, false);
    UnsignedOverflow(a, b);
    NoExtension(a, b);
  }

  lemma UnsignedOverflow(a: Bytes, b: Bytes)
    ensures Overflow(a, false, b, false, false) == 0
  {
  }

  lemma NoExtension(a: Bytes, b: Bytes)
    ensures Column2(a, false, b, false, false) == Core2(a, b) && Column3(a, false, b, false, false) == Core3(a, b)
  {
    hide Column2, Column3, Core2, Core3;
    ExtensionColumns(a, false, b, false, false);
  }

  lemma RelationByValue(a: Bytes, b: Bytes, addend: nat, dest: nat)
    requires a.Value() * b.Value() + addend == dest
    ensures Holds(a, false, b, false, addend, false, dest)
  {
    hide Bytes.Value;
  }

  lemma UnsignedSigned(v: nat)
    ensures Signed(v, false) == v
  {
  }

  lemma Core2Bound(a: Bytes, b: Bytes)
    requires a.Valid() && b.Valid()
    ensures Core2(a, b) <= 33487875
  {
    ByteProduct(a.b1, b.b3); ByteProduct(a.b2, b.b2); ByteProduct(a.b2, b.b3);
    ByteProduct(a.b3, b.b1); ByteProduct(a.b3, b.b2);
  }

  /** Products and quotients alike give an exact unsigned multiply-add. */
  lemma UnsignedRelation(f: Flags, rs1: Word, rs2: Word)
    requires Unsigned(f)
    ensures
      var r := RelationOf(f, rs1, rs2);
      && !r.neg1 && !r.neg2 && !r.addNeg
      && r.op1 * rs2 + r.addend == r.low + TWO32 * r.high
      && r.high == if f.division then 0 else Results(f, rs1, rs2).1
  {
    if f.division {
      hide Results, Quot, Rem;
      DivisionHolds(f, rs1, rs2);
    } else {
      UnsignedProductFits(rs1, rs2);
    }
  }

  /** The carries in their places account for all four columns exactly. */
  ghost predicate UnsignedColumnsClosed(p: Proxy, r: Relation)
    requires p.Valid(20, 80, 3)
    reads p.witnessRow
  {
    var w, a, b := p.witnessRow, FactorAt(p.witnessRow, 9), FactorAt(p.witnessRow, 13);
    && a.Value() == r.op1 && b.Value() == r.op2
    && UnsignedCarriesAre(r, a, b, StoredCarry(w, 17, 32, 1), StoredCarry(w, 18, 33, 2), StoredCarry(w, 19, 35, 1))
  }

  ghost predicate UnsignedCarriesAre(r: Relation, a: Bytes, b: Bytes, c0: nat, c1: nat, c2: nat) {
    var d := LimbsOf(r.low, r.high);
    && Column0(a, b, r.addend % TWO16) == d.d0 + TWO16 * c0 && c0 <= 510
    && Column1(a, b, r.addend / TWO16) + c0 == d.d1 + TWO16 * c1 && c1 <= 1020
    && Core2(a, b) + c1 == d.d2 + TWO16 * c2 && c2 <= 510
    && Core3(a, b) + c2 == d.d3
  }

  /** The carries as the columns compute them, cut to 9, 10 and 9 bits. */
  ghost predicate UnsignedCarryChain(r: Relation, a: Bytes, b: Bytes, c0: nat, c1: nat, c2: nat) {
    var d := LimbsOf(r.low, r.high);
    && c0 == CarryOut(Column0(a, b, r.addend % TWO16), d.d0) % 0x200
    && c1 == CarryOut(Column1(a, b, r.addend / TWO16) + c0, d.d1) % 0x400
    && c2 == CarryOut(Core2(a, b) + c1, d.d2) % 0x200
  }

  lemma UnsignedChainExact(f: Flags, rs1: Word, rs2: Word, a: Bytes, b: Bytes, c0: nat, c1: nat, c2: nat)
    requires Unsigned(f) && a.Valid() && b.Valid()
    requires a.Value() == RelationOf(f, rs1, rs2).op1 && b.Value() == rs2
    requires UnsignedCarryChain(RelationOf(f, rs1, rs2), a, b, c0, c1, c2)
    ensures UnsignedCarriesAre(RelationOf(f, rs1, rs2), a, b, c0, c1, c2)
  {
    hide RelationOf, Column0, Column1, Core2, Core3, CarryOut, Bytes.Value, Results, LimbsOf, Limbs.Value;
    var r := RelationOf(f, rs1, rs2);
    var lo, hi, d := r.addend % TWO16, r.addend / TWO16, LimbsOf(r.low, r.high);
    UnsignedRelation(f, rs1, rs2);
    LimbsRejoin(r.addend);
    UnsignedCarriesClose(a, b, lo, hi, d);
    SmallCarry(CarryOut(Column0(a, b, lo), d.d0), 0x200);
    SmallCarry(CarryOut(Column1(a, b, hi) + c0, d.d1), 0x400);
    SmallCarry(CarryOut(Core2(a, b) + c1, d.d2), 0x200);
  }

  lemma LimbsRejoin(v: Word)
    ensures v % TWO16 + TWO16 * (v / TWO16) == v && v % TWO16 < TWO16 && v / TWO16 < TWO16
  {
  }

  /** The row after the factors and limbs of the relation are in place. */
  ghost predicate UnsignedLimbsDone(p: Proxy, f: Flags, rs1: Word, rs2: Word)
    requires p.Valid(20, 80, 3)
    reads p.witnessRow
  {
    var w, r := p.witnessRow, RelationOf(f, rs1, rs2);
    && UnsignedFlagsOf(p) == f && w[30] <= 1
    && Holds32(w, 20, 21, Results(f, rs1, rs2).0) && Holds32(w, 22, 23, Results(f, rs1, rs2).1)
    && Holds32(w, 43, 44, r.addend) && Holds32(w, 45, 46, r.low) && Holds32(w, 47, 48, r.high)
  }

  method EvaluateUnsignedLimbs(p: Proxy, ghost f: Flags)
    requires Ready(p) && f == UnsignedFlagsIn(p.witnessRow[4])
    modifies p.witnessRow, p.scratchSpace
    ensures UnsignedLimbsDone(p, f, Rs1(p), Rs2(p))
    ensures Holds32(p.scratchSpace, 0, 1, RelationOf(f, Rs1(p), Rs2(p)).op1)
  {
    hide Results, UnsignedFlagsIn, Bit, Mask;
    ghost var rs1, rs2 := Rs1(p), Rs2(p);
    ghost var first, second := Results(f, rs1, rs2).0, Results(f, rs1, rs2).1;
    EvalFn1To5(p);
    EvalFn8(p);
    assert UnsignedFlagsOf(p) == f;
    EvalFn9To16(p, first, second);
    assert UnsignedFlagsOf(p) == f;
    UnsignedRelation(f, rs1, rs2);
  }

  /** What the range checks demand: byte places hold bytes, and the bits of the carries are boolean. */
  ghost predicate UnsignedInRange(row: array<Fp>)
    requires row.Length >= 80
    reads row
  {
    && (forall k: nat | 9 <= k < 20 :: row[k] < 0x100)
    && (forall k: nat | 32 <= k < 36 :: row[k] <= 1)
  }

  method EvaluateUnsignedColumns(p: Proxy, ghost f: Flags, ghost a: Bytes, ghost b: Bytes)
    requires Ready(p) && UnsignedLimbsDone(p, f, Rs1(p), Rs2(p))
    requires FactorAt(p.witnessRow, 9) == a && FactorAt(p.witnessRow, 13) == b
    requires forall k: nat | 9 <= k < 17 :: p.witnessRow[k] < 0x100
    modifies p.witnessRow
    ensures UnsignedInRange(p.witnessRow)
    ensures
      var w := p.witnessRow;
      UnsignedCarryChain(RelationOf(f, Rs1(p), Rs2(p)), a, b,
                         StoredCarry(w, 17, 32, 1), StoredCarry(w, 18, 33, 2), StoredCarry(w, 19, 35, 1))
    ensures OnlyChanged(p.witnessRow, 17, 19, 32, 35)
  {
    hide Column0, Column1, Core2, CarryOut, U8, Bit, RelationOf, Results, Mask;
    ghost var w := p.witnessRow;
    EvalFn19(p, a, b);
    ghost var c0 := StoredCarry(w, 17, 32, 1);
    EvalFn20(p, a, b);
    ghost var c1 := StoredCarry(w, 18, 33, 2);
    assert StoredCarry(w, 17, 32, 1) == c0;
    EvalFn21(p, a, b);
    assert StoredCarry(w, 17, 32, 1) == c0 && StoredCarry(w, 18, 33, 2) == c1;
  }

  /** The value for rd, the zero-divisor trap and the remainder comparison. */
  ghost predicate UnsignedChecksDone(p: Proxy, f: Flags, rs1: Word, rs2: Word)
    requires p.Valid(20, 80, 3)
    reads p.witnessRow
  {
    var w, first, second := p.witnessRow, Results(f, rs1, rs2).0, Results(f, rs1, rs2).1;
    && Holds32(w, 49, 50, if f.first then first else second)
    && w[51] == FromBool(rs2 == 0) && w[53] == FromBool(f.division && rs2 == 0)
    && w[36] == FromBool(RemainderTest(second, false, rs2, false))
  }

  method EvaluateUnsignedChecks(p: Proxy, ghost f: Flags)
    requires Ready(p) && UnsignedLimbsDone(p, f, Rs1(p), Rs2(p))
    modifies p.witnessRow
    ensures UnsignedLimbsDone(p, f, Rs1(p), Rs2(p))
    ensures UnsignedChecksDone(p, f, Rs1(p), Rs2(p)) && UnsignedStepCarries(p)
    ensures forall k: nat | 9 <= k < 20 || 32 <= k < 36 :: p.witnessRow[k] == old(p.witnessRow[k])
  {
    hide Results, RemainderTest, FromBool, RelationOf, Mask;
    ghost var first, second := Results(f, Rs1(p), Rs2(p)).0, Results(f, Rs1(p), Rs2(p)).1;
    EvalFn22To25(p, first, second);
    EvalFn26(p, second);
    EvalFn30To31(p);
  }

  /** What one evaluation leaves in the row, whatever the row held before. */
  ghost predicate UnsignedEvaluated(p: Proxy, f: Flags, rs1: Word, rs2: Word)
    requires p.Valid(20, 80, 3)
    reads p.witnessRow
  {
    && UnsignedLimbsDone(p, f, rs1, rs2)
    && UnsignedColumnsClosed(p, RelationOf(f, rs1, rs2)) && UnsignedChecksDone(p, f, rs1, rs2)
  }

  method EvaluateUnsignedRow(p: Proxy, ghost f: Flags)
    requires Ready(p) && f == UnsignedFlagsIn(p.witnessRow[4])
    modifies p.witnessRow, p.scratchSpace
    ensures UnsignedEvaluated(p, f, Rs1(p), Rs2(p)) && UnsignedStepCarries(p) && UnsignedInRange(p.witnessRow)
  {
    hide Results, UnsignedFlagsIn, Bytes.Value, U8, UnsignedCarriesAre, UnsignedCarryChain, RelationOf,
      UnsignedChecksDone, Bit, Mask;
    ghost var rs1, rs2, w := Rs1(p), Rs2(p), p.witnessRow;
    ghost var r := RelationOf(f, rs1, rs2);
    EvaluateUnsignedLimbs(p, f);
    EvalFn17To18(p, r.op1);
    ghost var a, b := FactorAt(w, 9), FactorAt(w, 13);
    assert UnsignedFlagsOf(p) == f;
    EvaluateUnsignedColumns(p, f, a, b);
    assert UnsignedFlagsOf(p) == f;
    ghost var c0, c1, c2 := StoredCarry(w, 17, 32, 1), StoredCarry(w, 18, 33, 2), StoredCarry(w, 19, 35, 1);
    EvaluateUnsignedChecks(p, f);
    assert FactorAt(w, 9) == a && FactorAt(w, 13) == b;
    assert StoredCarry(w, 17, 32, 1) == c0 && StoredCarry(w, 18, 33, 2) == c1 && StoredCarry(w, 19, 35, 1) == c2;
    RelationFactor(f, rs1, rs2);
    UnsignedChainExact(f, rs1, rs2, a, b, c0, c1, c2);
  }

  /** The decoder word of the four instructions that this circuit supports. */
  function UnsignedSelector(op: Operation): (s: nat)
    requires op in {MUL, MULHU, DIVU, REMU}
  {
    match op
    case MUL => 2
    case MULHU => 0
    case DIVU => 3
    case _ => 1
  }

  /** For the four instructions the chosen register is what the manual asks for; MUL needs no sign. */
  lemma UnsignedResultsAreIsa(op: Operation, rs1: Word, rs2: Word)
    requires op in {MUL, MULHU, DIVU, REMU}
    ensures
      var f := UnsignedFlagsIn(UnsignedSelector(op));
      var (first, second) := Results(f, rs1, rs2);
      (if f.first then first else second) == Result(op, rs1, rs2)
  {
    HalvesOf(rs1 * rs2);
    UnsignedProductFits(rs1, rs2);
  }

  /** The columns close over the places as they stand, with nothing carried out of the fourth. */
  lemma UnsignedColumnsOnPlaces(p: Proxy, f: Flags, rs1: Word, rs2: Word)
    requires Unsigned(f) && p.Valid(20, 80, 3) && UnsignedInRange(p.witnessRow) && UnsignedEvaluated(p, f, rs1, rs2)
    ensures
      var w := p.witnessRow;
      Balanced(Bytes(w[9], w[10], w[11], w[12]), false, Bytes(w[13], w[14], w[15], w[16]), false,
               w[43], w[44], false, Limbs(w[45], w[46], w[47], w[48]),
               w[17] + 0x100 * w[32], w[18] + 0x100 * w[33] + 0x200 * w[34], w[19] + 0x100 * w[35], 0)
  {
    hide Column0, Column1, Column2, Column3, Core2, Core3, StoredCarry, FactorAt, Bytes.Value, RelationOf, Results,
      RemainderTest, UnsignedChecksDone, UnsignedFlagsOf;
    var w := p.witnessRow;
    NoExtension(FactorAt(w, 9), FactorAt(w, 13));
    FactorPlaces(w, 9);
    FactorPlaces(w, 13);
    CarryPlaces(w, 17, 32, 1);
    CarryPlaces(w, 18, 33, 2);
    CarryPlaces(w, 19, 35, 1);
  }

  /** What the finished row means under each of the four decoder words. */
  lemma UnsignedRowMeans(p: Proxy, x: nat, rs1: Word, rs2: Word)
    requires p.Valid(20, 80, 3) && x < 4 && UnsignedEvaluated(p, UnsignedFlagsIn(x), rs1, rs2)
    ensures
      var op := match x case 2 => MUL case 0 => MULHU case 3 => DIVU case _ => REMU;
      Holds32(p.witnessRow, 49, 50, Result(op, rs1, rs2))
    ensures x % 2 == 1 && rs2 != 0 ==> p.witnessRow[36] == 1
    ensures x % 2 == 1 && rs2 == 0 ==> p.witnessRow[20] == 0xFFFF && p.witnessRow[21] == 0xFFFF
  {
    hide Results, Result, RelationOf, RemainderTest, UnsignedColumnsClosed, UnsignedFlagsOf, Negative1, Negative2,
      NegativeRemainder;
    var op := match x case 2 => MUL case 0 => MULHU case 3 => DIVU case _ => REMU;
    UnsignedResultsAreIsa(op, rs1, rs2);
    var f := UnsignedFlagsIn(x);
    if f.division {
      DivisionChecksPass(f, rs1, rs2);
      UnsignedSigns(f, rs1, rs2);
    }
  }

  lemma UnsignedSigns(f: Flags, rs1: Word, rs2: Word)
    requires Unsigned(f)
    ensures !Negative2(f, rs2) && forall r: Word :: !NegativeRemainder(Negative1(f, rs1), r)
  {
  }

  /** One evaluation of the row. In terms of places: under each of the four decoder words, 49 and 50 hold
      the result of the instruction, the columns close, the division rules pass, and 37 and 38 are the
      carries of pc + 4. */
  method EvaluateUnsignedWitness(p: Proxy, ghost f: Flags)
    requires Ready(p) && f == UnsignedFlagsIn(p.witnessRow[4])
    modifies p.witnessRow, p.scratchSpace
    ensures UnsignedEvaluated(p, f, Rs1(p), Rs2(p)) && UnsignedStepCarries(p) && UnsignedInRange(p.witnessRow)
    ensures
      var m, w, x := p.memoryRow, p.witnessRow, old(p.witnessRow[4]);
      x < 4 ==>
        var op := match x case 2 => MUL case 0 => MULHU case 3 => DIVU case _ => REMU;
        var v := Result(op, m[2] + TWO16 * m[3], m[7] + TWO16 * m[8]);
        && w[49] == v % TWO16 && w[50] == v / TWO16
        && (x % 2 == 1 ==> if m[7] == m[8] == 0 then w[20] == w[21] == 0xFFFF else w[36] == 1)
    ensures
      var w := p.witnessRow;
      Balanced(Bytes(w[9], w[10], w[11], w[12]), false, Bytes(w[13], w[14], w[15], w[16]), false,
               w[43], w[44], false, Limbs(w[45], w[46], w[47], w[48]),
               w[17] + 0x100 * w[32], w[18] + 0x100 * w[33] + 0x200 * w[34], w[19] + 0x100 * w[35], 0)
    ensures
      var m, w := p.memoryRow, p.witnessRow;
      && w[37] <= 1 && w[38] <= 1
      && 0 <= m[18] + 4 - TWO16 * w[37] < TWO16 && 0 <= m[19] + w[37] - TWO16 * w[38] < TWO16
  {
    hide Result, RelationOf, UnsignedEvaluated, UnsignedFlagsIn, UnsignedInRange, Balanced;
    ghost var x := p.witnessRow[4];
    EvaluateUnsignedRow(p, f);
    assert Unsigned(f) by {
      FlagsUnsigned(x);
    }
    UnsignedColumnsOnPlaces(p, f, Rs1(p), Rs2(p));
    if x < 4 {
      UnsignedRowMeans(p, x, Rs1(p), Rs2(p));
    }
  }

  lemma FlagsUnsigned(x: nat)
    ensures Unsigned(UnsignedFlagsIn(x))
  {
  }

  lemma LowByte(x: nat, y: nat, u: nat, v: nat)
    requires x < 256 && y < 256 && x + 256 * u == y + 256 * v
    ensures x == y && u == v
  {
  }

  lemma BytesUnique(a: Bytes, b: Bytes)
    requires a.Valid() && b.Valid() && a.Value() == b.Value()
    ensures a == b
  {
    LowByte(a.b0, b.b0, a.b1 + 256 * (a.b2 + 256 * a.b3), b.b1 + 256 * (b.b2 + 256 * b.b3));
    LowByte(a.b1, b.b1, a.b2 + 256 * a.b3, b.b2 + 256 * b.b3);
    LowByte(a.b2, b.b2, a.b3, b.b3);
  }

  /** The carries of both circuits are fixed by the relation, hence equal. */
  lemma SameCarries(r: Relation, a: Bytes, b: Bytes, u0: nat, u1: nat, u2: nat, s0: nat, s1: nat, s2: nat, s3: nat)
    requires !r.neg1 && !r.neg2 && !r.addNeg
    requires UnsignedCarriesAre(r, a, b, u0, u1, u2) && CarriesAre(r, a, b, s0, s1, s2, s3)
    ensures u0 == s0 && u1 == s1 && u2 == s2 && s3 == 0
  {
    hide Column0, Column1, Column2, Column3, Core2, Core3, LimbsOf;
    NoExtension(a, b);
  }

  /** A row of this circuit and a row of the signed one with both sign flags clear agree on the value
      for rd, the bytes, the carries, the trap and the remainder check; the places that only the
      signed circuit has hold zero. */
  lemma AgreesWithSigned(u: Proxy, s: Proxy, f: Flags, rs1: Word, rs2: Word)
    requires Unsigned(f) && u.Valid(20, 80, 3) && s.Valid(20, 80, 3)
    requires UnsignedEvaluated(u, f, rs1, rs2) && Evaluated(s, f, rs1, rs2)
    ensures u.witnessRow[49] == s.witnessRow[67] && u.witnessRow[50] == s.witnessRow[68]
    ensures FactorAt(u.witnessRow, 9) == FactorAt(s.witnessRow, 9)
    ensures FactorAt(u.witnessRow, 13) == FactorAt(s.witnessRow, 13)
    ensures StoredCarry(u.witnessRow, 17, 32, 1) == StoredCarry(s.witnessRow, 17, 35, 1)
    ensures StoredCarry(u.witnessRow, 18, 33, 2) == StoredCarry(s.witnessRow, 18, 36, 2)
    ensures StoredCarry(u.witnessRow, 19, 35, 1) == StoredCarry(s.witnessRow, 19, 38, 3)
    ensures StoredCarry(s.witnessRow, 20, 41, 3) == 0
    ensures u.witnessRow[53] == s.witnessRow[71] && u.witnessRow[36] == s.witnessRow[77]
    ensures s.witnessRow[33] == 0 && s.witnessRow[34] == 0 && s.witnessRow[55] == 0 && s.witnessRow[58] == 0
  {
    hide Results, RemainderTest, RelationOf, FactorAt, StoredCarry, Bytes.Value, Result, CarriesAre, UnsignedCarriesAre,
      Mask, Decoded, FlagsOf, UnsignedFlagsOf;
    UnsignedRelation(f, rs1, rs2);
    var uw, sw := u.witnessRow, s.witnessRow;
    BytesUnique(FactorAt(uw, 9), FactorAt(sw, 9));
    BytesUnique(FactorAt(uw, 13), FactorAt(sw, 13));
    SameCarries(RelationOf(f, rs1, rs2), FactorAt(uw, 9), FactorAt(uw, 13),
                StoredCarry(uw, 17, 32, 1), StoredCarry(uw, 18, 33, 2), StoredCarry(uw, 19, 35, 1),
                StoredCarry(sw, 17, 35, 1), StoredCarry(sw, 18, 36, 2), StoredCarry(sw, 19, 38, 3),
                StoredCarry(sw, 20, 41, 3));
  }
}
