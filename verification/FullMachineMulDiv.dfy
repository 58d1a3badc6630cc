/** Multiplication and division in the full machine. Its circuit shares places with every other
    instruction, guards both failing divisions, and takes the divisor and the quotient as factors.
    Methods are named after the evaluation functions they model. */
module FullMachineMulDiv {
  import opened Mersenne31
  import opened Witness
  import opened LimbArithmetic
  import opened MulRelation
  import opened ColumnAccumulator
  import opened RiscvM
  import opened MulDivSemantics
  import M = MulDivCircuit
  import R = FullMachineResult

  /** The three shared minor flags: mul, mulh and mulhsu, or div, divu and rem. */
  datatype Minor = Minor(a: bool, b: bool, c: bool)

  /** What they mean under one of the two major flags. */
  function FlagsOf(division: bool, k: Minor): (f: Flags)
    ensures M.Consistent(f)
  {
    if division then Flags(true, k.a || k.b, k.a || k.c, k.a || k.c) else Flags(false, k.a, k.b || k.c, k.b)
  }

  /** The flags that the decoder gives to an instruction. */
  function Encoding(op: Operation): (bool, Minor) {
    match op
    case MUL => (false, Minor(true, false, false))
    case MULH => (false, Minor(false, true, false))
    case MULHSU => (false, Minor(false, false, true))
    case MULHU => (false, Minor(false, false, false))
    case DIV => (true, Minor(true, false, false))
    case DIVU => (true, Minor(false, true, false))
    case REM => (true, Minor(false, false, true))
    case REMU => (true, Minor(false, false, false))
  }

  lemma UnsignedMul(rs1: Word, rs2: Word)
    ensures Results(Flags(false, true, false, false), rs1, rs2).0 == Result(MUL, rs1, rs2)
  {
    HalvesOf(rs1 * rs2);
  }

  /** For each of the eight instructions the chosen register holds what the manual asks for. */
  lemma ResultsAreIsaHere(op: Operation, rs1: Word, rs2: Word)
    ensures
      var f := FlagsOf(Encoding(op).0, Encoding(op).1);
      var (first, second) := Results(f, rs1, rs2);
      (if f.first then first else second) == Result(op, rs1, rs2)
  {
    hide Results, Result;
    if op == MUL {
      UnsignedMul(rs1, rs2);
    } else {
      ResultsAreIsa(op, rs1, rs2);
    }
  }

  /** A row of one of the two classes: the operands, their sign bits and the decoded flags. */
  datatype Row = Row(division: bool, k: Minor, rs1: Word, rs2: Word) {
    function Flags(): (f: MulDivSemantics.Flags)
      ensures M.Consistent(f) && f.division == division
    {
      FlagsOf(division, k)
    }

    function First(): Word {
      Results(Flags(), rs1, rs2).0
    }

    function Second(): Word {
      Results(Flags(), rs1, rs2).1
    }

    predicate N1() {
      Negative1(Flags(), rs1)
    }

    predicate N2() {
      Negative2(Flags(), rs2)
    }

    /** The sign bits under the signedness that the flags would mean for a division. */
    predicate D1() {
      rs1 >= 0x8000_0000 && (k.a || k.c)
    }

    predicate D2() {
      rs2 >= 0x8000_0000 && (k.a || k.c)
    }

    /** The remainder's sign as the row derives it. */
    predicate RemainderNegative() {
      D1() && !(!division || Second() == 0)
    }

    predicate NQ() {
      NegativeQuotient(N1(), N2(), First())
    }

    predicate NR() {
      NegativeRemainder(N1(), Second())
    }

    /** The relation that the columns check: divisor times quotient plus remainder, or the product. */
    function Relation(): M.Relation {
      if division then
        M.Relation(rs2, N2(), First(), NQ(), Second(), NR(), rs1, (TWO32 - 1) * Bit(N1()))
      else M.Relation(rs1, N1(), rs2, N2(), 0, false, First(), Second())
    }

    function Class(): R.Class {
      if division then R.DivRem else R.Mul
    }

    ghost predicate Read(p: Proxy)
      reads p.memoryRow, p.witnessRow
    {
      var w := p.witnessRow;
      && p.Valid(15, 197, 7) && Holds32(p.memoryRow, 8, 9, rs1) && Holds32(w, 114, 93, rs2)
      && w[91] == FromBool(rs1 >= 0x8000_0000) && w[94] == FromBool(rs2 >= 0x8000_0000)
      && w[45] == 0 && w[47] == FromBool(division) && w[51] == FromBool(!division)
      && w[55] == FromBool(k.a) && w[56] == FromBool(k.b) && w[57] == FromBool(k.c)
    }
  }

  /** The relation holds whichever factor comes first. */
  lemma RelationHoldsHere(x: Row, a: Bytes, b: Bytes)
    requires a.Value() == x.Relation().op1 && b.Value() == x.Relation().op2
    ensures
      var r := x.Relation();
      Holds(a, r.neg1, b, r.neg2, r.addend, r.addNeg, r.low + TWO32 * r.high)
  {
    hide Results, Bytes.Value, Signed, Negative1, Negative2, NegativeQuotient, NegativeRemainder, Row.Flags;
    var r := x.Relation();
    if x.division {
      M.RelationHolds(x.Flags(), x.rs1, x.rs2, b, a);
      var u, v := Signed(a.Value(), r.neg1), Signed(b.Value(), r.neg2);
      assert u * v == v * u;
    } else {
      M.RelationHolds(x.Flags(), x.rs1, x.rs2, a, b);
    }
  }

  /** So the carries come out exact and small in this circuit too. */
  lemma CarriesExactHere(x: Row, a: Bytes, b: Bytes, c0: nat, c1: nat, c2: nat, c3: nat)
    requires a.Valid() && b.Valid() && a.Value() == x.Relation().op1 && b.Value() == x.Relation().op2
    requires M.CarryChain(x.Relation(), a, b, c0, c1, c2, c3)
    ensures M.CarriesAre(x.Relation(), a, b, c0, c1, c2, c3)
  {
    hide *;
    RelationHoldsHere(x, a, b);
    M.ChainCloses(x.Relation(), a, b, c0, c1, c2, c3);
  }

  function OrField(a: Fp, b: Fp): Fp {
    Add(Add(Sub(0, Mul(a, b)), a), b)
  }

  lemma OrOf(a: bool, b: bool)
    ensures OrField(FromBool(a), FromBool(b)) == FromBool(a || b)
  {
  }

  /** The signs of the factors of a product. */
  method EvalFn30To32(p: Proxy, ghost x: Row)
    requires x.Read(p)
    modifies p.witnessRow
    ensures !x.division ==> p.witnessRow[123] == FromBool(x.N1()) && p.witnessRow[124] == FromBool(x.N2())
    ensures p.witnessRow[122] == FromBool(x.k.b || x.k.c) && p.witnessRow[123] <= 1 && p.witnessRow[124] <= 1
    ensures OnlyChanged(p.witnessRow, 122, 124, 122, 124)
  {
    hide OrField, Results;
    var w := p.witnessRow;
    OrOf(x.k.b, x.k.c);
    w[122] := OrField(w[56], w[57]);
    w[123] := FromBool(if Mask(w[122]) then Mask(w[91]) else false);
    w[124] := FromBool(if Mask(w[56]) then Mask(w[94]) else false);
  }

  function Product64(u: int, v: int): (p: nat)
    ensures p < TWO64
  {
    (u * v) % TWO64
  }

  lemma ProductCommutes(u: int, v: int)
    ensures Product64(u, v) == Product64(v, u)
  {
  }

  /** With the signs known, the evaluator picks one of four kinds of product. All that matters is the
      signed product modulo 2^64. */
  method ComputeProduct(n1: bool, n2: bool, rs1: Word, rs2: Word) returns (p: nat)
    requires (n1 ==> rs1 >= 0x8000_0000) && (n2 ==> rs2 >= 0x8000_0000)
    ensures p == Product64(Signed(rs1, n1), Signed(rs2, n2))
  {
    hide Product64;
    ProductCommutes(AsSigned(rs2), rs1);
    p := if !n1 && !n2 then Product64(rs1, rs2) else 0;
    p := if n1 && n2 then Product64(AsSigned(rs1), AsSigned(rs2)) else p;
    p := if n1 && !n2 then Product64(AsSigned(rs1), rs2) else p;
    p := if !n1 && n2 then Product64(AsSigned(rs2), rs1) else p;
  }

  lemma ProductBySigns(x: Row)
    requires !x.division
    ensures Product64(Signed(x.rs1, x.N1()), Signed(x.rs2, x.N2())) == Product(x.Flags(), x.rs1, x.rs2)
  {
  }

  /** A register pair written under a flag. */
  method StorePair(row: array<Fp>, flag: bool, first: Word, second: Word)
    requires row.Length > 26
    modifies row
    ensures flag ==> Holds32(row, 23, 24, first) && Holds32(row, 25, 26, second)
    ensures !flag ==> forall k: nat | k < row.Length :: row[k] == old(row[k])
    ensures OnlyChanged(row, 23, 26, 23, 26)
  {
    row[23] := if flag then first % TWO16 else row[23];
    row[24] := if flag then first / TWO16 else row[24];
    row[25] := if flag then second % TWO16 else row[25];
    row[26] := if flag then second / TWO16 else row[26];
  }

  /** The product, written twice by two identical functions. */
  method EvalFn33To34(p: Proxy, ghost x: Row)
    requires x.Read(p) && p.witnessRow[123] <= 1 && p.witnessRow[124] <= 1
    requires !x.division ==> p.witnessRow[123] == FromBool(x.N1()) && p.witnessRow[124] == FromBool(x.N2())
    modifies p.witnessRow
    ensures !x.division ==> Holds32(p.witnessRow, 23, 24, x.First()) && Holds32(p.witnessRow, 25, 26, x.Second())
    ensures OnlyChanged(p.witnessRow, 23, 26, 23, 26)
  {
    hide Product, Product64, Division, Row.N1, Row.N2, Signed, Row.Flags;
    var w := p.witnessRow;
    var rs1 := ReadWord(p.memoryRow, 8, 9, x.rs1);
    var rs2 := ReadWord(w, 114, 93, x.rs2);
    if Mask(w[51]) {
      SignsFit(x);
      ProductBySigns(x);
      var product := ComputeProduct(Mask(w[123]), Mask(w[124]), rs1, rs2);
      StorePair(w, true, product % TWO32, product / TWO32);
    }
  }

  lemma SignsFit(x: Row)
    ensures x.N1() ==> x.rs1 >= 0x8000_0000
    ensures x.N2() ==> x.rs2 >= 0x8000_0000
  {
  }

  /** The signs of dividend and divisor, their extension, and the choice of result. */
  method EvalFn35To37(p: Proxy, ghost x: Row)
    requires x.Read(p)
    modifies p.witnessRow, p.scratchSpace
    ensures p.witnessRow[127] == FromBool(x.k.a || x.k.c)
    ensures p.witnessRow[128] == FromBool(x.D2()) && p.scratchSpace[1] == FromBool(x.D1())
    ensures OnlyChanged(p.witnessRow, 127, 128, 127, 128)
  {
    hide OrField, Add, Mul, Results;
    var w := p.witnessRow;
    OrOf(x.k.a, x.k.c);
    w[127] := OrField(w[55], w[57]);
    ProductOfFlags(x.rs2 >= 0x8000_0000, x.k.a || x.k.c);
    w[128] := Add(0, Mul(w[94], w[127]));
    ProductOfFlags(x.rs1 >= 0x8000_0000, x.k.a || x.k.c);
    p.scratchSpace[1] := Add(0, Mul(w[91], w[127]));
  }

  /** Quotient and remainder, with a divisor of one in the two cases that a division cannot take. */
  method ComputeDivision(signed: bool, rs1: Word, rs2: Word) returns (quotient: Word, remainder: Word)
    ensures (quotient, remainder) == Division(Flags(true, true, signed, signed), rs1, rs2)
  {
    hide Quot, Rem;
    var nonzero := rs2 != 0;
    var overflows := rs1 == 0x8000_0000 && rs2 == 0xFFFF_FFFF;
    var divisor: Word := if nonzero then rs2 else 1;
    var signedDivisor: Word := if overflows then 1 else divisor;
    var q, r := ToWord(Quot(AsSigned(rs1), AsSigned(signedDivisor))),
      ToWord(Rem(AsSigned(rs1), AsSigned(signedDivisor)));
    var signedQuotient: Word := if !nonzero then 0xFFFF_FFFF else if overflows then 0x8000_0000 else q;
    var signedRemainder: Word := if !nonzero then rs1 else if overflows then 0 else r;
    var (q', r') := UnsignedDivRem(rs1, divisor);
    quotient := if signed then signedQuotient else if nonzero then q' else 0xFFFF_FFFF;
    remainder := if signed then signedRemainder else if nonzero then r' else rs1;
  }

  method EvalFn38(p: Proxy, ghost x: Row)
    requires x.Read(p) && p.witnessRow[127] == FromBool(x.k.a || x.k.c)
    requires !x.division ==> Holds32(p.witnessRow, 23, 24, x.First()) && Holds32(p.witnessRow, 25, 26, x.Second())
    modifies p.witnessRow
    ensures Holds32(p.witnessRow, 23, 24, x.First()) && Holds32(p.witnessRow, 25, 26, x.Second())
    ensures OnlyChanged(p.witnessRow, 23, 26, 23, 26)
  {
    hide SignedDivRem, UnsignedDivRem, Product;
    var w := p.witnessRow;
    var rs1 := ReadWord(p.memoryRow, 8, 9, x.rs1);
    var rs2 := ReadWord(w, 114, 93, x.rs2);
    var quotient, remainder := ComputeDivision(Mask(w[127]), rs1, rs2);
    StorePair(w, Mask(w[47]), quotient, remainder);
  }

  lemma DivisionSigns(x: Row)
    requires x.division
    ensures x.D1() == x.N1() && x.D2() == x.N2()
  {
  }

  method EvalFn39To41(p: Proxy, ghost x: Row)
    requires x.Read(p) && p.witnessRow[128] == FromBool(x.D2()) && p.scratchSpace[1] == FromBool(x.D1())
    modifies p.witnessRow
    ensures p.witnessRow[129] == FromBool(x.D1() != x.D2()) && p.witnessRow[132] == 0xFFFF * Bit(x.D1())
    ensures p.witnessRow[142] == FromBool(x.k.a || x.k.b)
    ensures OnlyChanged(p.witnessRow, 129, 132, 142, 142)
  {
    hide XorField, OrField, Row.D1, Row.D2;
    var w := p.witnessRow;
    BooleanFields(x.D2(), x.D1());
    w[129] := XorField(w[128], p.scratchSpace[1]);
    w[132] := Add(0, Mul(65535, p.scratchSpace[1]));
    OrOf(x.k.a, x.k.b);
    w[142] := OrField(w[55], w[56]);
  }

  /** The zero tests of quotient, remainder and divisor, which are gated by their classes. */
  method EvalFn62To64(p: Proxy, ghost x: Row, ghost q: Word)
    requires x.Read(p) && Holds32(p.witnessRow, 23, 24, q)
    modifies p.witnessRow
    ensures Holds32(p.witnessRow, 172, 173, if x.division then q else 0)
    ensures p.witnessRow[59] == FromBool(!x.division || q == 0)
    ensures OnlyChanged(p.witnessRow, 59, 59, 172, 174)
  {
    var w := p.witnessRow;
    var v := R.AddWhen(0, w[47], w[23], x.division);
    v := R.AddWhen(v, w[45], w[23], false);
    w[172] := v;
    v := R.AddWhen(0, w[47], w[24], x.division);
    v := R.AddWhen(v, w[45], w[24], false);
    w[173] := v;
    ZeroTest(q);
    w[59] := FromBool(Add(w[172], w[173]) == 0);
  }

  method EvalFn65To67(p: Proxy, ghost x: Row, ghost r: Word)
    requires x.Read(p) && Holds32(p.witnessRow, 25, 26, r)
    modifies p.witnessRow
    ensures Holds32(p.witnessRow, 175, 176, if x.division then r else 0)
    ensures p.witnessRow[60] == FromBool(!x.division || r == 0)
    ensures OnlyChanged(p.witnessRow, 60, 60, 175, 177)
  {
    var w := p.witnessRow;
    w[175] := if Mask(w[47]) then Add(0, w[25]) else 0;
    w[176] := if Mask(w[47]) then Add(0, w[26]) else 0;
    ZeroTest(r);
    w[60] := FromBool(Add(w[175], w[176]) == 0);
  }

  method EvalFn68To70(p: Proxy, ghost x: Row)
    requires x.Read(p)
    modifies p.witnessRow
    ensures Holds32(p.witnessRow, 178, 179, if x.division then x.rs2 else 0)
    ensures p.witnessRow[61] == FromBool(!x.division || x.rs2 == 0)
    ensures OnlyChanged(p.witnessRow, 61, 61, 178, 180)
  {
    var w := p.witnessRow;
    w[178] := if Mask(w[47]) then Add(0, w[114]) else 0;
    w[179] := if Mask(w[47]) then Add(0, w[93]) else 0;
    ZeroTest(x.rs2);
    w[61] := FromBool(Add(w[178], w[179]) == 0);
  }

  /** One limb chosen between the two classes, by sums that only the active class adds to. */
  function OneOf(division: Fp, ifDivision: Fp, multiplication: Fp, ifMultiplication: Fp): Fp {
    var v := if Mask(multiplication) then Add(0, ifMultiplication) else 0;
    if Mask(division) then Add(v, ifDivision) else v
  }

  lemma OneOfIs(division: bool, a: Fp, b: Fp)
    ensures OneOf(FromBool(division), a, FromBool(!division), b) == if division then a else b
  {
  }

  /** The factors and the sign of the first one. */
  method EvalFn74To78(p: Proxy, ghost x: Row, ghost q: Word)
    requires x.Read(p) && Holds32(p.witnessRow, 23, 24, q)
    modifies p.witnessRow, p.scratchSpace
    ensures Holds32(p.scratchSpace, 2, 3, if x.division then x.rs2 else x.rs1)
    ensures Holds32(p.scratchSpace, 4, 5, if x.division then q else x.rs2)
    ensures p.witnessRow[181] == if x.division then p.witnessRow[128] else p.witnessRow[123]
    ensures p.scratchSpace[1] == old(p.scratchSpace[1])
    ensures OnlyChanged(p.witnessRow, 181, 181, 181, 181)
  {
    hide OneOf, FromBool;
    var w, m, s := p.witnessRow, p.memoryRow, p.scratchSpace;
    OneOfIs(x.division, w[114], m[8]);
    s[2] := OneOf(w[47], w[114], w[51], m[8]);
    OneOfIs(x.division, w[93], m[9]);
    s[3] := OneOf(w[47], w[93], w[51], m[9]);
    OneOfIs(x.division, w[128], w[123]);
    w[181] := OneOf(w[47], w[128], w[51], w[123]);
    OneOfIs(x.division, w[23], w[114]);
    s[4] := OneOf(w[47], w[23], w[51], w[114]);
    OneOfIs(x.division, w[24], w[93]);
    s[5] := OneOf(w[47], w[24], w[51], w[93]);
  }

  /** The addend and the destination. */
  method EvalFn79To84(p: Proxy, ghost x: Row, ghost first: Word, ghost second: Word, ghost sign: Word)
    requires x.Read(p) && Holds32(p.witnessRow, 23, 24, first) && Holds32(p.witnessRow, 25, 26, second)
    requires x.division ==> p.witnessRow[132] == sign % TWO16 == sign / TWO16
    modifies p.witnessRow
    ensures Holds32(p.witnessRow, 183, 184, if x.division then second else 0)
    ensures Holds32(p.witnessRow, 186, 187, if x.division then x.rs1 else first)
    ensures Holds32(p.witnessRow, 188, 189, if x.division then sign else second)
    ensures OnlyChanged(p.witnessRow, 183, 189, 183, 189)
  {
    hide OneOf, FromBool;
    var w, m := p.witnessRow, p.memoryRow;
    OneOfIs(x.division, w[25], 0);
    w[183] := OneOf(w[47], w[25], w[51], 0);
    OneOfIs(x.division, w[26], 0);
    w[184] := OneOf(w[47], w[26], w[51], 0);
    OneOfIs(x.division, m[8], w[23]);
    w[186] := OneOf(w[47], m[8], w[51], w[23]);
    OneOfIs(x.division, m[9], w[24]);
    w[187] := OneOf(w[47], m[9], w[51], w[24]);
    OneOfIs(x.division, w[132], w[25]);
    w[188] := OneOf(w[47], w[132], w[51], w[25]);
    OneOfIs(x.division, w[132], w[26]);
    w[189] := OneOf(w[47], w[132], w[51], w[26]);
  }

  method EvalFn85To86(p: Proxy, ghost op1: Word, ghost op2: Word)
    requires p.Valid(15, 197, 7) && Holds32(p.scratchSpace, 2, 3, op1) && Holds32(p.scratchSpace, 4, 5, op2)
    modifies p.witnessRow
    ensures M.FactorAt(p.witnessRow, 9).Value() == op1 && M.FactorAt(p.witnessRow, 13).Value() == op2
    ensures forall k: nat | 9 <= k < 17 :: p.witnessRow[k] < 0x100
    ensures OnlyChanged(p.witnessRow, 9, 16, 9, 16)
  {
    hide Bytes.Value;
    var s := p.scratchSpace;
    M.SplitWord(p.witnessRow, 9, U16(s[2]), U16(s[3]), op1);
    M.SplitWord(p.witnessRow, 13, U16(s[4]), U16(s[5]), op2);
  }

  /** The columns, from the lowest. */
  method EvalFn87(p: Proxy, ghost r: M.Relation, ghost a: Bytes, ghost b: Bytes)
    requires p.Valid(15, 197, 7) && M.FactorAt(p.witnessRow, 9) == a && M.FactorAt(p.witnessRow, 13) == b
    requires Holds32(p.witnessRow, 183, 184, r.addend) && Holds32(p.witnessRow, 186, 187, r.low)
    modifies p.witnessRow
    ensures
      var d := M.LimbsOf(r.low, r.high);
      M.StoredCarry(p.witnessRow, 17, 65, 1) == CarryOut(Column0(a, b, r.addend % TWO16), d.d0) % 0x200
    ensures
      var w, d := p.witnessRow, M.LimbsOf(r.low, r.high);
      var c := CarryOut(Column0(a, b, r.addend % TWO16), d.d0);
      w[17] == c % 0x100 && w[65] == c / 0x100 % 2
    ensures p.witnessRow[17] < 0x100 && forall k: nat | 65 <= k < 66 :: p.witnessRow[k] <= 1
    ensures OnlyChanged(p.witnessRow, 17, 17, 65, 65)
  {
    hide Column0, U8, Mask, Bit;
    var w := p.witnessRow;
    var v := Accumulate0(M.FactorAt(w, 9), M.FactorAt(w, 13), U16(w[183]), U16(w[186]));
    M.StoreCarry(w, v / TWO16, 17, 65, 1);
  }

  method EvalFn88(p: Proxy, ghost r: M.Relation, ghost a: Bytes, ghost b: Bytes)
    requires p.Valid(15, 197, 7) && M.FactorAt(p.witnessRow, 9) == a && M.FactorAt(p.witnessRow, 13) == b
    requires Holds32(p.witnessRow, 183, 184, r.addend) && Holds32(p.witnessRow, 186, 187, r.low)
    modifies p.witnessRow
    ensures
      var w, d := p.witnessRow, M.LimbsOf(r.low, r.high);
      M.StoredCarry(w, 18, 66, 2)
      == CarryOut(Column1(a, b, r.addend / TWO16) + old(M.StoredCarry(w, 17, 65, 1)), d.d1) % 0x400
    ensures
      var w, d := p.witnessRow, M.LimbsOf(r.low, r.high);
      var c := CarryOut(Column1(a, b, r.addend / TWO16) + old(M.StoredCarry(w, 17, 65, 1)), d.d1);
      w[18] == c % 0x100 && w[66] == c / 0x100 % 2 && w[67] == c / 0x200 % 2
    ensures M.StoredCarry(p.witnessRow, 17, 65, 1) == old(M.StoredCarry(p.witnessRow, 17, 65, 1))
    ensures p.witnessRow[18] < 0x100 && forall k: nat | 66 <= k < 68 :: p.witnessRow[k] <= 1
    ensures OnlyChanged(p.witnessRow, 18, 18, 66, 67)
  {
    hide Column1, U8, Mask, Bit;
    var w := p.witnessRow;
    var c := M.StoredCarry(w, 17, 65, 1);
    var v := Accumulate1(M.FactorAt(w, 9), M.FactorAt(w, 13), U16(w[184]), c, U16(w[187]));
    M.StoreCarry(w, v / TWO16, 18, 66, 2);
  }

  /** The choice between the halves of a product. */
  method EvalFn96To97(p: Proxy, ghost x: Row)
    requires x.Read(p) && Holds32(p.witnessRow, 23, 24, x.First()) && Holds32(p.witnessRow, 25, 26, x.Second())
    modifies p.witnessRow
    ensures Holds32(p.witnessRow, 125, 126, if x.k.a then x.First() else x.Second())
    ensures OnlyChanged(p.witnessRow, 125, 126, 125, 126)
  {
    hide Row.First, Row.Second;
    var w := p.witnessRow;
    w[125] := if Mask(w[55]) then w[23] else w[25];
    w[126] := if Mask(w[55]) then w[24] else w[26];
  }

  /** The signs of quotient and remainder, and the flag for a zero divisor. */
  method EvalFn98To100(
      p: Proxy, ghost x: Row, ghost n1: bool, ghost n2: bool, ghost q: bool, ghost r: bool, ghost d: bool)
    requires x.Read(p) && p.witnessRow[129] == FromBool(n1 != n2) && p.scratchSpace[1] == FromBool(n1)
    requires p.witnessRow[59] == FromBool(q) && p.witnessRow[60] == FromBool(r) && p.witnessRow[61] == FromBool(d)
    modifies p.witnessRow
    ensures p.witnessRow[130] == FromBool(n1 != n2 && !q) && p.witnessRow[131] == FromBool(n1 && !r)
    ensures p.witnessRow[133] == FromBool(x.division && d)
    ensures OnlyChanged(p.witnessRow, 130, 131, 133, 133)
  {
    hide AndNotField, Add, Mul;
    var w := p.witnessRow;
    BooleanFields(n1 != n2, q);
    w[130] := AndNotField(w[129], w[59]);
    BooleanFields(n1, r);
    w[131] := AndNotField(p.scratchSpace[1], w[60]);
    ProductOfFlags(x.division, d);
    w[133] := Add(0, Mul(w[47], w[61]));
  }

  /** One 32-bit sum or difference under a flag. */
  method StoreOutcome(row: array<Fp>, flag: bool, outcome: Word, overflow: bool)
    requires row.Length > 58
    modifies row
    ensures flag ==> Holds32(row, 27, 28, outcome) && row[58] == FromBool(overflow)
    ensures !flag ==> forall k: nat | k < row.Length :: row[k] == old(row[k])
    ensures OnlyChanged(row, 27, 28, 58, 58)
  {
    row[58] := if flag then FromBool(overflow) else row[58];
    row[27] := if flag then outcome % TWO16 else row[27];
    row[28] := if flag then outcome / TWO16 else row[28];
  }

  /** The remainder and the divisor, added for different signs and subtracted for equal ones. */
  method EvalFn101To105(p: Proxy, ghost x: Row, ghost nr: bool, ghost n2: bool)
    returns (ghost out: Word, ghost overflow: bool)
    requires x.Read(p) && Holds32(p.witnessRow, 25, 26, x.Second())
    requires p.witnessRow[128] == FromBool(n2) && p.witnessRow[131] == FromBool(nr)
    modifies p.witnessRow
    ensures p.witnessRow[134] == FromBool(nr != n2)
    ensures p.witnessRow[135] == FromBool(x.division && nr != n2)
    ensures p.witnessRow[136] == FromBool(x.division && nr == n2)
    ensures
      var r, d := x.Second(), x.rs2;
      if nr != n2 then r + d == out + TWO32 * Bit(overflow) else r - d == out - TWO32 * Bit(overflow)
    ensures x.division ==> Holds32(p.witnessRow, 27, 28, out) && p.witnessRow[58] == FromBool(overflow)
    ensures OnlyChanged(p.witnessRow, 27, 58, 134, 136)
    ensures forall k: nat | 29 <= k < 58 :: p.witnessRow[k] == old(p.witnessRow[k])
  {
    hide XorField, AndNotField, Add, Mul, Row.Second;
    var w := p.witnessRow;
    BooleanFields(n2, nr);
    w[134] := XorField(w[128], w[131]);
    ProductOfFlags(x.division, nr != n2);
    w[135] := Add(0, Mul(w[47], w[134]));
    var r := ReadWord(w, 25, 26, x.Second());
    var d := ReadWord(w, 114, 93, x.rs2);
    SumAndDifference(r, d);
    StoreOutcome(w, Mask(w[135]), Add32(r, d), r + d >= TWO32);
    BooleanFields(x.division, nr != n2);
    w[136] := AndNotField(w[47], w[134]);
    StoreOutcome(w, Mask(w[136]), Sub32(r, d), r < d);
    out := if nr != n2 then Add32(r, d) else Sub32(r, d);
    overflow := if nr != n2 then r + d >= TWO32 else r < d;
  }

  lemma SumAndDifference(r: Word, d: Word)
    ensures r + d == Add32(r, d) + TWO32 * Bit(r + d >= TWO32)
    ensures r - d == Sub32(r, d) - TWO32 * Bit(r < d)
  {
  }

  /** The magnitude test, read off that outcome. In a multiplication nobody reads it. */
  method EvalFn106To109(
      p: Proxy, ghost x: Row, ghost nr: bool, ghost opposite: bool, ghost overflow: bool, ghost out: Word)
    requires p.Valid(15, 197, 7) && p.witnessRow[131] == FromBool(nr) && p.witnessRow[134] == FromBool(opposite)
    requires x.division ==> p.witnessRow[58] == FromBool(overflow) && Holds32(p.witnessRow, 27, 28, out)
    modifies p.witnessRow
    ensures
      var condition := opposite != overflow;
      x.division ==>
        && p.witnessRow[137] == FromBool(condition) && p.witnessRow[138] == FromBool(out == 0)
        && p.witnessRow[140] == FromBool(!condition && out != 0)
        && p.witnessRow[141] == FromBool(if nr then !condition && out != 0 else condition)
    ensures OnlyChanged(p.witnessRow, 137, 141, 137, 141)
  {
    hide XorField, NorField;
    var w := p.witnessRow;
    BooleanFields(overflow, opposite);
    w[137] := XorField(w[58], w[134]);
    ZeroTest(out);
    w[138] := FromBool(Add(w[27], w[28]) == 0);
    BooleanFields(opposite != overflow, out == 0);
    w[140] := NorField(w[137], w[138]);
    w[141] := FromBool(if Mask(w[131]) then Mask(w[140]) else Mask(w[137]));
  }

  /** The choice between quotient and remainder. */
  method EvalFn110To111(p: Proxy, ghost x: Row)
    requires x.Read(p) && Holds32(p.witnessRow, 23, 24, x.First()) && Holds32(p.witnessRow, 25, 26, x.Second())
    requires p.witnessRow[142] == FromBool(x.k.a || x.k.b)
    modifies p.witnessRow
    ensures Holds32(p.witnessRow, 143, 144, if x.k.a || x.k.b then x.First() else x.Second())
    ensures OnlyChanged(p.witnessRow, 143, 144, 143, 144)
  {
    hide Row.First, Row.Second;
    var w := p.witnessRow;
    w[143] := if Mask(w[142]) then w[23] else w[25];
    w[144] := if Mask(w[142]) then w[24] else w[26];
  }

  /** The signs of the second factor and of the addend. */
  method EvalFn128To129(p: Proxy, ghost x: Row)
    requires x.Read(p)
    requires
      var w := p.witnessRow;
      if x.division then w[130] == FromBool(x.NQ()) && w[131] == FromBool(x.NR()) else w[124] == FromBool(x.N2())
    modifies p.witnessRow
    ensures p.witnessRow[182] == FromBool(x.Relation().neg2) && p.witnessRow[185] == FromBool(x.Relation().addNeg)
    ensures OnlyChanged(p.witnessRow, 182, 185, 182, 185)
    ensures p.witnessRow[183] == old(p.witnessRow[183]) && p.witnessRow[184] == old(p.witnessRow[184])
    ensures M.StoredCarry(p.witnessRow, 17, 65, 1) == old(M.StoredCarry(p.witnessRow, 17, 65, 1))
    ensures M.StoredCarry(p.witnessRow, 18, 66, 2) == old(M.StoredCarry(p.witnessRow, 18, 66, 2))
  {
    hide Row.First, Row.Second, Row.N1, Row.N2, Row.NQ, Row.NR, OneOf, FromBool;
    var w := p.witnessRow;
    OneOfIs(x.division, w[130], w[124]);
    w[182] := OneOf(w[47], w[130], w[51], w[124]);
    OneOfIs(x.division, w[131], 0);
    assert FromBool(false) == 0 by {
      NoFlag();
    }
    w[185] := OneOf(w[47], w[131], w[51], 0);
  }

  lemma NoFlag()
    ensures FromBool(false) == 0
  {
  }

  method EvalFn130(p: Proxy, ghost r: M.Relation, ghost a: Bytes, ghost b: Bytes)
    requires p.Valid(15, 197, 7) && M.FactorAt(p.witnessRow, 9) == a && M.FactorAt(p.witnessRow, 13) == b
    requires SignsDone(p, r) && Holds32(p.witnessRow, 188, 189, r.high)
    modifies p.witnessRow
    ensures
      var w, d := p.witnessRow, M.LimbsOf(r.low, r.high);
      var t := Column2(a, r.neg1, b, r.neg2, r.addNeg);
      M.StoredCarry(w, 19, 68, 3) == CarryOut(t + old(M.StoredCarry(w, 18, 66, 2)), d.d2) % 0x800
    ensures
      var w, d := p.witnessRow, M.LimbsOf(r.low, r.high);
      var t := Column2(a, r.neg1, b, r.neg2, r.addNeg);
      var c := CarryOut(t + old(M.StoredCarry(w, 18, 66, 2)), d.d2);
      w[19] == c % 0x100 && w[68] == c / 0x100 % 2 && w[69] == c / 0x200 % 2 && w[70] == c / 0x400 % 2
    ensures M.StoredCarry(p.witnessRow, 17, 65, 1) == old(M.StoredCarry(p.witnessRow, 17, 65, 1))
    ensures M.StoredCarry(p.witnessRow, 18, 66, 2) == old(M.StoredCarry(p.witnessRow, 18, 66, 2))
    ensures p.witnessRow[19] < 0x100 && forall k: nat | 68 <= k < 71 :: p.witnessRow[k] <= 1
    ensures OnlyChanged(p.witnessRow, 19, 19, 68, 70)
  {
    hide Column2, U8, Bit;
    var w := p.witnessRow;
    var c := M.StoredCarry(w, 18, 66, 2);
    var v := Accumulate2(M.FactorAt(w, 9), Mask(w[181]), M.FactorAt(w, 13), Mask(w[182]), Mask(w[185]), c, U16(w[188]));
    M.StoreCarry(w, v / TWO16, 19, 68, 3);
  }

  method EvalFn131(p: Proxy, ghost r: M.Relation, ghost a: Bytes, ghost b: Bytes)
    requires p.Valid(15, 197, 7) && M.FactorAt(p.witnessRow, 9) == a && M.FactorAt(p.witnessRow, 13) == b
    requires SignsDone(p, r) && Holds32(p.witnessRow, 188, 189, r.high)
    modifies p.witnessRow
    ensures
      var w, d := p.witnessRow, M.LimbsOf(r.low, r.high);
      var t := Column3(a, r.neg1, b, r.neg2, r.addNeg);
      M.StoredCarry(w, 20, 71, 3) == CarryOut(t + old(M.StoredCarry(w, 19, 68, 3)), d.d3) % 0x800
    ensures
      var w, d := p.witnessRow, M.LimbsOf(r.low, r.high);
      var t := Column3(a, r.neg1, b, r.neg2, r.addNeg);
      var c := CarryOut(t + old(M.StoredCarry(w, 19, 68, 3)), d.d3);
      w[20] == c % 0x100 && w[71] == c / 0x100 % 2 && w[72] == c / 0x200 % 2 && w[73] == c / 0x400 % 2
    ensures M.StoredCarry(p.witnessRow, 17, 65, 1) == old(M.StoredCarry(p.witnessRow, 17, 65, 1))
    ensures M.StoredCarry(p.witnessRow, 18, 66, 2) == old(M.StoredCarry(p.witnessRow, 18, 66, 2))
    ensures M.StoredCarry(p.witnessRow, 19, 68, 3) == old(M.StoredCarry(p.witnessRow, 19, 68, 3))
    ensures p.witnessRow[20] < 0x100 && forall k: nat | 71 <= k < 74 :: p.witnessRow[k] <= 1
    ensures OnlyChanged(p.witnessRow, 20, 20, 71, 73)
  {
    hide Column3, U8, Bit;
    var w := p.witnessRow;
    var c := M.StoredCarry(w, 19, 68, 3);
    var v := Accumulate3(M.FactorAt(w, 9), Mask(w[181]), M.FactorAt(w, 13), Mask(w[182]), Mask(w[185]), c, U16(w[189]));
    M.StoreCarry(w, v / TWO16, 20, 71, 3);
  }

  ghost predicate SignsDone(p: Proxy, r: M.Relation)
    requires p.Valid(15, 197, 7)
    reads p.witnessRow
  {
    var w := p.witnessRow;
    w[181] == FromBool(r.neg1) && w[182] == FromBool(r.neg2) && w[185] == FromBool(r.addNeg)
  }

  /** The class flags and the mark for x0 stay as they are. */
  twostate predicate ClassKept(row: array<Fp>)
    requires row.Length >= 197
    reads row
  {
    forall k: nat | 42 <= k < 55 || k == 74 || k == 158 || k == 159 :: row[k] == old(row[k])
  }

  /** The row once the results are there: the stage that the shared tests and the columns start from. */
  ghost predicate ResultsDone(p: Proxy, x: Row)
    requires p.Valid(15, 197, 7)
    reads p.memoryRow, p.witnessRow, p.scratchSpace
  {
    var w, s := p.witnessRow, p.scratchSpace;
    && x.Read(p) && Holds32(w, 23, 24, x.First()) && Holds32(w, 25, 26, x.Second())
    && w[142] == FromBool(x.k.a || x.k.b)
    && w[128] == FromBool(x.D2()) && s[1] == FromBool(x.D1())
    && w[129] == FromBool(x.D1() != x.D2()) && w[132] == 0xFFFF * Bit(x.D1())
    && (!x.division ==> w[123] == FromBool(x.N1()) && w[124] == FromBool(x.N2()))
  }

  method EvaluateResults(p: Proxy, ghost x: Row)
    requires x.Read(p)
    modifies p.witnessRow, p.scratchSpace
    ensures ResultsDone(p, x)
    ensures ClassKept(p.witnessRow)
  {
    hide Results, FromBool, Row.Flags, Row.First, Row.Second, Row.N1, Row.N2, Row.D1, Row.D2, Bit;
    EvalFn30To32(p, x);
    EvalFn33To34(p, x);
    EvalFn35To37(p, x);
    EvalFn38(p, x);
    EvalFn39To41(p, x);
  }

  /** The row with the limbs of the relation in place, and the first half of the signs. */
  ghost predicate LimbsDone(p: Proxy, x: Row)
    requires p.Valid(15, 197, 7)
    reads p.witnessRow
  {
    var w, r := p.witnessRow, x.Relation();
    && w[181] == FromBool(r.neg1)
    && Holds32(w, 183, 184, r.addend) && Holds32(w, 186, 187, r.low) && Holds32(w, 188, 189, r.high)
    && M.FactorAt(w, 9).Value() == r.op1 && M.FactorAt(w, 13).Value() == r.op2
    && forall k: nat | 9 <= k < 17 :: w[k] < 0x100
  }

  method EvaluateLimbs(p: Proxy, ghost x: Row)
    requires p.Valid(15, 197, 7) && ResultsDone(p, x)
    modifies p.witnessRow, p.scratchSpace
    ensures ResultsDone(p, x) && LimbsDone(p, x)
    ensures OnlyChanged(p.witnessRow, 9, 16, 181, 189)
  {
    hide Results, FromBool, Row.Flags, Row.First, Row.Second, Row.N1, Row.N2, Row.D1, Row.D2, Row.NQ, Row.NR,
      Bytes.Value, U8;
    if x.division {
      DivisionSigns(x);
    }
    EvalFn74To78(p, x, x.First());
    ghost var sign := (TWO32 - 1) * Bit(x.D1());
    EvalFn79To84(p, x, x.First(), x.Second(), sign);
    ghost var r := x.Relation();
    EvalFn85To86(p, r.op1, r.op2);
  }

  ghost predicate ZeroTestsDone(p: Proxy, x: Row)
    requires p.Valid(15, 197, 7)
    reads p.witnessRow
  {
    var w := p.witnessRow;
    && w[59] == FromBool(!x.division || x.First() == 0) && w[60] == FromBool(!x.division || x.Second() == 0)
    && w[61] == FromBool(!x.division || x.rs2 == 0)
  }

  method EvaluateZeroTests(p: Proxy, ghost x: Row)
    requires p.Valid(15, 197, 7) && ResultsDone(p, x)
    modifies p.witnessRow
    ensures ResultsDone(p, x) && ZeroTestsDone(p, x)
    ensures ClassKept(p.witnessRow)
  {
    hide Results, FromBool, Row.Flags, Row.First, Row.Second, Row.N1, Row.N2, Row.D1, Row.D2, Bit;
    EvalFn62To64(p, x, x.First());
    EvalFn65To67(p, x, x.Second());
    EvalFn68To70(p, x);
  }

  /** The carries of the two low columns. */
  ghost predicate LowColumnsDone(p: Proxy, r: M.Relation)
    requires p.Valid(15, 197, 7)
    reads p.witnessRow
  {
    var w, d := p.witnessRow, M.LimbsOf(r.low, r.high);
    var a, b, c0 := M.FactorAt(w, 9), M.FactorAt(w, 13), M.StoredCarry(w, 17, 65, 1);
    && w[17] < 0x100 && w[18] < 0x100 && w[65] <= 1 && w[66] <= 1 && w[67] <= 1
    && c0 == CarryOut(Column0(a, b, r.addend % TWO16), d.d0) % 0x200
    && M.StoredCarry(w, 18, 66, 2) == CarryOut(Column1(a, b, r.addend / TWO16) + c0, d.d1) % 0x400
  }

  method EvaluateLowColumns(p: Proxy, ghost x: Row)
    requires p.Valid(15, 197, 7) && ResultsDone(p, x) && ZeroTestsDone(p, x) && LimbsDone(p, x)
    modifies p.witnessRow
    ensures ResultsDone(p, x) && ZeroTestsDone(p, x) && LimbsDone(p, x) && LowColumnsDone(p, x.Relation())
    ensures ClassKept(p.witnessRow)
  {
    hide Results, FromBool, Row.Flags, Row.First, Row.Second, Row.N1, Row.N2, Row.D1, Row.D2, Row.Relation, Bit, U8,
      Bytes.Value, M.StoredCarry, Column0, Column1, CarryOut;
    ghost var r, a, b := x.Relation(), M.FactorAt(p.witnessRow, 9), M.FactorAt(p.witnessRow, 13);
    EvalFn87(p, r, a, b);
    EvalFn88(p, r, a, b);
  }

  /** The signs of quotient and remainder, the zero-divisor flag, the magnitude test, and both choices
      of result. */
  ghost predicate ChecksDone(p: Proxy, x: Row)
    requires p.Valid(15, 197, 7)
    reads p.witnessRow
  {
    var w := p.witnessRow;
    && Holds32(w, 23, 24, x.First())
    && (x.division ==> w[130] == FromBool(x.NQ()) && w[131] == FromBool(x.NR()))
    && w[133] == FromBool(x.division && x.rs2 == 0)
    && (x.division ==> w[141] == FromBool(RemainderTest(x.Second(), x.NR(), x.rs2, x.N2())))
    && Holds32(w, 125, 126, if x.k.a then x.First() else x.Second())
    && Holds32(w, 143, 144, if x.k.a || x.k.b then x.First() else x.Second())
  }

  /** The same after the first half of the checks. */
  ghost predicate DerivedSignsDone(p: Proxy, x: Row)
    requires p.Valid(15, 197, 7)
    reads p.witnessRow, p.memoryRow
  {
    var w := p.witnessRow;
    && x.Read(p) && Holds32(w, 23, 24, x.First()) && Holds32(w, 25, 26, x.Second())
    && w[128] == FromBool(x.D2()) && w[142] == FromBool(x.k.a || x.k.b)
    && w[130] == FromBool(x.D1() != x.D2() && !(!x.division || x.First() == 0))
    && w[131] == FromBool(x.RemainderNegative())
    && w[133] == FromBool(x.division && x.rs2 == 0)
    && Holds32(w, 125, 126, if x.k.a then x.First() else x.Second())
  }

  method EvaluateDerivedSigns(p: Proxy, ghost x: Row)
    requires p.Valid(15, 197, 7) && ResultsDone(p, x) && ZeroTestsDone(p, x)
    modifies p.witnessRow
    ensures DerivedSignsDone(p, x)
    ensures OnlyChanged(p.witnessRow, 125, 133, 125, 133)
    ensures p.witnessRow[132] == old(p.witnessRow[132])
  {
    hide Results, FromBool, Row.Flags, Row.First, Row.Second, Row.N1, Row.N2, Row.D1, Row.D2, Bit;
    ghost var q0, r0, d0 := !x.division || x.First() == 0, !x.division || x.Second() == 0, !x.division || x.rs2 == 0;
    EvalFn96To97(p, x);
    EvalFn98To100(p, x, x.D1(), x.D2(), q0, r0, d0);
  }

  method EvaluateChecks(p: Proxy, ghost x: Row)
    requires p.Valid(15, 197, 7) && DerivedSignsDone(p, x)
    modifies p.witnessRow
    ensures x.Read(p) && ChecksDone(p, x)
    ensures OnlyChanged(p.witnessRow, 27, 58, 134, 144)
    ensures forall k: nat | 29 <= k < 58 :: p.witnessRow[k] == old(p.witnessRow[k])
  {
    hide Results, FromBool, Row.Flags, Row.First, Row.Second, Row.N1, Row.N2, Row.D1, Row.D2, Row.NQ, Row.NR,
      Row.RemainderNegative, Bit, RemainderTest;
    ghost var out, overflow := EvalFn101To105(p, x, x.RemainderNegative(), x.D2());
    EvalFn106To109(p, x, x.RemainderNegative(), x.RemainderNegative() != x.D2(), overflow, out);
    EvalFn110To111(p, x);
    if x.division {
      SignsOfDivision(x);
      M.RemainderTestByOutcome(x.Second(), x.RemainderNegative(), x.rs2, x.D2(), out, overflow);
    }
  }

  lemma SignsOfDivision(x: Row)
    requires x.division
    ensures x.D1() == x.N1() && x.D2() == x.N2() && x.RemainderNegative() == x.NR()
    ensures (x.D1() != x.D2() && !(!x.division || x.First() == 0)) == x.NQ()
  {
    hide Results;
  }

  /** What the range checks demand: byte places hold bytes, and the bits of the carries are boolean. */
  ghost predicate InRange(row: array<Fp>)
    requires row.Length >= 197
    reads row
  {
    && (forall k: nat | 9 <= k < 21 :: row[k] < 0x100)
    && (forall k: nat | 65 <= k < 74 :: row[k] <= 1)
  }

  /** All four carries, cut to the bits that hold them. */
  ghost predicate ColumnsCut(p: Proxy, r: M.Relation)
    requires p.Valid(15, 197, 7)
    reads p.witnessRow
  {
    var w := p.witnessRow;
    && InRange(w) && SignsDone(p, r)
    && M.CarryChain(r, M.FactorAt(w, 9), M.FactorAt(w, 13),
                    M.StoredCarry(w, 17, 65, 1), M.StoredCarry(w, 18, 66, 2), M.StoredCarry(w, 19, 68, 3),
                    M.StoredCarry(w, 20, 71, 3))
  }

  method EvaluateUpperColumns(p: Proxy, ghost r: M.Relation, ghost a: Bytes, ghost b: Bytes)
    requires p.Valid(15, 197, 7) && M.FactorAt(p.witnessRow, 9) == a && M.FactorAt(p.witnessRow, 13) == b
    requires SignsDone(p, r) && Holds32(p.witnessRow, 188, 189, r.high)
    modifies p.witnessRow
    ensures
      var w, d, c := p.witnessRow, M.LimbsOf(r.low, r.high), M.StoredCarry(p.witnessRow, 19, 68, 3);
      && c == CarryOut(Column2(a, r.neg1, b, r.neg2, r.addNeg) + old(M.StoredCarry(w, 18, 66, 2)), d.d2) % 0x800
      && M.StoredCarry(w, 20, 71, 3) == CarryOut(Column3(a, r.neg1, b, r.neg2, r.addNeg) + c, d.d3) % 0x800
    ensures M.StoredCarry(p.witnessRow, 17, 65, 1) == old(M.StoredCarry(p.witnessRow, 17, 65, 1))
    ensures M.StoredCarry(p.witnessRow, 18, 66, 2) == old(M.StoredCarry(p.witnessRow, 18, 66, 2))
    ensures p.witnessRow[19] < 0x100 && p.witnessRow[20] < 0x100
    ensures forall k: nat | 68 <= k < 74 :: p.witnessRow[k] <= 1
    ensures OnlyChanged(p.witnessRow, 19, 20, 68, 73)
  {
    hide Column2, Column3, CarryOut, U8, Bit, M.StoredCarry;
    EvalFn130(p, r, a, b);
    EvalFn131(p, r, a, b);
  }

  method EvaluateHighColumns(p: Proxy, ghost x: Row)
    requires p.Valid(15, 197, 7) && x.Read(p) && ChecksDone(p, x) && LimbsDone(p, x) && LowColumnsDone(p, x.Relation())
    requires !x.division ==> p.witnessRow[124] == FromBool(x.N2())
    modifies p.witnessRow
    ensures ChecksDone(p, x) && LimbsDone(p, x) && ColumnsCut(p, x.Relation())
    ensures OnlyChanged(p.witnessRow, 19, 73, 182, 185)
    ensures forall k: nat | 21 <= k < 68 :: p.witnessRow[k] == old(p.witnessRow[k])
  {
    hide Results, FromBool, Row.Flags, Row.First, Row.Second, Row.N1, Row.N2, Row.NQ, Row.NR, Row.Relation, Bit, U8,
      Bytes.Value, M.StoredCarry, Column0, Column1, Column2, Column3, CarryOut, RemainderTest;
    ghost var r, a, b := x.Relation(), M.FactorAt(p.witnessRow, 9), M.FactorAt(p.witnessRow, 13);
    ghost var c0, c1 := M.StoredCarry(p.witnessRow, 17, 65, 1), M.StoredCarry(p.witnessRow, 18, 66, 2);
    EvalFn128To129(p, x);
    EvaluateUpperColumns(p, r, a, b);
  }

  /** Every column closes with an exact carry that fits its byte and bits. */
  ghost predicate ColumnsClosed(p: Proxy, r: M.Relation)
    requires p.Valid(15, 197, 7)
    reads p.witnessRow
  {
    var w := p.witnessRow;
    && InRange(w) && SignsDone(p, r)
    && M.CarriesAre(r, M.FactorAt(w, 9), M.FactorAt(w, 13),
                    M.StoredCarry(w, 17, 65, 1), M.StoredCarry(w, 18, 66, 2), M.StoredCarry(w, 19, 68, 3),
                    M.StoredCarry(w, 20, 71, 3))
  }

  /** What the evaluation of a multiplication or division leaves in the row. */
  ghost predicate Done(p: Proxy, x: Row, x0: bool)
    requires p.Valid(15, 197, 7)
    reads p.memoryRow, p.witnessRow, p.scratchSpace
  {
    && x.Read(p) && ChecksDone(p, x) && LimbsDone(p, x) && ColumnsClosed(p, x.Relation())
    && Holds32(p.witnessRow, 193, 194, if x0 then 0 else if x.Flags().first then x.First() else x.Second())
  }

  method EvaluateFactors(p: Proxy, ghost x: Row)
    requires p.Valid(15, 197, 7) && x.Read(p)
    modifies p.witnessRow, p.scratchSpace
    ensures ResultsDone(p, x) && ZeroTestsDone(p, x) && LimbsDone(p, x) && LowColumnsDone(p, x.Relation())
    ensures ClassKept(p.witnessRow)
  {
    hide Results, FromBool, Row.Flags, Row.First, Row.Second, Row.N1, Row.N2, Row.NQ, Row.NR, Row.RemainderNegative,
      Row.D1, Row.D2, Row.Relation, Bit, U8, Bytes.Value, Column0, Column1, CarryOut, M.StoredCarry;
    EvaluateResults(p, x);
    EvaluateZeroTests(p, x);
    EvaluateLimbs(p, x);
    EvaluateLowColumns(p, x);
  }

  method EvaluateRelation(p: Proxy, ghost x: Row)
    requires p.Valid(15, 197, 7) && x.Read(p)
    modifies p.witnessRow, p.scratchSpace
    ensures x.Read(p) && ChecksDone(p, x) && LimbsDone(p, x) && ColumnsCut(p, x.Relation())
    ensures ClassKept(p.witnessRow)
  {
    hide Results, FromBool, Row.Flags, Row.First, Row.Second, Row.N1, Row.N2, Row.NQ, Row.NR, Row.RemainderNegative,
      Row.D1, Row.D2, Row.Relation, Bit, U8, Bytes.Value, Column0, Column1, Column2, Column3, CarryOut, RemainderTest,
      M.CarryChain, M.CarriesAre;
    EvaluateFactors(p, x);
    EvaluateDerivedSigns(p, x);
    EvaluateChecks(p, x);
    EvaluateHighColumns(p, x);
  }

  method EvaluateColumns(p: Proxy, ghost x: Row, ghost x0: bool)
    requires p.Valid(15, 197, 7) && x.Read(p) && R.Active(p, x.Class()) && p.witnessRow[74] == FromBool(x0)
    modifies p.witnessRow, p.scratchSpace
    ensures x.Read(p) && ChecksDone(p, x) && LimbsDone(p, x) && ColumnsClosed(p, x.Relation())
    ensures R.Active(p, x.Class()) && p.witnessRow[74] == FromBool(x0)
  {
    hide Results, FromBool, Row.First, Row.Second, Row.N1, Row.N2, Row.NQ, Row.NR, Row.D1, Row.D2, Row.Relation, Bit,
      U8, Bytes.Value, M.StoredCarry, Column0, Column1, Column2, Column3, CarryOut, RemainderTest, M.CarryChain,
      M.CarriesAre;
    EvaluateRelation(p, x);
    ghost var w, a, b := p.witnessRow, M.FactorAt(p.witnessRow, 9), M.FactorAt(p.witnessRow, 13);
    CarriesExactHere(x, a, b, M.StoredCarry(w, 17, 65, 1), M.StoredCarry(w, 18, 66, 2), M.StoredCarry(w, 19, 68, 3),
      M.StoredCarry(w, 20, 71, 3));
  }

  lemma FirstByClass(x: Row)
    ensures x.Flags().first == if x.division then x.k.a || x.k.b else x.k.a
  {
  }

  method EvaluateDestination(p: Proxy, ghost x: Row, ghost x0: bool)
    requires p.Valid(15, 197, 7) && x.Read(p) && ChecksDone(p, x)
    requires R.Active(p, x.Class()) && p.witnessRow[74] == FromBool(x0)
    modifies p.witnessRow
    ensures Holds32(p.witnessRow, 193, 194, if x0 then 0 else if x.Flags().first then x.First() else x.Second())
    ensures OnlyChanged(p.witnessRow, 190, 191, 193, 194)
  {
    hide Results, Row.First, Row.Second, Row.NQ, Row.NR, RemainderTest, Row.Flags, R.Active;
    FirstByClass(x);
    R.EvaluateRd(p, x.Class(), x0);
  }

  /** The places for rd come last and leave the columns closed. */
  method EvaluateAfterColumns(p: Proxy, ghost x: Row, ghost x0: bool)
    requires p.Valid(15, 197, 7) && x.Read(p) && ChecksDone(p, x) && ColumnsClosed(p, x.Relation())
    requires R.Active(p, x.Class()) && p.witnessRow[74] == FromBool(x0)
    modifies p.witnessRow
    ensures Holds32(p.witnessRow, 193, 194, if x0 then 0 else if x.Flags().first then x.First() else x.Second())
    ensures ColumnsClosed(p, x.Relation())
    ensures OnlyChanged(p.witnessRow, 190, 191, 193, 194)
  {
    hide Results, FromBool, Row.First, Row.Second, Row.NQ, Row.NR, Row.Relation, Bit, U8, Mask, Row.Flags,
      RemainderTest, ChecksDone, M.CarriesAre, R.Active;
    ghost var w, a, b := p.witnessRow, M.FactorAt(p.witnessRow, 9), M.FactorAt(p.witnessRow, 13);
    ghost var c0, c1, c2, c3 :=
      M.StoredCarry(w, 17, 65, 1), M.StoredCarry(w, 18, 66, 2), M.StoredCarry(w, 19, 68, 3),
      M.StoredCarry(w, 20, 71, 3);
    EvaluateDestination(p, x, x0);
    assert M.FactorAt(w, 9) == a && M.FactorAt(w, 13) == b;
    assert M.StoredCarry(w, 17, 65, 1) == c0 && M.StoredCarry(w, 18, 66, 2) == c1;
    assert M.StoredCarry(w, 19, 68, 3) == c2 && M.StoredCarry(w, 20, 71, 3) == c3;
  }

  method EvaluateRow(p: Proxy, ghost x: Row, ghost x0: bool)
    requires p.Valid(15, 197, 7) && x.Read(p) && R.Active(p, x.Class()) && p.witnessRow[74] == FromBool(x0)
    modifies p.witnessRow, p.scratchSpace
    ensures Done(p, x, x0)
  {
    hide Results, FromBool, Row.First, Row.Second, Row.N1, Row.N2, Row.NQ, Row.NR, Row.Relation, U8, Mask, Row.Flags,
      Bytes.Value, RemainderTest, R.Active, ColumnsClosed;
    EvaluateColumns(p, x, x0);
    EvaluateAfterColumns(p, x, x0);
  }

  /** What the finished row means: rd receives the ISA's result for each of the eight instructions, the
      magnitude test passes for every nonzero divisor, and a division by zero has the quotient that the
      circuit enforces for it. */
  lemma RowMeans(p: Proxy, x: Row, x0: bool)
    requires p.Valid(15, 197, 7) && Done(p, x, x0)
    ensures forall op: Operation :: Encoding(op) == (x.division, x.k) ==>
      Holds32(p.witnessRow, 193, 194, if x0 then 0 else Result(op, x.rs1, x.rs2))
    ensures x.division && x.rs2 != 0 ==> p.witnessRow[141] == 1
    ensures p.witnessRow[133] == 1 ==> p.witnessRow[23] == 0xFFFF && p.witnessRow[24] == 0xFFFF
  {
    hide Results, Result, Negative1, Negative2, NegativeQuotient, NegativeRemainder, RemainderTest, Encoding, FlagsOf,
      Row.Relation, LimbsDone, ColumnsClosed;
    if x.division {
      M.DivisionChecksPass(x.Flags(), x.rs1, x.rs2);
    }
    forall op: Operation | Encoding(op) == (x.division, x.k)
      ensures Holds32(p.witnessRow, 193, 194, if x0 then 0 else Result(op, x.rs1, x.rs2))
    {
      ResultsAreIsaHere(op, x.rs1, x.rs2);
    }
  }

  /** The columns close over the places as they stand: bytes in places 9 to 16, signs in 181, 182 and
      185, the addend in 183 and 184, the destination in 186 to 189, and each carry in its byte and bits. */
  lemma ColumnsOnPlaces(p: Proxy, x: Row)
    requires p.Valid(15, 197, 7) && LimbsDone(p, x) && ColumnsClosed(p, x.Relation())
    ensures
      var w := p.witnessRow;
      Balanced(Bytes(w[9], w[10], w[11], w[12]), w[181] == 1, Bytes(w[13], w[14], w[15], w[16]), w[182] == 1,
               w[183], w[184], w[185] == 1, Limbs(w[186], w[187], w[188], w[189]),
               w[17] + 0x100 * w[65], w[18] + 0x100 * w[66] + 0x200 * w[67],
               w[19] + 0x100 * w[68] + 0x200 * w[69] + 0x400 * w[70],
               w[20] + 0x100 * w[71] + 0x200 * w[72] + 0x400 * w[73])
  {
    hide Column0, Column1, Column2, Column3, M.StoredCarry, M.FactorAt, Bytes.Value, Row.Relation;
    var w := p.witnessRow;
    M.FactorPlaces(w, 9);
    M.FactorPlaces(w, 13);
    M.CarryPlaces(w, 17, 65, 1);
    M.CarryPlaces(w, 18, 66, 2);
    M.CarryPlaces(w, 19, 68, 3);
    M.CarryPlaces(w, 20, 71, 3);
  }

  /** The instruction that the class and its three minor flags stand for. */
  lemma MinorFlags()
    ensures Encoding(MUL) == (false, Minor(true, false, false))
    ensures Encoding(MULH) == (false, Minor(false, true, false))
    ensures Encoding(MULHSU) == (false, Minor(false, false, true))
    ensures Encoding(MULHU) == (false, Minor(false, false, false))
    ensures Encoding(DIV) == (true, Minor(true, false, false))
    ensures Encoding(DIVU) == (true, Minor(false, true, false))
    ensures Encoding(REM) == (true, Minor(false, false, true))
    ensures Encoding(REMU) == (true, Minor(false, false, false))
  {
  }

  /** One evaluation of a row of either class. In terms of places: with 47 for divisions, 51 for products
      and at most one of the minor flags 55, 56 and 57, places 193 and 194 hold the result of the
      instruction, or zero for x0, and the columns close. */
  method EvaluateWitness(p: Proxy, ghost x: Row, ghost x0: bool)
    requires p.Valid(15, 197, 7) && x.Read(p) && R.Active(p, x.Class()) && p.witnessRow[74] == FromBool(x0)
    modifies p.witnessRow, p.scratchSpace
    ensures Done(p, x, x0)
    ensures
      var m, w := p.memoryRow, p.witnessRow;
      var division, a, b, c := old(w[47]) == 1, old(w[55]), old(w[56]), old(w[57]);
      a + b + c <= 1 ==>
        var op :=
          if division then if a == 1 then DIV else if b == 1 then DIVU else if c == 1 then REM else REMU
          else if a == 1 then MUL else if b == 1 then MULH else if c == 1 then MULHSU else MULHU;
        var v := if old(w[74]) == 1 then 0 else Result(op, m[8] + TWO16 * m[9], old(w[114]) + TWO16 * old(w[93]));
        w[193] == v % TWO16 && w[194] == v / TWO16
    ensures
      var w := p.witnessRow;
      Balanced(Bytes(w[9], w[10], w[11], w[12]), w[181] == 1, Bytes(w[13], w[14], w[15], w[16]), w[182] == 1,
               w[183], w[184], w[185] == 1, Limbs(w[186], w[187], w[188], w[189]),
               w[17] + 0x100 * w[65], w[18] + 0x100 * w[66] + 0x200 * w[67],
               w[19] + 0x100 * w[68] + 0x200 * w[69] + 0x400 * w[70],
               w[20] + 0x100 * w[71] + 0x200 * w[72] + 0x400 * w[73])
  {
    hide Result, Done, LimbsDone, ChecksDone, ColumnsClosed, Row.Relation, R.Active, Encoding, Balanced;
    assert x.rs1 == p.memoryRow[8] + TWO16 * p.memoryRow[9] && x.rs2 == p.witnessRow[114] + TWO16 * p.witnessRow[93];
    EvaluateRow(p, x, x0);
    DoneParts(p, x, x0);
    ColumnsOnPlaces(p, x);
    RowMeans(p, x, x0);
    MinorFlags();
  }

  lemma DoneParts(p: Proxy, x: Row, x0: bool)
    requires p.Valid(15, 197, 7) && Done(p, x, x0)
    ensures x.Read(p) && LimbsDone(p, x) && ColumnsClosed(p, x.Relation()) && InRange(p.witnessRow)
  {
    hide LimbsDone, ChecksDone, Row.Relation;
  }
}
