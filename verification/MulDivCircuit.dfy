/** The witness evaluator of the signed multiplication and division circuit. Methods are named after
    the evaluation functions they model, and places are numbered as in that circuit's layout. */
module MulDivCircuit {
  import opened Digits
  import opened Mersenne31
  import opened Witness
  import opened LimbArithmetic
  import opened MulRelation
  import opened ColumnAccumulator
  import opened RiscvM
  import opened MulDivSemantics

  /** The row has room, and the two source registers and the program counter arrive in 16-bit limbs. */
  ghost predicate Ready(p: Proxy)
    reads p.memoryRow
  {
    && p.Valid(20, 80, 3)
    && p.memoryRow[2] < TWO16 && p.memoryRow[3] < TWO16 && p.memoryRow[7] < TWO16 && p.memoryRow[8] < TWO16
    && p.memoryRow[18] < TWO16 && p.memoryRow[19] < TWO16
  }

  function Rs1(p: Proxy): Word
    requires Ready(p)
    reads p.memoryRow
  {
    p.memoryRow[2] + TWO16 * p.memoryRow[3]
  }

  function Rs2(p: Proxy): Word
    requires Ready(p)
    reads p.memoryRow
  {
    p.memoryRow[7] + TWO16 * p.memoryRow[8]
  }

  /** The flags in places 29 to 32. */
  function FlagsOf(p: Proxy): Flags
    requires p.Valid(20, 80, 3)
    reads p.witnessRow
  {
    var w := p.witnessRow;
    Flags(Mask(w[29]), Mask(w[30]), Mask(w[31]), Mask(w[32]))
  }

  /** The flags that a decoder word spells, lowest bit first. */
  function FlagsIn(x: nat): Flags {
    Flags(x % 2 == 1, x / 2 % 2 == 1, x / 4 % 2 == 1, x / 8 % 2 == 1)
  }

  method EvalFn1(p: Proxy)
    requires Ready(p)
    modifies p.witnessRow
    ensures FlagsOf(p) == FlagsIn(old(p.witnessRow[4])) && p.witnessRow[29] <= 1
    ensures
      var w, x := p.witnessRow, old(p.witnessRow[4]);
      w[29] == x % 2 && w[30] == x / 2 % 2 && w[31] == x / 4 % 2 && w[32] == x / 8 % 2
    ensures OnlyChanged(p.witnessRow, 29, 32, 29, 32)
  {
    var x := p.witnessRow[4];
    p.witnessRow[29] := x % 2;
    p.witnessRow[30] := x / 2 % 2;
    p.witnessRow[31] := x / 4 % 2;
    p.witnessRow[32] := x / 8 % 2;
  }

  method EvalFn4(p: Proxy)
    requires Ready(p)
    modifies p.witnessRow
    ensures p.witnessRow[33] == FromBool(Negative1(FlagsOf(p), Rs1(p)))
    ensures p.witnessRow[21]
      == p.memoryRow[3] - 0x8000 * Bit(Mask(p.witnessRow[31]))
        + TWO16 * Bit(Mask(p.witnessRow[31]) && p.memoryRow[3] < 0x8000)
    ensures OnlyChanged(p.witnessRow, 21, 21, 33, 33)
  {
    var signed := Mask(p.witnessRow[31]);
    var x := U16(p.memoryRow[3]);
    var borrow := x < 0x8000;
    var underflow := if signed then borrow else !signed;
    p.witnessRow[33] := FromBool(!underflow);
    p.witnessRow[21] := if signed then Sub16(x, 0x8000) else x;
  }

  method EvalFn5(p: Proxy)
    requires Ready(p)
    modifies p.witnessRow
    ensures p.witnessRow[34] == FromBool(Negative2(FlagsOf(p), Rs2(p)))
    ensures p.witnessRow[22]
      == p.memoryRow[8] - 0x8000 * Bit(Mask(p.witnessRow[32]))
        + TWO16 * Bit(Mask(p.witnessRow[32]) && p.memoryRow[8] < 0x8000)
    ensures OnlyChanged(p.witnessRow, 22, 22, 34, 34)
  {
    var signed := Mask(p.witnessRow[32]);
    var x := U16(p.memoryRow[8]);
    var borrow := x < 0x8000;
    var underflow := if signed then borrow else !signed;
    p.witnessRow[34] := FromBool(!underflow);
    p.witnessRow[22] := if signed then Sub16(x, 0x8000) else x;
  }

  /** The two result registers, by the selections that the evaluator makes. */
  method ComputeResults(f: Flags, rs1: Word, rs2: Word) returns (first: Word, second: Word)
    ensures (first, second) == Results(f, rs1, rs2)
  {
    hide SignedDivRem, UnsignedDivRem;
    var multiplication := !f.division;
    var both, any := f.signed1 && f.signed2, f.signed1 || f.signed2;
    var mixed := (AsSigned(rs1) * rs2) % TWO64;
    var unsigned := (rs1 * rs2) % TWO64;
    var product := if both then (AsSigned(rs1) * AsSigned(rs2)) % TWO64 else if any then mixed else unsigned;
    var zero := rs2 == 0;
    var divisor: Word := if zero then 0x7FF_FFFF else rs2;
    var (quotient, remainder) := if both then SignedDivRem(rs1, divisor) else UnsignedDivRem(rs1, divisor);
    first := if multiplication then product % TWO32 else if zero then 0xFFFF_FFFF else quotient;
    second := if multiplication then product / TWO32 else if zero then rs1 else remainder;
  }

  method EvalFn6(p: Proxy)
    requires Ready(p)
    modifies p.witnessRow
    ensures
      var (first, second) := Results(FlagsOf(p), Rs1(p), Rs2(p));
      Holds32(p.witnessRow, 23, 24, first) && Holds32(p.witnessRow, 25, 26, second)
    ensures OnlyChanged(p.witnessRow, 23, 26, 23, 26)
  {
    hide Results;
    var w := p.witnessRow;
    var rs1: Word := Add32(TWO16 * U16(p.memoryRow[3]), U16(p.memoryRow[2]));
    var rs2: Word := Add32(TWO16 * U16(p.memoryRow[8]), U16(p.memoryRow[7]));
    assert rs1 == Rs1(p) && rs2 == Rs2(p);
    var first, second := ComputeResults(FlagsOf(p), rs1, rs2);
    w[23] := first % TWO16;
    w[24] := first / TWO16;
    w[25] := second % TWO16;
    w[26] := second / TWO16;
  }

  method EvalFn7To11(p: Proxy, ghost n1: bool, ghost n2: bool, ghost q: Word, ghost r: Word)
    requires Ready(p)
    requires p.witnessRow[33] == FromBool(n1) && p.witnessRow[34] == FromBool(n2)
    requires Holds32(p.witnessRow, 23, 24, q) && Holds32(p.witnessRow, 25, 26, r)
    modifies p.witnessRow
    ensures p.witnessRow[52] == FromBool(n1 != n2) && p.witnessRow[53] == FromBool(q == 0)
    ensures p.witnessRow[56] == FromBool(r == 0)
    ensures p.witnessRow[55] == FromBool(NegativeQuotient(n1, n2, q))
    ensures p.witnessRow[58] == FromBool(NegativeRemainder(n1, r))
    ensures OnlyChanged(p.witnessRow, 52, 58, 52, 58)
  {
    hide XorField, AndNotField, FromBool;
    var w := p.witnessRow;
    BooleanFields(n1, n2);
    w[52] := XorField(w[33], w[34]);
    ZeroTest(q);
    w[53] := FromBool(Add(w[23], w[24]) == 0);
    BooleanFields(n1 != n2, q == 0);
    w[55] := AndNotField(w[52], w[53]);
    ZeroTest(r);
    w[56] := FromBool(Add(w[25], w[26]) == 0);
    BooleanFields(n1, r == 0);
    w[58] := AndNotField(w[33], w[56]);
  }

  /** The first factor and its sign, chosen between the two kinds of operation. */
  method EvalFn12To14(p: Proxy, ghost n1: bool, ghost nq: bool, ghost first: Word)
    requires Ready(p)
    requires p.witnessRow[33] == FromBool(n1) && p.witnessRow[55] == FromBool(nq)
    requires Holds32(p.witnessRow, 23, 24, first)
    modifies p.witnessRow, p.scratchSpace
    ensures
      var w, division := p.witnessRow, Mask(p.witnessRow[29]);
      && Holds32(p.scratchSpace, 0, 1, if division then first else Rs1(p))
      && w[59] == FromBool(if division then nq else n1)
    ensures OnlyChanged(p.witnessRow, 59, 59, 59, 59)
  {
    var w, s := p.witnessRow, p.scratchSpace;
    var multiplication := !Mask(w[29]);
    s[0] := if multiplication then p.memoryRow[2] else w[23];
    s[1] := if multiplication then p.memoryRow[3] else w[24];
    w[59] := FromBool(if multiplication then Mask(w[33]) else Mask(w[55]));
  }

  /** The addend and its sign: the remainder, or zero. */
  method EvalFn15To17(p: Proxy, ghost nr: bool, ghost second: Word)
    requires Ready(p)
    requires p.witnessRow[58] == FromBool(nr) && p.witnessRow[29] <= 1 && Holds32(p.witnessRow, 25, 26, second)
    modifies p.witnessRow
    ensures
      var w, division := p.witnessRow, Mask(p.witnessRow[29]);
      Holds32(w, 60, 61, if division then second else 0) && w[62] == FromBool(division && nr)
    ensures OnlyChanged(p.witnessRow, 60, 62, 60, 62)
  {
    var w := p.witnessRow;
    w[60] := if Mask(w[29]) then w[25] else 0;
    w[61] := if Mask(w[29]) then w[26] else 0;
    BooleanFields(Mask(w[29]), nr);
    w[62] := Add(0, Mul(w[29], w[58]));
  }

  /** The destination: the product, or the sign-extended dividend. */
  method EvalFn18To22(p: Proxy, ghost n1: bool, ghost first: Word, ghost second: Word)
    requires Ready(p) && p.witnessRow[33] == FromBool(n1)
    requires Holds32(p.witnessRow, 23, 24, first) && Holds32(p.witnessRow, 25, 26, second)
    modifies p.witnessRow, p.scratchSpace
    ensures
      var w, division := p.witnessRow, Mask(p.witnessRow[29]);
      && Holds32(w, 63, 64, if division then Rs1(p) else first)
      && Holds32(w, 65, 66, if division then (TWO32 - 1) * Bit(n1) else second)
      && p.scratchSpace[2] == 0xFFFF * Bit(n1)
    ensures OnlyChanged(p.witnessRow, 63, 66, 63, 66) && OnlyChanged(p.scratchSpace, 2, 2, 2, 2)
  {
    var w, s := p.witnessRow, p.scratchSpace;
    var multiplication := !Mask(w[29]);
    w[63] := if multiplication then w[23] else p.memoryRow[2];
    w[64] := if multiplication then w[24] else p.memoryRow[3];
    s[2] := Add(0, Mul(65535, w[33]));
    w[65] := if multiplication then w[25] else s[2];
    w[66] := if multiplication then w[26] else s[2];
  }

  /** The bytes of a factor, from the four places that start at k. */
  function FactorAt(row: array<Fp>, k: nat): (b: Bytes)
    requires k + 3 < row.Length
    ensures b.Valid()
    reads row
  {
    Bytes(U8(row[k]), U8(row[k + 1]), U8(row[k + 2]), U8(row[k + 3]))
  }

  lemma BytesOfLimb(x: nat)
    requires x < TWO16
    ensures x == x % 0x100 + 0x100 * (x / 0x100) && x / 0x100 < 0x100
  {
  }

  lemma BytesOfHalves(low: nat, high: nat)
    requires low < TWO16 && high < TWO16
    ensures
      var b := Bytes(low % 0x100, low / 0x100, high % 0x100, high / 0x100);
      && b.Valid() && b.Value() == low + TWO16 * high
      && U8(b.b0) == b.b0 && U8(b.b1) == b.b1 && U8(b.b2) == b.b2 && U8(b.b3) == b.b3
  {
    BytesOfLimb(low);
    BytesOfLimb(high);
  }

  method SplitWord(row: array<Fp>, k: nat, low: nat, high: nat, ghost v: Word)
    requires k + 3 < row.Length && low == v % TWO16 && high == v / TWO16
    modifies row
    ensures FactorAt(row, k).Value() == v
    ensures row[k] < 0x100 && row[k + 1] < 0x100 && row[k + 2] < 0x100 && row[k + 3] < 0x100
    ensures OnlyChanged(row, k, k + 3, k, k + 3)
  {
    hide Bytes.Value, U8;
    BytesOfHalves(low, high);
    var b0, b1, b2, b3 := low % 0x100, low / 0x100, high % 0x100, high / 0x100;
    row[k] := b0;
    row[k + 1] := b1;
    row[k + 2] := b2;
    row[k + 3] := b3;
  }

  method EvalFn23To24(p: Proxy, ghost op1: Word)
    requires Ready(p) && Holds32(p.scratchSpace, 0, 1, op1)
    modifies p.witnessRow
    ensures FactorAt(p.witnessRow, 9).Value() == op1 && FactorAt(p.witnessRow, 13).Value() == Rs2(p)
    ensures forall k: nat | 9 <= k < 17 :: p.witnessRow[k] < 0x100
    ensures OnlyChanged(p.witnessRow, 9, 16, 9, 16)
  {
    hide Bytes.Value;
    SplitWord(p.witnessRow, 9, U16(p.scratchSpace[0]), U16(p.scratchSpace[1]), op1);
    SplitWord(p.witnessRow, 13, U16(p.memoryRow[7]), U16(p.memoryRow[8]), Rs2(p));
  }

  /** A carry as it is stored: a byte and one to three boolean places. */
  function StoredCarry(row: array<Fp>, byte: nat, first: nat, count: nat): nat
    requires byte < row.Length && 1 <= count <= 3 && first + count <= row.Length
    reads row
  {
    U8(row[byte]) + 0x100 * Bit(Mask(row[first]))
    + (if count > 1 then 0x200 * Bit(Mask(row[first + 1])) else 0)
    + (if count > 2 then 0x400 * Bit(Mask(row[first + 2])) else 0)
  }

  /** A stored carry in terms of its places. */
  lemma CarryPlaces(row: array<Fp>, byte: nat, first: nat, count: nat)
    requires byte < row.Length && 1 <= count <= 3 && first + count <= row.Length
    requires row[byte] < 0x100 && forall k: nat | first <= k < first + count :: row[k] <= 1
    ensures StoredCarry(row, byte, first, count)
      == row[byte] + 0x100 * row[first] + (if count > 1 then 0x200 * row[first + 1] else 0)
         + (if count > 2 then 0x400 * row[first + 2] else 0)
  {
  }

  lemma CarryBit8(c: nat)
    ensures c % 0x100 + 0x100 * (c / 0x100 % 2) == c % 0x200
  {
    NextDigit(c, 0x100, 2);
  }

  lemma CarryBit9(c: nat)
    ensures c % 0x200 + 0x200 * (c / 0x200 % 2) == c % 0x400
  {
    NextDigit(c, 0x200, 2);
  }

  lemma CarryBit10(c: nat)
    ensures c % 0x400 + 0x400 * (c / 0x400 % 2) == c % 0x800
  {
    NextDigit(c, 0x400, 2);
  }

  lemma StoredBit(b: Fp)
    requires b <= 1
    ensures Bit(Mask(b)) == b
  {
  }

  lemma StoredByte(b: Fp)
    requires b < 0x100
    ensures U8(b) == b
  {
  }

  method StoreCarry(row: array<Fp>, c: nat, byte: nat, first: nat, count: nat)
    requires byte < first && 1 <= count <= 3 && first + count <= row.Length
    modifies row
    ensures StoredCarry(row, byte, first, count)
      == c % (if count == 1 then 0x200 else if count == 2 then 0x400 else 0x800)
    ensures row[byte] == c % 0x100 && row[first] == c / 0x100 % 2
    ensures (count > 1 ==> row[first + 1] == c / 0x200 % 2) && (count > 2 ==> row[first + 2] == c / 0x400 % 2)
    ensures OnlyChanged(row, byte, byte, first, first + count - 1)
  {
    hide Bit, Mask, U8;
    CarryBit8(c);
    CarryBit9(c);
    CarryBit10(c);
    StoredByte(c % 0x100);
    StoredBit(c / 0x100 % 2);
    StoredBit(c / 0x200 % 2);
    StoredBit(c / 0x400 % 2);
    row[first] := c / 0x100 % 2;
    if count > 1 {
      row[first + 1] := c / 0x200 % 2;
    }
    if count > 2 {
      row[first + 2] := c / 0x400 % 2;
    }
    row[byte] := c % 0x100;
  }

  method EvalFn25(p: Proxy, ghost a: Bytes, ghost b: Bytes)
    requires Ready(p) && FactorAt(p.witnessRow, 9) == a && FactorAt(p.witnessRow, 13) == b
    modifies p.witnessRow
    ensures
      var w := p.witnessRow;
      StoredCarry(w, 17, 35, 1) == CarryOut(Column0(a, b, old(U16(w[60]))), old(U16(w[63]))) % 0x200
    ensures
      var w := p.witnessRow;
      var c := CarryOut(Column0(a, b, old(U16(w[60]))), old(U16(w[63])));
      w[17] == c % 0x100 && w[35] == c / 0x100 % 2
    ensures p.witnessRow[17] < 0x100 && forall k: nat | 35 <= k < 36 :: p.witnessRow[k] <= 1
    ensures OnlyChanged(p.witnessRow, 17, 17, 35, 35)
  {
    hide Column0, U8, U16, Mask, Bit;
    var w := p.witnessRow;
    var v := Accumulate0(FactorAt(w, 9), FactorAt(w, 13), U16(w[60]), U16(w[63]));
    StoreCarry(w, v / TWO16, 17, 35, 1);
  }

  method EvalFn26(p: Proxy, ghost a: Bytes, ghost b: Bytes)
    requires Ready(p) && FactorAt(p.witnessRow, 9) == a && FactorAt(p.witnessRow, 13) == b
    modifies p.witnessRow
    ensures
      var w := p.witnessRow;
      StoredCarry(w, 18, 36, 2)
      == CarryOut(Column1(a, b, old(U16(w[61]))) + old(StoredCarry(w, 17, 35, 1)), old(U16(w[64]))) % 0x400
    ensures
      var w := p.witnessRow;
      var c := CarryOut(Column1(a, b, old(U16(w[61]))) + old(StoredCarry(w, 17, 35, 1)), old(U16(w[64])));
      w[18] == c % 0x100 && w[36] == c / 0x100 % 2 && w[37] == c / 0x200 % 2
    ensures StoredCarry(p.witnessRow, 17, 35, 1) == old(StoredCarry(p.witnessRow, 17, 35, 1))
    ensures p.witnessRow[18] < 0x100 && forall k: nat | 36 <= k < 38 :: p.witnessRow[k] <= 1
    ensures OnlyChanged(p.witnessRow, 18, 18, 36, 37)
  {
    hide Column1, U8, U16, Mask, Bit;
    var w := p.witnessRow;
    var carry := StoredCarry(w, 17, 35, 1);
    var v := Accumulate1(FactorAt(w, 9), FactorAt(w, 13), U16(w[61]), carry, U16(w[64]));
    StoreCarry(w, v / TWO16, 18, 36, 2);
  }

  method EvalFn27(p: Proxy, ghost a: Bytes, ghost b: Bytes)
    requires Ready(p) && FactorAt(p.witnessRow, 9) == a && FactorAt(p.witnessRow, 13) == b
    modifies p.witnessRow
    ensures
      var w := p.witnessRow;
      var t := Column2(a, old(Mask(w[59])), b, old(Mask(w[34])), old(Mask(w[62])));
      StoredCarry(w, 19, 38, 3) == CarryOut(t + old(StoredCarry(w, 18, 36, 2)), old(U16(w[65]))) % 0x800
    ensures
      var w := p.witnessRow;
      var t := Column2(a, old(Mask(w[59])), b, old(Mask(w[34])), old(Mask(w[62])));
      var c := CarryOut(t + old(StoredCarry(w, 18, 36, 2)), old(U16(w[65])));
      w[19] == c % 0x100 && w[38] == c / 0x100 % 2 && w[39] == c / 0x200 % 2 && w[40] == c / 0x400 % 2
    ensures StoredCarry(p.witnessRow, 17, 35, 1) == old(StoredCarry(p.witnessRow, 17, 35, 1))
    ensures StoredCarry(p.witnessRow, 18, 36, 2) == old(StoredCarry(p.witnessRow, 18, 36, 2))
    ensures p.witnessRow[19] < 0x100 && forall k: nat | 38 <= k < 41 :: p.witnessRow[k] <= 1
    ensures OnlyChanged(p.witnessRow, 19, 19, 38, 40)
  {
    hide Column2, U8, U16, Mask, Bit;
    var w := p.witnessRow;
    var carry := StoredCarry(w, 18, 36, 2);
    var v := Accumulate2(FactorAt(w, 9), Mask(w[59]), FactorAt(w, 13), Mask(w[34]), Mask(w[62]), carry, U16(w[65]));
    StoreCarry(w, v / TWO16, 19, 38, 3);
  }

  method EvalFn28(p: Proxy, ghost a: Bytes, ghost b: Bytes)
    requires Ready(p) && FactorAt(p.witnessRow, 9) == a && FactorAt(p.witnessRow, 13) == b
    modifies p.witnessRow
    ensures
      var w := p.witnessRow;
      var t := Column3(a, old(Mask(w[59])), b, old(Mask(w[34])), old(Mask(w[62])));
      StoredCarry(w, 20, 41, 3) == CarryOut(t + old(StoredCarry(w, 19, 38, 3)), old(U16(w[66]))) % 0x800
    ensures
      var w := p.witnessRow;
      var t := Column3(a, old(Mask(w[59])), b, old(Mask(w[34])), old(Mask(w[62])));
      var c := CarryOut(t + old(StoredCarry(w, 19, 38, 3)), old(U16(w[66])));
      w[20] == c % 0x100 && w[41] == c / 0x100 % 2 && w[42] == c / 0x200 % 2 && w[43] == c / 0x400 % 2
    ensures StoredCarry(p.witnessRow, 17, 35, 1) == old(StoredCarry(p.witnessRow, 17, 35, 1))
    ensures StoredCarry(p.witnessRow, 18, 36, 2) == old(StoredCarry(p.witnessRow, 18, 36, 2))
    ensures StoredCarry(p.witnessRow, 19, 38, 3) == old(StoredCarry(p.witnessRow, 19, 38, 3))
    ensures p.witnessRow[20] < 0x100 && forall k: nat | 41 <= k < 44 :: p.witnessRow[k] <= 1
    ensures OnlyChanged(p.witnessRow, 20, 20, 41, 43)
  {
    hide Column3, U8, U16, Mask, Bit;
    var w := p.witnessRow;
    var carry := StoredCarry(w, 19, 38, 3);
    var v := Accumulate3(FactorAt(w, 9), Mask(w[59]), FactorAt(w, 13), Mask(w[34]), Mask(w[62]), carry, U16(w[66]));
    StoreCarry(w, v / TWO16, 20, 41, 3);
  }

  method EvalFn29To30(p: Proxy, ghost first: Word, ghost second: Word)
    requires Ready(p) && Holds32(p.witnessRow, 23, 24, first) && Holds32(p.witnessRow, 25, 26, second)
    modifies p.witnessRow
    ensures Holds32(p.witnessRow, 67, 68, if Mask(p.witnessRow[30]) then first else second)
    ensures OnlyChanged(p.witnessRow, 67, 68, 67, 68)
  {
    var w := p.witnessRow;
    w[67] := if Mask(w[30]) then w[23] else w[25];
    w[68] := if Mask(w[30]) then w[24] else w[26];
  }

  method EvalFn31To32(p: Proxy)
    requires Ready(p) && p.witnessRow[29] <= 1
    modifies p.witnessRow
    ensures p.witnessRow[69] == FromBool(Rs2(p) == 0)
    ensures p.witnessRow[71] == FromBool(Mask(p.witnessRow[29]) && Rs2(p) == 0)
    ensures OnlyChanged(p.witnessRow, 69, 71, 69, 71)
  {
    var w := p.witnessRow;
    ZeroTest(Rs2(p));
    w[69] := FromBool(Add(p.memoryRow[7], p.memoryRow[8]) == 0);
    BooleanFields(Mask(w[29]), Rs2(p) == 0);
    w[71] := Add(0, Mul(w[29], w[69]));
  }

  lemma CarryOf(x: nat, y: nat)
    requires x < TWO16 && y < TWO16
    ensures x + y == Add16(x, y) + TWO16 * Bit(x + y >= TWO16)
    ensures x - y == Sub16(x, y) - TWO16 * Bit(x < y)
  {
  }

  /** A sum of two-limb words by limbs, with the carries that each limb gives. */
  lemma AddLimbs(r0: nat, r1: nat, d0: nat, d1: nat)
    requires r0 < TWO16 && r1 < TWO16 && d0 < TWO16 && d1 < TWO16
    ensures
      var c := Bit(r0 + d0 >= TWO16);
      var overflow := r1 + d1 >= TWO16 || Add16(r1, d1) + c >= TWO16;
      r0 + TWO16 * r1 + d0 + TWO16 * d1 == Add16(r0, d0) + TWO16 * Add16(Add16(r1, d1), c) + TWO32 * Bit(overflow)
  {
    var c := Bit(r0 + d0 >= TWO16);
    CarryOf(r0, d0);
    CarryOf(r1, d1);
    CarryOf(Add16(r1, d1), c);
  }

  lemma SubLimbs(r0: nat, r1: nat, d0: nat, d1: nat)
    requires r0 < TWO16 && r1 < TWO16 && d0 < TWO16 && d1 < TWO16
    ensures
      var c := Bit(r0 < d0);
      var overflow := r1 < d1 || Sub16(r1, d1) < c;
      r0 + TWO16 * r1 - (d0 + TWO16 * d1) == Sub16(r0, d0) + TWO16 * Sub16(Sub16(r1, d1), c) - TWO32 * Bit(overflow)
  {
    var c := Bit(r0 < d0);
    CarryOf(r0, d0);
    CarryOf(r1, d1);
    CarryOf(Sub16(r1, d1), c);
  }

  /** One 32-bit addition or subtraction in two 16-bit limbs, as places 27, 28, 44 and 45 hold it. */
  method AddOrSubtract(opposite: bool, r0: nat, r1: nat, d0: nat, d1: nat)
    returns (low: nat, high: nat, carry: bool, overflow: bool)
    requires r0 < TWO16 && r1 < TWO16 && d0 < TWO16 && d1 < TWO16
    ensures low < TWO16 && high < TWO16
    ensures if opposite then r0 + d0 == low + TWO16 * Bit(carry) else r0 - d0 == low - TWO16 * Bit(carry)
    ensures
      var r, d := r0 + TWO16 * r1, d0 + TWO16 * d1;
      if opposite then r + d == low + TWO16 * high + TWO32 * Bit(overflow)
      else r - d == low + TWO16 * high - TWO32 * Bit(overflow)
  {
    AddLimbs(r0, r1, d0, d1);
    SubLimbs(r0, r1, d0, d1);
    CarryOf(r0, d0);
    carry := if opposite then r0 + d0 >= TWO16 else r0 < d0;
    low := if opposite then Add16(r0, d0) else Sub16(r0, d0);
    var sum, difference := Add16(r1, d1), Sub16(r1, d1);
    high := if opposite then Add16(sum, Bit(carry)) else Sub16(difference, Bit(carry));
    var overflowAdd := r1 + d1 >= TWO16 || sum + Bit(carry) >= TWO16;
    var overflowSub := r1 < d1 || difference < Bit(carry);
    overflow := if opposite then overflowAdd else overflowSub;
  }

  /** The remainder test read off the outcome of that addition or subtraction. */
  lemma RemainderTestByOutcome(r: Word, rNeg: bool, d: Word, dNeg: bool, out: Word, overflow: bool)
    requires if rNeg != dNeg then r + d == out + TWO32 * Bit(overflow) else r - d == out - TWO32 * Bit(overflow)
    ensures
      var condition := (rNeg != dNeg) != overflow;
      RemainderTest(r, rNeg, d, dNeg) == if rNeg then !condition && out != 0 else condition
  {
  }

  method EvalFn33(p: Proxy, ghost n2: bool, ghost nr: bool)
    requires Ready(p) && p.witnessRow[34] == FromBool(n2) && p.witnessRow[58] == FromBool(nr)
    modifies p.witnessRow
    ensures p.witnessRow[72] == FromBool(nr != n2)
    ensures OnlyChanged(p.witnessRow, 72, 72, 72, 72)
  {
    hide XorField;
    BooleanFields(n2, nr);
    p.witnessRow[72] := XorField(p.witnessRow[34], p.witnessRow[58]);
  }

  lemma FlagMask(b: bool)
    ensures Mask(FromBool(b)) == b
  {
  }

  lemma WholeLimb(x: Fp)
    requires x < TWO16
    ensures U16(x) == x
  {
  }

  lemma TwoLimbs(low: nat, high: nat)
    requires low < TWO16 && high < TWO16
    ensures low + TWO16 * high < TWO32
    ensures (low + TWO16 * high) % TWO16 == low && (low + TWO16 * high) / TWO16 == high
  {
  }

  method EvalFn34(p: Proxy, ghost opposite: bool, ghost r: Word) returns (ghost out: Word, ghost overflow: bool)
    requires Ready(p) && p.witnessRow[72] == FromBool(opposite) && Holds32(p.witnessRow, 25, 26, r)
    modifies p.witnessRow
    ensures if opposite then r + Rs2(p) == out + TWO32 * Bit(overflow) else r - Rs2(p) == out - TWO32 * Bit(overflow)
    ensures Holds32(p.witnessRow, 27, 28, out) && p.witnessRow[45] == FromBool(overflow)
    ensures
      var low, d, carry := r % TWO16, Rs2(p) % TWO16, TWO16 * p.witnessRow[44];
      p.witnessRow[44] <= 1 && if opposite then low + d == out % TWO16 + carry else low - d == out % TWO16 - carry
    ensures OnlyChanged(p.witnessRow, 27, 28, 44, 45)
  {
    hide U16, Mask;
    var w, m := p.witnessRow, p.memoryRow;
    WholeLimb(w[25]);
    FlagMask(opposite);
    WholeLimb(w[26]);
    WholeLimb(m[7]);
    WholeLimb(m[8]);
    var low, high, carry, of := AddOrSubtract(Mask(w[72]), U16(w[25]), U16(w[26]), U16(m[7]), U16(m[8]));
    assert r == U16(w[25]) + TWO16 * U16(w[26]) && Rs2(p) == U16(m[7]) + TWO16 * U16(m[8]);
    assert r % TWO16 == U16(w[25]) && Rs2(p) % TWO16 == U16(m[7]);
    TwoLimbs(low, high);
    w[27] := low;
    w[28] := high;
    w[44] := FromBool(carry);
    w[45] := FromBool(of);
    out, overflow := low + TWO16 * high, of;
  }

  method EvalFn35To38(p: Proxy, ghost nr: bool, ghost opposite: bool, ghost overflow: bool, ghost out: Word)
    requires Ready(p) && p.witnessRow[58] == FromBool(nr)
    requires p.witnessRow[72] == FromBool(opposite) && p.witnessRow[45] == FromBool(overflow)
    requires Holds32(p.witnessRow, 27, 28, out)
    modifies p.witnessRow
    ensures
      var condition := opposite != overflow;
      && p.witnessRow[73] == FromBool(condition) && p.witnessRow[74] == FromBool(out == 0)
      && p.witnessRow[76] == FromBool(!condition && out != 0)
      && p.witnessRow[77] == FromBool(if nr then !condition && out != 0 else condition)
    ensures OnlyChanged(p.witnessRow, 73, 77, 73, 77)
  {
    hide XorField, NorField;
    var w := p.witnessRow;
    BooleanFields(opposite, overflow);
    w[73] := XorField(w[72], w[45]);
    ZeroTest(out);
    w[74] := FromBool(Add(w[27], w[28]) == 0);
    BooleanFields(opposite != overflow, out == 0);
    w[76] := NorField(w[73], w[74]);
    w[77] := FromBool(if Mask(w[58]) then Mask(w[76]) else Mask(w[73]));
  }

  /** Places 46 and 47 hold the carries of pc + 4: with them both limb differences are 16-bit limbs,
      so they are the limbs of the next program counter. */
  ghost predicate StepCarries(p: Proxy)
    requires Ready(p)
    reads p.memoryRow, p.witnessRow
  {
    var w, low, high := p.witnessRow, p.memoryRow[18], p.memoryRow[19];
    && w[46] <= 1 && w[47] <= 1
    && 0 <= low + 4 - TWO16 * w[46] < TWO16 && 0 <= high + w[46] - TWO16 * w[47] < TWO16
  }

  method EvalFn42To43(p: Proxy)
    requires Ready(p)
    modifies p.witnessRow
    ensures StepCarries(p)
    ensures OnlyChanged(p.witnessRow, 46, 47, 78, 79)
  {
    var w := p.witnessRow;
    w[46] := FromBool(U16(p.memoryRow[18]) + 4 >= TWO16);
    w[47] := FromBool(U16(p.memoryRow[19]) + U16(w[46]) >= TWO16);
  }

  /** The flag combinations that the decoder produces: a signed second operand implies a signed first
      one, and a division treats both alike. */
  predicate Consistent(f: Flags) {
    if f.division then f.signed1 == f.signed2 else f.signed2 ==> f.signed1
  }

  /** Everything that the relation is about, as functions of the flags and the operands. */
  datatype Relation = Relation(op1: Word, neg1: bool, op2: Word, neg2: bool, addend: Word, addNeg: bool, low: Word,
    high: Word)

  function RelationOf(f: Flags, rs1: Word, rs2: Word): Relation {
    RelationFor(f, rs1, rs2, Results(f, rs1, rs2).0, Results(f, rs1, rs2).1)
  }

  /** The same for any two words in the place of the results. */
  function RelationFor(f: Flags, rs1: Word, rs2: Word, first: Word, second: Word): Relation {
    var n1, n2 := Negative1(f, rs1), Negative2(f, rs2);
    if f.division then
      Relation(first, NegativeQuotient(n1, n2, first), rs2, n2, second, NegativeRemainder(n1, second),
               rs1, (TWO32 - 1) * Bit(n1))
    else Relation(rs1, n1, rs2, n2, 0, false, first, second)
  }

  function LimbsOf(low: Word, high: Word): (d: Limbs)
    ensures d.Valid() && d.Value() == low + TWO32 * high
  {
    Limbs(low % TWO16, low / TWO16, high % TWO16, high / TWO16)
  }

  lemma SignExtension(v: Word, neg: bool)
    ensures (Signed(v, neg) - (v + TWO32 * ((TWO32 - 1) * Bit(neg)))) % TWO64 == 0
  {
  }

  /** Products and quotients alike satisfy the multiply-add modulo 2^64. */
  lemma RelationHolds(f: Flags, rs1: Word, rs2: Word, a: Bytes, b: Bytes)
    requires Consistent(f)
    requires a.Value() == RelationOf(f, rs1, rs2).op1 && b.Value() == rs2
    ensures
      var r := RelationOf(f, rs1, rs2);
      Holds(a, r.neg1, b, r.neg2, r.addend, r.addNeg, r.low + TWO32 * r.high)
  {
    hide Results, Bytes.Value, Signed, Negative1, Negative2, NegativeQuotient, NegativeRemainder;
    if f.division {
      DivisionHolds(f, rs1, rs2);
      SignExtension(rs1, Negative1(f, rs1));
    } else {
      MultiplicationHolds(f, rs1, rs2);
      assert Signed(0, false) == 0 by {
        SignedZero();
      }
    }
  }

  lemma SignedZero()
    ensures Signed(0, false) == 0
  {
  }

  /** The carries in their places account for every column exactly, and are as small as the byte and
      bits that hold them require. */
  ghost predicate ColumnsClosed(p: Proxy, r: Relation)
    requires p.Valid(20, 80, 3)
    reads p.witnessRow
  {
    var w, a, b, d := p.witnessRow, FactorAt(p.witnessRow, 9), FactorAt(p.witnessRow, 13), LimbsOf(r.low, r.high);
    && a.Value() == r.op1 && b.Value() == r.op2
    && CarriesAre(r, a, b, StoredCarry(w, 17, 35, 1), StoredCarry(w, 18, 36, 2), StoredCarry(w, 19, 38, 3),
      StoredCarry(w, 20, 41, 3))
  }

  ghost predicate CarriesAre(r: Relation, a: Bytes, b: Bytes, c0: nat, c1: nat, c2: nat, c3: nat) {
    var d := LimbsOf(r.low, r.high);
    && Column0(a, b, r.addend % TWO16) == d.d0 + TWO16 * c0 && c0 <= 510
    && Column1(a, b, r.addend / TWO16) + c0 == d.d1 + TWO16 * c1 && c1 <= 1020
    && Column2(a, r.neg1, b, r.neg2, r.addNeg) + c1 == d.d2 + TWO16 * c2 && c2 <= 1530
    && Column3(a, r.neg1, b, r.neg2, r.addNeg) + c2 == d.d3 + TWO16 * c3 && c3 <= 2040
  }

  lemma RelationCarries(f: Flags, rs1: Word, rs2: Word, a: Bytes, b: Bytes)
    requires Consistent(f) && a.Valid() && b.Valid()
    requires a.Value() == RelationOf(f, rs1, rs2).op1 && b.Value() == rs2
    ensures
      var r := RelationOf(f, rs1, rs2);
      var d := LimbsOf(r.low, r.high);
      var c0 := CarryOut(Column0(a, b, r.addend % TWO16), d.d0);
      var c1 := CarryOut(Column1(a, b, r.addend / TWO16) + c0, d.d1);
      var c2 := CarryOut(Column2(a, r.neg1, b, r.neg2, r.addNeg) + c1, d.d2);
      var c3 := CarryOut(Column3(a, r.neg1, b, r.neg2, r.addNeg) + c2, d.d3);
      CarriesAre(r, a, b, c0, c1, c2, c3)
  {
    hide RelationOf, Column0, Column1, Column2, Column3, CarryOut, Bytes.Value, Signed;
    var r := RelationOf(f, rs1, rs2);
    RelationHolds(f, rs1, rs2, a, b);
    CarriesClose(a, r.neg1, b, r.neg2, r.addend % TWO16, r.addend / TWO16, r.addNeg, LimbsOf(r.low, r.high));
  }

  /** The row after the first stage: flags, operand signs, results and their signs. */
  ghost predicate OperandsDone(p: Proxy, f: Flags, rs1: Word, rs2: Word)
    requires p.Valid(20, 80, 3)
    reads p.witnessRow
  {
    var w := p.witnessRow;
    var first, second := Results(f, rs1, rs2).0, Results(f, rs1, rs2).1;
    var n1, n2 := Negative1(f, rs1), Negative2(f, rs2);
    && FlagsOf(p) == f && w[29] <= 1
    && w[33] == FromBool(n1) && w[34] == FromBool(n2)
    && Holds32(w, 23, 24, first) && Holds32(w, 25, 26, second)
    && w[55] == FromBool(NegativeQuotient(n1, n2, first)) && w[58] == FromBool(NegativeRemainder(n1, second))
  }

  method EvaluateOperands(p: Proxy)
    requires Ready(p)
    modifies p.witnessRow
    ensures OperandsDone(p, FlagsIn(old(p.witnessRow[4])), Rs1(p), Rs2(p))
  {
    hide Results, FromBool, Negative1, Negative2, FlagsIn, Mask, NegativeQuotient, NegativeRemainder;
    ghost var rs1, rs2 := Rs1(p), Rs2(p);
    EvalFn1(p);
    ghost var f := FlagsOf(p);
    EvalFn4(p);
    EvalFn5(p);
    EvalFn6(p);
    assert FlagsOf(p) == f && Rs1(p) == rs1 && Rs2(p) == rs2;
    assert p.witnessRow[33] == FromBool(Negative1(f, rs1)) && p.witnessRow[34] == FromBool(Negative2(f, rs2));
    ghost var first, second := Results(f, rs1, rs2).0, Results(f, rs1, rs2).1;
    EvalFn7To11(p, Negative1(f, rs1), Negative2(f, rs2), first, second);
    assert FlagsOf(p) == f && Rs1(p) == rs1 && Rs2(p) == rs2;
  }

  /** The row after the second stage: the signs, limbs and bytes of the relation. */
  ghost predicate LimbsDone(p: Proxy, r: Relation)
    requires p.Valid(20, 80, 3)
    reads p.witnessRow
  {
    var w := p.witnessRow;
    && w[59] == FromBool(r.neg1) && w[34] == FromBool(r.neg2) && w[62] == FromBool(r.addNeg)
    && Holds32(w, 60, 61, r.addend) && Holds32(w, 63, 64, r.low) && Holds32(w, 65, 66, r.high)
  }

  method EvaluateLimbs(p: Proxy, ghost f: Flags, ghost r: Relation)
    requires Ready(p) && OperandsDone(p, f, Rs1(p), Rs2(p)) && r == RelationOf(f, Rs1(p), Rs2(p))
    modifies p.witnessRow, p.scratchSpace
    ensures LimbsDone(p, r) && Holds32(p.scratchSpace, 0, 1, r.op1)
    ensures OnlyChanged(p.witnessRow, 59, 66, 59, 66)
  {
    hide Results, FromBool, Negative1, Negative2, NegativeQuotient, NegativeRemainder, Bit;
    ghost var rs1, rs2 := Rs1(p), Rs2(p);
    ghost var first, second := Results(f, rs1, rs2).0, Results(f, rs1, rs2).1;
    ghost var n1, n2 := Negative1(f, rs1), Negative2(f, rs2);
    ghost var nq, nr := NegativeQuotient(n1, n2, first), NegativeRemainder(n1, second);
    EvalFn12To14(p, n1, nq, first);
    EvalFn15To17(p, nr, second);
    EvalFn18To22(p, n1, first, second);
  }

  /** What the range checks demand: byte places hold bytes, and the bits of the carries are boolean. */
  ghost predicate InRange(row: array<Fp>)
    requires row.Length >= 80
    reads row
  {
    && (forall k: nat | 9 <= k < 21 :: row[k] < 0x100)
    && (forall k: nat | 35 <= k < 44 :: row[k] <= 1)
  }

  /** The carries as the columns compute them, cut to 9, 10, 11 and 11 bits. */
  ghost predicate CarryChain(r: Relation, a: Bytes, b: Bytes, c0: nat, c1: nat, c2: nat, c3: nat) {
    var d := LimbsOf(r.low, r.high);
    && c0 == CarryOut(Column0(a, b, r.addend % TWO16), d.d0) % 0x200
    && c1 == CarryOut(Column1(a, b, r.addend / TWO16) + c0, d.d1) % 0x400
    && c2 == CarryOut(Column2(a, r.neg1, b, r.neg2, r.addNeg) + c1, d.d2) % 0x800
    && c3 == CarryOut(Column3(a, r.neg1, b, r.neg2, r.addNeg) + c2, d.d3) % 0x800
  }

  method EvaluateLowColumns(p: Proxy, ghost r: Relation, ghost a: Bytes, ghost b: Bytes)
    requires Ready(p) && LimbsDone(p, r) && FactorAt(p.witnessRow, 9) == a && FactorAt(p.witnessRow, 13) == b
    modifies p.witnessRow
    ensures
      var w, d, c := p.witnessRow, LimbsOf(r.low, r.high), StoredCarry(p.witnessRow, 17, 35, 1);
      && c == CarryOut(Column0(a, b, r.addend % TWO16), d.d0) % 0x200
      && StoredCarry(w, 18, 36, 2) == CarryOut(Column1(a, b, r.addend / TWO16) + c, d.d1) % 0x400
    ensures p.witnessRow[17] < 0x100 && p.witnessRow[18] < 0x100
    ensures forall k: nat | 35 <= k < 38 :: p.witnessRow[k] <= 1
    ensures OnlyChanged(p.witnessRow, 17, 18, 35, 37)
  {
    hide Column0, Column1, CarryOut, U8, Bit, StoredCarry;
    EvalFn25(p, a, b);
    EvalFn26(p, a, b);
  }

  method EvaluateHighColumns(p: Proxy, ghost r: Relation, ghost a: Bytes, ghost b: Bytes)
    requires Ready(p) && LimbsDone(p, r) && FactorAt(p.witnessRow, 9) == a && FactorAt(p.witnessRow, 13) == b
    modifies p.witnessRow
    ensures
      var w, d, c := p.witnessRow, LimbsOf(r.low, r.high), StoredCarry(p.witnessRow, 19, 38, 3);
      && c == CarryOut(Column2(a, r.neg1, b, r.neg2, r.addNeg) + old(StoredCarry(w, 18, 36, 2)), d.d2) % 0x800
      && StoredCarry(w, 20, 41, 3) == CarryOut(Column3(a, r.neg1, b, r.neg2, r.addNeg) + c, d.d3) % 0x800
    ensures StoredCarry(p.witnessRow, 17, 35, 1) == old(StoredCarry(p.witnessRow, 17, 35, 1))
    ensures StoredCarry(p.witnessRow, 18, 36, 2) == old(StoredCarry(p.witnessRow, 18, 36, 2))
    ensures p.witnessRow[19] < 0x100 && p.witnessRow[20] < 0x100
    ensures forall k: nat | 38 <= k < 44 :: p.witnessRow[k] <= 1
    ensures OnlyChanged(p.witnessRow, 19, 20, 38, 43)
  {
    hide Column2, Column3, CarryOut, U8, Bit, StoredCarry;
    EvalFn27(p, a, b);
    EvalFn28(p, a, b);
  }

  method EvaluateColumns(p: Proxy, ghost r: Relation, ghost a: Bytes, ghost b: Bytes)
    requires Ready(p) && LimbsDone(p, r) && FactorAt(p.witnessRow, 9) == a && FactorAt(p.witnessRow, 13) == b
    requires forall k: nat | 9 <= k < 17 :: p.witnessRow[k] < 0x100
    modifies p.witnessRow
    ensures InRange(p.witnessRow)
    ensures
      var w := p.witnessRow;
      CarryChain(r, a, b, StoredCarry(w, 17, 35, 1), StoredCarry(w, 18, 36, 2), StoredCarry(w, 19, 38, 3),
        StoredCarry(w, 20, 41, 3))
    ensures OnlyChanged(p.witnessRow, 17, 20, 35, 43)
  {
    hide Column0, Column1, Column2, Column3, CarryOut, U8, U16, Mask, Bit, StoredCarry, LimbsOf;
    EvaluateLowColumns(p, r, a, b);
    EvaluateHighColumns(p, r, a, b);
  }

  lemma SmallCarry(c: nat, n: nat)
    requires n > 0
    ensures c < n ==> c % n == c
  {
  }

  /** Where the relation holds the cut loses nothing. */
  lemma ChainCloses(r: Relation, a: Bytes, b: Bytes, c0: nat, c1: nat, c2: nat, c3: nat)
    requires a.Valid() && b.Valid() && CarryChain(r, a, b, c0, c1, c2, c3)
    requires Holds(a, r.neg1, b, r.neg2, r.addend, r.addNeg, r.low + TWO32 * r.high)
    ensures CarriesAre(r, a, b, c0, c1, c2, c3)
  {
    hide Column0, Column1, Column2, Column3, CarryOut, Bytes.Value, Signed, LimbsOf, Holds;
    var lo, hi, d := r.addend % TWO16, r.addend / TWO16, LimbsOf(r.low, r.high);
    CarriesClose(a, r.neg1, b, r.neg2, lo, hi, r.addNeg, d);
    var t0, t1 := Column0(a, b, lo), Column1(a, b, hi);
    var t2, t3 := Column2(a, r.neg1, b, r.neg2, r.addNeg), Column3(a, r.neg1, b, r.neg2, r.addNeg);
    SmallCarry(CarryOut(t0, d.d0), 0x200);
    SmallCarry(CarryOut(t1 + c0, d.d1), 0x400);
    SmallCarry(CarryOut(t2 + c1, d.d2), 0x800);
    SmallCarry(CarryOut(t3 + c2, d.d3), 0x800);
  }

  /** For flags that the decoder produces the relation does hold. */
  lemma CarryChainExact(f: Flags, rs1: Word, rs2: Word, a: Bytes, b: Bytes, c0: nat, c1: nat, c2: nat, c3: nat)
    requires Consistent(f) && a.Valid() && b.Valid()
    requires a.Value() == RelationOf(f, rs1, rs2).op1 && b.Value() == rs2
    requires CarryChain(RelationOf(f, rs1, rs2), a, b, c0, c1, c2, c3)
    ensures CarriesAre(RelationOf(f, rs1, rs2), a, b, c0, c1, c2, c3)
  {
    hide *;
    RelationHolds(f, rs1, rs2, a, b);
    ChainCloses(RelationOf(f, rs1, rs2), a, b, c0, c1, c2, c3);
  }

  /** Places 27, 28, 44 and 45 hold the sum or the difference of the remainder and the divisor, limb by
      limb, and place 77 what its overflow and its zero test say about their magnitudes. */
  ghost predicate Compared(row: array<Fp>, r: Word, rNeg: bool, d: Word, dNeg: bool)
    requires row.Length >= 80
    reads row
  {
    var opposite, low, high, c, o := rNeg != dNeg, row[27], row[28], row[44], row[45];
    var condition := opposite != (o == 1);
    && low < TWO16 && high < TWO16 && c <= 1 && o <= 1
    && (if opposite then r % TWO16 + d % TWO16 == low + TWO16 * c && r + d == low + TWO16 * high + TWO32 * o
        else r % TWO16 - d % TWO16 == low - TWO16 * c && r - d == low + TWO16 * high - TWO32 * o)
    && row[77] == FromBool(if rNeg then !condition && !(low == 0 && high == 0) else condition)
  }

  lemma ComparedMeans(row: array<Fp>, r: Word, rNeg: bool, d: Word, dNeg: bool)
    requires row.Length >= 80 && Compared(row, r, rNeg, d, dNeg)
    ensures row[77] == FromBool(RemainderTest(r, rNeg, d, dNeg))
  {
    hide RemainderTest;
    RemainderTestByOutcome(r, rNeg, d, dNeg, row[27] + TWO16 * row[28], row[45] == 1);
  }

  /** The remainder against the divisor, EvalFn33 to EvalFn38. */
  method CompareMagnitudes(p: Proxy, ghost n2: bool, ghost nr: bool, ghost r: Word)
    requires Ready(p) && Holds32(p.witnessRow, 25, 26, r)
    requires p.witnessRow[34] == FromBool(n2) && p.witnessRow[58] == FromBool(nr)
    modifies p.witnessRow
    ensures Compared(p.witnessRow, r, nr, Rs2(p), n2)
    ensures OnlyChanged(p.witnessRow, 72, 77, 27, 45)
    ensures forall k: nat | 29 <= k < 44 :: p.witnessRow[k] == old(p.witnessRow[k])
  {
    EvalFn33(p, n2, nr);
    ghost var out, overflow := EvalFn34(p, nr != n2, r);
    EvalFn35To38(p, nr, nr != n2, overflow, out);
  }

  /** The outcome of the last stage: the value for rd, the zero-divisor trap and the remainder test. */
  ghost predicate ChecksDone(p: Proxy, f: Flags, rs1: Word, rs2: Word)
    requires p.Valid(20, 80, 3)
    reads p.witnessRow
  {
    var w := p.witnessRow;
    var first, second := Results(f, rs1, rs2).0, Results(f, rs1, rs2).1;
    && Holds32(w, 67, 68, if f.first then first else second)
    && w[69] == FromBool(rs2 == 0) && w[71] == FromBool(f.division && rs2 == 0)
    && Compared(w, second, NegativeRemainder(Negative1(f, rs1), second), rs2, Negative2(f, rs2))
    && w[77] == FromBool(RemainderTest(second, NegativeRemainder(Negative1(f, rs1), second), rs2, Negative2(f, rs2)))
  }

  method EvaluateChecks(p: Proxy, ghost f: Flags)
    requires Ready(p) && OperandsDone(p, f, Rs1(p), Rs2(p))
    modifies p.witnessRow
    ensures ChecksDone(p, f, Rs1(p), Rs2(p))
    ensures OnlyChanged(p.witnessRow, 67, 77, 27, 45)
    ensures forall k: nat | 29 <= k < 44 :: p.witnessRow[k] == old(p.witnessRow[k])
  {
    hide Results, RemainderTest, FromBool, Negative1, Negative2, NegativeRemainder, Compared;
    ghost var rs1, rs2 := Rs1(p), Rs2(p);
    ghost var first, second := Results(f, rs1, rs2).0, Results(f, rs1, rs2).1;
    ghost var n2, nr := Negative2(f, rs2), NegativeRemainder(Negative1(f, rs1), second);
    EvalFn29To30(p, first, second);
    EvalFn31To32(p);
    CompareMagnitudes(p, n2, nr, second);
    ComparedMeans(p.witnessRow, second, nr, rs2, n2);
  }

  /** A division by zero gives the all-ones quotient; any other division passes the remainder test. */
  lemma DivisionChecksPass(f: Flags, rs1: Word, rs2: Word)
    requires f.division && Consistent(f)
    ensures
      var q, r := Results(f, rs1, rs2).0, Results(f, rs1, rs2).1;
      var n1, n2 := Negative1(f, rs1), Negative2(f, rs2);
      if rs2 == 0 then q == 0xFFFF_FFFF && r == rs1 else RemainderTest(r, NegativeRemainder(n1, r), rs2, n2)
  {
    hide Quot, Rem;
    var r := Results(f, rs1, rs2).1;
    DivisionHolds(f, rs1, rs2);
    RemainderTestMeans(r, NegativeRemainder(Negative1(f, rs1), r), rs2, Negative2(f, rs2));
  }

  /** What one evaluation leaves in the row, whatever the row held before. */
  ghost predicate Evaluated(p: Proxy, f: Flags, rs1: Word, rs2: Word)
    requires p.Valid(20, 80, 3)
    reads p.witnessRow
  {
    var w := p.witnessRow;
    && OperandsDone(p, f, rs1, rs2) && ChecksDone(p, f, rs1, rs2) && RelationDone(p, f, rs1, rs2)
    && (Consistent(f) ==> ColumnsClosed(p, RelationOf(f, rs1, rs2)))
    && (Consistent(f) && f.division && rs2 != 0 ==> w[77] == 1)
    && (Consistent(f) && w[71] == 1 ==> w[23] == 0xFFFF && w[24] == 0xFFFF)
    && forall op: Operation :: f == Decoded(op) ==> Holds32(w, 67, 68, Result(op, rs1, rs2))
  }

  lemma RelationFactor(f: Flags, rs1: Word, rs2: Word)
    ensures RelationOf(f, rs1, rs2).op2 == rs2
  {
    hide Results;
  }

  /** The carries in their places, before it is known that the cut loses nothing. */
  ghost predicate ColumnsCut(p: Proxy, r: Relation)
    requires p.Valid(20, 80, 3)
    reads p.witnessRow
  {
    var w, a, b := p.witnessRow, FactorAt(p.witnessRow, 9), FactorAt(p.witnessRow, 13);
    && a.Value() == r.op1 && b.Value() == r.op2
    && CarryChain(r, a, b, StoredCarry(w, 17, 35, 1), StoredCarry(w, 18, 36, 2), StoredCarry(w, 19, 38, 3),
      StoredCarry(w, 20, 41, 3))
  }

  /** The places of the relation are filled and in range. */
  ghost predicate RelationDone(p: Proxy, f: Flags, rs1: Word, rs2: Word)
    requires p.Valid(20, 80, 3)
    reads p.witnessRow
  {
    LimbsDone(p, RelationOf(f, rs1, rs2)) && InRange(p.witnessRow)
  }

  method EvaluateRelation(p: Proxy, ghost f: Flags)
    requires Ready(p) && f == FlagsIn(p.witnessRow[4])
    modifies p.witnessRow, p.scratchSpace
    ensures OperandsDone(p, f, Rs1(p), Rs2(p)) && ColumnsCut(p, RelationOf(f, Rs1(p), Rs2(p)))
    ensures RelationDone(p, f, Rs1(p), Rs2(p))
  {
    hide Results, FlagsIn, FromBool, Negative1, Negative2, NegativeQuotient, NegativeRemainder, Bytes.Value, U8,
      CarryChain, RelationOf, Bit, Mask;
    ghost var rs1, rs2 := Rs1(p), Rs2(p);
    ghost var r := RelationOf(f, rs1, rs2);
    RelationFactor(f, rs1, rs2);
    EvaluateOperands(p);
    EvaluateLimbs(p, f, r);
    EvalFn23To24(p, r.op1);
    ghost var a, b := FactorAt(p.witnessRow, 9), FactorAt(p.witnessRow, 13);
    EvaluateColumns(p, r, a, b);
    assert FactorAt(p.witnessRow, 9) == a && FactorAt(p.witnessRow, 13) == b;
  }

  lemma ColumnsExact(p: Proxy, f: Flags, rs1: Word, rs2: Word)
    requires p.Valid(20, 80, 3) && Consistent(f) && ColumnsCut(p, RelationOf(f, rs1, rs2))
    ensures ColumnsClosed(p, RelationOf(f, rs1, rs2))
  {
    hide CarriesAre, CarryChain, RelationOf, Bytes.Value, U8, StoredCarry, Consistent;
    var w := p.witnessRow;
    var c0, c1, c2, c3 :=
      StoredCarry(w, 17, 35, 1), StoredCarry(w, 18, 36, 2), StoredCarry(w, 19, 38, 3), StoredCarry(w, 20, 41, 3);
    RelationFactor(f, rs1, rs2);
    CarryChainExact(f, rs1, rs2, FactorAt(w, 9), FactorAt(w, 13), c0, c1, c2, c3);
  }

  method EvaluateRow(p: Proxy, ghost f: Flags)
    requires Ready(p) && f == FlagsIn(p.witnessRow[4])
    modifies p.witnessRow, p.scratchSpace
    ensures OperandsDone(p, f, Rs1(p), Rs2(p)) && ChecksDone(p, f, Rs1(p), Rs2(p))
    ensures RelationDone(p, f, Rs1(p), Rs2(p))
    ensures Consistent(f) ==> ColumnsClosed(p, RelationOf(f, Rs1(p), Rs2(p)))
  {
    hide Results, FlagsIn, FromBool, Negative1, Negative2, NegativeQuotient, NegativeRemainder, Bytes.Value, U8,
      CarryChain, RelationOf, RemainderTest, Bit, Mask, Compared, ColumnsClosed, Consistent;
    ghost var w := p.witnessRow;
    EvaluateRelation(p, f);
    ghost var a, b, c0, c1 := FactorAt(w, 9), FactorAt(w, 13), StoredCarry(w, 17, 35, 1), StoredCarry(w, 18, 36, 2);
    ghost var c2, c3 := StoredCarry(w, 19, 38, 3), StoredCarry(w, 20, 41, 3);
    EvaluateChecks(p, f);
    assert FactorAt(w, 9) == a && FactorAt(w, 13) == b;
    assert StoredCarry(w, 17, 35, 1) == c0 && StoredCarry(w, 18, 36, 2) == c1;
    assert StoredCarry(w, 19, 38, 3) == c2 && StoredCarry(w, 20, 41, 3) == c3;
    if Consistent(f) {
      ColumnsExact(p, f, Rs1(p), Rs2(p));
    }
  }

  /** The decoder word of an instruction. */
  function Selector(op: Operation): nat {
    match op
    case MUL => 14
    case MULH => 12
    case MULHSU => 4
    case MULHU => 0
    case DIV => 15
    case DIVU => 3
    case REM => 13
    case REMU => 1
  }

  lemma SelectorsDecode(op: Operation)
    ensures FlagsIn(Selector(op)) == Decoded(op) && Consistent(Decoded(op))
  {
  }

  /** The program counter step leaves the rest of the row alone. */
  method EvaluateStep(p: Proxy, ghost f: Flags)
    requires Ready(p) && OperandsDone(p, f, Rs1(p), Rs2(p)) && ChecksDone(p, f, Rs1(p), Rs2(p))
    requires RelationDone(p, f, Rs1(p), Rs2(p))
    requires Consistent(f) ==> ColumnsClosed(p, RelationOf(f, Rs1(p), Rs2(p)))
    modifies p.witnessRow
    ensures OperandsDone(p, f, Rs1(p), Rs2(p)) && ChecksDone(p, f, Rs1(p), Rs2(p))
    ensures RelationDone(p, f, Rs1(p), Rs2(p))
    ensures Consistent(f) ==> ColumnsClosed(p, RelationOf(f, Rs1(p), Rs2(p)))
    ensures StepCarries(p)
  {
    hide Results, FromBool, Negative1, Negative2, NegativeQuotient, NegativeRemainder, RemainderTest,
      Bytes.Value, U8, CarriesAre, RelationOf, Bit, Mask;
    ghost var w := p.witnessRow;
    ghost var a, b := FactorAt(w, 9), FactorAt(w, 13);
    ghost var c0, c1, c2, c3 := StoredCarry(w, 17, 35, 1), StoredCarry(w, 18, 36, 2), StoredCarry(w, 19, 38, 3),
      StoredCarry(w, 20, 41, 3);
    EvalFn42To43(p);
    assert FactorAt(w, 9) == a && FactorAt(w, 13) == b;
    assert StoredCarry(w, 17, 35, 1) == c0 && StoredCarry(w, 18, 36, 2) == c1;
    assert StoredCarry(w, 19, 38, 3) == c2 && StoredCarry(w, 20, 41, 3) == c3;
  }

  /** What the finished row means to the machine. */
  lemma RowMeans(p: Proxy, f: Flags, rs1: Word, rs2: Word)
    requires p.Valid(20, 80, 3)
    requires OperandsDone(p, f, rs1, rs2) && ChecksDone(p, f, rs1, rs2)
    ensures Consistent(f) && f.division && rs2 != 0 ==> p.witnessRow[77] == 1
    ensures Consistent(f) && p.witnessRow[71] == 1 ==> p.witnessRow[23] == 0xFFFF && p.witnessRow[24] == 0xFFFF
    ensures forall op: Operation :: f == Decoded(op) ==> Holds32(p.witnessRow, 67, 68, Result(op, rs1, rs2))
  {
    hide Results, Result, Negative1, Negative2, NegativeQuotient, NegativeRemainder, RemainderTest, Decoded;
    if Consistent(f) && f.division {
      DivisionChecksPass(f, rs1, rs2);
    }
    forall op: Operation | f == Decoded(op) ensures Holds32(p.witnessRow, 67, 68, Result(op, rs1, rs2)) {
      ResultsAreIsa(op, rs1, rs2);
    }
  }

  lemma FactorPlaces(row: array<Fp>, k: nat)
    requires k + 3 < row.Length
    requires row[k] < 0x100 && row[k + 1] < 0x100 && row[k + 2] < 0x100 && row[k + 3] < 0x100
    ensures FactorAt(row, k) == Bytes(row[k], row[k + 1], row[k + 2], row[k + 3])
  {
  }

  /** The columns close over the places as they stand: bytes in places 9 to 16, signs in 59, 34 and 62,
      the addend in 60 and 61, the destination in 63 to 66, and each carry in its byte and bits. */
  lemma ColumnsOnPlaces(p: Proxy, r: Relation)
    requires p.Valid(20, 80, 3) && LimbsDone(p, r) && InRange(p.witnessRow) && ColumnsClosed(p, r)
    ensures
      var w := p.witnessRow;
      Balanced(Bytes(w[9], w[10], w[11], w[12]), w[59] == 1, Bytes(w[13], w[14], w[15], w[16]), w[34] == 1,
               w[60], w[61], w[62] == 1, Limbs(w[63], w[64], w[65], w[66]),
               w[17] + 0x100 * w[35], w[18] + 0x100 * w[36] + 0x200 * w[37],
               w[19] + 0x100 * w[38] + 0x200 * w[39] + 0x400 * w[40],
               w[20] + 0x100 * w[41] + 0x200 * w[42] + 0x400 * w[43])
  {
    hide Column0, Column1, Column2, Column3, StoredCarry, FactorAt, Bytes.Value;
    var w := p.witnessRow;
    FactorPlaces(w, 9);
    FactorPlaces(w, 13);
    CarryPlaces(w, 17, 35, 1);
    CarryPlaces(w, 18, 36, 2);
    CarryPlaces(w, 19, 38, 3);
    CarryPlaces(w, 20, 41, 3);
  }

  /** The eight decoder words, by number. */
  lemma WordsDecode()
    ensures FlagsIn(14) == Decoded(MUL) && FlagsIn(12) == Decoded(MULH) && FlagsIn(4) == Decoded(MULHSU)
    ensures FlagsIn(0) == Decoded(MULHU) && FlagsIn(15) == Decoded(DIV) && FlagsIn(3) == Decoded(DIVU)
    ensures FlagsIn(13) == Decoded(REM) && FlagsIn(1) == Decoded(REMU)
  {
  }

  /** One evaluation of the row. In terms of places: under each of the eight decoder words, 67 and 68
      hold the result of the instruction on the two words in the memory places, the columns close, and
      46 and 47 are the carries of pc + 4. */
  method EvaluateWitness(p: Proxy, ghost f: Flags)
    requires Ready(p) && f == FlagsIn(p.witnessRow[4])
    modifies p.witnessRow, p.scratchSpace
    ensures Evaluated(p, f, Rs1(p), Rs2(p))
    ensures StepCarries(p)
    ensures
      var m, w, x := p.memoryRow, p.witnessRow, old(p.witnessRow[4]);
      x in {0, 1, 3, 4, 12, 13, 14, 15} ==>
        var op :=
          match x
          case 14 => MUL case 12 => MULH case 4 => MULHSU case 0 => MULHU
          case 15 => DIV case 3 => DIVU case 13 => REM case _ => REMU;
        var v := Result(op, m[2] + TWO16 * m[3], m[7] + TWO16 * m[8]);
        w[67] == v % TWO16 && w[68] == v / TWO16
    ensures Consistent(f) ==>
      var w := p.witnessRow;
      Balanced(Bytes(w[9], w[10], w[11], w[12]), w[59] == 1, Bytes(w[13], w[14], w[15], w[16]), w[34] == 1,
               w[60], w[61], w[62] == 1, Limbs(w[63], w[64], w[65], w[66]),
               w[17] + 0x100 * w[35], w[18] + 0x100 * w[36] + 0x200 * w[37],
               w[19] + 0x100 * w[38] + 0x200 * w[39] + 0x400 * w[40],
               w[20] + 0x100 * w[41] + 0x200 * w[42] + 0x400 * w[43])
    ensures
      var m, w := p.memoryRow, p.witnessRow;
      && w[46] <= 1 && w[47] <= 1
      && 0 <= m[18] + 4 - TWO16 * w[46] < TWO16 && 0 <= m[19] + w[46] - TWO16 * w[47] < TWO16
  {
    hide OperandsDone, ChecksDone, ColumnsClosed, LimbsDone, InRange, FlagsIn, Consistent, Decoded, Result, RelationOf,
      Balanced;
    EvaluateRow(p, f);
    EvaluateStep(p, f);
    RowMeans(p, f, Rs1(p), Rs2(p));
    WordsDecode();
    if Consistent(f) {
      ColumnsOnPlaces(p, RelationOf(f, Rs1(p), Rs2(p)));
    }
  }
}
