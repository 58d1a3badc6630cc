/** The witness evaluator of the circuit for additions, lui, auipc and the three modular operations.
    Methods are named after the evaluation functions they model, and places are numbered as in that
    circuit's layout. */
module AddSubMopCircuit {
  import opened Mersenne31
  import opened Witness
  import opened LimbArithmetic
  import opened MulRelation
  import opened RiscvM

  datatype Instruction = AddOp | AddiOp | SubOp | LuiOp | AuipcOp | AddModOp | SubModOp | MulModOp

  datatype Inputs = Inputs(rs1: Word, rs2: Word, pc: Word, imm: Word) {
    ghost predicate Read(p: Proxy)
      reads p.memoryRow, p.witnessRow
    {
      && p.Valid(20, 31, 0)
      && Holds32(p.memoryRow, 2, 3, rs1) && Holds32(p.memoryRow, 7, 8, rs2) && Holds32(p.memoryRow, 18, 19, pc)
      && Holds32(p.witnessRow, 1, 2, imm)
    }
  }

  predicate Modular(op: Instruction) {
    op.AddModOp? || op.SubModOp? || op.MulModOp?
  }

  /** The value of each instruction: wrapping arithmetic, or arithmetic modulo 2^31 - 1 on whole words. */
  function ValueOf(op: Instruction, x: Inputs): (v: Word)
    ensures Modular(op) ==> v < P
  {
    match op
    case AddOp => ToWord(x.rs1 + x.rs2)
    case AddiOp => ToWord(x.rs1 + x.imm)
    case SubOp => ToWord(x.rs1 - x.rs2)
    case LuiOp => x.imm
    case AuipcOp => ToWord(x.pc + x.imm)
    case AddModOp => (x.rs1 + x.rs2) % P
    case SubModOp => (x.rs1 - x.rs2) % P
    case MulModOp => (x.rs1 * x.rs2) % P
  }

  /** Carry or borrow; for a modular result it is the borrow against the modulus. */
  predicate OverflowOf(op: Instruction, x: Inputs) {
    match op
    case AddOp => x.rs1 + x.rs2 >= TWO32
    case AddiOp => x.rs1 + x.imm >= TWO32
    case SubOp => x.rs1 < x.rs2
    case LuiOp => false
    case AuipcOp => x.pc + x.imm >= TWO32
    case _ => true
  }

  /** The difference to the modulus, which shows that a modular result is canonical. */
  function IntermediateOf(op: Instruction, x: Inputs): Word {
    if Modular(op) then ToWord(ValueOf(op, x) - P) else 0
  }

  ghost predicate Selects(row: array<Fp>, op: Instruction)
    requires row.Length > 19
    reads row
  {
    && row[12] == FromBool(op.AddOp?) && row[13] == FromBool(op.AddiOp?) && row[14] == FromBool(op.SubOp?)
    && row[15] == FromBool(op.LuiOp?) && row[16] == FromBool(op.AuipcOp?) && row[17] == FromBool(op.AddModOp?)
    && row[18] == FromBool(op.SubModOp?) && row[19] == FromBool(op.MulModOp?)
  }

  /** The decoder word of each instruction. */
  function OperationBits(op: Instruction): nat {
    match op
    case AddOp => 1 case AddiOp => 2 case SubOp => 4 case LuiOp => 8
    case AuipcOp => 16 case AddModOp => 32 case SubModOp => 64 case MulModOp => 128
  }

  lemma BitsSelect(op: Instruction)
    ensures
      var x := OperationBits(op);
      && x % 2 == FromBool(op.AddOp?) && x / 2 % 2 == FromBool(op.AddiOp?) && x / 4 % 2 == FromBool(op.SubOp?)
      && x / 8 % 2 == FromBool(op.LuiOp?) && x / 16 % 2 == FromBool(op.AuipcOp?) && x / 32 % 2 == FromBool(op.AddModOp?)
      && x / 64 % 2 == FromBool(op.SubModOp?) && x / 128 % 2 == FromBool(op.MulModOp?)
  {
  }

  method EvalFn1(p: Proxy, ghost op: Instruction)
    requires p.Valid(20, 31, 0) && p.witnessRow[4] == OperationBits(op)
    modifies p.witnessRow
    ensures Selects(p.witnessRow, op)
    ensures
      var w, x := p.witnessRow, old(p.witnessRow[4]);
      && w[12] == x % 2 && w[13] == x / 2 % 2 && w[14] == x / 4 % 2 && w[15] == x / 8 % 2
      && w[16] == x / 16 % 2 && w[17] == x / 32 % 2 && w[18] == x / 64 % 2 && w[19] == x / 128 % 2
    ensures OnlyChanged(p.witnessRow, 12, 19, 12, 19)
  {
    hide OperationBits, FromBool;
    BitsSelect(op);
    var w := p.witnessRow;
    var x := w[4];
    w[12] := x % 2;
    w[13] := x / 2 % 2;
    w[14] := x / 4 % 2;
    w[15] := x / 8 % 2;
    w[16] := x / 16 % 2;
    w[17] := x / 32 % 2;
    w[18] := x / 64 % 2;
    w[19] := x / 128 % 2;
  }

  lemma FieldProduct(x: Fp, scale: Fp, y: Fp)
    ensures Mul(Mul(x, scale), y) == ((x * scale) * y) % P
  {
    ReduceProduct(x * scale, y);
    SmallMod(y);
  }

  /** One product added to a field accumulator that holds an integer sum modulo p. */
  method AddFieldProduct(v: Fp, ghost sum: int, x: Fp, scale: Fp, y: Fp) returns (v': Fp, ghost sum': int)
    requires v == sum % P
    ensures sum' == sum + (x * scale) * y && v' == sum' % P
  {
    hide Add, Mul;
    ghost var t := (x * scale) * y;
    FieldProduct(x, scale, y);
    Accumulate(v, sum, t);
    v', sum' := Add(v, Mul(Mul(x, scale), y)), sum + t;
  }

  lemma Distribute(x: int, t: int, y: int, z: int)
    ensures (x + t * y) * z == x * z + t * (y * z)
  {
  }

  lemma Scale(x: int, t: int, y: int)
    ensures (x * t) * y == t * (x * y)
  {
  }

  lemma WordProduct(a0: nat, a1: nat, b0: nat, b1: nat)
    ensures (a0 + TWO16 * a1) * (b0 + TWO16 * b1)
         == a0 * b0 + TWO16 * (a0 * b1) + TWO16 * (a1 * b0) + TWO32 * (a1 * b1)
  {
    Distribute(a0, TWO16, a1, b0 + TWO16 * b1);
    Distribute(b0, TWO16, b1, a0);
    Distribute(b0, TWO16, b1, a1);
  }

  /** Limb products are the word product, because 2^32 is 2 modulo p. */
  lemma LimbProduct(a0: nat, a1: nat, b0: nat, b1: nat)
    ensures (a0 * b0 + (a0 * TWO16) * b1 + (a1 * TWO16) * b0 + (a1 * 2) * b1) % P
         == ((a0 + TWO16 * a1) * (b0 + TWO16 * b1)) % P
  {
    WordProduct(a0, a1, b0, b1);
    Scale(a0, TWO16, b1);
    Scale(a1, TWO16, b0);
    Scale(a1, 2, b1);
    var low := a0 * b0 + (a0 * TWO16) * b1 + (a1 * TWO16) * b0 + (a1 * 2) * b1;
    assert (a0 + TWO16 * a1) * (b0 + TWO16 * b1) == low + P * (2 * (a1 * b1));
    ShiftMod(low, 2 * (a1 * b1));
  }

  /** The product of the two sources in the field, by limbs. */
  method EvalFn4(p: Proxy, ghost x: Inputs)
    requires x.Read(p)
    modifies p.witnessRow
    ensures p.witnessRow[28] == ValueOf(MulModOp, x)
    ensures OnlyChanged(p.witnessRow, 28, 28, 28, 28)
  {
    var m := p.memoryRow;
    var a0, a1, b0, b1 := m[2], m[3], m[7], m[8];
    ghost var sum := 0;
    var v: Fp := 0;
    v, sum := AddFieldProduct(v, sum, a0, 1, b0);
    v, sum := AddFieldProduct(v, sum, a0, TWO16, b1);
    v, sum := AddFieldProduct(v, sum, a1, TWO16, b0);
    v, sum := AddFieldProduct(v, sum, a1, 2, b1);
    LimbProduct(a0, a1, b0, b1);
    assert x.rs1 == a0 + TWO16 * a1 && x.rs2 == b0 + TWO16 * b1;
    p.witnessRow[28] := v;
  }

  /** The three modular results: both sources are reduced first. */
  method FieldResults(rs1: Word, rs2: Word) returns (sum: Fp, difference: Fp, product: Fp)
    ensures sum == (rs1 + rs2) % P && difference == (rs1 - rs2) % P && product == (rs1 * rs2) % P
  {
    var f1, f2 := FromInteger(rs1), FromInteger(rs2);
    ReduceProduct(rs1, rs2);
    SumMod(rs1, rs2);
    sum, difference, product := Add(f1, f2), Sub(f1, f2), Mul(f1, f2);
  }

  /** The output, its overflow and the intermediate, selected among all instructions. */
  method ComputeResults(row: array<Fp>, ghost op: Instruction, x: Inputs) returns (out: Word, tmp: Word, overflow: bool)
    requires row.Length > 19 && Selects(row, op)
    ensures out == ValueOf(op, x) && tmp == IntermediateOf(op, x) && overflow == OverflowOf(op, x)
  {
    hide ToWord;
    var sum, difference, product := FieldResults(x.rs1, x.rs2);
    out, tmp, overflow := 0, 0, false;
    if Mask(row[12]) { out, overflow := ToWord(x.rs1 + x.rs2), x.rs1 + x.rs2 >= TWO32; }
    if Mask(row[13]) { out, overflow := ToWord(x.rs1 + x.imm), x.rs1 + x.imm >= TWO32; }
    if Mask(row[14]) { out, overflow := ToWord(x.rs1 - x.rs2), x.rs1 < x.rs2; }
    if Mask(row[15]) { out, overflow := x.imm, false; }
    if Mask(row[16]) { out, overflow := ToWord(x.pc + x.imm), x.pc + x.imm >= TWO32; }
    if Mask(row[17]) { out, tmp, overflow := sum, ToWord(sum - P), sum < P; }
    if Mask(row[18]) { out, tmp, overflow := difference, ToWord(difference - P), difference < P; }
    if Mask(row[19]) { out, tmp, overflow := product, ToWord(product - P), product < P; }
  }

  method EvalFn5(p: Proxy, ghost op: Instruction, ghost x: Inputs)
    requires x.Read(p) && Selects(p.witnessRow, op)
    modifies p.witnessRow
    ensures Holds32(p.witnessRow, 8, 9, ValueOf(op, x)) && Holds32(p.witnessRow, 10, 11, IntermediateOf(op, x))
    ensures p.witnessRow[20] == FromBool(OverflowOf(op, x))
    ensures OnlyChanged(p.witnessRow, 8, 11, 20, 20)
  {
    hide ValueOf, IntermediateOf, OverflowOf, Selects;
    var w, m := p.witnessRow, p.memoryRow;
    var rs1 := ReadWord(m, 2, 3, x.rs1);
    var rs2 := ReadWord(m, 7, 8, x.rs2);
    var pc := ReadWord(m, 18, 19, x.pc);
    var imm := ReadWord(w, 1, 2, x.imm);
    var out, tmp, overflow := ComputeResults(w, op, Inputs(rs1, rs2, pc, imm));
    w[8] := out % TWO16;
    w[9] := out / TWO16;
    w[10] := tmp % TWO16;
    w[11] := tmp / TWO16;
    w[20] := FromBool(overflow);
  }

  /** Places 21 and 22 hold the carries of pc + 4. */
  method EvalFn9To10(p: Proxy, ghost x: Inputs)
    requires x.Read(p)
    modifies p.witnessRow
    ensures LimbEquations(x.pc, 4, ToWord(x.pc + 4), Mask(p.witnessRow[21]), Mask(p.witnessRow[22]))
    ensures p.witnessRow[21] <= 1 && p.witnessRow[22] <= 1
    ensures OnlyChanged(p.witnessRow, 21, 22, 29, 30)
  {
    var w, m := p.witnessRow, p.memoryRow;
    CarryBetweenLimbs(x.pc, 4, ToWord(x.pc + 4), x.pc + 4 >= TWO32);
    w[21] := FromBool(m[18] + 4 >= TWO16);
    w[22] := FromBool(m[19] + w[21] >= TWO16);
  }

  /** The sum that the circuit checks for each instruction. */
  function CheckedSum(op: Instruction, x: Inputs): (Word, Word, Word) {
    var out := ValueOf(op, x);
    match op
    case AddOp => (x.rs1, x.rs2, out)
    case AddiOp => (x.rs1, x.imm, out)
    case SubOp => (out, x.rs2, x.rs1)
    case LuiOp => (0, x.imm, out)
    case AuipcOp => (x.pc, x.imm, out)
    case _ => (IntermediateOf(op, x), P, out)
  }

  lemma CheckedSumExact(op: Instruction, x: Inputs)
    ensures CheckedSum(op, x).0 + CheckedSum(op, x).1 == CheckedSum(op, x).2 + TWO32 * Bit(OverflowOf(op, x))
  {
    if Modular(op) {
      var v := ValueOf(op, x);
      hide ValueOf;
      assert v < P && ToWord(v - P) == v - P + TWO32;
    }
  }

  /** The carry between the limbs, selected among the candidates of all instructions. */
  method EvalFn11(p: Proxy, ghost op: Instruction, ghost x: Inputs)
    requires x.Read(p) && Selects(p.witnessRow, op)
    requires Holds32(p.witnessRow, 8, 9, ValueOf(op, x)) && Holds32(p.witnessRow, 10, 11, IntermediateOf(op, x))
    modifies p.witnessRow
    ensures
      var s := CheckedSum(op, x);
      p.witnessRow[23] <= 1 && LimbEquations(s.0, s.1, s.2, Mask(p.witnessRow[23]), OverflowOf(op, x))
    ensures OnlyChanged(p.witnessRow, 23, 23, 23, 23)
  {
    hide ValueOf, IntermediateOf, OverflowOf, LimbEquations, CarryBit;
    var w, m := p.witnessRow, p.memoryRow;
    ghost var s := CheckedSum(op, x);
    CheckedSumExact(op, x);
    CarryBitCloses(s.0, s.1, s.2, OverflowOf(op, x));
    var c := if Mask(w[12]) then CarryBit(m[2], m[7], w[8]) else false;
    c := if Mask(w[13]) then CarryBit(m[2], w[1], w[8]) else c;
    c := if Mask(w[14]) then CarryBit(w[8], m[7], m[2]) else c;
    c := if Mask(w[15]) then CarryBit(0, w[1], w[8]) else c;
    c := if Mask(w[16]) then CarryBit(m[18], w[1], w[8]) else c;
    var modular := CarryBit(w[10], 65535, w[8]);
    c := if Mask(w[17]) then modular else c;
    c := if Mask(w[18]) then modular else c;
    c := if Mask(w[19]) then modular else c;
    w[23] := FromBool(c);
  }

  /** Everything that one evaluation leaves in the row, whatever it held before. */
  ghost predicate Evaluated(row: array<Fp>, op: Instruction, x: Inputs)
    requires row.Length >= 31
    reads row
  {
    var s := CheckedSum(op, x);
    && Holds32(row, 8, 9, ValueOf(op, x)) && Holds32(row, 10, 11, IntermediateOf(op, x))
    && row[20] == FromBool(OverflowOf(op, x)) && row[28] == ValueOf(MulModOp, x)
    && LimbEquations(s.0, s.1, s.2, Mask(row[23]), OverflowOf(op, x))
    && LimbEquations(x.pc, 4, ToWord(x.pc + 4), Mask(row[21]), Mask(row[22]))
  }

  method EvaluateRow(p: Proxy, ghost op: Instruction, ghost x: Inputs)
    requires x.Read(p) && p.witnessRow[4] == OperationBits(op)
    modifies p.witnessRow
    ensures Evaluated(p.witnessRow, op, x)
    ensures p.witnessRow[21] <= 1 && p.witnessRow[22] <= 1 && p.witnessRow[23] <= 1
  {
    hide ValueOf, IntermediateOf, OverflowOf, LimbEquations, CheckedSum, FromBool, ToWord, Mask;
    EvalFn1(p, op);
    EvalFn4(p, x);
    EvalFn5(p, op, x);
    EvalFn9To10(p, x);
    EvalFn11(p, op, x);
  }

  /** The value and the overflow of each decoder word. */
  lemma ValueByWord(word: nat, op: Instruction, x: Inputs)
    requires word == OperationBits(op)
    ensures ValueOf(op, x) ==
      if word == 1 then (x.rs1 + x.rs2) % TWO32 else if word == 2 then (x.rs1 + x.imm) % TWO32
      else if word == 4 then (x.rs1 - x.rs2) % TWO32 else if word == 8 then x.imm
      else if word == 16 then (x.pc + x.imm) % TWO32 else if word == 32 then (x.rs1 + x.rs2) % P
      else if word == 64 then (x.rs1 - x.rs2) % P else (x.rs1 * x.rs2) % P
    ensures OverflowOf(op, x) ==
      if word == 1 then x.rs1 + x.rs2 >= TWO32 else if word == 2 then x.rs1 + x.imm >= TWO32
      else if word == 4 then x.rs1 < x.rs2 else if word == 8 then false
      else if word == 16 then x.pc + x.imm >= TWO32 else true
    ensures word >= 32 ==> IntermediateOf(op, x) == (ValueOf(op, x) - P) % TWO32
    ensures word in {1, 2, 4, 8, 16, 32, 64, 128}
  {
  }

  lemma ModularProduct(word: nat, op: Instruction, x: Inputs)
    requires word == OperationBits(op)
    ensures word == 128 ==> ValueOf(MulModOp, x) == ValueOf(op, x)
  {
  }

  /** The carries over their places. */
  lemma CarriesByPlaces(row: array<Fp>, word: nat, op: Instruction, x: Inputs)
    requires row.Length >= 31 && Evaluated(row, op, x) && word == OperationBits(op)
    requires row[21] <= 1 && row[22] <= 1 && row[23] <= 1
    ensures word == 1 ==> Closes(x.rs1 % TWO16, x.rs2 % TWO16, row[8], row[23])
    ensures word == 2 ==> Closes(x.rs1 % TWO16, x.imm % TWO16, row[8], row[23])
    ensures word == 4 ==> Closes(row[8], x.rs2 % TWO16, x.rs1 % TWO16, row[23])
    ensures word == 8 ==> Closes(0, x.imm % TWO16, row[8], row[23])
    ensures word == 16 ==> Closes(x.pc % TWO16, x.imm % TWO16, row[8], row[23])
    ensures word >= 32 ==> Closes(row[10], 0xFFFF, row[8], row[23])
    ensures 0 <= x.pc % TWO16 + 4 - TWO16 * row[21] < TWO16
    ensures 0 <= x.pc / TWO16 + row[21] - TWO16 * row[22] < TWO16
  {
    hide ValueOf, OverflowOf, IntermediateOf, ToWord, LimbEquations, Closes;
    var s := CheckedSum(op, x);
    LimbsClose(s.0, s.1, s.2, row[23], FromBool(OverflowOf(op, x)));
    LimbsClose(x.pc, 4, ToWord(x.pc + 4), row[21], row[22]);
    StepLimbs(x.pc, row[21], row[22]);
  }

  lemma StepLimbs(pc: Word, c: Fp, o: Fp)
    requires c <= 1 && o <= 1 && Closes(pc % TWO16, 4, ToWord(pc + 4) % TWO16, c)
    requires pc / TWO16 + c == ToWord(pc + 4) / TWO16 + 0x1_0000 * o
    ensures 0 <= pc % TWO16 + 4 - TWO16 * c < TWO16 && 0 <= pc / TWO16 + c - TWO16 * o < TWO16
  {
  }

  /** One evaluation of the row. In terms of places: under the decoder words 1, 2, 4 and so on to 128,
      with rs1, rs2 and pc in memory places and the immediate in 1 and 2, places 8 and 9 hold the value
      of the instruction, 20 its overflow, 10 and 11 the difference of a modular result to the modulus,
      23 the carry of the checked sum, and 21 and 22 those of pc + 4. */
  method EvaluateWitness(p: Proxy, ghost op: Instruction, ghost x: Inputs)
    requires x.Read(p) && p.witnessRow[4] == OperationBits(op)
    modifies p.witnessRow
    ensures
      var m, w, word := p.memoryRow, p.witnessRow, old(p.witnessRow[4]);
      var rs1, rs2, pc := m[2] + TWO16 * m[3], m[7] + TWO16 * m[8], m[18] + TWO16 * m[19];
      var imm := old(w[1]) + TWO16 * old(w[2]);
      var v :=
        if word == 1 then (rs1 + rs2) % TWO32 else if word == 2 then (rs1 + imm) % TWO32
        else if word == 4 then (rs1 - rs2) % TWO32 else if word == 8 then imm
        else if word == 16 then (pc + imm) % TWO32 else if word == 32 then (rs1 + rs2) % P
        else if word == 64 then (rs1 - rs2) % P else (rs1 * rs2) % P;
      var overflow :=
        if word == 1 then rs1 + rs2 >= TWO32 else if word == 2 then rs1 + imm >= TWO32
        else if word == 4 then rs1 < rs2 else if word == 8 then false
        else if word == 16 then pc + imm >= TWO32 else true;
      && w[8] == v % TWO16 && w[9] == v / TWO16 && w[20] == (if overflow then 1 else 0)
      && (word >= 32 ==> w[10] == (v - P) % TWO32 % TWO16 && w[11] == (v - P) % TWO32 / TWO16)
      && (word == 128 ==> w[28] == v)
    ensures
      var m, w, word := p.memoryRow, p.witnessRow, old(p.witnessRow[4]);
      && (word == 1 ==> Closes(m[2], m[7], w[8], w[23])) && (word == 2 ==> Closes(m[2], old(w[1]), w[8], w[23]))
      && (word == 4 ==> Closes(w[8], m[7], m[2], w[23])) && (word == 8 ==> Closes(0, old(w[1]), w[8], w[23]))
      && (word == 16 ==> Closes(m[18], old(w[1]), w[8], w[23])) && (word >= 32 ==> Closes(w[10], 0xFFFF, w[8], w[23]))
      && w[21] <= 1 && w[22] <= 1
      && 0 <= m[18] + 4 - TWO16 * w[21] < TWO16 && 0 <= m[19] + w[21] - TWO16 * w[22] < TWO16
    ensures Evaluated(p.witnessRow, op, x)
  {
    hide ValueOf, IntermediateOf, OverflowOf, LimbEquations, CheckedSum, ToWord, OperationBits, Closes;
    ghost var m, w, word := p.memoryRow, p.witnessRow, p.witnessRow[4];
    assert x.rs1 == m[2] + TWO16 * m[3] && x.rs2 == m[7] + TWO16 * m[8] && x.pc == m[18] + TWO16 * m[19];
    assert x.imm == w[1] + TWO16 * w[2];
    EvaluateRow(p, op, x);
    ValueByWord(word, op, x);
    ModularProduct(word, op, x);
    CarriesByPlaces(w, word, op, x);
  }

  /** The field equations of the modular operations hold of the limbs that are written. */
  lemma ModularConstraints(row: array<Fp>, op: Instruction, x: Inputs)
    requires row.Length >= 31 && Evaluated(row, op, x) && Modular(op)
    ensures
      var out := Add(row[8], Mul(TWO16, row[9]));
      && out == row[8] + TWO16 * row[9]
      && (op.AddModOp? ==> out == Add(FromInteger(x.rs1), FromInteger(x.rs2)))
      && (op.SubModOp? ==> out == Sub(FromInteger(x.rs1), FromInteger(x.rs2)))
      && (op.MulModOp? ==> out == row[28])
    ensures row[20] == 1
  {
    SumMod(x.rs1, x.rs2);
    WordInField(ValueOf(op, x));
    hide LimbEquations, IntermediateOf, CheckedSum, Mul;
  }

  lemma WordInField(v: Word)
    requires v < P
    ensures Add(v % TWO16, Mul(TWO16, v / TWO16)) == v
  {
  }

  /** And they leave no choice: an output of two limbs that is congruent to the value and borrows
      against the modulus is the canonical one. */
  lemma OnlyCanonicalPasses(op: Instruction, x: Inputs, out: Word, tmp: Word, carry: bool)
    requires Modular(op) && LimbEquations(tmp, P, out, carry, true)
    requires out % P == ValueOf(op, x)
    ensures out == ValueOf(op, x) && tmp == IntermediateOf(op, x)
  {
    LimbsSum(tmp, P, out, carry, true);
    hide LimbEquations, ValueOf;
    assert out < P;
  }

  lemma LimbsSum(a: Word, b: Word, c: Word, carry: bool, overflow: bool)
    requires LimbEquations(a, b, c, carry, overflow)
    ensures a + b == c + TWO32 * Bit(overflow)
  {
  }
}
