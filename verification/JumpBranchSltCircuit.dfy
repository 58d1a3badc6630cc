/** The witness evaluator of the jump, branch and set-less-than circuit. Methods are named after the
    evaluation functions they model, and places are numbered as in that circuit's layout. */
module JumpBranchSltCircuit {
  import opened Mersenne31
  import opened Witness
  import opened Digits
  import opened LimbArithmetic
  import opened MulRelation
  import opened RiscvM
  import opened RiscvControl

  /** Sources in 16-bit limbs: rs1, rs2 and pc in memory places, the immediate and funct3 in witness
      places 1 to 3, and a boolean in place 0 for rd = x0. */
  ghost predicate Sources(p: Proxy)
    reads p.memoryRow, p.witnessRow
  {
    && p.Valid(20, 40, 0)
    && p.memoryRow[2] < TWO16 && p.memoryRow[3] < TWO16 && p.memoryRow[7] < TWO16 && p.memoryRow[8] < TWO16
    && p.memoryRow[18] < TWO16 && p.memoryRow[19] < TWO16
    && p.witnessRow[0] <= 1 && p.witnessRow[1] < TWO16 && p.witnessRow[2] < TWO16 && p.witnessRow[3] < 8
  }

  /** The five inputs of a row. */
  datatype Inputs = Inputs(rs1: Word, rs2: Word, pc: Word, imm: Word, funct3: nat, rdIsZero: bool) {
    ghost predicate Read(p: Proxy)
      reads p.memoryRow, p.witnessRow
    {
      && Sources(p) && funct3 < 8
      && Holds32(p.memoryRow, 2, 3, rs1) && Holds32(p.memoryRow, 7, 8, rs2) && Holds32(p.memoryRow, 18, 19, pc)
      && Holds32(p.witnessRow, 1, 2, imm) && p.witnessRow[3] == funct3 && p.witnessRow[0] == FromBool(rdIsZero)
    }
  }

  /** The five selectors, in places 15 to 19. */
  ghost predicate Selects(row: array<Fp>, kind: Kind)
    requires row.Length > 19
    reads row
  {
    && row[15] == FromBool(kind.Jal?) && row[16] == FromBool(kind.Jalr?) && row[17] == FromBool(kind.Slt?)
    && row[18] == FromBool(kind.Slti?) && row[19] == FromBool(kind.Branch?)
  }

  /** The decoder word of each kind. */
  function KindBits(kind: Kind): nat {
    match kind
    case Jal => 1 case Jalr => 2 case Slt => 4 case Slti => 8 case Branch => 16
  }

  /** By number: the words 1, 2, 4, 8 and 16 stand for jal, jalr, slt, slti and the branches, and no
      other word spells the selectors of one of these kinds. */
  lemma WordsSelect(x: nat, kind: Kind)
    requires x < 32
    ensures x == KindBits(kind) <==>
      x == (if kind == Jal then 1 else if kind == Jalr then 2 else if kind == Slt then 4
            else if kind == Slti then 8 else 16)
    ensures x == KindBits(kind) <==>
      && x % 2 == FromBool(kind == Jal) && x / 2 % 2 == FromBool(kind == Jalr) && x / 4 % 2 == FromBool(kind == Slt)
      && x / 8 % 2 == FromBool(kind == Slti) && x / 16 % 2 == FromBool(kind == Branch)
  {
  }

  method EvalFn1(p: Proxy, ghost kind: Kind)
    requires p.Valid(20, 40, 0) && p.witnessRow[4] == KindBits(kind)
    modifies p.witnessRow
    ensures Selects(p.witnessRow, kind)
    ensures
      var w, x := p.witnessRow, old(p.witnessRow[4]);
      && w[15] == x % 2 && w[16] == x / 2 % 2 && w[17] == x / 4 % 2 && w[18] == x / 8 % 2 && w[19] == x / 16 % 2
    ensures OnlyChanged(p.witnessRow, 15, 19, 15, 19)
  {
    var w := p.witnessRow;
    var x := w[4];
    w[15] := x % 2;
    w[16] := x / 2 % 2;
    w[17] := x / 4 % 2;
    w[18] := x / 8 % 2;
    w[19] := x / 16 % 2;
  }

  /** A 32-bit difference and its borrow, written to three places if the flag is set. */
  method SubRelation(row: array<Fp>, flag: bool, a: Word, b: Word, low: nat, high: nat, overflow: nat)
    requires low < row.Length && high < row.Length && overflow < row.Length && low != high && low != overflow
    requires high != overflow
    modifies row
    ensures flag ==> Holds32(row, low, high, ToWord(a - b)) && row[overflow] == FromBool(a < b)
    ensures !flag ==> forall k: nat | k < row.Length :: row[k] == old(row[k])
    ensures forall k: nat | k < row.Length && k != low && k != high && k != overflow :: row[k] == old(row[k])
  {
    if flag {
      var v := Sub32(a, b);
      row[low] := v % TWO16;
      row[high] := v / TWO16;
      row[overflow] := FromBool(a < b);
    }
  }

  /** A 32-bit sum and its carry, likewise. */
  method AddRelation(row: array<Fp>, flag: bool, a: Word, b: Word, low: nat, high: nat, overflow: nat)
    requires low < row.Length && high < row.Length && overflow < row.Length && low != high && low != overflow
    requires high != overflow
    modifies row
    ensures flag ==> Holds32(row, low, high, ToWord(a + b)) && row[overflow] == FromBool(a + b >= TWO32)
    ensures !flag ==> forall k: nat | k < row.Length :: row[k] == old(row[k])
    ensures forall k: nat | k < row.Length && k != low && k != high && k != overflow :: row[k] == old(row[k])
  {
    if flag {
      var v := Add32(a, b);
      row[low] := v % TWO16;
      row[high] := v / TWO16;
      row[overflow] := FromBool(a + b >= TWO32);
    }
  }

  /** What the first shared relation computes in places 9, 10 and 20. */
  function FirstWord(kind: Kind, x: Inputs): Word {
    if kind.Jal? || kind.Jalr? then ToWord(x.pc + 4) else ToWord(x.rs1 - Operand2(kind, x.rs2, x.imm))
  }

  predicate FirstOverflow(kind: Kind, x: Inputs) {
    if kind.Jal? || kind.Jalr? then x.pc + 4 >= TWO32 else x.rs1 < Operand2(kind, x.rs2, x.imm)
  }

  /** Five conditional writers share the places; whatever these held before, the active one decides. */
  method EvalFn4To8(p: Proxy, ghost kind: Kind, ghost x: Inputs)
    requires x.Read(p) && Selects(p.witnessRow, kind)
    modifies p.witnessRow
    ensures Holds32(p.witnessRow, 9, 10, FirstWord(kind, x)) && p.witnessRow[20] == FromBool(FirstOverflow(kind, x))
    ensures OnlyChanged(p.witnessRow, 9, 10, 20, 20)
  {
    hide ToWord;
    var w, m := p.witnessRow, p.memoryRow;
    var rs1 := ReadWord(m, 2, 3, x.rs1);
    var rs2 := ReadWord(m, 7, 8, x.rs2);
    var imm := ReadWord(w, 1, 2, x.imm);
    var pc := ReadWord(m, 18, 19, x.pc);
    SubRelation(w, Mask(w[19]), rs1, rs2, 9, 10, 20);
    SubRelation(w, Mask(w[17]), rs1, rs2, 9, 10, 20);
    SubRelation(w, Mask(w[18]), rs1, imm, 9, 10, 20);
    AddRelation(w, Mask(w[15]), pc, 4, 9, 10, 20);
    AddRelation(w, Mask(w[16]), pc, 4, 9, 10, 20);
  }

  method EvalFn9(p: Proxy, ghost v: Word)
    requires p.Valid(20, 40, 0) && Holds32(p.witnessRow, 9, 10, v)
    modifies p.witnessRow
    ensures p.witnessRow[30] == FromBool(v == 0)
    ensures OnlyChanged(p.witnessRow, 30, 30, 34, 34)
  {
    ZeroTest(v);
    p.witnessRow[30] := FromBool(Add(p.witnessRow[9], p.witnessRow[10]) == 0);
  }

  /** The word whose sign counts as the first one: a jump compares nothing, and its pc stands in. */
  function Signed1(kind: Kind, x: Inputs): Word {
    if kind.Jal? || kind.Jalr? then x.pc else x.rs1
  }

  function Signed2(kind: Kind, x: Inputs): Word {
    if kind.Jal? || kind.Jalr? then 0 else Operand2(kind, x.rs2, x.imm)
  }

  lemma SignOfLimb(v: Word)
    ensures v / TWO16 < 0x8000 <==> v < 0x8000_0000
  {
  }

  /** Places 21 and 22 hold the negated signs. */
  method EvalFn10To11(p: Proxy, ghost kind: Kind, ghost x: Inputs)
    requires x.Read(p) && Selects(p.witnessRow, kind)
    modifies p.witnessRow
    ensures p.witnessRow[21] == FromBool(Signed1(kind, x) < 0x8000_0000)
    ensures p.witnessRow[22] == FromBool(Signed2(kind, x) < 0x8000_0000)
    ensures p.witnessRow[11] == Sub16(Signed1(kind, x) / TWO16, 0x8000)
    ensures p.witnessRow[12] == Sub16(Signed2(kind, x) / TWO16, 0x8000)
    ensures OnlyChanged(p.witnessRow, 11, 12, 21, 22)
  {
    var w, m := p.witnessRow, p.memoryRow;
    SignOfLimb(x.rs1);
    SignOfLimb(x.rs2);
    SignOfLimb(x.pc);
    SignOfLimb(x.imm);
    var first := if Mask(w[19]) then m[3] else 0;
    first := if Mask(w[17]) then m[3] else first;
    first := if Mask(w[18]) then m[3] else first;
    first := if Mask(w[15]) then m[19] else first;
    first := if Mask(w[16]) then m[19] else first;
    var second := if Mask(w[19]) then m[8] else 0;
    second := if Mask(w[17]) then m[8] else second;
    second := if Mask(w[18]) then w[2] else second;
    w[21] := FromBool(first < 0x8000);
    w[11] := Sub16(first, 0x8000);
    w[22] := FromBool(second < 0x8000);
    w[12] := Sub16(second, 0x8000);
  }

  /** The table that resolves a comparison key and a funct3. */
  predicate Resolve(key: nat, funct3: nat)
    requires funct3 < 8
  {
    var lessUnsigned, equal, sign1, sign2 := key % 2 == 1, key / 2 % 2 == 1, key / 4 % 2 == 1, key / 8 % 2 == 1;
    var lessSigned := if sign1 != sign2 then sign1 else lessUnsigned;
    match funct3
    case 0 => equal
    case 1 => !equal
    case 2 => lessSigned
    case 3 => lessUnsigned
    case 4 => lessSigned
    case 5 => !lessSigned
    case 6 => lessUnsigned
    case _ => !lessUnsigned
  }

  /** The key of four comparison facts. */
  function Key(less: bool, equal: bool, sign1: bool, sign2: bool): (k: nat)
    ensures k < 16
  {
    Bit(less) + 2 * Bit(equal) + 4 * Bit(sign1) + 8 * Bit(sign2)
  }

  lemma KeyParts(less: bool, equal: bool, sign1: bool, sign2: bool)
    ensures
      var k := Key(less, equal, sign1, sign2);
      (k % 2 == 1) == less && (k / 2 % 2 == 1) == equal && (k / 4 % 2 == 1) == sign1 && (k / 8 % 2 == 1) == sign2
  {
  }

  /** The table turns the facts about any two words into the condition that funct3 asks for. */
  lemma ResolveIsCondition(a: Word, b: Word, funct3: nat)
    requires funct3 < 8
    ensures Resolve(Key(a < b, ToWord(a - b) == 0, a >= 0x8000_0000, b >= 0x8000_0000), funct3)
      == Condition(funct3, a, b)
  {
    KeyParts(a < b, ToWord(a - b) == 0, a >= 0x8000_0000, b >= 0x8000_0000);
    DifferenceZero(a, b);
    hide Key, ToWord;
  }

  lemma DifferenceZero(a: Word, b: Word)
    ensures ToWord(a - b) == 0 <==> a == b
  {
  }

  /** The full machine packs the same facts with funct3 into one key of another table, which tells a
      branch from a set-less-than. */
  function KeyWithFunct3(funct3: nat, less: bool, equal: bool, sign1: bool, sign2: bool): nat {
    funct3 + 8 * Bit(less) + 16 * Bit(equal) + 32 * Bit(sign1) + 64 * Bit(sign2)
  }

  function ResolveBranchOrStore(key: nat): (result: (bool, bool)) {
    var funct3, less, equal := key % 8, key / 8 % 2 == 1, key / 16 % 2 == 1;
    var differ := (key / 32 % 2 == 1) != (key / 64 % 2 == 1);
    var lessSigned := if differ then !less else less;
    match funct3
    case 0 => (equal, false)
    case 1 => (!equal, false)
    case 2 => (false, lessSigned)
    case 3 => (false, less)
    case 4 => (lessSigned, false)
    case 5 => (!lessSigned, false)
    case 6 => (less, false)
    case _ => (!less, false)
  }

  lemma KeyWithFunct3Parts(funct3: nat, less: bool, equal: bool, sign1: bool, sign2: bool)
    requires funct3 < 8
    ensures
      var k := KeyWithFunct3(funct3, less, equal, sign1, sign2);
      && k % 8 == funct3 && (k / 8 % 2 == 1) == less && (k / 16 % 2 == 1) == equal
      && (k / 32 % 2 == 1) == sign1 && (k / 64 % 2 == 1) == sign2
  {
  }

  /** The two tables are different functions. They agree exactly unless a signed comparison meets
      different signs together with a borrow that equals the first sign. */
  lemma TablesAgreeIff(funct3: nat, less: bool, equal: bool, sign1: bool, sign2: bool)
    requires funct3 < 8
    ensures
      var (branch, store) := ResolveBranchOrStore(KeyWithFunct3(funct3, less, equal, sign1, sign2));
      (branch || store) == Resolve(Key(less, equal, sign1, sign2), funct3)
      <==> !(funct3 in {2, 4, 5} && sign1 != sign2 && less == sign1)
  {
    KeyParts(less, equal, sign1, sign2);
    KeyWithFunct3Parts(funct3, less, equal, sign1, sign2);
    hide Key, KeyWithFunct3;
  }

  /** No two words give such facts, so both machines decide every comparison alike. */
  lemma MachinesDecideAlike(a: Word, b: Word, funct3: nat)
    requires funct3 < 8
    ensures
      var s1, s2 := a >= 0x8000_0000, b >= 0x8000_0000;
      var (branch, store) := ResolveBranchOrStore(KeyWithFunct3(funct3, a < b, a == b, s1, s2));
      && (branch || store) == Condition(funct3, a, b)
      && (branch ==> funct3 !in {2, 3}) && (store ==> funct3 in {2, 3})
  {
    var s1, s2 := a >= 0x8000_0000, b >= 0x8000_0000;
    TablesAgreeIff(funct3, a < b, a == b, s1, s2);
    ResolveIsCondition(a, b, funct3);
    DifferenceZero(a, b);
    KeyWithFunct3Parts(funct3, a < b, a == b, s1, s2);
    hide Resolve, Condition, Key, KeyWithFunct3, ToWord;
  }

  /** The field expression of the key is the integer that packs the four facts. */
  lemma KeyByField(less: bool, equal: bool, sign1: bool, sign2: bool)
    ensures
      var v := Add(Add(12, Mul(1, FromBool(less))), Mul(2, FromBool(equal)));
      Add(Add(v, Mul(2147483643, FromBool(!sign1))), Mul(2147483639, FromBool(!sign2)))
        == Key(less, equal, sign1, sign2)
  {
  }

  method EvalFn12(p: Proxy, ghost less: bool, ghost equal: bool, ghost sign1: bool, ghost sign2: bool)
    requires p.Valid(20, 40, 0) && p.witnessRow[3] < 8
    requires p.witnessRow[20] == FromBool(less) && p.witnessRow[30] == FromBool(equal)
    requires p.witnessRow[21] == FromBool(!sign1) && p.witnessRow[22] == FromBool(!sign2)
    modifies p.witnessRow
    ensures p.witnessRow[31] == FromBool(Resolve(Key(less, equal, sign1, sign2), old(p.witnessRow[3])))
    ensures OnlyChanged(p.witnessRow, 31, 31, 31, 31)
  {
    hide FromBool, Add, Mul, Resolve;
    var w := p.witnessRow;
    KeyByField(less, equal, sign1, sign2);
    var v := Add(12, Mul(1, w[20]));
    v := Add(v, Mul(2, w[30]));
    v := Add(v, Mul(2147483643, w[21]));
    v := Add(v, Mul(2147483639, w[22]));
    w[31] := FromBool(Resolve(v, w[3]));
  }

  /** (1 - d) * a + (1 - d) * b over booleans of which a and b are not both set. */
  function GateField(d: Fp, a: Fp, b: Fp): Fp {
    Add(Add(Sub(Sub(0, Mul(d, a)), Mul(d, b)), a), b)
  }

  lemma GateBoolean(d: bool, a: bool, b: bool)
    requires !(a && b)
    ensures GateField(FromBool(d), FromBool(a), FromBool(b)) == FromBool(!d && (a || b))
  {
  }

  /** Which of the two possible values goes to rd: the return address or the comparison. */
  method EvalFn13To14(p: Proxy, ghost kind: Kind, ghost x: Inputs)
    requires x.Read(p) && Selects(p.witnessRow, kind)
    modifies p.witnessRow
    ensures p.witnessRow[35] == FromBool(!x.rdIsZero && (kind.Jal? || kind.Jalr?))
    ensures p.witnessRow[36] == FromBool(!x.rdIsZero && (kind.Slt? || kind.Slti?))
    ensures OnlyChanged(p.witnessRow, 35, 36, 35, 36)
  {
    hide FromBool, GateField;
    var w := p.witnessRow;
    GateBoolean(x.rdIsZero, kind.Jal?, kind.Jalr?);
    w[35] := GateField(w[0], w[15], w[16]);
    GateBoolean(x.rdIsZero, kind.Slt?, kind.Slti?);
    w[36] := GateField(w[0], w[17], w[18]);
  }

  /** The carry of the shared sum that gives the next program counter. */
  predicate TargetOverflow(kind: Kind, taken: bool, x: Inputs) {
    match kind
    case Jal => x.pc + x.imm >= TWO32
    case Jalr => x.rs1 + x.imm >= TWO32
    case Branch => if taken then x.pc + x.imm >= TWO32 else x.pc + 4 >= TWO32
    case _ => x.pc + 4 >= TWO32
  }

  lemma BranchFlags(branch: bool, flag: bool)
    ensures Add(Sub(0, Mul(FromBool(branch), FromBool(flag))), FromBool(branch)) == FromBool(branch && !flag)
    ensures Add(0, Mul(FromBool(branch), FromBool(flag))) == FromBool(branch && flag)
  {
  }

  /** Six conditional writers share places 13, 14 and 23: four of them are decided by the selectors,
      the two of a branch by its outcome. */
  method EvalFn18To21(p: Proxy, ghost kind: Kind, ghost x: Inputs, ghost flag: bool)
    requires x.Read(p) && Selects(p.witnessRow, kind)
    modifies p.witnessRow
    ensures !kind.Branch? ==> Holds32(p.witnessRow, 13, 14, Target(kind, flag, x.pc, x.rs1, x.imm))
    ensures !kind.Branch? ==> p.witnessRow[23] == FromBool(TargetOverflow(kind, flag, x))
    ensures OnlyChanged(p.witnessRow, 13, 14, 23, 23)
  {
    hide ToWord;
    var w, m := p.witnessRow, p.memoryRow;
    var rs1 := ReadWord(m, 2, 3, x.rs1);
    var imm := ReadWord(w, 1, 2, x.imm);
    var pc := ReadWord(m, 18, 19, x.pc);
    AddRelation(w, Mask(w[17]), pc, 4, 13, 14, 23);
    AddRelation(w, Mask(w[18]), pc, 4, 13, 14, 23);
    AddRelation(w, Mask(w[15]), pc, imm, 13, 14, 23);
    AddRelation(w, Mask(w[16]), rs1, imm, 13, 14, 23);
  }

  method EvalFn22To25(p: Proxy, ghost kind: Kind, ghost x: Inputs, ghost flag: bool)
    requires x.Read(p) && p.witnessRow[19] == FromBool(kind.Branch?) && p.witnessRow[31] == FromBool(flag)
    modifies p.witnessRow
    ensures kind.Branch? ==> Holds32(p.witnessRow, 13, 14, Target(kind, flag, x.pc, x.rs1, x.imm))
    ensures kind.Branch? ==> p.witnessRow[23] == FromBool(TargetOverflow(kind, flag, x))
    ensures !kind.Branch? ==> OnlyChanged(p.witnessRow, 37, 38, 37, 38)
    ensures p.witnessRow[37] == FromBool(kind.Branch? && !flag) && p.witnessRow[38] == FromBool(kind.Branch? && flag)
    ensures forall k: nat | k < 13 || 15 <= k < 23 || 24 <= k < 37 :: p.witnessRow[k] == old(p.witnessRow[k])
  {
    hide ToWord, Add, Sub, Mul;
    var w, m := p.witnessRow, p.memoryRow;
    var imm := ReadWord(w, 1, 2, x.imm);
    var pc := ReadWord(m, 18, 19, x.pc);
    BranchFlags(kind.Branch?, flag);
    w[37] := Add(Sub(0, Mul(w[19], w[31])), w[19]);
    AddRelation(w, Mask(w[37]), pc, 4, 13, 14, 23);
    w[38] := Add(0, Mul(w[19], w[31]));
    AddRelation(w, Mask(w[38]), pc, imm, 13, 14, 23);
  }

  /** The bit is zero exactly when bit 1 of the limb is clear, and the clean limb is the largest multiple
      of four that is not above the limb. */
  predicate Cleaned(limb: nat, bit: nat, clean: nat) {
    && bit <= 1 && (bit == 0 <==> limb % 4 < 2)
    && clean % 4 == 0 && clean <= limb < clean + 4
  }

  /** The table that cleans up a jump target. */
  method EvalFn26(p: Proxy)
    requires p.Valid(20, 40, 0)
    modifies p.witnessRow
    ensures Cleaned(p.witnessRow[13], p.witnessRow[32], p.witnessRow[33])
    ensures OnlyChanged(p.witnessRow, 32, 33, 32, 33)
  {
    var w := p.witnessRow;
    w[32] := w[13] / 2 % 2;
    w[33] := w[13] - w[13] % 4;
  }

  /** The operands of the first relation, written as a sum: a difference is checked from the other side. */
  function FirstSum(kind: Kind, x: Inputs): (Word, Word, Word) {
    if kind.Jal? || kind.Jalr? then (x.pc, 4, FirstWord(kind, x))
    else (FirstWord(kind, x), Operand2(kind, x.rs2, x.imm), x.rs1)
  }

  function SecondSum(kind: Kind, taken: bool, x: Inputs): (Word, Word, Word) {
    (if kind.Jalr? then x.rs1 else x.pc,
     if kind.Jal? || kind.Jalr? || (kind.Branch? && taken) then x.imm else 4,
     Target(kind, taken, x.pc, x.rs1, x.imm))
  }

  lemma WrappedSum(a: Word, b: Word)
    ensures a + b == ToWord(a + b) + TWO32 * Bit(a + b >= TWO32)
  {
  }

  lemma WrappedDifference(a: Word, b: Word)
    ensures ToWord(a - b) + b == a + TWO32 * Bit(a < b)
  {
  }

  lemma FirstSumExact(kind: Kind, x: Inputs)
    ensures FirstSum(kind, x).0 + FirstSum(kind, x).1 == FirstSum(kind, x).2 + TWO32 * Bit(FirstOverflow(kind, x))
  {
    hide ToWord, Bit;
    if kind.Jal? || kind.Jalr? {
      WrappedSum(x.pc, 4);
    } else {
      WrappedDifference(x.rs1, Operand2(kind, x.rs2, x.imm));
    }
  }

  lemma SecondSumExact(kind: Kind, taken: bool, x: Inputs)
    ensures SecondSum(kind, taken, x).0 + SecondSum(kind, taken, x).1
         == SecondSum(kind, taken, x).2 + TWO32 * Bit(TargetOverflow(kind, taken, x))
  {
    hide ToWord, Bit;
    WrappedSum(SecondSum(kind, taken, x).0, SecondSum(kind, taken, x).1);
  }

  /** The carry between the limbs of the first relation: of all candidates the active one is chosen. */
  method EvalFn28(p: Proxy, ghost kind: Kind, ghost x: Inputs)
    requires x.Read(p) && Selects(p.witnessRow, kind) && Holds32(p.witnessRow, 9, 10, FirstWord(kind, x))
    modifies p.witnessRow
    ensures
      var s := FirstSum(kind, x);
      p.witnessRow[24] <= 1 && LimbEquations(s.0, s.1, s.2, Mask(p.witnessRow[24]), FirstOverflow(kind, x))
    ensures OnlyChanged(p.witnessRow, 24, 24, 24, 24)
  {
    hide FirstWord, FirstOverflow, LimbEquations, CarryBit;
    var w, m := p.witnessRow, p.memoryRow;
    var jump := CarryBit(m[18], 4, w[9]);
    var immediate := CarryBit(w[9], w[1], m[2]);
    var register := CarryBit(w[9], m[7], m[2]);
    var c := if Mask(w[19]) then register else false;
    c := if Mask(w[17]) then register else c;
    c := if Mask(w[18]) then immediate else c;
    c := if Mask(w[15]) then jump else c;
    c := if Mask(w[16]) then jump else c;
    ghost var s := FirstSum(kind, x);
    assert c == CarryBit(s.0 % TWO16, s.1 % TWO16, s.2 % TWO16);
    FirstSumExact(kind, x);
    CarryBitCloses(s.0, s.1, s.2, FirstOverflow(kind, x));
    w[24] := FromBool(c);
  }

  method EvalFn29(p: Proxy, ghost kind: Kind, ghost x: Inputs, ghost flag: bool)
    requires x.Read(p) && Selects(p.witnessRow, kind)
    requires Holds32(p.witnessRow, 13, 14, Target(kind, flag, x.pc, x.rs1, x.imm))
    requires p.witnessRow[37] == FromBool(kind.Branch? && !flag) && p.witnessRow[38] == FromBool(kind.Branch? && flag)
    modifies p.witnessRow
    ensures
      var s := SecondSum(kind, flag, x);
      p.witnessRow[25] <= 1 && LimbEquations(s.0, s.1, s.2, Mask(p.witnessRow[25]), TargetOverflow(kind, flag, x))
    ensures OnlyChanged(p.witnessRow, 25, 25, 25, 25)
  {
    hide Target, TargetOverflow, LimbEquations, CarryBit;
    var w, m := p.witnessRow, p.memoryRow;
    var relative := CarryBit(m[18], w[1], w[13]);
    var next := CarryBit(m[18], 4, w[13]);
    var indirect := CarryBit(m[2], w[1], w[13]);
    var c := if Mask(w[17]) then next else false;
    c := if Mask(w[18]) then next else c;
    c := if Mask(w[15]) then relative else c;
    c := if Mask(w[16]) then indirect else c;
    c := if Mask(w[37]) then next else c;
    c := if Mask(w[38]) then relative else c;
    ghost var s := SecondSum(kind, flag, x);
    assert c == CarryBit(s.0 % TWO16, s.1 % TWO16, s.2 % TWO16);
    SecondSumExact(kind, flag, x);
    CarryBitCloses(s.0, s.1, s.2, TargetOverflow(kind, flag, x));
    w[25] := FromBool(c);
  }

  /** The comparison flag of a row. Jumps have one too, which nothing reads. */
  predicate FlagOf(kind: Kind, x: Inputs)
    requires x.funct3 < 8
  {
    var sign1, sign2 := Signed1(kind, x) >= 0x8000_0000, Signed2(kind, x) >= 0x8000_0000;
    Resolve(Key(FirstOverflow(kind, x), FirstWord(kind, x) == 0, sign1, sign2), x.funct3)
  }

  predicate Taken(kind: Kind, x: Inputs)
    requires x.funct3 < 8
  {
    kind.Branch? && Condition(x.funct3, x.rs1, x.rs2)
  }

  lemma FlagIsCondition(kind: Kind, x: Inputs)
    requires x.funct3 < 8 && !kind.Jal? && !kind.Jalr?
    ensures FlagOf(kind, x) == Condition(x.funct3, x.rs1, Operand2(kind, x.rs2, x.imm))
  {
    hide Resolve, Condition, Key;
    ResolveIsCondition(x.rs1, Operand2(kind, x.rs2, x.imm), x.funct3);
  }

  /** The row after the comparison: the shared word and its overflow, the flag and the gates of rd. */
  ghost predicate ComparisonDone(row: array<Fp>, kind: Kind, x: Inputs)
    requires row.Length >= 40 && x.funct3 < 8
    reads row
  {
    && Selects(row, kind)
    && Holds32(row, 9, 10, FirstWord(kind, x)) && row[20] == FromBool(FirstOverflow(kind, x))
    && row[31] == FromBool(FlagOf(kind, x))
    && row[35] == FromBool(!x.rdIsZero && (kind.Jal? || kind.Jalr?))
    && row[36] == FromBool(!x.rdIsZero && (kind.Slt? || kind.Slti?))
  }

  /** The shared word, its overflow and its zero test. */
  ghost predicate FirstDone(row: array<Fp>, kind: Kind, x: Inputs)
    requires row.Length >= 40
    reads row
  {
    && Selects(row, kind)
    && Holds32(row, 9, 10, FirstWord(kind, x)) && row[20] == FromBool(FirstOverflow(kind, x))
    && row[30] == FromBool(FirstWord(kind, x) == 0)
  }

  method EvaluateFirst(p: Proxy, ghost kind: Kind, ghost x: Inputs)
    requires x.Read(p) && p.witnessRow[4] == KindBits(kind)
    modifies p.witnessRow
    ensures x.Read(p) && FirstDone(p.witnessRow, kind, x)
  {
    hide FromBool, FirstWord, FirstOverflow;
    EvalFn1(p, kind);
    EvalFn4To8(p, kind, x);
    EvalFn9(p, FirstWord(kind, x));
  }

  method EvaluateFlag(p: Proxy, ghost kind: Kind, ghost x: Inputs)
    requires x.Read(p) && FirstDone(p.witnessRow, kind, x)
    modifies p.witnessRow
    ensures p.witnessRow[31] == FromBool(FlagOf(kind, x))
    ensures OnlyChanged(p.witnessRow, 11, 12, 21, 31)
  {
    hide FromBool, FirstWord, FirstOverflow, Resolve, Key, Signed1, Signed2;
    EvalFn10To11(p, kind, x);
    EvalFn12(p, FirstOverflow(kind, x), FirstWord(kind, x) == 0, Signed1(kind, x) >= 0x8000_0000,
      Signed2(kind, x) >= 0x8000_0000);
  }

  method EvaluateComparison(p: Proxy, ghost kind: Kind, ghost x: Inputs)
    requires x.Read(p) && p.witnessRow[4] == KindBits(kind)
    modifies p.witnessRow
    ensures x.Read(p) && ComparisonDone(p.witnessRow, kind, x)
  {
    hide FromBool, FirstWord, FirstOverflow, FlagOf;
    EvaluateFirst(p, kind, x);
    EvaluateFlag(p, kind, x);
    EvalFn13To14(p, kind, x);
  }

  /** The row after the next program counter is there, cleaned up and carried. */
  ghost predicate TargetDone(row: array<Fp>, kind: Kind, x: Inputs)
    requires row.Length >= 40 && x.funct3 < 8
    reads row
  {
    var flag := FlagOf(kind, x);
    var t, s, r := Target(kind, flag, x.pc, x.rs1, x.imm), SecondSum(kind, flag, x), FirstSum(kind, x);
    && Holds32(row, 13, 14, t) && row[23] == FromBool(TargetOverflow(kind, flag, x))
    && row[37] == FromBool(kind.Branch? && !flag) && row[38] == FromBool(kind.Branch? && flag)
    && Cleaned(t % TWO16, row[32], row[33])
    && row[24] <= 1 && LimbEquations(r.0, r.1, r.2, Mask(row[24]), FirstOverflow(kind, x))
    && row[25] <= 1 && LimbEquations(s.0, s.1, s.2, Mask(row[25]), TargetOverflow(kind, flag, x))
  }

  method EvaluateTarget(p: Proxy, ghost kind: Kind, ghost x: Inputs)
    requires x.Read(p) && ComparisonDone(p.witnessRow, kind, x)
    modifies p.witnessRow
    ensures ComparisonDone(p.witnessRow, kind, x) && TargetDone(p.witnessRow, kind, x)
  {
    hide FromBool, FirstWord, FirstOverflow, Target, TargetOverflow, FlagOf, LimbEquations, FirstSum, SecondSum, Mask,
      Cleaned;
    ghost var flag := FlagOf(kind, x);
    EvalFn18To21(p, kind, x, flag);
    EvalFn22To25(p, kind, x, flag);
    EvalFn26(p);
    EvalFn28(p, kind, x);
    EvalFn29(p, kind, x, flag);
  }

  /** What the row offers to write to rd, chosen by the two gates. */
  function RdLimbs(row: array<Fp>): (Fp, Fp)
    requires row.Length >= 40
    reads row
  {
    (Add(Add(0, Mul(row[35], row[9])), Mul(row[36], row[31])), Add(0, Mul(row[35], row[10])))
  }

  /** The next program counter that leaves the row. */
  function EndPc(row: array<Fp>): (nat, nat)
    requires row.Length >= 40
    reads row
  {
    var straight := Mask(row[17]) || Mask(row[18]) || Mask(row[37]);
    var jump := Mask(row[15]) || Mask(row[16]) || Mask(row[38]);
    (if jump then row[33] else if straight then row[13] else 0, if jump || straight then row[14] else 0)
  }

  /** The value for rd is the one of the instruction, for every kind and all inputs. */
  lemma RdMeans(row: array<Fp>, kind: Kind, x: Inputs)
    requires row.Length >= 40 && x.funct3 < 8 && ComparisonDone(row, kind, x)
    ensures
      var v := RdValue(kind, x.rdIsZero, x.pc, Condition(x.funct3, x.rs1, Operand2(kind, x.rs2, x.imm)));
      RdLimbs(row).0 == v % TWO16 && RdLimbs(row).1 == v / TWO16
  {
    hide FlagOf, Condition, ToWord;
    if !kind.Jal? && !kind.Jalr? {
      FlagIsCondition(kind, x);
    }
    hide Operand2;
    ProductByFlag(!x.rdIsZero && (kind.Jal? || kind.Jalr?), row[9]);
    ProductByFlag(!x.rdIsZero && (kind.Jal? || kind.Jalr?), row[10]);
    ProductByFlag(!x.rdIsZero && (kind.Slt? || kind.Slti?), row[31]);
    hide Mul;
  }

  lemma ProductByFlag(b: bool, v: Fp)
    ensures Mul(FromBool(b), v) == if b then v else 0
  {
  }

  lemma CleanedBits(low: nat, bit: nat, clean: nat)
    requires Cleaned(low, bit, clean)
    ensures bit == 0 <==> (low - low % 2) % 4 == 0
    ensures bit == 0 ==> clean == low - low % 2
  {
    var q, r, c := low / 4, low % 4, clean / 4;
    assert low == 4 * q + r && clean == 4 * c;
    assert c == q;
    assert low == 2 * (2 * q) + r;
    assert low - low % 2 == clean + (if r < 2 then 0 else 2);
  }

  lemma Halved(l: nat, h: nat)
    ensures (l + TWO16 * h) % 2 == l % 2 && (l + TWO16 * h) % 4 == l % 4
  {
    PlusTwos(l, 0x8000 * h);
    PlusFours(l, 0x4000 * h);
  }

  lemma Halves(l: nat, h: nat)
    requires l < TWO16
    ensures (l + TWO16 * h) % TWO16 == l && (l + TWO16 * h) / TWO16 == h
  {
  }

  lemma LowLimbBits(t: Word)
    ensures t % 2 == t % TWO16 % 2 && (t - t % 2) % 4 == (t % TWO16 - t % TWO16 % 2) % 4
    ensures (t - t % 2) % TWO16 == t % TWO16 - t % TWO16 % 2 && t / TWO16 == (t - t % 2) / TWO16
  {
    var l, h := t % TWO16, t / TWO16;
    Halved(l, h);
    Halved(l - l % 2, h);
    Halves(l - l % 2, h);
  }

  lemma CleanLimb(t: Word, bit: nat, clean: nat)
    requires Cleaned(t % TWO16, bit, clean)
    ensures bit == 0 <==> (t - t % 2) % 4 == 0
    ensures bit == 0 ==> clean == (t - t % 2) % TWO16
    ensures t / TWO16 == (t - t % 2) / TWO16
  {
    hide Cleaned;
    CleanedBits(t % TWO16, bit, clean);
    LowLimbBits(t);
  }

  /** Control continues where the instruction says. The alignment bit that the circuit forces to zero
      for jumps is zero exactly when the target is a multiple of four. */
  lemma EndPcMeans(row: array<Fp>, kind: Kind, x: Inputs)
    requires row.Length >= 40 && x.funct3 < 8 && ComparisonDone(row, kind, x) && TargetDone(row, kind, x)
    ensures
      var taken := Taken(kind, x);
      var next := NextPc(kind, taken, x.pc, x.rs1, x.imm);
      && (Jumps(kind, taken) ==> (row[32] == 0 <==> next % 4 == 0))
      && ((Jumps(kind, taken) ==> row[32] == 0) ==> EndPc(row) == (next % TWO16, next / TWO16))
  {
    hide FlagOf, Condition, LimbEquations, FirstWord, FirstOverflow, TargetOverflow, ToWord;
    var t := Target(kind, FlagOf(kind, x), x.pc, x.rs1, x.imm);
    CleanLimb(t, row[32], row[33]);
    if kind.Branch? {
      FlagIsCondition(kind, x);
    }
    assert Target(kind, Taken(kind, x), x.pc, x.rs1, x.imm) == t;
    hide Target;
  }

  method EvaluateRow(p: Proxy, ghost kind: Kind, ghost x: Inputs)
    requires x.Read(p) && p.witnessRow[4] == KindBits(kind)
    modifies p.witnessRow
    ensures ComparisonDone(p.witnessRow, kind, x) && TargetDone(p.witnessRow, kind, x)
    ensures
      var taken := Taken(kind, x);
      var next := NextPc(kind, taken, x.pc, x.rs1, x.imm);
      var rd := RdValue(kind, x.rdIsZero, x.pc, Condition(x.funct3, x.rs1, Operand2(kind, x.rs2, x.imm)));
      && RdLimbs(p.witnessRow) == (rd % TWO16, rd / TWO16)
      && (Jumps(kind, taken) ==> (p.witnessRow[32] == 0 <==> next % 4 == 0))
      && ((Jumps(kind, taken) ==> p.witnessRow[32] == 0) ==> EndPc(p.witnessRow) == (next % TWO16, next / TWO16))
  {
    hide ComparisonDone, TargetDone, RdLimbs, EndPc, NextPc, RdValue, Taken, Condition, Jumps;
    EvaluateComparison(p, kind, x);
    EvaluateTarget(p, kind, x);
    RdMeans(p.witnessRow, kind, x);
    EndPcMeans(p.witnessRow, kind, x);
  }

  /** The condition on two words, funct3 by funct3. */
  lemma ConditionMeans(funct3: nat, a: Word, b: Word)
    requires funct3 < 8
    ensures Condition(funct3, a, b) ==
      var less := AsSigned(a) < AsSigned(b);
      if funct3 == 0 then a == b else if funct3 == 1 then a != b
      else if funct3 == 2 || funct3 == 4 then less else if funct3 == 5 then !less
      else if funct3 == 3 || funct3 == 6 then a < b else a >= b
  {
  }

  /** What goes to rd, by the place of the decoder word. */
  lemma RdByWord(word: nat, kind: Kind, x: Inputs)
    requires x.funct3 < 8 && word == KindBits(kind)
    ensures
      var b := if word == 8 then x.imm else x.rs2;
      RdValue(kind, x.rdIsZero, x.pc, Condition(x.funct3, x.rs1, Operand2(kind, x.rs2, x.imm))) ==
        if x.rdIsZero || word == 16 then 0 else if word == 1 || word == 2 then (x.pc + 4) % TWO32
        else if Condition(x.funct3, x.rs1, b) then 1 else 0
  {
    hide Condition;
  }

  /** Where control goes, likewise. */
  lemma NextPcByWord(word: nat, kind: Kind, x: Inputs)
    requires x.funct3 < 8 && word == KindBits(kind)
    ensures
      var taken := word == 16 && Condition(x.funct3, x.rs1, x.rs2);
      var address :=
        (if word == 2 then x.rs1 + x.imm else if word == 1 || taken then x.pc + x.imm else x.pc + 4) % TWO32;
      && Taken(kind, x) == taken && Jumps(kind, taken) == (word == 1 || word == 2 || taken)
      && NextPc(kind, taken, x.pc, x.rs1, x.imm)
         == if word == 1 || word == 2 || taken then address - address % 2 else address
  {
    hide Condition;
  }

  /** The finished row over its places. */
  lemma RowByPlaces(row: array<Fp>, word: nat, kind: Kind, x: Inputs)
    requires row.Length >= 40 && x.funct3 < 8 && word == KindBits(kind)
    requires ComparisonDone(row, kind, x) && TargetDone(row, kind, x)
    ensures
      var taken := word == 16 && Condition(x.funct3, x.rs1, x.rs2);
      && row[35] == (if !x.rdIsZero && (word == 1 || word == 2) then 1 else 0)
      && row[36] == (if !x.rdIsZero && (word == 4 || word == 8) then 1 else 0)
      && RdLimbs(row).0 == (if row[35] == 1 then row[9] else if row[36] == 1 then row[31] else 0)
      && RdLimbs(row).1 == (if row[35] == 1 then row[10] else 0)
      && (word == 16 ==> row[31] == if taken then 1 else 0)
      && EndPc(row) == (if word == 1 || word == 2 || taken then row[33] else row[13], row[14])
  {
    hide Condition, FirstWord, FirstOverflow, Target, TargetOverflow, LimbEquations, Cleaned, FirstSum, SecondSum,
      FlagOf;
    if kind.Branch? {
      FlagIsCondition(kind, x);
    }
    ProductByFlag(row[35] == 1, row[9]);
    ProductByFlag(row[35] == 1, row[10]);
    ProductByFlag(row[36] == 1, row[31]);
    hide Mul;
  }

  /** The two carries over their places: each closes the low limbs of the active relation. */
  lemma CarriesByPlaces(row: array<Fp>, word: nat, kind: Kind, x: Inputs)
    requires row.Length >= 40 && x.funct3 < 8 && word == KindBits(kind)
    requires ComparisonDone(row, kind, x) && TargetDone(row, kind, x)
    ensures
      var taken := word == 16 && Condition(x.funct3, x.rs1, x.rs2);
      && (word == 1 || word == 2 ==> Closes(x.pc % TWO16, 4, row[9], row[24]))
      && (word == 8 ==> Closes(row[9], x.imm % TWO16, x.rs1 % TWO16, row[24]))
      && (word == 4 || word == 16 ==> Closes(row[9], x.rs2 % TWO16, x.rs1 % TWO16, row[24]))
      && Closes(if word == 2 then x.rs1 % TWO16 else x.pc % TWO16,
                if word == 1 || word == 2 || taken then x.imm % TWO16 else 4, row[13], row[25])
  {
    hide Condition, FirstWord, FirstOverflow, Target, TargetOverflow, LimbEquations, Cleaned, FlagOf, Closes;
    if kind.Branch? {
      FlagIsCondition(kind, x);
    }
    var flag := FlagOf(kind, x);
    var r, s := FirstSum(kind, x), SecondSum(kind, flag, x);
    LimbsClose(r.0, r.1, r.2, row[24], FromBool(FirstOverflow(kind, x)));
    LimbsClose(s.0, s.1, s.2, row[25], FromBool(TargetOverflow(kind, flag, x)));
  }

  /** One evaluation of the row. In terms of places: under the decoder words 1, 2, 4, 8 and 16, with rs1,
      rs2 and pc in memory places, the immediate in 1 and 2 and funct3 in 3, the gates 35 and 36 offer
      rd the return address in 9 and 10, the comparison in 31 or zero, and pc continues at 33 and 14
      after a jump, at 13 and 14 otherwise. */
  method EvaluateWitness(p: Proxy, ghost kind: Kind, ghost x: Inputs)
    requires x.Read(p) && p.witnessRow[4] == KindBits(kind)
    modifies p.witnessRow
    ensures
      var m, w, word := p.memoryRow, p.witnessRow, old(p.witnessRow[4]);
      var b := if word == 8 then old(w[1]) + TWO16 * old(w[2]) else m[7] + TWO16 * m[8];
      var following := (m[18] + TWO16 * m[19] + 4) % TWO32;
      && w[35] == (if old(w[0]) == 0 && (word == 1 || word == 2) then 1 else 0)
      && w[36] == (if old(w[0]) == 0 && (word == 4 || word == 8) then 1 else 0)
      && (w[35] == 1 ==> w[9] == following % TWO16 && w[10] == following / TWO16)
      && (w[36] == 1 || word == 16 ==> w[31] == if Condition(old(w[3]), m[2] + TWO16 * m[3], b) then 1 else 0)
    ensures
      var m, w, word := p.memoryRow, p.witnessRow, old(p.witnessRow[4]);
      var pc, imm := m[18] + TWO16 * m[19], old(w[1]) + TWO16 * old(w[2]);
      var taken := word == 16 && w[31] == 1;
      var address :=
        (if word == 2 then m[2] + TWO16 * m[3] + imm else if word == 1 || taken then pc + imm else pc + 4) % TWO32;
      var target := address - address % 2;
      if word == 1 || word == 2 || taken then
        && (w[32] == 0 <==> target % 4 == 0)
        && (w[32] == 0 ==> w[33] == target % TWO16 && w[14] == target / TWO16)
      else w[13] == address % TWO16 && w[14] == address / TWO16
    ensures
      var m, w, word := p.memoryRow, p.witnessRow, old(p.witnessRow[4]);
      var taken := word == 16 && w[31] == 1;
      && (word == 1 || word == 2 ==> Closes(m[18], 4, w[9], w[24]))
      && (word == 8 ==> Closes(w[9], old(w[1]), m[2], w[24]))
      && (word == 4 || word == 16 ==> Closes(w[9], m[7], m[2], w[24]))
      && Closes(if word == 2 then m[2] else m[18],
                if word == 1 || word == 2 || taken then old(w[1]) else 4, w[13], w[25])
    ensures ComparisonDone(p.witnessRow, kind, x) && TargetDone(p.witnessRow, kind, x)
    ensures
      var taken := Taken(kind, x);
      var next := NextPc(kind, taken, x.pc, x.rs1, x.imm);
      var rd := RdValue(kind, x.rdIsZero, x.pc, Condition(x.funct3, x.rs1, Operand2(kind, x.rs2, x.imm)));
      && RdLimbs(p.witnessRow) == (rd % TWO16, rd / TWO16)
      && (Jumps(kind, taken) ==> (p.witnessRow[32] == 0 <==> next % 4 == 0))
      && ((Jumps(kind, taken) ==> p.witnessRow[32] == 0) ==> EndPc(p.witnessRow) == (next % TWO16, next / TWO16))
  {
    hide ComparisonDone, TargetDone, RdLimbs, EndPc, NextPc, RdValue, Taken, Condition, Jumps, KindBits;
    ghost var m, w, word := p.memoryRow, p.witnessRow, p.witnessRow[4];
    assert x.rs1 == m[2] + TWO16 * m[3] && x.rs2 == m[7] + TWO16 * m[8] && x.pc == m[18] + TWO16 * m[19];
    assert x.imm == w[1] + TWO16 * w[2] && x.funct3 == w[3] && w[0] == FromBool(x.rdIsZero);
    EvaluateRow(p, kind, x);
    RdByWord(word, kind, x);
    NextPcByWord(word, kind, x);
    RowByPlaces(w, word, kind, x);
    CarriesByPlaces(w, word, kind, x);
  }
}
