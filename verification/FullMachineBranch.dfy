/** Branches and set-less-than in the full machine, which share one instruction class there. Methods
    are named after the evaluation functions they model. */
module FullMachineBranch {
  import opened Mersenne31
  import opened Witness
  import opened Digits
  import opened LimbArithmetic
  import opened MulRelation
  import opened RiscvM
  import opened RiscvControl
  import J = JumpBranchSltCircuit
  import R = FullMachineResult

  /** A row of the class: two operands, the program counter, the immediate and funct3. */
  datatype Row = Row(a: Word, b: Word, pc: Word, imm: Word, funct3: nat) {
    ghost predicate Read(p: Proxy)
      reads p.memoryRow, p.witnessRow
    {
      var w := p.witnessRow;
      && funct3 < 8 && p.Valid(15, 197, 7)
      && Holds32(p.memoryRow, 8, 9, a) && Holds32(w, 114, 93, b) && Holds32(w, 21, 80, pc) && Holds32(w, 112, 113, imm)
      && w[89] == funct3 && w[91] == FromBool(a >= 0x8000_0000) && w[94] == FromBool(b >= 0x8000_0000)
      && w[45] == 1 && w[47] == 0
    }

    /** The condition of a set-less-than, and that of a branch. */
    predicate Set()
      requires funct3 < 8
    {
      funct3 in {2, 3} && Condition(funct3, a, b)
    }

    predicate Taken()
      requires funct3 < 8
    {
      funct3 !in {2, 3} && Condition(funct3, a, b)
    }
  }

  method EvalFn18(p: Proxy, ghost x: Row)
    requires x.Read(p)
    modifies p.witnessRow, p.scratchSpace
    ensures p.witnessRow[22] == ToWord(x.pc + 4) % TWO16 && p.scratchSpace[0] == ToWord(x.pc + 4) / TWO16
    ensures OnlyChanged(p.witnessRow, 22, 22, 115, 115)
  {
    var pc := ReadWord(p.witnessRow, 21, 80, x.pc);
    var next: Word := Add32(pc, 4);
    p.witnessRow[22] := next % TWO16;
    p.scratchSpace[0] := next / TWO16;
  }

  /** The difference of the operands, and the target of a taken branch. */
  method EvalFn42To43(p: Proxy, ghost x: Row)
    requires x.Read(p)
    modifies p.witnessRow
    ensures Holds32(p.witnessRow, 23, 24, ToWord(x.a - x.b)) && p.witnessRow[58] == FromBool(x.a < x.b)
    ensures Holds32(p.witnessRow, 25, 26, ToWord(x.pc + x.imm)) && p.witnessRow[62] == FromBool(x.pc + x.imm >= TWO32)
    ensures OnlyChanged(p.witnessRow, 23, 26, 58, 62)
    ensures forall k: nat | 59 <= k < 62 :: p.witnessRow[k] == old(p.witnessRow[k])
  {
    hide ToWord;
    var w := p.witnessRow;
    var a := ReadWord(p.memoryRow, 8, 9, x.a);
    var b := ReadWord(w, 114, 93, x.b);
    var pc := ReadWord(w, 21, 80, x.pc);
    var imm := ReadWord(w, 112, 113, x.imm);
    J.SubRelation(w, Mask(w[45]), a, b, 23, 24, 58);
    J.AddRelation(w, Mask(w[45]), pc, imm, 25, 26, 62);
  }

  /** The alignment bit of a target's low limb, and the limb without its two lowest bits. */
  function CleanupTable(limb: nat): (nat, nat) {
    (limb / 2 % 2, limb - limb % 4)
  }

  method EvalFn44(p: Proxy, ghost x: Row)
    requires x.Read(p) && p.witnessRow[25] == ToWord(x.pc + x.imm) % TWO16
    modifies p.witnessRow
    ensures p.witnessRow[118] == ToWord(x.pc + x.imm) / 2 % 2
    ensures p.witnessRow[119] == p.witnessRow[25] - p.witnessRow[25] % 4
    ensures OnlyChanged(p.witnessRow, 118, 119, 118, 119)
  {
    hide ToWord;
    BitOfLimb(ToWord(x.pc + x.imm));
    var w := p.witnessRow;
    var r := CleanupTable(w[25]);
    StoreIf(w, Mask(w[45]), 118, r.0);
    StoreIf(w, Mask(w[45]), 119, r.1);
  }

  lemma BitOfLimb(t: Word)
    ensures t % TWO16 / 2 % 2 == t / 2 % 2
  {
    var l, h := t % TWO16, t / TWO16;
    assert t / 2 == l / 2 + 0x8000 * h;
    PlusTwos(l / 2, 0x4000 * h);
  }

  /** The zero test of the difference, in places that divisions use as well. */
  method EvalFn62To64(p: Proxy, ghost x: Row)
    requires x.Read(p) && Holds32(p.witnessRow, 23, 24, ToWord(x.a - x.b))
    modifies p.witnessRow
    ensures Holds32(p.witnessRow, 172, 173, ToWord(x.a - x.b)) && p.witnessRow[59] == FromBool(x.a == x.b)
    ensures OnlyChanged(p.witnessRow, 59, 59, 172, 174)
  {
    hide ToWord;
    ZeroTest(ToWord(x.a - x.b));
    J.DifferenceZero(x.a, x.b);
    var w := p.witnessRow;
    var v := R.AddWhen(0, w[47], w[23], false);
    v := R.AddWhen(v, w[45], w[23], true);
    w[172] := v;
    v := R.AddWhen(0, w[47], w[24], false);
    v := R.AddWhen(v, w[45], w[24], true);
    w[173] := v;
    w[59] := FromBool(Add(w[172], w[173]) == 0);
  }

  /** The field expression of the key is the integer that packs the four facts with funct3. */
  lemma KeyByField(funct3: nat, less: bool, equal: bool, sign1: bool, sign2: bool)
    requires funct3 < 8
    ensures
      var v := Add(Add(0, Mul(1, funct3)), Mul(32, FromBool(sign1)));
      Add(Add(Add(v, Mul(64, FromBool(sign2))), Mul(8, FromBool(less))), Mul(16, FromBool(equal)))
      == J.KeyWithFunct3(funct3, less, equal, sign1, sign2)
  {
    hide Add, Mul, FromBool, Bit;
    ScaledFlag(32, sign1);
    ScaledFlag(64, sign2);
    ScaledFlag(8, less);
    ScaledFlag(16, equal);
    ScaledPlace(funct3);
    SmallSum(0, funct3);
    SmallSum(funct3, 32 * Bit(sign1));
    SmallSum(funct3 + 32 * Bit(sign1), 64 * Bit(sign2));
    SmallSum(funct3 + 32 * Bit(sign1) + 64 * Bit(sign2), 8 * Bit(less));
    SmallSum(funct3 + 32 * Bit(sign1) + 64 * Bit(sign2) + 8 * Bit(less), 16 * Bit(equal));
  }

  lemma SmallSum(a: Fp, b: Fp)
    requires a + b < P
    ensures Add(a, b) == a + b
  {
  }

  lemma ScaledFlag(scale: Fp, f: bool)
    ensures Mul(scale, FromBool(f)) == scale * Bit(f)
  {
  }

  lemma ScaledPlace(x: Fp)
    ensures Mul(1, x) == x
  {
  }

  /** The decision: whether a branch is taken and what a set-less-than sets, for all operands. */
  method EvalFn112(p: Proxy, ghost x: Row)
    requires x.Read(p) && p.witnessRow[58] == FromBool(x.a < x.b) && p.witnessRow[59] == FromBool(x.a == x.b)
    modifies p.witnessRow
    ensures p.witnessRow[120] == FromBool(x.Taken()) && p.witnessRow[121] == FromBool(x.Set())
    ensures OnlyChanged(p.witnessRow, 120, 121, 120, 121)
  {
    hide Condition, J.KeyWithFunct3, J.ResolveBranchOrStore, Add, Mul;
    var w := p.witnessRow;
    KeyByField(x.funct3, x.a < x.b, x.a == x.b, x.a >= 0x8000_0000, x.b >= 0x8000_0000);
    J.MachinesDecideAlike(x.a, x.b, x.funct3);
    var v := Add(0, Mul(1, w[89]));
    v := Add(v, Mul(32, w[91]));
    v := Add(v, Mul(64, w[94]));
    v := Add(v, Mul(8, w[58]));
    v := Add(v, Mul(16, w[59]));
    var r := J.ResolveBranchOrStore(v);
    StoreIf(w, Mask(w[45]), 120, FromBool(r.0));
    StoreIf(w, Mask(w[45]), 121, FromBool(r.1));
  }

  /** The alignment check, which counts only for a branch that is taken, and the branch's next address. */
  method EvalFn154To156(p: Proxy, ghost x: Row)
    requires x.Read(p) && p.witnessRow[120] == FromBool(x.Taken())
    requires Holds32(p.witnessRow, 25, 26, ToWord(x.pc + x.imm))
    requires p.witnessRow[22] == ToWord(x.pc + 4) % TWO16 && p.scratchSpace[0] == ToWord(x.pc + 4) / TWO16
    requires p.witnessRow[118] == ToWord(x.pc + x.imm) / 2 % 2
    modifies p.witnessRow
    ensures p.witnessRow[145] == FromBool(x.Taken() && ToWord(x.pc + x.imm) / 2 % 2 == 1)
    ensures Holds32(p.witnessRow, 146, 147, Target(Branch, x.Taken(), x.pc, x.a, x.imm))
    ensures OnlyChanged(p.witnessRow, 145, 147, 145, 147)
  {
    hide Condition, Add, Mul, ToWord, Blend, Row.Taken;
    var w := p.witnessRow;
    ProductOfFlags(ToWord(x.pc + x.imm) / 2 % 2 == 1, x.Taken());
    w[145] := Add(0, Mul(w[118], w[120]));
    BlendChooses(x.Taken(), w[25], w[22]);
    w[146] := Blend(w[120], w[25], w[22]);
    BlendChooses(x.Taken(), w[26], p.scratchSpace[0]);
    w[147] := Blend(w[120], w[26], p.scratchSpace[0]);
  }

  /** What the row holds in the end: the value for rd, the next program counter, and the alignment
      flag that the circuit forces to zero. */
  ghost predicate Done(p: Proxy, x: Row, x0: bool)
    requires x.funct3 < 8 && p.Valid(15, 197, 7)
    reads p.witnessRow
  {
    var w := p.witnessRow;
    && Holds32(w, 193, 194, if x0 then 0 else Bit(x.Set()))
    && Holds32(w, 195, 196, Target(Branch, x.Taken(), x.pc, x.a, x.imm))
    && w[145] == FromBool(x.Taken() && ToWord(x.pc + x.imm) / 2 % 2 == 1)
  }

  method EvaluateDecision(p: Proxy, ghost x: Row, ghost x0: bool)
    requires x.Read(p) && R.Active(p, R.Conditional) && p.witnessRow[74] == FromBool(x0)
    modifies p.witnessRow, p.scratchSpace
    ensures x.Read(p) && R.Active(p, R.Conditional) && p.witnessRow[74] == FromBool(x0)
    ensures
      var w := p.witnessRow;
      && w[121] == FromBool(x.Set()) && Holds32(w, 146, 147, Target(Branch, x.Taken(), x.pc, x.a, x.imm))
      && w[22] == ToWord(x.pc + 4) % TWO16 && p.scratchSpace[0] == ToWord(x.pc + 4) / TWO16
      && w[145] == FromBool(x.Taken() && ToWord(x.pc + x.imm) / 2 % 2 == 1)
  {
    hide ToWord, Condition, FromBool, Row.Set, Row.Taken, Target;
    EvalFn18(p, x);
    EvalFn42To43(p, x);
    EvalFn44(p, x);
    EvalFn62To64(p, x);
    EvalFn112(p, x);
    EvalFn154To156(p, x);
  }

  /** The two decisions, funct3 by funct3. */
  lemma Decisions(x: Row)
    requires x.funct3 < 8
    ensures
      var less := AsSigned(x.a) < AsSigned(x.b);
      && x.Set() == ((x.funct3 == 2 && less) || (x.funct3 == 3 && x.a < x.b))
      && x.Taken() == ((x.funct3 == 0 && x.a == x.b) || (x.funct3 == 1 && x.a != x.b) || (x.funct3 == 4 && less)
                       || (x.funct3 == 5 && !less) || (x.funct3 == 6 && x.a < x.b) || (x.funct3 == 7 && x.a >= x.b))
  {
  }

  method EvaluateRow(p: Proxy, ghost x: Row, ghost x0: bool)
    requires x.Read(p) && R.Active(p, R.Conditional) && p.witnessRow[74] == FromBool(x0)
    modifies p.witnessRow, p.scratchSpace
    ensures Done(p, x, x0)
  {
    hide ToWord, Condition, Row.Set, Row.Taken, Target;
    EvaluateDecision(p, x, x0);
    R.EvaluateRd(p, R.Conditional, x0);
    R.EvalFn171(p, R.Conditional, ToWord(x.pc + 4), Target(Branch, x.Taken(), x.pc, x.a, x.imm), 0);
  }

  /** For all operands the class sets rd and the program counter as the manual says. In terms of places,
      with the operands in memory 8 and 9 and witness 114 and 93, pc in 21 and 80, the immediate in 112
      and 113 and funct3 in 89: 193 and 194 hold the comparison, or zero for x0, 195 and 196 the next
      address, and 145 marks a taken branch to an address that is not a multiple of four. */
  method EvaluateWitness(p: Proxy, ghost x: Row, ghost x0: bool)
    requires x.Read(p) && R.Active(p, R.Conditional) && p.witnessRow[74] == FromBool(x0)
    modifies p.witnessRow, p.scratchSpace
    ensures Done(p, x, x0)
    ensures
      var m, w := p.memoryRow, p.witnessRow;
      var a, b, funct3 := m[8] + TWO16 * m[9], old(w[114]) + TWO16 * old(w[93]), old(w[89]);
      var pc, imm := old(w[21]) + TWO16 * old(w[80]), old(w[112]) + TWO16 * old(w[113]);
      var less := AsSigned(a) < AsSigned(b);
      var isLess := (funct3 == 2 && less) || (funct3 == 3 && a < b);
      var taken := (funct3 == 0 && a == b) || (funct3 == 1 && a != b) || (funct3 == 4 && less)
                   || (funct3 == 5 && !less) || (funct3 == 6 && a < b) || (funct3 == 7 && a >= b);
      var next := (if taken then pc + imm else pc + 4) % TWO32;
      && w[193] == (if isLess && old(w[74]) == 0 then 1 else 0) && w[194] == 0
      && w[195] == next % TWO16 && w[196] == next / TWO16
      && w[145] == (if taken && next / 2 % 2 == 1 then 1 else 0)
  {
    hide Done, R.Active, AsSigned;
    ghost var m, w := p.memoryRow, p.witnessRow;
    assert x.a == m[8] + TWO16 * m[9] && x.b == w[114] + TWO16 * w[93] && x.funct3 == w[89];
    assert x.pc == w[21] + TWO16 * w[80] && x.imm == w[112] + TWO16 * w[113] && x0 == (w[74] == 1) && w[74] <= 1;
    EvaluateRow(p, x, x0);
    DoneByPlaces(p, x, x0);
  }

  lemma DoneByPlaces(p: Proxy, x: Row, x0: bool)
    requires x.funct3 < 8 && p.Valid(15, 197, 7) && Done(p, x, x0)
    ensures
      var w, less := p.witnessRow, AsSigned(x.a) < AsSigned(x.b);
      var isLess := (x.funct3 == 2 && less) || (x.funct3 == 3 && x.a < x.b);
      var taken := (x.funct3 == 0 && x.a == x.b) || (x.funct3 == 1 && x.a != x.b) || (x.funct3 == 4 && less)
                   || (x.funct3 == 5 && !less) || (x.funct3 == 6 && x.a < x.b) || (x.funct3 == 7 && x.a >= x.b);
      var next := (if taken then x.pc + x.imm else x.pc + 4) % TWO32;
      && w[193] == (if isLess && !x0 then 1 else 0) && w[194] == 0
      && w[195] == next % TWO16 && w[196] == next / TWO16
      && w[145] == (if taken && next / 2 % 2 == 1 then 1 else 0)
  {
    hide Condition, ToWord, AsSigned, Row.Set, Row.Taken, Target;
    Decisions(x);
    TargetOfBranch(x.Taken(), x);
  }

  lemma TargetOfBranch(taken: bool, x: Row)
    ensures Target(Branch, taken, x.pc, x.a, x.imm) == (if taken then x.pc + x.imm else x.pc + 4) % TWO32
    ensures ToWord(x.pc + x.imm) == (x.pc + x.imm) % TWO32
  {
  }
}
