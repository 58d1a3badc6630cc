/** The minimal machine's modular operations, the carry that all its 32-bit relations share, and its
    choice of the next program counter. Methods are named after the evaluation functions they model. */
module MinimalMachine {
  import opened Mersenne31
  import opened Witness
  import opened LimbArithmetic
  import opened MulRelation
  import opened RiscvM
  import A = AddSubMopCircuit
  import R = FullMachineResult

  datatype Class = Add | Auipc | Binary | Conditional | Csr | Jump | Lui | Load | Mop | Shift | Sub | Store

  /** The decoder leaves exactly one class active. */
  ghost predicate Active(p: Proxy, c: Class)
    requires p.Valid(15, 121, 2)
    reads p.witnessRow
  {
    var w := p.witnessRow;
    && w[27] == FromBool(c.Add?) && w[28] == FromBool(c.Auipc?) && w[29] == FromBool(c.Binary?)
    && w[30] == FromBool(c.Conditional?) && w[31] == FromBool(c.Csr?) && w[32] == FromBool(c.Jump?)
    && w[33] == FromBool(c.Lui?) && w[34] == FromBool(c.Load?) && w[35] == FromBool(c.Mop?)
    && w[36] == FromBool(c.Shift?) && w[37] == FromBool(c.Sub?) && w[38] == FromBool(c.Store?)
  }

  /** A modular operation on two words. Its flags are in places 39 to 41. */
  datatype Modular = Modular(op: A.Instruction, rs1: Word, rs2: Word) {
    ghost predicate Read(p: Proxy)
      reads p.memoryRow, p.witnessRow
    {
      var w := p.witnessRow;
      && A.Modular(op) && p.Valid(15, 121, 2)
      && Holds32(p.memoryRow, 8, 9, rs1) && Holds32(w, 87, 66, rs2)
      && w[39] == FromBool(op.AddModOp?) && w[40] == FromBool(op.MulModOp?) && w[41] == FromBool(op.SubModOp?)
      && w[35] == 1
    }

    function Inputs(): A.Inputs {
      A.Inputs(rs1, rs2, 0, 0)
    }

    function Value(): (v: Word)
      ensures A.Modular(op) ==> v < P
    {
      A.ValueOf(op, Inputs())
    }
  }

  /** The product in the field, by limbs. */
  method EvalFn36(p: Proxy, ghost x: Modular)
    requires x.Read(p)
    modifies p.witnessRow
    ensures p.witnessRow[106] == (x.rs1 * x.rs2) % P
    ensures OnlyChanged(p.witnessRow, 106, 106, 106, 106)
  {
    var a0, a1, b0, b1 := p.memoryRow[8], p.memoryRow[9], p.witnessRow[87], p.witnessRow[66];
    ghost var sum := 0;
    var v: Fp := 0;
    v, sum := A.AddFieldProduct(v, sum, a0, 1, b0);
    v, sum := A.AddFieldProduct(v, sum, a0, TWO16, b1);
    v, sum := A.AddFieldProduct(v, sum, a1, TWO16, b0);
    v, sum := A.AddFieldProduct(v, sum, a1, 2, b1);
    A.LimbProduct(a0, a1, b0, b1);
    assert x.rs1 == a0 + TWO16 * a1 && x.rs2 == b0 + TWO16 * b1;
    p.witnessRow[106] := v;
  }

  /** The active one of the three results, summed over their flags. */
  method EvalFn37(p: Proxy, ghost x: Modular)
    requires x.Read(p)
    modifies p.witnessRow
    ensures Holds32(p.witnessRow, 107, 108, x.Value())
    ensures OnlyChanged(p.witnessRow, 107, 108, 107, 108)
  {
    hide Mersenne31.Add;
    var w := p.witnessRow;
    var rs1 := ReadWord(p.memoryRow, 8, 9, x.rs1);
    var rs2 := ReadWord(w, 87, 66, x.rs2);
    var sum, difference, product := A.FieldResults(rs1, rs2);
    var v := R.AddWhen(0, w[39], sum, x.op.AddModOp?);
    v := R.AddWhen(v, w[41], difference, x.op.SubModOp?);
    v := R.AddWhen(v, w[40], product, x.op.MulModOp?);
    w[107] := v % TWO16;
    w[108] := v / TWO16;
  }

  /** A word stored under a flag. */
  method StoreWord(row: array<Fp>, flag: bool, low: nat, v: Word)
    requires low + 1 < row.Length
    modifies row
    ensures flag ==> Holds32(row, low, low + 1, v)
    ensures !flag ==> forall k: nat | k < row.Length :: row[k] == old(row[k])
    ensures OnlyChanged(row, low, low + 1, low, low + 1)
  {
    row[low] := if flag then v % TWO16 else row[low];
    row[low + 1] := if flag then v / TWO16 else row[low + 1];
  }

  /** The output of the class, and the difference to the modulus that shows it canonical. */
  method EvalFn38And57(p: Proxy, ghost x: Modular)
    requires x.Read(p) && Holds32(p.witnessRow, 107, 108, x.Value())
    modifies p.witnessRow
    ensures Holds32(p.witnessRow, 10, 11, x.Value()) && Holds32(p.witnessRow, 12, 13, ToWord(x.Value() - P))
    ensures p.witnessRow[42] == 1
    ensures OnlyChanged(p.witnessRow, 10, 13, 42, 42)
  {
    hide Modular.Value;
    var w := p.witnessRow;
    var v := ReadWord(w, 107, 108, x.Value());
    StoreWord(w, Mask(w[35]), 10, v);
    StoreIf(w, Mask(w[35]), 42, FromBool(v < P));
    StoreWord(w, Mask(w[35]), 12, Sub32(v, P));
  }

  /** Where each class with a 32-bit relation a + b = c keeps the low limbs of a, b and c. */
  function SumLimbs(p: Proxy, c: Class): (Fp, Fp, Fp)
    requires p.Valid(15, 121, 2)
    reads p.memoryRow, p.witnessRow
  {
    var m, w := p.memoryRow, p.witnessRow;
    match c
    case Add => (m[8], w[87], w[10])
    case Sub => (w[10], w[87], m[8])
    case Auipc => (w[8], w[85], w[10])
    case Conditional => (w[10], w[87], m[8])
    case Jump => (w[104], w[85], w[10])
    case Mop => (w[12], 65535, w[10])
    case Load => (m[8], w[85], w[10])
    case Store => (m[8], w[85], w[10])
    case _ => (0, 0, 0)
  }

  /** Classes that check no sum have no carry. */
  predicate HasSum(c: Class) {
    !c.Binary? && !c.Csr? && !c.Lui? && !c.Shift?
  }

  /** The carry between the limbs, for whichever class is active and whatever words it adds. */
  method EvalFn59(p: Proxy, ghost c: Class, ghost a: Word, ghost b: Word, ghost s: Word, ghost overflow: bool)
    requires p.Valid(15, 121, 2) && Active(p, c) && SumLimbs(p, c) == (a % TWO16, b % TWO16, s % TWO16)
    requires a + b == s + TWO32 * Bit(overflow)
    modifies p.witnessRow
    ensures p.witnessRow[45] <= 1
    ensures HasSum(c) ==> LimbEquations(a, b, s, Mask(p.witnessRow[45]), overflow)
    ensures
      var m, w := p.memoryRow, p.witnessRow;
      && (w[27] == 1 ==> Closes(m[8], w[87], w[10], w[45])) && (w[37] == 1 ==> Closes(w[10], w[87], m[8], w[45]))
      && (w[28] == 1 ==> Closes(w[8], w[85], w[10], w[45])) && (w[30] == 1 ==> Closes(w[10], w[87], m[8], w[45]))
      && (w[32] == 1 ==> Closes(w[104], w[85], w[10], w[45])) && (w[35] == 1 ==> Closes(w[12], 0xFFFF, w[10], w[45]))
      && (w[34] == 1 || w[38] == 1 ==> Closes(m[8], w[85], w[10], w[45]))
    ensures OnlyChanged(p.witnessRow, 45, 45, 45, 45)
  {
    hide LimbEquations, CarryBit, Closes;
    CarryBitCloses(a, b, s, overflow);
    var w, m := p.witnessRow, p.memoryRow;
    var address := CarryBit(m[8], w[85], w[10]);
    var modular := CarryBit(w[12], 65535, w[10]);
    var jump := CarryBit(w[104], w[85], w[10]);
    var difference := CarryBit(w[10], w[87], m[8]);
    var upper := CarryBit(w[8], w[85], w[10]);
    var addition := CarryBit(m[8], w[87], w[10]);
    var v := if Mask(w[27]) then addition else false;
    v := if Mask(w[37]) then difference else v;
    v := if Mask(w[28]) then upper else v;
    v := if Mask(w[30]) then difference else v;
    v := if Mask(w[32]) then jump else v;
    v := if Mask(w[35]) then modular else v;
    v := if Mask(w[34]) then address else v;
    v := if Mask(w[38]) then address else v;
    w[45] := FromBool(v);
    if HasSum(c) {
      LimbsClose(a, b, s, w[45], FromBool(overflow));
    }
  }

  /** A modular operation from its operands to the closed relation: the output is the canonical result,
      it borrows against the modulus, and the carry makes both limb equations true. */
  method EvaluateModular(p: Proxy, ghost x: Modular)
    requires x.Read(p) && Active(p, Mop)
    modifies p.witnessRow
    ensures
      var w, v := p.witnessRow, x.Value();
      && v < P && Holds32(w, 10, 11, v) && w[42] == 1
      && (x.op.MulModOp? ==> w[106] == v)
      && LimbEquations(ToWord(v - P), P, v, Mask(w[45]), true)
    ensures
      var m, w := p.memoryRow, p.witnessRow;
      var rs1, rs2, out := m[8] + TWO16 * m[9], old(w[87]) + TWO16 * old(w[66]), w[10] + TWO16 * w[11];
      && w[10] < TWO16 && w[11] < TWO16 && w[12] < TWO16 && w[13] < TWO16
      && (old(w[39]) == 1 ==> out == (rs1 + rs2) % P) && (old(w[41]) == 1 ==> out == (rs1 - rs2) % P)
      && (old(w[40]) == 1 ==> out == w[106] == (rs1 * rs2) % P)
      && Closes(w[12], 0xFFFF, w[10], w[45]) && w[13] + 0x7FFF + w[45] == w[11] + TWO16 * w[42]
  {
    hide Modular.Value, LimbEquations, ToWord, Closes;
    ghost var rs1: int := p.memoryRow[8] + TWO16 * p.memoryRow[9];
    ghost var rs2: int := p.witnessRow[87] + TWO16 * p.witnessRow[66];
    assert rs1 == x.rs1 && rs2 == x.rs2;
    EvalFn36(p, x);
    EvalFn37(p, x);
    EvalFn38And57(p, x);
    ghost var v := x.Value();
    BorrowExact(v);
    EvalFn59(p, Mop, ToWord(v - P), P, v, true);
    ProductValue(x);
    LimbsClose(ToWord(v - P), P, v, p.witnessRow[45], p.witnessRow[42]);
    ModularByPlaces(p, x, rs1, rs2);
  }

  lemma ModularByPlaces(p: Proxy, x: Modular, rs1: int, rs2: int)
    requires p.Valid(15, 121, 2) && A.Modular(x.op) && rs1 == x.rs1 && rs2 == x.rs2
    requires Holds32(p.witnessRow, 10, 11, x.Value())
    ensures
      var w := p.witnessRow;
      var out := w[10] + TWO16 * w[11];
      && out == x.Value() && (x.op.AddModOp? ==> out == (rs1 + rs2) % P)
      && (x.op.SubModOp? ==> out == (rs1 - rs2) % P) && (x.op.MulModOp? ==> out == (rs1 * rs2) % P)
  {
  }

  lemma BorrowExact(v: Word)
    requires v < P
    ensures ToWord(v - P) + P == v + TWO32
  {
  }

  lemma ProductValue(x: Modular)
    ensures x.op.MulModOp? ==> x.Value() == (x.rs1 * x.rs2) % P
  {
  }

  /** The next program counter: the branch decision's, the cleaned jump target, or the following word. */
  method EvalFn97(p: Proxy, ghost c: Class, ghost step: Word, ghost branch: Word, ghost target: Word)
    requires p.Valid(15, 121, 2) && Active(p, c)
    requires p.witnessRow[9] == step % TWO16 && p.scratchSpace[0] == step / TWO16
    requires c.Conditional? ==> Holds32(p.witnessRow, 96, 97, branch)
    requires c.Jump? ==> Holds32(p.witnessRow, 92, 11, target)
    modifies p.witnessRow
    ensures Holds32(p.witnessRow, 119, 120, if c.Conditional? then branch else if c.Jump? then target else step)
    ensures
      var w := p.witnessRow;
      && (w[30] == 1 ==> w[119] == w[96] && w[120] == w[97])
      && (w[32] == 1 ==> w[119] == w[92] && w[120] == w[11])
      && (w[30] == 0 && w[32] == 0 ==> w[119] == w[9] && w[120] == p.scratchSpace[0])
    ensures OnlyChanged(p.witnessRow, 119, 120, 119, 120)
  {
    var w := p.witnessRow;
    var jump := R.WordAt(w[92], w[11], c.Jump?, target);
    var taken := R.WordAt(w[96], w[97], c.Conditional?, branch);
    var following := R.WordAt(w[9], p.scratchSpace[0], true, step);
    var other := Mask(w[27]) || Mask(w[37]) || Mask(w[33]) || Mask(w[28]) || Mask(w[29]) || Mask(w[36]) || Mask(w[35])
              || Mask(w[34]) || Mask(w[38]) || Mask(w[31]);
    var v: Word := if other then following else 0;
    v := if Mask(w[30]) then taken else v;
    v := if Mask(w[32]) then jump else v;
    w[119] := v % TWO16;
    w[120] := v / TWO16;
  }
}
