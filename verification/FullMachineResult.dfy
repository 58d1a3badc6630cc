/** How the full machine picks the value for rd and the next program counter out of the results of
    all instruction classes, by sums and selections under one flag per class. */
module FullMachineResult {
  import opened Mersenne31
  import opened Witness
  import opened LimbArithmetic
  import opened MulRelation
  import opened RiscvM

  datatype Class =
    | Add | Auipc | Binary | Conditional | Csr | DivRem | Jump | Lui | RomLoad | RamLoad | Mul | Shift | Sub | Store

  /** The decoder and the split of loads leave exactly one class active. */
  ghost predicate Active(p: Proxy, c: Class)
    requires p.Valid(15, 197, 7)
    reads p.witnessRow
  {
    var w := p.witnessRow;
    && w[42] == FromBool(c.Add?) && w[43] == FromBool(c.Auipc?) && w[44] == FromBool(c.Binary?)
    && w[45] == FromBool(c.Conditional?) && w[46] == FromBool(c.Csr?) && w[47] == FromBool(c.DivRem?)
    && w[48] == FromBool(c.Jump?) && w[49] == FromBool(c.Lui?) && w[50] == FromBool(c.RomLoad? || c.RamLoad?)
    && w[51] == FromBool(c.Mul?) && w[52] == FromBool(c.Shift?) && w[53] == FromBool(c.Sub?)
    && w[54] == FromBool(c.Store?)
    && w[158] == FromBool(c.RomLoad?) && w[159] == FromBool(c.RamLoad?)
  }

  /** The limbs that the active class offers to rd. */
  function LowLimb(row: array<Fp>, c: Class): Fp
    requires row.Length > 196
    reads row
  {
    match c
    case Add => row[23] case Auipc => row[23] case Sub => row[23]
    case Binary => Mersenne31.Add(row[118], Mersenne31.Mul(256, row[119]))
    case Conditional => row[121]
    case Csr => row[29]
    case DivRem => row[143]
    case Jump => row[22]
    case Lui => row[112]
    case Mul => row[125]
    case Shift => Mersenne31.Add(row[150], row[152])
    case RomLoad => row[161]
    case RamLoad => row[164]
    case Store => 0
  }

  function HighLimb(row: array<Fp>, scratch: array<Fp>, c: Class): Fp
    requires row.Length > 196 && scratch.Length > 6
    reads row, scratch
  {
    match c
    case Add => row[24] case Auipc => row[24] case Sub => row[24]
    case Binary => Mersenne31.Add(row[120], Mersenne31.Mul(256, row[121]))
    case Conditional => 0
    case Csr => row[30]
    case DivRem => row[144]
    case Jump => scratch[0]
    case Lui => row[113]
    case Mul => row[126]
    case Shift => Mersenne31.Add(row[151], row[153])
    case RomLoad => row[162]
    case RamLoad => row[165]
    case Store => 0
  }

  lemma SumOfPlaces(a: Fp, b: Fp)
    ensures Mersenne31.Add(a, Mersenne31.Mul(256, b)) == (a + 256 * b) % P
  {
    SmallMod(a);
    Accumulate(a, a, 256 * b);
  }

  /** The low limb by class flag and place. */
  lemma LowByPlace(p: Proxy, c: Class)
    requires p.Valid(15, 197, 7) && Active(p, c) && p.witnessRow[190] == LowLimb(p.witnessRow, c)
    ensures
      var w := p.witnessRow;
      && (w[42] == 1 || w[43] == 1 || w[53] == 1 ==> w[190] == w[23])
      && (w[44] == 1 ==> w[190] == (w[118] + 256 * w[119]) % P)
      && (w[45] == 1 ==> w[190] == w[121]) && (w[46] == 1 ==> w[190] == w[29])
      && (w[47] == 1 ==> w[190] == w[143]) && (w[48] == 1 ==> w[190] == w[22])
      && (w[49] == 1 ==> w[190] == w[112]) && (w[51] == 1 ==> w[190] == w[125])
      && (w[52] == 1 ==> w[190] == (w[150] + w[152]) % P) && (w[54] == 1 ==> w[190] == 0)
      && (w[158] == 1 ==> w[190] == w[161]) && (w[159] == 1 ==> w[190] == w[164])
  {
    SumOfPlaces(p.witnessRow[118], p.witnessRow[119]);
    hide Mersenne31.Mul;
  }

  /** The high limb by class flag and place. */
  lemma HighByPlace(p: Proxy, c: Class)
    requires p.Valid(15, 197, 7) && Active(p, c) && p.witnessRow[191] == HighLimb(p.witnessRow, p.scratchSpace, c)
    ensures
      var w := p.witnessRow;
      && (w[42] == 1 || w[43] == 1 || w[53] == 1 ==> w[191] == w[24])
      && (w[44] == 1 ==> w[191] == (w[120] + 256 * w[121]) % P)
      && (w[45] == 1 ==> w[191] == 0) && (w[46] == 1 ==> w[191] == w[30])
      && (w[47] == 1 ==> w[191] == w[144]) && (w[48] == 1 ==> w[191] == p.scratchSpace[0])
      && (w[49] == 1 ==> w[191] == w[113]) && (w[51] == 1 ==> w[191] == w[126])
      && (w[52] == 1 ==> w[191] == (w[151] + w[153]) % P) && (w[54] == 1 ==> w[191] == 0)
      && (w[158] == 1 ==> w[191] == w[162]) && (w[159] == 1 ==> w[191] == w[165])
  {
    SumOfPlaces(p.witnessRow[120], p.witnessRow[121]);
    hide Mersenne31.Mul;
  }

  method AddWhen(v: Fp, flag: Fp, x: Fp, ghost on: bool) returns (v': Fp)
    requires flag == FromBool(on)
    ensures v' == if on then if v == 0 then x else Mersenne31.Add(v, x) else v
  {
    v' := if Mask(flag) then Mersenne31.Add(v, x) else v;
  }

  method SumLow(p: Proxy, ghost c: Class) returns (v: Fp)
    requires p.Valid(15, 197, 7) && Active(p, c)
    ensures v == LowLimb(p.witnessRow, c)
  {
    hide Mersenne31.Add, Mersenne31.Mul;
    var w := p.witnessRow;
    v := AddWhen(0, w[42], w[23], c.Add?);
    v := AddWhen(v, w[43], w[23], c.Auipc?);
    v := AddWhen(v, w[44], w[118], c.Binary?);
    v := AddWhen(v, w[45], w[121], c.Conditional?);
    v := AddWhen(v, w[46], w[29], c.Csr?);
    v := AddWhen(v, w[47], w[143], c.DivRem?);
    v := AddWhen(v, w[48], w[22], c.Jump?);
    v := AddWhen(v, w[49], w[112], c.Lui?);
    v := AddWhen(v, w[51], w[125], c.Mul?);
    v := AddWhen(v, w[52], w[150], c.Shift?);
    v := AddWhen(v, w[52], w[152], c.Shift?);
    v := AddWhen(v, w[53], w[23], c.Sub?);
    v := AddWhen(v, w[158], w[161], c.RomLoad?);
    v := AddWhen(v, w[159], w[164], c.RamLoad?);
    AddZero(w[152]);
    AddZero(Mersenne31.Mul(256, w[119]));
    v := AddWhen(v, w[44], Mersenne31.Mul(256, w[119]), c.Binary?);
  }

  /** The summed result: whatever the places of the other classes hold, only the active one counts. */
  method EvalFn167(p: Proxy, ghost c: Class)
    requires p.Valid(15, 197, 7) && Active(p, c)
    modifies p.witnessRow
    ensures p.witnessRow[190] == old(LowLimb(p.witnessRow, c))
    ensures
      var w := p.witnessRow;
      && (w[42] == 1 || w[43] == 1 || w[53] == 1 ==> w[190] == w[23])
      && (w[44] == 1 ==> w[190] == (w[118] + 256 * w[119]) % P)
      && (w[45] == 1 ==> w[190] == w[121]) && (w[46] == 1 ==> w[190] == w[29])
      && (w[47] == 1 ==> w[190] == w[143]) && (w[48] == 1 ==> w[190] == w[22])
      && (w[49] == 1 ==> w[190] == w[112]) && (w[51] == 1 ==> w[190] == w[125])
      && (w[52] == 1 ==> w[190] == (w[150] + w[152]) % P) && (w[54] == 1 ==> w[190] == 0)
      && (w[158] == 1 ==> w[190] == w[161]) && (w[159] == 1 ==> w[190] == w[164])
    ensures OnlyChanged(p.witnessRow, 190, 190, 190, 190)
  {
    hide Mersenne31.Add, Mersenne31.Mul;
    p.witnessRow[190] := SumLow(p, c);
    LowByPlace(p, c);
  }

  method SumHigh(p: Proxy, ghost c: Class) returns (v: Fp)
    requires p.Valid(15, 197, 7) && Active(p, c)
    ensures v == HighLimb(p.witnessRow, p.scratchSpace, c)
  {
    hide Mersenne31.Add, Mersenne31.Mul;
    var w, s := p.witnessRow, p.scratchSpace;
    v := AddWhen(0, w[42], w[24], c.Add?);
    v := AddWhen(v, w[43], w[24], c.Auipc?);
    v := AddWhen(v, w[44], w[120], c.Binary?);
    v := AddWhen(v, w[46], w[30], c.Csr?);
    v := AddWhen(v, w[47], w[144], c.DivRem?);
    v := AddWhen(v, w[48], s[0], c.Jump?);
    v := AddWhen(v, w[49], w[113], c.Lui?);
    v := AddWhen(v, w[51], w[126], c.Mul?);
    v := AddWhen(v, w[52], w[151], c.Shift?);
    v := AddWhen(v, w[52], w[153], c.Shift?);
    v := AddWhen(v, w[53], w[24], c.Sub?);
    v := AddWhen(v, w[158], w[162], c.RomLoad?);
    v := AddWhen(v, w[159], w[165], c.RamLoad?);
    AddZero(w[153]);
    AddZero(Mersenne31.Mul(256, w[121]));
    v := AddWhen(v, w[44], Mersenne31.Mul(256, w[121]), c.Binary?);
  }

  method EvalFn168(p: Proxy, ghost c: Class)
    requires p.Valid(15, 197, 7) && Active(p, c)
    modifies p.witnessRow
    ensures p.witnessRow[191] == old(HighLimb(p.witnessRow, p.scratchSpace, c))
    ensures
      var w := p.witnessRow;
      && (w[42] == 1 || w[43] == 1 || w[53] == 1 ==> w[191] == w[24])
      && (w[44] == 1 ==> w[191] == (w[120] + 256 * w[121]) % P)
      && (w[45] == 1 ==> w[191] == 0) && (w[46] == 1 ==> w[191] == w[30])
      && (w[47] == 1 ==> w[191] == w[144]) && (w[48] == 1 ==> w[191] == p.scratchSpace[0])
      && (w[49] == 1 ==> w[191] == w[113]) && (w[51] == 1 ==> w[191] == w[126])
      && (w[52] == 1 ==> w[191] == (w[151] + w[153]) % P) && (w[54] == 1 ==> w[191] == 0)
      && (w[158] == 1 ==> w[191] == w[162]) && (w[159] == 1 ==> w[191] == w[165])
    ensures OnlyChanged(p.witnessRow, 191, 191, 191, 191)
  {
    hide Mersenne31.Add, Mersenne31.Mul;
    p.witnessRow[191] := SumHigh(p, c);
    HighByPlace(p, c);
  }

  /** Whether rd is x0, from its register number in scratch space. */
  method EvalFn90(p: Proxy, ghost rd: nat)
    requires p.Valid(15, 197, 7) && p.scratchSpace[6] == rd
    modifies p.witnessRow
    ensures p.witnessRow[74] == FromBool(rd == 0)
    ensures OnlyChanged(p.witnessRow, 74, 74, 192, 192)
  {
    p.witnessRow[74] := FromBool(Mersenne31.Sub(p.scratchSpace[6], 0) == 0);
  }

  method EvalFn169To170(p: Proxy, ghost x0: bool)
    requires p.Valid(15, 197, 7) && p.witnessRow[74] == FromBool(x0)
    modifies p.witnessRow
    ensures p.witnessRow[193] == if x0 then 0 else old(p.witnessRow[190])
    ensures p.witnessRow[194] == if x0 then 0 else old(p.witnessRow[191])
    ensures OnlyChanged(p.witnessRow, 193, 194, 193, 194)
  {
    hide AndNotField;
    var w := p.witnessRow;
    ClearIs(w[190], x0);
    ClearIs(w[191], x0);
    w[193] := AndNotField(w[190], w[74]);
    w[194] := AndNotField(w[191], w[74]);
  }

  /** What rd receives in a row of any class: the limbs of the active class, or zero for x0. */
  method EvaluateRd(p: Proxy, ghost c: Class, ghost x0: bool)
    requires p.Valid(15, 197, 7) && Active(p, c) && p.witnessRow[74] == FromBool(x0)
    modifies p.witnessRow
    ensures p.witnessRow[193] == if x0 then 0 else old(LowLimb(p.witnessRow, c))
    ensures p.witnessRow[194] == if x0 then 0 else old(HighLimb(p.witnessRow, p.scratchSpace, c))
    ensures p.witnessRow[74] == 1 ==> p.witnessRow[193] == 0 && p.witnessRow[194] == 0
    ensures p.witnessRow[74] == 0 ==> p.witnessRow[193] == p.witnessRow[190] && p.witnessRow[194] == p.witnessRow[191]
    ensures
      var w := p.witnessRow;
      && (w[42] == 1 || w[43] == 1 || w[53] == 1 ==> w[190] == w[23])
      && (w[44] == 1 ==> w[190] == (w[118] + 256 * w[119]) % P)
      && (w[45] == 1 ==> w[190] == w[121]) && (w[46] == 1 ==> w[190] == w[29])
      && (w[47] == 1 ==> w[190] == w[143]) && (w[48] == 1 ==> w[190] == w[22])
      && (w[49] == 1 ==> w[190] == w[112]) && (w[51] == 1 ==> w[190] == w[125])
      && (w[52] == 1 ==> w[190] == (w[150] + w[152]) % P) && (w[54] == 1 ==> w[190] == 0)
      && (w[158] == 1 ==> w[190] == w[161]) && (w[159] == 1 ==> w[190] == w[164])
    ensures
      var w := p.witnessRow;
      && (w[42] == 1 || w[43] == 1 || w[53] == 1 ==> w[191] == w[24])
      && (w[44] == 1 ==> w[191] == (w[120] + 256 * w[121]) % P)
      && (w[45] == 1 ==> w[191] == 0) && (w[46] == 1 ==> w[191] == w[30])
      && (w[47] == 1 ==> w[191] == w[144]) && (w[48] == 1 ==> w[191] == p.scratchSpace[0])
      && (w[49] == 1 ==> w[191] == w[113]) && (w[51] == 1 ==> w[191] == w[126])
      && (w[52] == 1 ==> w[191] == (w[151] + w[153]) % P) && (w[54] == 1 ==> w[191] == 0)
      && (w[158] == 1 ==> w[191] == w[162]) && (w[159] == 1 ==> w[191] == w[165])
    ensures OnlyChanged(p.witnessRow, 190, 191, 193, 194)
  {
    EvalFn167(p, c);
    EvalFn168(p, c);
    EvalFn169To170(p, x0);
  }

  /** A word from two places that hold it, and some word otherwise. */
  method WordAt(low: Fp, high: Fp, ghost holds: bool, ghost v: Word) returns (w: Word)
    requires holds ==> low == v % TWO16 && high == v / TWO16
    ensures holds ==> w == v
  {
    w := Add32(TWO16 * U16(high), U16(low));
  }

  /** The next program counter: the branch decision's, the cleaned jump target, or the following word. */
  method EvalFn171(p: Proxy, ghost c: Class, ghost step: Word, ghost branch: Word, ghost target: Word)
    requires p.Valid(15, 197, 7) && Active(p, c)
    requires p.witnessRow[22] == step % TWO16 && p.scratchSpace[0] == step / TWO16
    requires c.Conditional? ==> Holds32(p.witnessRow, 146, 147, branch)
    requires c.Jump? ==> Holds32(p.witnessRow, 119, 24, target)
    modifies p.witnessRow
    ensures Holds32(p.witnessRow, 195, 196, if c.Conditional? then branch else if c.Jump? then target else step)
    ensures
      var w := p.witnessRow;
      && (w[45] == 1 ==> w[195] == w[146] && w[196] == w[147])
      && (w[48] == 1 ==> w[195] == w[119] && w[196] == w[24])
      && (w[45] == 0 && w[48] == 0 ==> w[195] == w[22] && w[196] == p.scratchSpace[0])
    ensures OnlyChanged(p.witnessRow, 195, 196, 195, 196)
  {
    var w := p.witnessRow;
    var jump := WordAt(w[119], w[24], c.Jump?, target);
    var taken := WordAt(w[146], w[147], c.Conditional?, branch);
    var following := WordAt(w[22], p.scratchSpace[0], true, step);
    var other := Mask(w[42]) || Mask(w[53]) || Mask(w[49]) || Mask(w[43]) || Mask(w[44]) || Mask(w[51]) || Mask(w[47])
              || Mask(w[52]) || Mask(w[50]) || Mask(w[54]) || Mask(w[46]);
    var v: Word := if other then following else 0;
    v := if Mask(w[45]) then taken else v;
    v := if Mask(w[48]) then jump else v;
    w[195] := v % TWO16;
    w[196] := v / TWO16;
  }
}
