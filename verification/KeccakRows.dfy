/** The lookup rows by which the keccak_special5 circuit performs one operation on 64-bit words:
    eight rows of bytes for a bitwise operation, four rows of 16-bit limbs for a rotation. */
module KeccakRows {
  import opened KeccakSpec
  import opened KeccakMachine
  import opened WordShifts
  import opened WordPieces
  import opened KeccakHalves

  datatype Row = Row(a: nat, b: nat, c: nat)

  type Rows = s: seq<Row> | |s| == 8 witness seq(8, _ => Row(0, 0, 0))

  function Limb(u: Halves, i: nat): bv16
    requires i < 4
  {
    match i
    case 0 => LowLimb(u.low) case 1 => HighLimb(u.low) case 2 => LowLimb(u.high) case _ => HighLimb(u.high)
  }

  /** The four places that hold a 64-bit word. */
  function Limbs(u: Halves): (s: seq<nat>)
    ensures |s| == 4 && forall i :: 0 <= i < 4 ==> s[i] < 0x1_0000
  {
    [Value16(Limb(u, 0)), Value16(Limb(u, 1)), Value16(Limb(u, 2)), Value16(Limb(u, 3))]
  }

  /** The halves of a lane. */
  function Parts(a: Lane): Halves {
    Halves(LowHalf(a.bits), HighHalf(a.bits))
  }

  lemma JoinParts(a: Lane)
    ensures Join(Parts(a)) == a
  {
    hide Glue, LowHalf, HighHalf;
    HalvesGlue(a.bits);
  }

  datatype Table = ZeroEntry | XorTable | AndNTable | RotLTable | XorSpecialIota

  /** The number by which a row group names its table. */
  function TableId(t: Table): nat {
    match t
    case ZeroEntry => 0 case XorTable => 4 case AndNTable => 60 case RotLTable => 61 case XorSpecialIota => 59
  }

  /** The byte of a round constant that a control byte asks for: round in five bits, position in three. */
  function ConstantByte(control: nat): bv8
    requires control < 256
  {
    if control % 32 <= 24 then ByteOf(Parts(AdjustedConstant(control % 32)), control / 32) else 0
  }

  function ByteOf(u: Halves, j: nat): bv8
    requires j < 8
  {
    if j % 2 == 0 then LowByte(Limb(u, j / 2)) else HighByte(Limb(u, j / 2))
  }

  /** Membership of a row in the tables, by their own definitions. */
  predicate InTable(t: Table, row: Row) {
    match t
    case ZeroEntry => row == Row(0, 0, 0)
    case XorTable => row.a < 256 && row.b < 256 && row.c == Value8(Xor8(Byte8(row.a), Byte8(row.b)))
    case AndNTable => row.a < 256 && row.b < 256 && row.c == Value8(AndNot8(Byte8(row.a), Byte8(row.b)))
    case XorSpecialIota => row.a < 256 && row.b < 256 && row.c == Value8(Xor8(Byte8(row.a), ConstantByte(row.b)))
    case RotLTable =>
      && row.a < 0x10_0000
      && row.b == Value16(Right16(Word16(row.a % 0x1_0000), 16 - RotationCount(row.a / 0x1_0000)))
      && row.c == Value16(Left16(Word16(row.a % 0x1_0000), RotationCount(row.a / 0x1_0000)))
  }

  function RotationCount(r: nat): (n: bv8)
    requires r < 16
    ensures n < 16
  {
    r as bv8
  }

  predicate AllInTable(t: Table, rows: Rows) {
    && InTable(t, rows[0]) && InTable(t, rows[1]) && InTable(t, rows[2]) && InTable(t, rows[3])
    && InTable(t, rows[4]) && InTable(t, rows[5]) && InTable(t, rows[6]) && InTable(t, rows[7])
  }

  /** Two rows whose columns are the bytes of three limbs. */
  predicate PairOf(low: Row, high: Row, in1: nat, in2: nat, out: nat) {
    low.a + 256 * high.a == in1 && low.b + 256 * high.b == in2 && low.c + 256 * high.c == out
  }

  /** What the circuit requires of the rows of a bitwise operation: each column is made up of the
      bytes of one operand. */
  predicate BytesFit(rows: Rows, in1: seq<nat>, in2: seq<nat>, out: seq<nat>)
    requires |in1| == |in2| == |out| == 4
  {
    && PairOf(rows[0], rows[1], in1[0], in2[0], out[0]) && PairOf(rows[2], rows[3], in1[1], in2[1], out[1])
    && PairOf(rows[4], rows[5], in1[2], in2[2], out[2]) && PairOf(rows[6], rows[7], in1[3], in2[3], out[3])
  }

  /** The limbs of a word, starting n places further up. */
  function Turned(s: seq<nat>, n: nat): (t: seq<nat>)
    requires |s| == 4 && n < 4
    ensures |t| == 4
  {
    match n
    case 0 => s
    case 1 => [s[1], s[2], s[3], s[0]]
    case 2 => [s[2], s[3], s[0], s[1]]
    case _ => [s[3], s[0], s[1], s[2]]
  }

  /** What it requires of the rows of a rotation by k: limbs joined to the rotation count modulo 16 go
      in, and the shifted limbs come out k / 16 places further up. */
  predicate RotationFits(rows: Rows, k: nat, in1: seq<nat>, out: seq<nat>)
    requires k < 64 && |in1| == |out| == 4
  {
    var r, t := 0x1_0000 * (k % 16), Turned(out, k / 16);
    && rows[0].a == in1[0] + r && rows[1].a == in1[1] + r && rows[2].a == in1[2] + r && rows[3].a == in1[3] + r
    && t[0] == rows[0].c + rows[3].b && t[1] == rows[1].c + rows[0].b
    && t[2] == rows[2].c + rows[1].b && t[3] == rows[3].c + rows[2].b
  }

  function LowRow(x: bv16, y: bv16, z: bv16): Row {
    Row(Value8(LowByte(x)), Value8(LowByte(y)), Value8(LowByte(z)))
  }

  function HighRow(x: bv16, y: bv16, z: bv16): Row {
    Row(Value8(HighByte(x)), Value8(HighByte(y)), Value8(HighByte(z)))
  }

  function ByteRows(u: Halves, v: Halves, out: Halves): Rows {
    [LowRow(Limb(u, 0), Limb(v, 0), Limb(out, 0)), HighRow(Limb(u, 0), Limb(v, 0), Limb(out, 0)),
     LowRow(Limb(u, 1), Limb(v, 1), Limb(out, 1)), HighRow(Limb(u, 1), Limb(v, 1), Limb(out, 1)),
     LowRow(Limb(u, 2), Limb(v, 2), Limb(out, 2)), HighRow(Limb(u, 2), Limb(v, 2), Limb(out, 2)),
     LowRow(Limb(u, 3), Limb(v, 3), Limb(out, 3)), HighRow(Limb(u, 3), Limb(v, 3), Limb(out, 3))]
  }

  function XorRows(u: Halves, v: Halves): Rows {
    ByteRows(u, v, XorHalves(u, v))
  }

  function AndNotRows(u: Halves, v: Halves): Rows {
    ByteRows(u, v, AndNotHalves(u, v))
  }

  /** The control bytes of the iota rows, packed two to a place. */
  function ControlLimbs(round: nat): (s: seq<nat>)
    ensures |s| == 4
  {
    [8192 + 257 * round, 24640 + 257 * round, 41088 + 257 * round, 57536 + 257 * round]
  }

  function IotaLow(x: bv16, control: nat, z: bv16): Row {
    Row(Value8(LowByte(x)), control % 256, Value8(LowByte(z)))
  }

  function IotaHigh(x: bv16, control: nat, z: bv16): Row {
    Row(Value8(HighByte(x)), control / 256 % 256, Value8(HighByte(z)))
  }

  function IotaRows(u: Halves, round: nat): Rows
    requires round <= 24
  {
    IotaRowsFor(u, round, ControlLimbs(round))
  }

  /** The iota rows with control bytes as they are found. */
  function IotaRowsFor(u: Halves, round: nat, control: seq<nat>): Rows
    requires round <= 24 && |control| == 4
  {
    var out := XorHalves(u, Parts(AdjustedConstant(round)));
    [IotaLow(Limb(u, 0), control[0], Limb(out, 0)), IotaHigh(Limb(u, 0), control[0], Limb(out, 0)),
     IotaLow(Limb(u, 1), control[1], Limb(out, 1)), IotaHigh(Limb(u, 1), control[1], Limb(out, 1)),
     IotaLow(Limb(u, 2), control[2], Limb(out, 2)), IotaHigh(Limb(u, 2), control[2], Limb(out, 2)),
     IotaLow(Limb(u, 3), control[3], Limb(out, 3)), IotaHigh(Limb(u, 3), control[3], Limb(out, 3))]
  }

  function RotationRow(w: bv16, r: nat): Row
    requires r < 16
  {
    Row(Value16(w) + 0x1_0000 * r, Value16(Right16(w, 16 - RotationCount(r))), Value16(Left16(w, RotationCount(r))))
  }

  function RotationRows(u: Halves, k: nat): Rows
    requires k < 64
  {
    var r, none := k % 16, Row(0, 0, 0);
    [RotationRow(Limb(u, 0), r), RotationRow(Limb(u, 1), r), RotationRow(Limb(u, 2), r), RotationRow(Limb(u, 3), r),
     none, none, none, none]
  }

  lemma LimbXor(u: Halves, v: Halves, i: nat)
    requires i < 4
    ensures Limb(XorHalves(u, v), i) == Xor16(Limb(u, i), Limb(v, i))
  {
    XorPieces(u.low, v.low);
    XorPieces(u.high, v.high);
    hide LowLimb, HighLimb, Xor32, Xor16;
  }

  lemma LimbAndNot(u: Halves, v: Halves, i: nat)
    requires i < 4
    ensures Limb(AndNotHalves(u, v), i) == AndNot16(Limb(u, i), Limb(v, i))
  {
    AndNotPieces(u.low, v.low);
    AndNotPieces(u.high, v.high);
    hide LowLimb, HighLimb, AndNot32, AndNot16;
  }

  /** One limb of a bitwise operation: its two rows are in the table, and only its result fits. */
  lemma XorPair(x: bv16, y: bv16)
    ensures
      var low, high := LowRow(x, y, Xor16(x, y)), HighRow(x, y, Xor16(x, y));
      InTable(XorTable, low) && InTable(XorTable, high)
        && PairOf(low, high, Value16(x), Value16(y), Value16(Xor16(x, y)))
  {
    XorBytes(x, y);
    ByteValue(LowByte(x)); ByteValue(LowByte(y)); ByteValue(HighByte(x)); ByteValue(HighByte(y));
    hide LowByte, HighByte, Xor8, Xor16, Byte8, Value8;
  }

  lemma AndNotPair(x: bv16, y: bv16)
    ensures
      var low, high := LowRow(x, y, AndNot16(x, y)), HighRow(x, y, AndNot16(x, y));
      InTable(AndNTable, low) && InTable(AndNTable, high)
        && PairOf(low, high, Value16(x), Value16(y), Value16(AndNot16(x, y)))
  {
    AndNotBytes(x, y);
    ByteValue(LowByte(x)); ByteValue(LowByte(y)); ByteValue(HighByte(x)); ByteValue(HighByte(y));
    hide LowByte, HighByte, AndNot8, AndNot16, Byte8, Value8;
  }

  /** The bytes of a limb are unique. */
  lemma BytesUnique(a: nat, b: nat, w: bv16)
    requires a < 256 && b < 256 && a + 256 * b == Value16(w)
    ensures Byte8(a) == LowByte(w) && Byte8(b) == HighByte(w)
  {
    ByteValue(LowByte(w));
    ByteValue(HighByte(w));
    hide Value8, LowByte, HighByte, Byte8;
  }

  lemma XorPairDetermines(low: Row, high: Row, x: bv16, y: bv16, out: nat)
    requires InTable(XorTable, low) && InTable(XorTable, high) && PairOf(low, high, Value16(x), Value16(y), out)
    ensures out == Value16(Xor16(x, y))
  {
    BytesUnique(low.a, high.a, x);
    BytesUnique(low.b, high.b, y);
    XorBytes(x, y);
    hide LowByte, HighByte, Xor8, Xor16, Byte8, Value8;
  }

  lemma AndNotPairDetermines(low: Row, high: Row, x: bv16, y: bv16, out: nat)
    requires InTable(AndNTable, low) && InTable(AndNTable, high) && PairOf(low, high, Value16(x), Value16(y), out)
    ensures out == Value16(AndNot16(x, y))
  {
    BytesUnique(low.a, high.a, x);
    BytesUnique(low.b, high.b, y);
    AndNotBytes(x, y);
    hide LowByte, HighByte, AndNot8, AndNot16, Byte8, Value8;
  }

  /** The packing of the control bytes never carries from one byte into the next. */
  lemma ControlBytes(round: nat, i: nat)
    requires round <= 24 && i < 4
    ensures
      var v, low := ControlLimbs(round)[i], round + 64 * i;
      && v % 256 == low && v / 256 % 256 == low + 32 && v == low + 256 * (low + 32)
      && ConstantByte(low) == LowByte(Limb(Parts(AdjustedConstant(round)), i))
      && ConstantByte(low + 32) == HighByte(Limb(Parts(AdjustedConstant(round)), i))
  {
    hide AdjustedConstant, Parts, Limb, LowByte, HighByte, ControlLimbs;
    ControlParts(round, 2 * i);
    ControlParts(round, 2 * i + 1);
    ControlLimbIs(round, i);
  }

  lemma ControlLimbIs(round: nat, i: nat)
    requires round <= 24 && i < 4
    ensures ControlLimbs(round)[i] == round + 64 * i + 256 * (round + 64 * i + 32)
  {
  }

  lemma ControlParts(round: nat, j: nat)
    requires round <= 24 && j < 8
    ensures (round + 32 * j) % 32 == round && (round + 32 * j) / 32 == j && round + 32 * j < 256
  {
  }

  lemma IotaPair(x: bv16, round: nat, i: nat)
    requires round <= 24 && i < 4
    ensures
      var control, z := ControlLimbs(round)[i], Xor16(x, Limb(Parts(AdjustedConstant(round)), i));
      && InTable(XorSpecialIota, IotaLow(x, control, z)) && InTable(XorSpecialIota, IotaHigh(x, control, z))
      && PairOf(IotaLow(x, control, z), IotaHigh(x, control, z), Value16(x), control, Value16(z))
  {
    hide LowByte, HighByte, Xor8, Xor16, Byte8, Value8, ConstantByte, Parts, AdjustedConstant, Limb, ControlLimbs;
    ControlBytes(round, i);
    XorBytes(x, Limb(Parts(AdjustedConstant(round)), i));
    ByteValue(LowByte(x)); ByteValue(HighByte(x));
  }

  lemma IotaPairDetermines(low: Row, high: Row, x: bv16, round: nat, i: nat, out: nat)
    requires round <= 24 && i < 4
    requires InTable(XorSpecialIota, low) && InTable(XorSpecialIota, high)
    requires PairOf(low, high, Value16(x), ControlLimbs(round)[i], out)
    ensures out == Value16(Xor16(x, Limb(Parts(AdjustedConstant(round)), i)))
  {
    hide LowByte, HighByte, Xor8, Xor16, Byte8, Value8, ConstantByte, Parts, AdjustedConstant, Limb, ControlLimbs;
    ControlBytes(round, i);
    BytesUnique(low.a, high.a, x);
    assert low.b == round + 64 * i && high.b == round + 64 * i + 32;
    XorBytes(x, Limb(Parts(AdjustedConstant(round)), i));
  }

  /** The honest rows are in their table and recompose to operands and result, and they leave no
      choice: any rows of the table that recompose to the operands recompose to the result. */
  lemma XorRowsHold(u: Halves, v: Halves)
    ensures AllInTable(XorTable, XorRows(u, v)) && BytesFit(XorRows(u, v), Limbs(u), Limbs(v), Limbs(XorHalves(u, v)))
  {
    hide XorHalves, Limb, Value16, Xor16, InTable, PairOf, LowRow, HighRow;
    LimbXor(u, v, 0); LimbXor(u, v, 1); LimbXor(u, v, 2); LimbXor(u, v, 3);
    XorPair(Limb(u, 0), Limb(v, 0)); XorPair(Limb(u, 1), Limb(v, 1));
    XorPair(Limb(u, 2), Limb(v, 2)); XorPair(Limb(u, 3), Limb(v, 3));
  }

  lemma XorRowsDetermine(rows: Rows, u: Halves, v: Halves, out: seq<nat>)
    requires |out| == 4 && AllInTable(XorTable, rows) && BytesFit(rows, Limbs(u), Limbs(v), out)
    ensures out == Limbs(XorHalves(u, v))
  {
    hide XorHalves, Limb, Value16, Xor16, InTable, PairOf;
    LimbXor(u, v, 0); LimbXor(u, v, 1); LimbXor(u, v, 2); LimbXor(u, v, 3);
    XorPairDetermines(rows[0], rows[1], Limb(u, 0), Limb(v, 0), out[0]);
    XorPairDetermines(rows[2], rows[3], Limb(u, 1), Limb(v, 1), out[1]);
    XorPairDetermines(rows[4], rows[5], Limb(u, 2), Limb(v, 2), out[2]);
    XorPairDetermines(rows[6], rows[7], Limb(u, 3), Limb(v, 3), out[3]);
  }

  lemma AndNotRowsHold(u: Halves, v: Halves)
    ensures AllInTable(AndNTable, AndNotRows(u, v))
    ensures BytesFit(AndNotRows(u, v), Limbs(u), Limbs(v), Limbs(AndNotHalves(u, v)))
  {
    hide AndNotHalves, Limb, Value16, AndNot16, InTable, PairOf, LowRow, HighRow;
    LimbAndNot(u, v, 0); LimbAndNot(u, v, 1); LimbAndNot(u, v, 2); LimbAndNot(u, v, 3);
    AndNotPair(Limb(u, 0), Limb(v, 0)); AndNotPair(Limb(u, 1), Limb(v, 1));
    AndNotPair(Limb(u, 2), Limb(v, 2)); AndNotPair(Limb(u, 3), Limb(v, 3));
  }

  lemma AndNotRowsDetermine(rows: Rows, u: Halves, v: Halves, out: seq<nat>)
    requires |out| == 4 && AllInTable(AndNTable, rows) && BytesFit(rows, Limbs(u), Limbs(v), out)
    ensures out == Limbs(AndNotHalves(u, v))
  {
    hide AndNotHalves, Limb, Value16, AndNot16, InTable, PairOf;
    LimbAndNot(u, v, 0); LimbAndNot(u, v, 1); LimbAndNot(u, v, 2); LimbAndNot(u, v, 3);
    AndNotPairDetermines(rows[0], rows[1], Limb(u, 0), Limb(v, 0), out[0]);
    AndNotPairDetermines(rows[2], rows[3], Limb(u, 1), Limb(v, 1), out[1]);
    AndNotPairDetermines(rows[4], rows[5], Limb(u, 2), Limb(v, 2), out[2]);
    AndNotPairDetermines(rows[6], rows[7], Limb(u, 3), Limb(v, 3), out[3]);
  }

  lemma IotaRowsHold(u: Halves, round: nat)
    requires round <= 24
    ensures AllInTable(XorSpecialIota, IotaRows(u, round))
    ensures BytesFit(IotaRows(u, round), Limbs(u), ControlLimbs(round),
      Limbs(XorHalves(u, Parts(AdjustedConstant(round)))))
  {
    hide XorHalves, Limb, Value16, Xor16, InTable, PairOf, IotaLow, IotaHigh, ControlLimbs, Parts, AdjustedConstant;
    var rc := Parts(AdjustedConstant(round));
    LimbXor(u, rc, 0); LimbXor(u, rc, 1); LimbXor(u, rc, 2); LimbXor(u, rc, 3);
    IotaPair(Limb(u, 0), round, 0);
    IotaPair(Limb(u, 1), round, 1);
    IotaPair(Limb(u, 2), round, 2);
    IotaPair(Limb(u, 3), round, 3);
  }

  lemma IotaRowsDetermine(rows: Rows, u: Halves, round: nat, out: seq<nat>)
    requires round <= 24 && |out| == 4
    requires AllInTable(XorSpecialIota, rows) && BytesFit(rows, Limbs(u), ControlLimbs(round), out)
    ensures out == Limbs(XorHalves(u, Parts(AdjustedConstant(round))))
  {
    hide XorHalves, Limb, Value16, Xor16, InTable, PairOf, ControlLimbs, Parts, AdjustedConstant;
    var rc := Parts(AdjustedConstant(round));
    LimbXor(u, rc, 0); LimbXor(u, rc, 1); LimbXor(u, rc, 2); LimbXor(u, rc, 3);
    IotaPairDetermines(rows[0], rows[1], Limb(u, 0), round, 0, out[0]);
    IotaPairDetermines(rows[2], rows[3], Limb(u, 1), round, 1, out[1]);
    IotaPairDetermines(rows[4], rows[5], Limb(u, 2), round, 2, out[2]);
    IotaPairDetermines(rows[6], rows[7], Limb(u, 3), round, 3, out[3]);
  }

  lemma RotationLimbs0(u: Halves, k: nat)
    requires 0 <= k < 16
    ensures
      var v, r := RotlHalves(u, k), RotationCount(k % 16);
      && Limb(v, 0) == Carry(Limb(u, 0), Limb(u, 3), r) && Limb(v, 1) == Carry(Limb(u, 1), Limb(u, 0), r)
      && Limb(v, 2) == Carry(Limb(u, 2), Limb(u, 1), r) && Limb(v, 3) == Carry(Limb(u, 3), Limb(u, 2), r)
  {
    hide LowLimb, HighLimb, Carry, ShiftAdd, RotationCount;
    var r := RotationCount(k % 16);
    RotationParts(k);
    ShiftAddLimbs(u.low, u.high, r);
    ShiftAddLimbs(u.high, u.low, r);
  }

  lemma RotationLimbs1(u: Halves, k: nat)
    requires 16 <= k < 32
    ensures
      var v, r := RotlHalves(u, k), RotationCount(k % 16);
      && Limb(v, 0) == Carry(Limb(u, 3), Limb(u, 2), r) && Limb(v, 1) == Carry(Limb(u, 0), Limb(u, 3), r)
      && Limb(v, 2) == Carry(Limb(u, 1), Limb(u, 0), r) && Limb(v, 3) == Carry(Limb(u, 2), Limb(u, 1), r)
  {
    hide LowLimb, HighLimb, Carry, ShiftAdd, RotationCount;
    var r := RotationCount(k % 16);
    RotationParts(k);
    ShiftAddLimbsUp(u.low, u.high, r);
    ShiftAddLimbsUp(u.high, u.low, r);
  }

  lemma RotationLimbs2(u: Halves, k: nat)
    requires 32 <= k < 48
    ensures
      var v, r := RotlHalves(u, k), RotationCount(k % 16);
      && Limb(v, 0) == Carry(Limb(u, 2), Limb(u, 1), r) && Limb(v, 1) == Carry(Limb(u, 3), Limb(u, 2), r)
      && Limb(v, 2) == Carry(Limb(u, 0), Limb(u, 3), r) && Limb(v, 3) == Carry(Limb(u, 1), Limb(u, 0), r)
  {
    hide LowLimb, HighLimb, Carry, ShiftAdd, RotationCount;
    var r := RotationCount(k % 16);
    RotationParts(k);
    ShiftAddLimbs(u.low, u.high, r);
    ShiftAddLimbs(u.high, u.low, r);
  }

  lemma RotationLimbs3(u: Halves, k: nat)
    requires 48 <= k < 64
    ensures
      var v, r := RotlHalves(u, k), RotationCount(k % 16);
      && Limb(v, 0) == Carry(Limb(u, 1), Limb(u, 0), r) && Limb(v, 1) == Carry(Limb(u, 2), Limb(u, 1), r)
      && Limb(v, 2) == Carry(Limb(u, 3), Limb(u, 2), r) && Limb(v, 3) == Carry(Limb(u, 0), Limb(u, 3), r)
  {
    hide LowLimb, HighLimb, Carry, ShiftAdd, RotationCount;
    var r := RotationCount(k % 16);
    RotationParts(k);
    ShiftAddLimbsUp(u.low, u.high, r);
    ShiftAddLimbsUp(u.high, u.low, r);
  }

  /** Limb i of a word goes, shifted by k mod 16, to limb i + k / 16 of the rotation by k. */
  lemma RotationLimbs(u: Halves, k: nat)
    requires k < 64
    ensures
      var t, r := Turned(Limbs(RotlHalves(u, k)), k / 16), RotationCount(k % 16);
      && t[0] == Value16(Carry(Limb(u, 0), Limb(u, 3), r)) && t[1] == Value16(Carry(Limb(u, 1), Limb(u, 0), r))
      && t[2] == Value16(Carry(Limb(u, 2), Limb(u, 1), r)) && t[3] == Value16(Carry(Limb(u, 3), Limb(u, 2), r))
  {
    hide Limb, Carry, RotlHalves, RotationCount, Value16;
    if k < 16 {
      RotationLimbs0(u, k);
    } else if k < 32 {
      RotationLimbs1(u, k);
    } else if k < 48 {
      RotationLimbs2(u, k);
    } else {
      RotationLimbs3(u, k);
    }
  }

  lemma TurnedSame(s: seq<nat>, t: seq<nat>, n: nat)
    requires |s| == |t| == 4 && n < 4
    requires Turned(s, n)[0] == Turned(t, n)[0] && Turned(s, n)[1] == Turned(t, n)[1]
    requires Turned(s, n)[2] == Turned(t, n)[2] && Turned(s, n)[3] == Turned(t, n)[3]
    ensures s == t
  {
  }

  lemma RotationParts(k: nat)
    requires k < 64
    ensures (k % 32) as bv8 == if k % 32 < 16 then RotationCount(k % 16) else 16 + RotationCount(k % 16)
  {
    hide RotationCount;
    CountByHalf(k % 32);
    HalfOfCount(k);
  }

  lemma HalfOfCount(k: nat)
    ensures k % 16 == if k % 32 < 16 then k % 32 else k % 32 - 16
  {
    var q, r := k / 32, k % 32;
    assert k == 32 * q + r;
    assert k == 16 * (2 * q) + r;
  }

  lemma CountByHalf(t: nat)
    requires t < 32
    ensures t as bv8 == if t < 16 then RotationCount(t) else 16 + RotationCount(t - 16)
  {
    if t >= 16 {
      CountUp(t - 16);
    }
  }

  lemma CountUp(r: nat)
    requires r < 16
    ensures (r + 16) as bv8 == 16 + RotationCount(r)
  {
  }

  lemma RotationRowInTable(w: bv16, r: nat)
    requires r < 16
    ensures InTable(RotLTable, RotationRow(w, r))
  {
    WordValue(w);
    hide Right16, Left16, RotationCount, Word16, Value16;
    RowKey(Value16(w), r);
  }

  lemma RowKey(v: nat, r: nat)
    requires v < 0x1_0000
    ensures (v + 0x1_0000 * r) % 0x1_0000 == v && (v + 0x1_0000 * r) / 0x1_0000 == r
  {
  }

  lemma ZeroRowInTable(w: bv16)
    requires w == 0
    ensures InTable(RotLTable, Row(0, 0, 0))
  {
    hide Right16, Left16, RotationCount, Word16, Value16, InTable;
    RotationRowInTable(w, 0);
    ShiftsOfZero(w, RotationCount(0));
  }

  /** What the rows of a rotation hold, and what they sum to in pairs. */
  lemma RotationSums(u: Halves, k: nat, i: nat, j: nat)
    requires k < 64 && i < 4 && j < 4
    ensures
      var r := k % 16;
      && RotationRow(Limb(u, i), r).a == Value16(Limb(u, i)) + 0x1_0000 * r
      && RotationRow(Limb(u, i), r).c + RotationRow(Limb(u, j), r).b
        == Value16(Carry(Limb(u, i), Limb(u, j), RotationCount(r)))
  {
    hide Limb, Carry, Value16, RotationCount, Left16, Right16;
    CarrySum(Limb(u, i), Limb(u, j), RotationCount(k % 16));
  }

  lemma LimbsAre(u: Halves)
    ensures Limbs(u)[0] == Value16(Limb(u, 0)) && Limbs(u)[1] == Value16(Limb(u, 1))
    ensures Limbs(u)[2] == Value16(Limb(u, 2)) && Limbs(u)[3] == Value16(Limb(u, 3))
  {
    hide Limb, Value16;
  }

  lemma RotationRowsHold(u: Halves, k: nat)
    requires k < 64
    ensures AllInTable(RotLTable, RotationRows(u, k))
    ensures RotationFits(RotationRows(u, k), k, Limbs(u), Limbs(RotlHalves(u, k)))
  {
    hide Limb, RotlHalves, Carry, Value16, RotationCount, InTable, RotationRow, Turned, Limbs;
    var r := k % 16;
    LimbsAre(u);
    RotationRowInTable(Limb(u, 0), r); RotationRowInTable(Limb(u, 1), r);
    RotationRowInTable(Limb(u, 2), r); RotationRowInTable(Limb(u, 3), r);
    ZeroRowInTable(0);
    RotationLimbs(u, k);
    RotationSums(u, k, 0, 3); RotationSums(u, k, 1, 0); RotationSums(u, k, 2, 1); RotationSums(u, k, 3, 2);
  }

  lemma RotationRowDetermines(row: Row, w: bv16, r: nat)
    requires r < 16 && InTable(RotLTable, row) && row.a == Value16(w) + 0x1_0000 * r
    ensures row == RotationRow(w, r)
  {
    hide Right16, Left16, RotationCount, Word16, Value16;
    WordValue(w);
    RowKey(Value16(w), r);
  }

  lemma RotationRowsDetermine(rows: Rows, u: Halves, k: nat, out: seq<nat>)
    requires k < 64 && |out| == 4
    requires AllInTable(RotLTable, rows) && RotationFits(rows, k, Limbs(u), out)
    ensures out == Limbs(RotlHalves(u, k))
  {
    hide Limb, RotlHalves, Carry, Value16, RotationCount, InTable, RotationRow, Turned, Limbs;
    var r := k % 16;
    LimbsAre(u);
    RotationSums(u, k, 0, 3); RotationSums(u, k, 1, 0); RotationSums(u, k, 2, 1); RotationSums(u, k, 3, 2);
    RotationRowDetermines(rows[0], Limb(u, 0), r);
    RotationRowDetermines(rows[1], Limb(u, 1), r);
    RotationRowDetermines(rows[2], Limb(u, 2), r);
    RotationRowDetermines(rows[3], Limb(u, 3), r);
    RotationLimbs(u, k);
    TurnedSame(out, Limbs(RotlHalves(u, k)), k / 16);
  }

  /** The rows of a table, by its number: 4 for exclusive or and 60 for and-not on bytes, 59 for a byte
      with a byte of a round constant, and 61 for a limb times a power of two in two limbs. */
  predicate InNumbered(number: nat, row: Row) {
    match number
    case 0 => row == Row(0, 0, 0)
    case 4 => row.a < 256 && row.b < 256 && row.c < 256 && Byte8(row.c) == Byte8(row.a) ^ Byte8(row.b)
    case 60 => row.a < 256 && row.b < 256 && row.c < 256 && Byte8(row.c) == !Byte8(row.a) & Byte8(row.b)
    case 59 => row.a < 256 && row.b < 256 && row.c < 256 && Byte8(row.c) == Byte8(row.a) ^ ConstantByte(row.b)
    case 61 =>
      && row.a < 0x10_0000 && row.b < 0x1_0000 && row.c < 0x1_0000
      && row.c + 0x1_0000 * row.b == row.a % 0x1_0000 * PowerOfTwo(row.a / 0x1_0000)
    case _ => false
  }

  /** The tables of the gates are those numbered tables. */
  lemma TablesByNumber(t: Table, row: Row)
    requires InTable(t, row)
    ensures InNumbered(TableId(t), row)
  {
    hide InTable, InNumbered;
    match t
    case ZeroEntry => ZeroByNumber(row);
    case XorTable => XorByNumber(row);
    case AndNTable => AndNotByNumber(row);
    case XorSpecialIota => IotaByNumber(row);
    case RotLTable => RotationByNumber(row);
  }

  lemma ZeroByNumber(row: Row)
    requires InTable(ZeroEntry, row)
    ensures InNumbered(0, row)
  {
  }

  lemma XorByNumber(row: Row)
    requires InTable(XorTable, row)
    ensures InNumbered(4, row)
  {
    hide Byte8, Value8;
    ByteValue(Xor8(Byte8(row.a), Byte8(row.b)));
  }

  lemma AndNotByNumber(row: Row)
    requires InTable(AndNTable, row)
    ensures InNumbered(60, row)
  {
    hide Byte8, Value8;
    ByteValue(AndNot8(Byte8(row.a), Byte8(row.b)));
  }

  lemma IotaByNumber(row: Row)
    requires InTable(XorSpecialIota, row)
    ensures InNumbered(59, row)
  {
    hide Byte8, Value8, ConstantByte;
    ByteValue(Xor8(Byte8(row.a), ConstantByte(row.b)));
  }

  lemma RotationByNumber(row: Row)
    requires InTable(RotLTable, row)
    ensures InNumbered(61, row)
  {
    hide Left16, Right16, Word16, Value16, PowerOfTwo;
    var limb, r := row.a % 0x1_0000, row.a / 0x1_0000;
    ShiftIsProduct(Word16(limb), r);
    LimbBack(limb);
  }

  lemma LimbBack(n: nat)
    requires n < 0x1_0000
    ensures Value16(Word16(n)) == n
  {
    hide Pack, LowByte, HighByte;
    PackedBytes(Byte8(n / 256), Byte8(n % 256));
    ByteBack(n / 256);
    ByteBack(n % 256);
  }

  lemma ByteBack(n: nat)
    requires n < 256
    ensures Value8(Byte8(n)) == n
  {
    hide Byte8, Value8;
    var b := ByteFor(n);
    ByteValue(b);
  }

  /** The byte with a given value, by counting up to it. */
  lemma {:induction false} ByteFor(n: nat) returns (b: bv8)
    requires n < 256
    ensures Value8(b) == n
  {
    if n == 0 {
      b := 0;
    } else {
      b := ByteFor(n - 1);
      NextByte(b);
      b := b + 1;
    }
  }

  lemma NextByte(b: bv8)
    requires Value8(b) < 255
    ensures Value8(b + 1) == Value8(b) + 1
  {
  }

  lemma PackedBytes(high: bv8, low: bv8)
    ensures LowByte(Pack(high, low)) == low && HighByte(Pack(high, low)) == high
  {
  }

  /** The byte that a control byte asks for, cut out of its round constant; there is none beyond 24. */
  lemma ConstantByteIs(control: nat)
    requires control < 256
    ensures control % 32 > 24 ==> ConstantByte(control) == 0
    ensures control % 32 <= 24 ==>
      ConstantByte(control) as bv64 == ByteCut(AdjustedConstant(control % 32).bits, control / 32)
  {
    hide AdjustedConstant, Parts, ByteOf, ByteCut;
    if control % 32 <= 24 {
      ByteOfLane(AdjustedConstant(control % 32), control / 32);
    }
  }

  function ByteCut(x: bv64, j: nat): bv64
    requires j < 8
  {
    (match j
     case 0 => x case 1 => x >> 8 case 2 => x >> 16 case 3 => x >> 24
     case 4 => x >> 32 case 5 => x >> 40 case 6 => x >> 48 case _ => x >> 56) & 0xFF
  }

  lemma ByteOfLane(a: Lane, j: nat)
    requires j < 8
    ensures ByteOf(Parts(a), j) as bv64 == ByteCut(a.bits, j)
  {
    hide ByteOf, ByteCut, Parts;
    if j < 4 {
      ByteOfLowHalf(a, j);
    } else {
      ByteOfHighHalf(a, j);
    }
  }

  lemma ByteOfLowHalf(a: Lane, j: nat)
    requires j < 4
    ensures ByteOf(Parts(a), j) as bv64 == ByteCut(a.bits, j)
  {
  }

  lemma ByteOfHighHalf(a: Lane, j: nat)
    requires 4 <= j < 8
    ensures ByteOf(Parts(a), j) as bv64 == ByteCut(a.bits, j)
  {
  }
}
