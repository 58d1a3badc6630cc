/** What a row of the keccak_special5 circuit holds, place by place: the layout of flags, words, lookup
    rows and temporaries, and the tables that the lookup rows are in, by their numbers. */
module KeccakPlaces {
  import opened Mersenne31
  import opened Witness
  import opened KeccakSpec
  import opened KeccakMachine
  import opened WordPieces
  import opened KeccakHalves
  import opened KeccakRows
  import opened KeccakCircuit
  import opened KeccakWitness

  /** A flag place. */
  predicate Marks(v: nat, b: bool) {
    v == if b then 1 else 0
  }

  /** The flags and the packed control bytes in terms of the control word x: step in its lowest three
      bits, iteration in the next three, round above. */
  lemma FlagsByWord(row: array<Fp>, c: Control, x: nat)
    requires row.Length > 181 && c.Valid() && x == c.Encode()
    requires FlagsFor(row, true, c) && RhoFlags(row, c) && ControlPlaces(row, c)
    ensures
      var step, iteration, round := x % 8, x / 8 % 8, x / 64;
      && Marks(row[4], step == 0) && Marks(row[5], step == 1) && Marks(row[6], step == 2) && Marks(row[7], step == 3)
      && Marks(row[8], step == 4) && Marks(row[9], step == 5) && Marks(row[10], step == 6)
      && Marks(row[11], iteration == 0) && Marks(row[12], iteration == 1) && Marks(row[13], iteration == 2)
      && Marks(row[14], iteration == 3) && Marks(row[15], iteration == 4)
      && row[16] == round % 2 && row[17] == round / 2 % 2 && row[18] == round / 4 % 2
      && row[19] == round / 8 % 2 && row[20] == round / 16 % 2
      && Marks(row[160], step == 4 && iteration == 0) && Marks(row[161], step == 4 && iteration == 1)
      && Marks(row[162], step == 4 && iteration == 2) && Marks(row[163], step == 4 && iteration == 3)
      && Marks(row[164], step == 4 && iteration == 4)
    ensures
      var round := if x / 8 % 8 == 0 then x / 64 else 0;
      && row[165] == round && row[166] == 8192 + 257 * round && row[167] == 24640 + 257 * round
      && row[168] == 41088 + 257 * round && row[169] == 57536 + 257 * round
  {
    hide *;
    WordParts(c);
    StepByPlace(row, c);
    RoundByPlace(row, c);
    RhoByPlace(row, c);
  }

  lemma WordParts(c: Control)
    requires c.Valid()
    ensures
      var x := c.Encode();
      x % 8 == c.precompile && x / 8 % 8 == c.iteration && x / 64 == c.round
  {
    hide Control.Encode;
    DecodeEncode(c);
  }

  lemma StepByPlace(row: array<Fp>, c: Control)
    requires row.Length > 181 && FlagsFor(row, true, c)
    ensures
      var step, iteration := c.precompile, c.iteration;
      && Marks(row[4], step == 0) && Marks(row[5], step == 1) && Marks(row[6], step == 2) && Marks(row[7], step == 3)
      && Marks(row[8], step == 4) && Marks(row[9], step == 5) && Marks(row[10], step == 6)
      && Marks(row[11], iteration == 0) && Marks(row[12], iteration == 1) && Marks(row[13], iteration == 2)
      && Marks(row[14], iteration == 3) && Marks(row[15], iteration == 4)
  {
    hide RoundFlags;
  }

  lemma RoundByPlace(row: array<Fp>, c: Control)
    requires row.Length > 181 && c.Valid() && FlagsFor(row, true, c) && ControlPlaces(row, c)
    ensures
      var round := c.round;
      && row[16] == round % 2 && row[17] == round / 2 % 2 && row[18] == round / 4 % 2
      && row[19] == round / 8 % 2 && row[20] == round / 16 % 2
    ensures
      var round := if c.iteration == 0 then c.round else 0;
      && row[165] == round && row[166] == 8192 + 257 * round && row[167] == 24640 + 257 * round
      && row[168] == 41088 + 257 * round && row[169] == 57536 + 257 * round
  {
    hide StepFlags, IterationFlags, FromBool;
    BitFlag(c.round);
    BitFlag(c.round / 2);
    BitFlag(c.round / 4);
    BitFlag(c.round / 8);
    BitFlag(c.round / 16);
    ControlBytesAt(row, c);
    hide ControlPlaces;
  }

  lemma BitFlag(n: nat)
    ensures FromBool(n % 2 == 1) == n % 2
  {
  }

  lemma ControlBytesAt(row: array<Fp>, c: Control)
    requires row.Length > 181 && ControlPlaces(row, c)
    ensures
      var round := if c.iteration == 0 then c.round else 0;
      && row[165] == round && row[166] == 8192 + 257 * round && row[167] == 24640 + 257 * round
      && row[168] == 41088 + 257 * round && row[169] == 57536 + 257 * round
  {
    assert ControlAt(row)[0] == ControlLimbs(IotaRound(c))[0] && ControlAt(row)[1] == ControlLimbs(IotaRound(c))[1];
    assert ControlAt(row)[2] == ControlLimbs(IotaRound(c))[2] && ControlAt(row)[3] == ControlLimbs(IotaRound(c))[3];
  }

  lemma RhoByPlace(row: array<Fp>, c: Control)
    requires row.Length > 181 && RhoFlags(row, c)
    ensures
      var step, iteration := c.precompile, c.iteration;
      && Marks(row[160], step == 4 && iteration == 0) && Marks(row[161], step == 4 && iteration == 1)
      && Marks(row[162], step == 4 && iteration == 2) && Marks(row[163], step == 4 && iteration == 3)
      && Marks(row[164], step == 4 && iteration == 4)
  {
  }

  /** The table numbers of the five groups, step by step. */
  lemma TablesByWord(row: array<Fp>, c: Control, x: nat)
    requires row.Length > 181 && c.Valid() && x == c.Encode() && TablesChosen(row, c)
    ensures
      [row[38], row[63], row[88], row[113], row[138]] ==
        match x % 8
        case 0 => [59, 4, 4, 4, 4]
        case 1 => [61, 61, 4, 61, 4]
        case 2 => [61, 4, 61, 4, 4]
        case 3 => [4, 4, 4, 4, 4]
        case 4 => [61, 61, 61, 61, 61]
        case 5 => [60, 60, 4, 60, 4]
        case _ => [60, 4, 60, 4, 4]
  {
    hide TablesChosen, Control.Encode;
    DecodeEncode(c);
    TablesByStep(row, c);
  }

  /** The eight rows of every group are in the table whose number stands beside the first of them. */
  lemma RowsInTables(row: array<Fp>, c: Control, w: Words, outputs: seq<seq<nat>>)
    requires row.Length > 181 && c.Valid() && TablesChosen(row, c) && RowHolds(c, w, ValuesAt(row, outputs))
    ensures forall i :: 0 <= i < 8 ==>
      && InNumbered(row[38], RowsAt(row, 0)[i]) && InNumbered(row[63], RowsAt(row, 1)[i])
      && InNumbered(row[88], RowsAt(row, 2)[i]) && InNumbered(row[113], RowsAt(row, 3)[i])
      && InNumbered(row[138], RowsAt(row, 4)[i])
  {
    hide Gates, InNumbered, InTable, RowsAt, BytesFit, RotationFits, WireLimbs, Copies, TemporaryAt;
    GroupInTable(row, c, 0);
    GroupInTable(row, c, 1);
    GroupInTable(row, c, 2);
    GroupInTable(row, c, 3);
    GroupInTable(row, c, 4);
  }

  lemma GroupInTable(row: array<Fp>, c: Control, g: nat)
    requires row.Length > 181 && c.Valid() && g < 5 && TablesChosen(row, c)
    requires AllInTable(Gates(c)[g].table, RowsAt(row, g))
    ensures forall i :: 0 <= i < 8 ==> InNumbered(row[TablePlace(g)], RowsAt(row, g)[i])
  {
    hide Gates, InNumbered, InTable, RowsAt;
    forall i | 0 <= i < 8 ensures InNumbered(row[TablePlace(g)], RowsAt(row, g)[i]) {
      assert InTable(Gates(c)[g].table, RowsAt(row, g)[i]);
      TablesByNumber(Gates(c)[g].table, RowsAt(row, g)[i]);
    }
  }

  /** The layout of the lookup rows, each in three places, and of the temporaries, each in four. */
  lemma RowsByPlace(row: array<Fp>)
    requires row.Length > 181
    ensures RowsAt(row, 0) ==
      [Row(row[35], row[36], row[37]), Row(row[39], row[40], row[41]), Row(row[42], row[43], row[44]),
       Row(row[45], row[46], row[47]), Row(row[48], row[49], row[50]), Row(row[51], row[52], row[53]),
       Row(row[54], row[55], row[56]), Row(row[57], row[58], row[59])]
    ensures RowsAt(row, 1) ==
      [Row(row[60], row[61], row[62]), Row(row[64], row[65], row[66]), Row(row[67], row[68], row[69]),
       Row(row[70], row[71], row[72]), Row(row[73], row[74], row[75]), Row(row[76], row[77], row[78]),
       Row(row[79], row[80], row[81]), Row(row[82], row[83], row[84])]
    ensures RowsAt(row, 2) ==
      [Row(row[85], row[86], row[87]), Row(row[89], row[90], row[91]), Row(row[92], row[93], row[94]),
       Row(row[95], row[96], row[97]), Row(row[98], row[99], row[100]), Row(row[101], row[102], row[103]),
       Row(row[104], row[105], row[106]), Row(row[107], row[108], row[109])]
    ensures RowsAt(row, 3) ==
      [Row(row[110], row[111], row[112]), Row(row[114], row[115], row[116]), Row(row[117], row[118], row[119]),
       Row(row[120], row[121], row[122]), Row(row[123], row[124], row[125]), Row(row[126], row[127], row[128]),
       Row(row[129], row[130], row[131]), Row(row[132], row[133], row[134])]
    ensures RowsAt(row, 4) ==
      [Row(row[135], row[136], row[137]), Row(row[139], row[140], row[141]), Row(row[142], row[143], row[144]),
       Row(row[145], row[146], row[147]), Row(row[148], row[149], row[150]), Row(row[151], row[152], row[153]),
       Row(row[154], row[155], row[156]), Row(row[157], row[158], row[159])]
    ensures TemporaryAt(row, 0) == [row[170], row[171], row[172], row[173]]
    ensures TemporaryAt(row, 1) == [row[174], row[175], row[176], row[177]]
    ensures TemporaryAt(row, 2) == [row[178], row[179], row[180], row[181]]
  {
  }

  /** The four places of each of the six words that a row reads. */
  lemma WordsByPlace(p: Proxy, c: Control, w: Words)
    requires HasRoom(p) && Reads(p, c, w)
    ensures p.memoryRow[0] == 1 && p.memoryRow[6] == c.precompile + 8 * c.iteration + 64 * c.round
    ensures Limbs(w[0]) == [p.memoryRow[17], p.memoryRow[18], p.memoryRow[23], p.memoryRow[24]]
    ensures Limbs(w[1]) == [p.memoryRow[30], p.memoryRow[31], p.memoryRow[36], p.memoryRow[37]]
    ensures Limbs(w[2]) == [p.memoryRow[43], p.memoryRow[44], p.memoryRow[49], p.memoryRow[50]]
    ensures Limbs(w[3]) == [p.memoryRow[56], p.memoryRow[57], p.memoryRow[62], p.memoryRow[63]]
    ensures Limbs(w[4]) == [p.memoryRow[69], p.memoryRow[70], p.memoryRow[75], p.memoryRow[76]]
    ensures Limbs(w[5]) == [p.memoryRow[82], p.memoryRow[83], p.memoryRow[88], p.memoryRow[89]]
  {
    hide Limbs;
  }

  /** The limbs of a word, lowest first, are the 16-bit pieces of its lane. */
  lemma LimbsOfLane(u: Halves)
    ensures Join(u).bits
      == ((Limb(u, 3) as bv64) << 48) | ((Limb(u, 2) as bv64) << 32)
         | ((Limb(u, 1) as bv64) << 16) | (Limb(u, 0) as bv64)
    ensures Limbs(u) == [Value16(Limb(u, 0)), Value16(Limb(u, 1)), Value16(Limb(u, 2)), Value16(Limb(u, 3))]
  {
  }

  /** Recomposition row by row: an even row holds the low bytes of a limb, the odd row after it the high
      bytes, and the three columns are the two operands and the result. */
  lemma BytesByRow(rows: Rows, in1: seq<nat>, in2: seq<nat>, out: seq<nat>)
    requires |in1| == |in2| == |out| == 4 && BytesFit(rows, in1, in2, out)
    ensures rows[0].a + 256 * rows[1].a == in1[0]
    ensures rows[0].b + 256 * rows[1].b == in2[0]
    ensures rows[0].c + 256 * rows[1].c == out[0]
    ensures rows[2].a + 256 * rows[3].a == in1[1]
    ensures rows[2].b + 256 * rows[3].b == in2[1]
    ensures rows[2].c + 256 * rows[3].c == out[1]
    ensures rows[4].a + 256 * rows[5].a == in1[2]
    ensures rows[4].b + 256 * rows[5].b == in2[2]
    ensures rows[4].c + 256 * rows[5].c == out[2]
    ensures rows[6].a + 256 * rows[7].a == in1[3]
    ensures rows[6].b + 256 * rows[7].b == in2[3]
    ensures rows[6].c + 256 * rows[7].c == out[3]
  {
  }

  /** The rows of a rotation: limb i and the count go in, and what is shifted out at the top of a limb joins
      the limb above it. */
  lemma RotationByRow(rows: Rows, k: nat, in1: seq<nat>, out: seq<nat>)
    requires k < 64 && |in1| == |out| == 4 && RotationFits(rows, k, in1, out)
    ensures forall i :: 0 <= i < 4 ==> rows[i].a == in1[i] + 0x1_0000 * (k % 16)
    ensures forall i :: 0 <= i < 4 ==> out[(i + k / 16) % 4] == rows[i].c + rows[(i + 3) % 4].b
  {
    hide RotationFits;
    forall i | 0 <= i < 4
      ensures rows[i].a == in1[i] + 0x1_0000 * (k % 16) && out[(i + k / 16) % 4] == rows[i].c + rows[(i + 3) % 4].b
    {
      RotationAtRow(rows, k, in1, out, i);
    }
  }

  lemma RotationAtRow(rows: Rows, k: nat, in1: seq<nat>, out: seq<nat>, i: nat)
    requires k < 64 && |in1| == |out| == 4 && RotationFits(rows, k, in1, out) && i < 4
    ensures rows[i].a == in1[i] + 0x1_0000 * (k % 16) && out[(i + k / 16) % 4] == rows[i].c + rows[(i + 3) % 4].b
  {
    TurnedAt(out, k / 16, i);
    hide Turned;
    assert Turned(out, k / 16)[i] == rows[i].c + rows[if i == 0 then 3 else i - 1].b;
  }

  lemma TurnedAt(s: seq<nat>, n: nat, i: nat)
    requires |s| == 4 && n < 4 && i < 4
    ensures Turned(s, n)[i] == s[(i + n) % 4]
  {
  }

  /** What each group of a satisfied row relates, step by step: which words, temporaries and outputs its
      columns recompose to. */
  lemma WiresByStep(c: Control, w: Words, v: Values)
    requires c.Valid() && RowHolds(c, w, v)
    ensures c.precompile == 0 ==>
      && BytesFit(v.rows[0], Limbs(w[0]), ControlLimbs(IotaRound(c)), v.output[0])
      && BytesFit(v.rows[1], v.output[0], Limbs(w[1]), v.temporary[0])
      && BytesFit(v.rows[2], v.temporary[0], Limbs(w[2]), v.temporary[1])
      && BytesFit(v.rows[3], v.temporary[1], Limbs(w[3]), v.temporary[2])
      && BytesFit(v.rows[4], v.temporary[2], Limbs(w[4]), v.output[5])
    ensures c.precompile == 1 ==>
      && RotationFits(v.rows[0], 1, Limbs(w[0]), v.output[5])
      && RotationFits(v.rows[1], 1, Limbs(w[2]), v.temporary[0])
      && BytesFit(v.rows[2], Limbs(w[0]), v.temporary[0], v.output[0])
      && RotationFits(v.rows[3], 1, Limbs(w[4]), v.temporary[1])
      && BytesFit(v.rows[4], Limbs(w[2]), v.temporary[1], v.output[2])
    ensures c.precompile == 2 ==>
      && RotationFits(v.rows[0], 1, Limbs(w[1]), v.temporary[0])
      && BytesFit(v.rows[1], Limbs(w[4]), v.temporary[0], v.output[4])
      && RotationFits(v.rows[2], 1, Limbs(w[3]), v.temporary[1])
      && BytesFit(v.rows[3], Limbs(w[1]), v.temporary[1], v.output[1])
      && BytesFit(v.rows[4], Limbs(w[3]), Limbs(w[5]), v.output[3])
    ensures c.precompile == 3 ==>
      && BytesFit(v.rows[0], Limbs(w[0]), Limbs(w[5]), v.output[0])
      && BytesFit(v.rows[1], Limbs(w[1]), Limbs(w[5]), v.output[1])
      && BytesFit(v.rows[2], Limbs(w[2]), Limbs(w[5]), v.output[2])
      && BytesFit(v.rows[3], Limbs(w[3]), Limbs(w[5]), v.output[3])
      && BytesFit(v.rows[4], Limbs(w[4]), Limbs(w[5]), v.output[4])
    ensures c.precompile == 5 ==>
      && BytesFit(v.rows[0], Limbs(w[0]), Limbs(w[1]), v.output[4])
      && BytesFit(v.rows[1], Limbs(w[1]), Limbs(w[2]), v.temporary[0])
      && BytesFit(v.rows[2], Limbs(w[0]), v.temporary[0], v.output[0])
      && BytesFit(v.rows[3], Limbs(w[2]), Limbs(w[3]), v.temporary[1])
      && BytesFit(v.rows[4], Limbs(w[1]), v.temporary[1], v.output[1])
    ensures c.precompile == 6 ==>
      && BytesFit(v.rows[0], Limbs(w[2]), Limbs(w[0]), v.temporary[0])
      && BytesFit(v.rows[1], Limbs(w[1]), v.temporary[0], v.output[1])
      && BytesFit(v.rows[2], Limbs(w[0]), Limbs(w[4]), v.temporary[1])
      && BytesFit(v.rows[3], Limbs(w[2]), v.temporary[1], v.output[2])
      && BytesFit(v.rows[4], Limbs(w[0]), Limbs(w[3]), v.output[0])
    ensures c.precompile == 4 ==>
      var r := RotationOf(c.iteration);
      && RotationFits(v.rows[0], r[0], Limbs(w[0]), v.output[0])
      && RotationFits(v.rows[1], r[1], Limbs(w[1]), v.output[1])
      && RotationFits(v.rows[2], r[2], Limbs(w[2]), v.output[2])
      && RotationFits(v.rows[3], r[3], Limbs(w[3]), v.output[3])
      && RotationFits(v.rows[4], r[4], Limbs(w[4]), v.output[4])
  {
    hide Limbs, BytesFit, RotationFits, AllInTable, ControlLimbs, IotaRound, RotationOf;
  }

  /** The words that a step copies. */
  lemma CopiesByStep(c: Control, w: Words, v: Values)
    requires c.Valid() && RowHolds(c, w, v)
    ensures c.precompile == 0 ==>
      && v.output[1] == Limbs(w[1]) && v.output[2] == Limbs(w[2])
      && v.output[3] == Limbs(w[3]) && v.output[4] == Limbs(w[4])
    ensures c.precompile == 1 ==>
      v.output[1] == Limbs(w[1]) && v.output[3] == Limbs(w[3]) && v.output[4] == Limbs(w[4])
    ensures c.precompile == 2 ==>
      v.output[0] == Limbs(w[0]) && v.output[2] == Limbs(w[2]) && v.output[5] == Limbs(w[5])
    ensures c.precompile == 5 ==>
      v.output[5] == Limbs(w[0]) && v.output[2] == Limbs(w[2]) && v.output[3] == Limbs(w[3])
    ensures c.precompile == 6 ==>
      v.output[3] == Limbs(w[3]) && v.output[4] == Limbs(w[4]) && v.output[5] == Limbs(w[5])
    ensures c.precompile == 3 || c.precompile == 4 ==> v.output[5] == Limbs(w[5])
  {
    hide Limbs, GateHolds, Gates;
    var s := Copies(c);
    assert v.output[s[0].1] == Limbs(w[s[0].0]);
    if |s| > 1 {
      assert v.output[s[1].1] == Limbs(w[s[1].0]) && v.output[s[2].1] == Limbs(w[s[2].0]);
    }
    if |s| > 3 {
      assert v.output[s[3].1] == Limbs(w[s[3].0]);
    }
  }

  /** One evaluation of an executing row, place by place. */
  method EvaluatePlaces(p: Proxy, ghost c: Control, ghost w: Words) returns (outputs: seq<seq<nat>>)
    requires HasRoom(p) && c.Valid() && Reads(p, c, w)
    modifies p.witnessRow
    ensures
      var r, step, iteration, round := p.witnessRow, p.memoryRow[6] % 8, p.memoryRow[6] / 8 % 8, p.memoryRow[6] / 64;
      && Marks(r[4], step == 0) && Marks(r[5], step == 1) && Marks(r[6], step == 2) && Marks(r[7], step == 3)
      && Marks(r[8], step == 4) && Marks(r[9], step == 5) && Marks(r[10], step == 6)
      && Marks(r[11], iteration == 0) && Marks(r[12], iteration == 1) && Marks(r[13], iteration == 2)
      && Marks(r[14], iteration == 3) && Marks(r[15], iteration == 4)
      && r[165] == (if iteration == 0 then round else 0)
    ensures
      var r := p.witnessRow;
      [r[38], r[63], r[88], r[113], r[138]] ==
        match p.memoryRow[6] % 8
        case 0 => [59, 4, 4, 4, 4]
        case 1 => [61, 61, 4, 61, 4]
        case 2 => [61, 4, 61, 4, 4]
        case 3 => [4, 4, 4, 4, 4]
        case 4 => [61, 61, 61, 61, 61]
        case 5 => [60, 60, 4, 60, 4]
        case _ => [60, 4, 60, 4, 4]
    ensures
      var r := p.witnessRow;
      forall i :: 0 <= i < 8 ==>
        && InNumbered(r[38], RowsAt(r, 0)[i]) && InNumbered(r[63], RowsAt(r, 1)[i])
        && InNumbered(r[88], RowsAt(r, 2)[i]) && InNumbered(r[113], RowsAt(r, 3)[i])
        && InNumbered(r[138], RowsAt(r, 4)[i])
    ensures RowHolds(c, w, ValuesAt(p.witnessRow, outputs)) && outputs == LimbsOf6(StepHalves(c, w))
  {
    hide RowHolds, ValuesAt, StepHalves, TablesChosen, FlagsFor, RhoFlags, ControlPlaces, InNumbered, Marks, RowsAt,
      LimbsOf6, Control.Encode, Outputs, Lanes6;
    outputs := EvaluateWitness(p, c, w);
    FlagsByWord(p.witnessRow, c, p.memoryRow[6]);
    TablesByWord(p.witnessRow, c, p.memoryRow[6]);
    RowsInTables(p.witnessRow, c, w, outputs);
  }
}
