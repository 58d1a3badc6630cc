/** The witness evaluator of the keccak_special5 delegation circuit. Methods are named after the
    evaluation functions they model, and places are numbered as in that circuit's layout. */
module KeccakWitness {
  import opened Mersenne31
  import opened Witness
  import opened KeccakMachine
  import opened WordPieces
  import opened KeccakHalves
  import opened KeccakRows
  import opened KeccakCircuit

  ghost predicate HasRoom(p: Proxy) {
    p.Valid(90, 182, 0)
  }

  /** Six words are read from twelve 32-bit accesses; word k starts at this place. */
  function WordPlace(k: nat): nat {
    17 + 13 * k
  }

  /** The four limb places of word k hold u. */
  ghost predicate WordAt(row: array<Fp>, k: nat, u: Halves)
    requires WordPlace(k) + 7 < row.Length
    reads row
  {
    var b, s := WordPlace(k), Limbs(u);
    row[b] == s[0] && row[b + 1] == s[1] && row[b + 6] == s[2] && row[b + 7] == s[3]
  }

  /** The memory places of a row that executes the call with control word c on the words w. */
  ghost predicate Reads(p: Proxy, c: Control, w: Words)
    requires HasRoom(p)
    reads p.memoryRow
  {
    var m := p.memoryRow;
    && m[0] == 1 && m[6] == c.Encode()
    && WordAt(m, 0, w[0]) && WordAt(m, 1, w[1]) && WordAt(m, 2, w[2])
    && WordAt(m, 3, w[3]) && WordAt(m, 4, w[4]) && WordAt(m, 5, w[5])
  }

  /** The flags of step, iteration and round bits for a control word, with the first of the step and
      iteration flags only set when the row executes. */
  ghost predicate StepFlags(row: array<Fp>, execute: bool, step: nat)
    requires row.Length > 10
    reads row
  {
    && row[4] == FromBool(step == 0 && execute) && row[5] == FromBool(step == 1) && row[6] == FromBool(step == 2)
    && row[7] == FromBool(step == 3) && row[8] == FromBool(step == 4) && row[9] == FromBool(step == 5)
    && row[10] == FromBool(step == 6)
  }

  ghost predicate IterationFlags(row: array<Fp>, execute: bool, iteration: nat)
    requires row.Length > 15
    reads row
  {
    && row[11] == FromBool(iteration == 0 && execute) && row[12] == FromBool(iteration == 1)
    && row[13] == FromBool(iteration == 2) && row[14] == FromBool(iteration == 3) && row[15] == FromBool(iteration == 4)
  }

  ghost predicate RoundFlags(row: array<Fp>, round: nat)
    requires row.Length > 20
    reads row
  {
    && row[16] == FromBool(round % 2 == 1) && row[17] == FromBool(round / 2 % 2 == 1)
    && row[18] == FromBool(round / 4 % 2 == 1)
    && row[19] == FromBool(round / 8 % 2 == 1) && row[20] == FromBool(round / 16 % 2 == 1)
  }

  ghost predicate FlagsFor(row: array<Fp>, execute: bool, c: Control)
    requires row.Length > 20
    reads row
  {
    StepFlags(row, execute, c.precompile) && IterationFlags(row, execute, c.iteration) && RoundFlags(row, c.round)
  }

  /** The rho iteration flags: both the step and the iteration are. */
  ghost predicate RhoFlags(row: array<Fp>, c: Control)
    requires row.Length > 169
    reads row
  {
    var rho := c.precompile == RHO;
    && row[160] == FromBool(rho && c.iteration == 0) && row[161] == FromBool(rho && c.iteration == 1)
    && row[162] == FromBool(rho && c.iteration == 2) && row[163] == FromBool(rho && c.iteration == 3)
    && row[164] == FromBool(rho && c.iteration == 4)
  }

  /** The control bytes as they stand in the row, packed two to a place. */
  function ControlAt(row: array<Fp>): (s: seq<nat>)
    requires row.Length > 169
    ensures |s| == 4
    reads row
  {
    [U16(row[166]), U16(row[167]), U16(row[168]), U16(row[169])]
  }

  /** The round whose constant is added, and the control bytes that ask for it. */
  ghost predicate ControlPlaces(row: array<Fp>, c: Control)
    requires row.Length > 169
    reads row
  {
    && row[165] == IotaRound(c) && ControlAt(row) == ControlLimbs(IotaRound(c))
    && row[166] < 0x1_0000 && row[167] < 0x1_0000 && row[168] < 0x1_0000 && row[169] < 0x1_0000
  }

  method SetStepFlags(row: array<Fp>, execute: bool, step: nat)
    requires row.Length > 20
    modifies row
    ensures StepFlags(row, execute, step) && OnlyChanged(row, 4, 10, 4, 10)
  {
    hide FromBool;
    row[4] := FromBool(step == 0 && execute);
    row[5] := FromBool(step == 1);
    row[6] := FromBool(step == 2);
    row[7] := FromBool(step == 3);
    row[8] := FromBool(step == 4);
    row[9] := FromBool(step == 5);
    row[10] := FromBool(step == 6);
  }

  method SetIterationFlags(row: array<Fp>, execute: bool, iteration: nat)
    requires row.Length > 20
    modifies row
    ensures IterationFlags(row, execute, iteration) && OnlyChanged(row, 11, 15, 11, 15)
  {
    hide FromBool;
    row[11] := FromBool(iteration == 0 && execute);
    row[12] := FromBool(iteration == 1);
    row[13] := FromBool(iteration == 2);
    row[14] := FromBool(iteration == 3);
    row[15] := FromBool(iteration == 4);
  }

  method SetRoundFlags(row: array<Fp>, round: nat)
    requires row.Length > 20
    modifies row
    ensures RoundFlags(row, round) && OnlyChanged(row, 16, 20, 16, 20)
  {
    hide FromBool;
    row[16] := FromBool(round % 2 == 1);
    row[17] := FromBool(round / 2 % 2 == 1);
    row[18] := FromBool(round / 4 % 2 == 1);
    row[19] := FromBool(round / 8 % 2 == 1);
    row[20] := FromBool(round / 16 % 2 == 1);
  }

  method EvalFn25(p: Proxy)
    requires HasRoom(p)
    modifies p.witnessRow
    ensures FlagsFor(p.witnessRow, Mask(p.memoryRow[0]), Decode(U16(p.memoryRow[6])))
    ensures OnlyChanged(p.witnessRow, 4, 20, 4, 20)
  {
    hide FromBool;
    var execute, x := Mask(p.memoryRow[0]), U16(p.memoryRow[6]);
    SetStepFlags(p.witnessRow, execute, x % 8);
    SetIterationFlags(p.witnessRow, execute, x / 8 % 8);
    SetRoundFlags(p.witnessRow, x / 64);
  }

  method EvalFn26To30(p: Proxy, ghost c: Control)
    requires HasRoom(p) && FlagsFor(p.witnessRow, true, c)
    modifies p.witnessRow
    ensures RhoFlags(p.witnessRow, c)
    ensures OnlyChanged(p.witnessRow, 160, 164, 160, 164)
  {
    hide FromBool, Add, Mul;
    var w := p.witnessRow;
    ghost var rho, i := c.precompile == RHO, c.iteration;
    ProductOfFlags(rho, i == 0);
    ProductOfFlags(rho, i == 1);
    ProductOfFlags(rho, i == 2);
    ProductOfFlags(rho, i == 3);
    ProductOfFlags(rho, i == 4);
    w[160] := Add(0, Mul(w[8], w[11]));
    w[161] := Add(0, Mul(w[8], w[12]));
    w[162] := Add(0, Mul(w[8], w[13]));
    w[163] := Add(0, Mul(w[8], w[14]));
    w[164] := Add(0, Mul(w[8], w[15]));
  }

  function BitsValue(b0: bool, b1: bool, b2: bool, b3: bool, b4: bool): nat {
    (if b0 then 1 else 0) + (if b1 then 2 else 0) + (if b2 then 4 else 0) + (if b3 then 8 else 0) + if b4 then 16 else 0
  }

  lemma RoundBits(r: nat)
    requires r < 32
    ensures r == BitsValue(r % 2 == 1, r / 2 % 2 == 1, r / 4 % 2 == 1, r / 8 % 2 == 1, r / 16 % 2 == 1)
  {
    LowestBit(r);
    LowestBit(r / 2);
    LowestBit(r / 4);
    LowestBit(r / 8);
    LowestBit(r / 16);
    Halvings(r);
    hide *;
    BitsOf(r, r / 2, r / 4, r / 8, r / 16);
  }

  lemma LowestBit(n: nat)
    ensures n == 2 * (n / 2) + if n % 2 == 1 then 1 else 0
  {
  }

  lemma Halvings(r: nat)
    requires r < 32
    ensures r / 2 / 2 == r / 4 && r / 4 / 2 == r / 8 && r / 8 / 2 == r / 16 && r / 16 / 2 == 0
  {
  }

  lemma BitsOf(n0: nat, n1: nat, n2: nat, n3: nat, n4: nat)
    requires n0 == 2 * n1 + (if n0 % 2 == 1 then 1 else 0) && n1 == 2 * n2 + (if n1 % 2 == 1 then 1 else 0)
    requires n2 == 2 * n3 + (if n2 % 2 == 1 then 1 else 0) && n3 == 2 * n4 + (if n3 % 2 == 1 then 1 else 0)
    requires n4 == if n4 % 2 == 1 then 1 else 0
    ensures n0 == BitsValue(n0 % 2 == 1, n1 % 2 == 1, n2 % 2 == 1, n3 % 2 == 1, n4 % 2 == 1)
  {
  }

  method AddBit(v: Fp, scale: nat, gate: Fp, bit: Fp, ghost on: bool, ghost one: bool) returns (v': Fp)
    requires scale <= 16 && v < 100 && gate == FromBool(on) && bit == FromBool(one)
    ensures v' == v + if on && one then scale else 0
  {
    v' := Add(v, Mul(Mul(gate, scale), bit));
  }

  /** The round whose constant is added, gated by the first iteration and composed from its bits. */
  method EvalFn31(p: Proxy, ghost c: Control)
    requires HasRoom(p) && c.Valid() && FlagsFor(p.witnessRow, true, c)
    modifies p.witnessRow
    ensures p.witnessRow[165] == IotaRound(c)
    ensures OnlyChanged(p.witnessRow, 165, 165, 165, 165)
  {
    hide FromBool, Add, Mul, StepFlags;
    var w := p.witnessRow;
    ghost var first, r := c.iteration == 0, c.round;
    ghost var b0, b1, b2 := r % 2 == 1, r / 2 % 2 == 1, r / 4 % 2 == 1;
    ghost var b3, b4 := r / 8 % 2 == 1, r / 16 % 2 == 1;
    assert IotaRound(c) == if first then BitsValue(b0, b1, b2, b3, b4) else 0 by {
      RoundBits(r);
    }
    hide RoundFlags, IterationFlags, IotaRound;
    var v := AddBit(0, 1, w[11], w[16], first, b0);
    v := AddBit(v, 2, w[11], w[17], first, b1);
    v := AddBit(v, 4, w[11], w[18], first, b2);
    v := AddBit(v, 8, w[11], w[19], first, b3);
    v := AddBit(v, 16, w[11], w[20], first, b4);
    w[165] := v;
  }

  /** The packed control bytes of a round, at one of the four offsets, do not overflow a limb. */
  lemma PackedControl(round: Fp, offset: Fp)
    requires round <= 24 && offset <= 57536
    ensures var v := Add(offset, Mul(257, round)); U16(v) == v == offset + 257 * round
  {
  }

  method EvalFn32To35(p: Proxy, ghost c: Control)
    requires HasRoom(p) && p.witnessRow[165] == IotaRound(c) <= 24
    modifies p.witnessRow
    ensures ControlPlaces(p.witnessRow, c)
    ensures OnlyChanged(p.witnessRow, 166, 169, 166, 169)
  {
    hide Add, Mul, U16, IotaRound;
    var w := p.witnessRow;
    PackedControl(w[165], 8192);
    PackedControl(w[165], 24640);
    PackedControl(w[165], 41088);
    PackedControl(w[165], 57536);
    w[166] := Add(8192, Mul(257, w[165]));
    w[167] := Add(24640, Mul(257, w[165]));
    w[168] := Add(41088, Mul(257, w[165]));
    w[169] := Add(57536, Mul(257, w[165]));
  }

  /** The word that two pairs of limb places spell. */
  function HalvesAt(row: array<Fp>, k: nat): Halves
    requires WordPlace(k) + 7 < row.Length
    reads row
  {
    var b := WordPlace(k);
    Halves(Word32(Word16(U16(row[b + 1])), Word16(U16(row[b]))),
      Word32(Word16(U16(row[b + 7])), Word16(U16(row[b + 6]))))
  }

  lemma HalvesAtWord(row: array<Fp>, k: nat, u: Halves)
    requires WordPlace(k) + 7 < row.Length && WordAt(row, k, u)
    ensures HalvesAt(row, k) == u
  {
    hide Word16, Value16, Word32, LowLimb, HighLimb;
    WordValue(LowLimb(u.low));
    WordValue(HighLimb(u.low));
    WordValue(LowLimb(u.high));
    WordValue(HighLimb(u.high));
    LimbsWord(u.low);
    LimbsWord(u.high);
  }

  method ReadWords(p: Proxy, ghost c: Control, ghost w: Words) returns (words: Words)
    requires HasRoom(p) && Reads(p, c, w)
    ensures words == w
  {
    hide HalvesAt, WordAt, Control.Encode;
    var m := p.memoryRow;
    HalvesAtWord(m, 0, w[0]);
    HalvesAtWord(m, 1, w[1]);
    HalvesAtWord(m, 2, w[2]);
    HalvesAtWord(m, 3, w[3]);
    HalvesAtWord(m, 4, w[4]);
    HalvesAtWord(m, 5, w[5]);
    words := [HalvesAt(m, 0), HalvesAt(m, 1), HalvesAt(m, 2), HalvesAt(m, 3), HalvesAt(m, 4), HalvesAt(m, 5)];
  }

  /** Group g of five has its first row at place 35 + 25 g, its table number three places on, and its
      other rows after that. */
  function RowPlace(g: nat, i: nat): nat {
    35 + 25 * g + (if i == 0 then 0 else 3 * i + 1)
  }

  function TablePlace(g: nat): nat {
    38 + 25 * g
  }

  function RowAt(row: array<Fp>, g: nat, i: nat): Row
    requires row.Length > 159 && g < 5 && i < 8
    reads row
  {
    Row(row[RowPlace(g, i)], row[RowPlace(g, i) + 1], row[RowPlace(g, i) + 2])
  }

  function RowsAt(row: array<Fp>, g: nat): Rows
    requires row.Length > 159 && g < 5
    reads row
  {
    seq(8, i requires 0 <= i < 8 reads row => RowAt(row, g, i))
  }

  predicate Small(r: Row) {
    r.a < 0x10_0000 && r.b < 0x10_0000 && r.c < 0x10_0000
  }

  /** Rows of the tables fit a field element, so turning them into one loses nothing. */
  lemma TableRowsSmall(t: Table, rows: Rows)
    requires AllInTable(t, rows)
    ensures forall i :: 0 <= i < 8 ==> Small(rows[i])
  {
    hide Xor8, AndNot8, ConstantByte, Byte8, Word16, Left16, Right16, Value8, Value16, RotationCount;
    forall i | 0 <= i < 8 ensures Small(rows[i]) {
      assert InTable(t, rows[i]);
    }
  }

  method WriteGroup(row: array<Fp>, g: nat, rows: Rows)
    requires row.Length > 159 && g < 5 && forall i :: 0 <= i < 8 ==> Small(rows[i])
    modifies row
    ensures RowsAt(row, g) == rows && row[TablePlace(g)] == old(row[TablePlace(g)])
    ensures OnlyChanged(row, 35 + 25 * g, 59 + 25 * g, 35 + 25 * g, 59 + 25 * g)
  {
    for i := 0 to 8
      invariant forall j :: 0 <= j < i ==> RowAt(row, g, j) == rows[j]
      invariant row[TablePlace(g)] == old(row[TablePlace(g)])
      invariant forall n: nat | n < row.Length && !(35 + 25 * g <= n <= 59 + 25 * g) :: row[n] == old(row[n])
    {
      row[RowPlace(g, i)] := FromInteger(rows[i].a);
      row[RowPlace(g, i) + 1] := FromInteger(rows[i].b);
      row[RowPlace(g, i) + 2] := FromInteger(rows[i].c);
    }
  }

  /** A step depends on no more of the control word than its step number, the iteration of a rotation
      and the round constant. */
  lemma HonestDependsOn(c: Control, d: Control, w: Words)
    requires c.Valid() && d.Valid() && c.precompile == d.precompile
    requires c.precompile == IOTA_COLUMNXOR ==> IotaRound(c) == IotaRound(d)
    requires c.precompile == RHO ==> c.iteration == d.iteration
    ensures Honest(c, w) == Honest(d, w)
  {
    hide IotaHalves, Mix1Halves, Mix2Halves, ThetaHalves, RhoHalves, Chi1Halves, Chi2Halves, Limbs, Parts,
      AdjustedConstant, XorRows, AndNotRows, RotationRows, IotaRows, RotationOf, XorHalves, AndNotHalves, RotlHalves;
  }

  /** The rotations of the five rho iterations, of which the iteration flags select one. */
  method SelectRotation(row: array<Fp>, words: Words, none: Values, ghost c: Control) returns (v: Values)
    requires row.Length > 20 && c.Valid() && c.precompile == RHO && FlagsFor(row, true, c)
    ensures v == Honest(c, words)
  {
    hide Honest;
    v := none;
    for i := 0 to 5
      invariant i > c.iteration ==> v == Honest(c, words)
    {
      assert row[11 + i] == FromBool(c.iteration == i);
      if Mask(row[11 + i]) {
        v := Honest(Control(RHO, i, 0), words);
        HonestDependsOn(Control(RHO, i, 0), c, words);
      }
    }
  }

  /** The candidate of the iota step. Its first group takes its control bytes from the row. */
  method IotaCandidate(row: array<Fp>, words: Words, round: nat, ghost c: Control) returns (v: Values)
    requires row.Length > 169 && c.Valid() && ControlPlaces(row, c) && round == IotaRound(c)
    ensures v == Honest(Control(IOTA_COLUMNXOR, 0, round), words)
  {
    hide IotaRowsFor, XorRows, Temporaries, StepHalves, ControlLimbs, Limbs;
    var d := Control(IOTA_COLUMNXOR, 0, round);
    StandIn(c);
    v := Honest(d, words);
    v := v.(rows := [IotaRowsFor(words[0], round, ControlAt(row))] + v.rows[1..]);
  }

  /** The candidates of all steps, of which the step flags select one. */
  method SelectStep(row: array<Fp>, words: Words, round: nat, ghost c: Control) returns (v: Values)
    requires row.Length > 169 && c.Valid() && FlagsFor(row, true, c) && ControlPlaces(row, c) && round == IotaRound(c)
    ensures v == Honest(c, words)
  {
    hide Honest, IterationFlags, RoundFlags, IotaRound, ControlPlaces;
    var none := [0, 0, 0, 0];
    v := Values([none, none, none, none, none, none], [none, none, none], []);
    ghost var p := c.precompile;
    StandIn(c);
    if Mask(row[4]) {
      v := IotaCandidate(row, words, round, c);
    }
    if Mask(row[5]) {
      v := Honest(Control(COLUMNMIX1, 0, 0), words);
    }
    if Mask(row[6]) {
      v := Honest(Control(COLUMNMIX2, 0, 0), words);
    }
    if Mask(row[7]) {
      v := Honest(Control(THETA, 0, 0), words);
    }
    if Mask(row[8]) {
      v := SelectRotation(row, words, v, c);
    }
    if Mask(row[9]) {
      v := Honest(Control(CHI1, 0, 0), words);
    }
    if Mask(row[10]) {
      v := Honest(Control(CHI2, 0, 0), words);
    }
    if p != RHO {
      HonestDependsOn(c, Control(p, 0, if p == IOTA_COLUMNXOR then round else 0), words);
    }
  }

  lemma StandIn(c: Control)
    requires c.Valid()
    ensures IotaRound(c) <= 24 && IotaRound(Control(IOTA_COLUMNXOR, 0, IotaRound(c))) == IotaRound(c)
  {
  }

  /** The temporaries in places 170 to 181. */
  function TemporaryAt(row: array<Fp>, k: nat): (s: seq<nat>)
    requires row.Length > 181 && k < 3
    ensures |s| == 4
    reads row
  {
    [row[170 + 4 * k], row[171 + 4 * k], row[172 + 4 * k], row[173 + 4 * k]]
  }

  method WriteTemporary(row: array<Fp>, k: nat, s: seq<nat>)
    requires row.Length > 181 && k < 3 && |s| == 4 && forall i :: 0 <= i < 4 ==> s[i] < 0x1_0000
    modifies row
    ensures TemporaryAt(row, k) == s
    ensures OnlyChanged(row, 170 + 4 * k, 173 + 4 * k, 170 + 4 * k, 173 + 4 * k)
  {
    row[170 + 4 * k] := s[0];
    row[171 + 4 * k] := s[1];
    row[172 + 4 * k] := s[2];
    row[173 + 4 * k] := s[3];
  }

  /** The places of a row as the circuit relates them, together with the words that are written. */
  function ValuesAt(row: array<Fp>, outputs: seq<seq<nat>>): Values
    requires row.Length > 181
    reads row
  {
    Values(outputs, [TemporaryAt(row, 0), TemporaryAt(row, 1), TemporaryAt(row, 2)],
           [RowsAt(row, 0), RowsAt(row, 1), RowsAt(row, 2), RowsAt(row, 3), RowsAt(row, 4)])
  }

  lemma HonestRowsSmall(c: Control, w: Words)
    requires c.Valid()
    ensures forall g, i :: 0 <= g < 5 && 0 <= i < 8 ==> Small(Honest(c, w).rows[g][i])
  {
    hide Honest, Gates, AllInTable, BytesFit, RotationFits, Small, WireLimbs;
    HonestHolds(c, w);
    var v := Honest(c, w);
    TableRowsSmall(Gates(c)[0].table, v.rows[0]);
    TableRowsSmall(Gates(c)[1].table, v.rows[1]);
    TableRowsSmall(Gates(c)[2].table, v.rows[2]);
    TableRowsSmall(Gates(c)[3].table, v.rows[3]);
    TableRowsSmall(Gates(c)[4].table, v.rows[4]);
  }

  lemma HonestTemporariesSmall(c: Control, w: Words)
    requires c.Valid()
    ensures forall k, i :: 0 <= k < 3 && 0 <= i < 4 ==> Honest(c, w).temporary[k][i] < 0x1_0000
  {
    hide StepHalves, StepRows, Temporaries, Limb, Value16;
  }

  method WriteRows(row: array<Fp>, rows: seq<Rows>)
    requires row.Length > 181 && |rows| == 5 && forall g, i :: 0 <= g < 5 && 0 <= i < 8 ==> Small(rows[g][i])
    modifies row
    ensures forall g :: 0 <= g < 5 ==> RowsAt(row, g) == rows[g]
    ensures OnlyChanged(row, 35, 159, 35, 159)
  {
    for g := 0 to 5
      invariant forall h, i :: 0 <= h < g && 0 <= i < 8 ==> RowAt(row, h, i) == rows[h][i]
      invariant forall n: nat | n < row.Length && !(35 <= n < 35 + 25 * g) :: row[n] == old(row[n])
    {
      label before:
      WriteGroup(row, g, rows[g]);
      forall h, i | 0 <= h <= g && 0 <= i < 8 ensures RowAt(row, h, i) == rows[h][i] {
        if h < g {
          assert old@before(RowAt(row, h, i)) == rows[h][i];
        } else {
          assert RowsAt(row, g)[i] == RowAt(row, g, i);
        }
      }
    }
    forall g | 0 <= g < 5 ensures RowsAt(row, g) == rows[g] {
      assert forall i :: 0 <= i < 8 ==> RowsAt(row, g)[i] == RowAt(row, g, i);
    }
  }

  method WriteTemporaries(row: array<Fp>, t: seq<seq<nat>>)
    requires row.Length > 181 && |t| == 3 && forall k :: 0 <= k < 3 ==> |t[k]| == 4
    requires forall k, i :: 0 <= k < 3 && 0 <= i < 4 ==> t[k][i] < 0x1_0000
    modifies row
    ensures [TemporaryAt(row, 0), TemporaryAt(row, 1), TemporaryAt(row, 2)] == t
    ensures OnlyChanged(row, 170, 181, 170, 181)
  {
    WriteTemporary(row, 0, t[0]);
    WriteTemporary(row, 1, t[1]);
    assert TemporaryAt(row, 0) == t[0];
    WriteTemporary(row, 2, t[2]);
    assert TemporaryAt(row, 0) == t[0] && TemporaryAt(row, 1) == t[1];
  }

  /** The values of the selected step, written row by row. */
  method EvalFn36(p: Proxy, ghost c: Control, ghost w: Words) returns (outputs: seq<seq<nat>>)
    requires HasRoom(p) && c.Valid() && Reads(p, c, w) && FlagsFor(p.witnessRow, true, c)
    requires ControlPlaces(p.witnessRow, c)
    modifies p.witnessRow
    ensures ValuesAt(p.witnessRow, outputs) == Honest(c, w)
    ensures OnlyChanged(p.witnessRow, 35, 159, 170, 181)
  {
    hide Honest, StepFlags, RoundFlags, Small, RowAt, IotaRound, WordAt, ControlPlaces;
    var words := ReadWords(p, c, w);
    var r := p.witnessRow;
    var round := SelectRound(p, c);
    var v := SelectStep(r, words, round, c);
    HonestRowsSmall(c, w);
    HonestTemporariesSmall(c, w);
    WriteTemporaries(r, v.temporary);
    WriteRows(r, v.rows);
    assert [TemporaryAt(r, 0), TemporaryAt(r, 1), TemporaryAt(r, 2)] == v.temporary;
    outputs := v.output;
  }

  lemma RoundOfWord(c: Control)
    requires c.Valid()
    ensures c.Encode() < 0x1_0000 && c.Encode() / 64 == c.round
  {
    DecodeEncode(c);
  }

  method SelectRound(p: Proxy, ghost c: Control) returns (round: nat)
    requires HasRoom(p) && c.Valid() && p.memoryRow[6] == c.Encode() && FlagsFor(p.witnessRow, true, c)
    ensures round == IotaRound(c)
  {
    hide StepFlags, RoundFlags, Control.Encode;
    RoundOfWord(c);
    round := if Mask(p.witnessRow[11]) then U16(p.memoryRow[6]) / 64 else 0;
  }

  /** The table numbers that group g uses in the seven steps. */
  function GroupTables(g: nat): (ids: seq<Fp>)
    requires g < 5
    ensures |ids| == 7
  {
    match g
    case 0 => [59, 61, 61, 4, 61, 60, 60]
    case 1 => [4, 61, 4, 4, 61, 60, 4]
    case 2 => [4, 4, 61, 4, 61, 4, 60]
    case 3 => [4, 61, 4, 4, 61, 60, 4]
    case _ => [4, 4, 4, 4, 61, 4, 4]
  }

  lemma GroupTablesAreGates(c: Control, g: nat)
    requires c.Valid() && g < 5
    ensures GroupTables(g)[c.precompile] == TableId(Gates(c)[g].table)
    ensures
      var ids: seq<Fp> :=
        match c.precompile
        case 0 => [59, 4, 4, 4, 4]
        case 1 => [61, 61, 4, 61, 4]
        case 2 => [61, 4, 61, 4, 4]
        case 3 => [4, 4, 4, 4, 4]
        case 4 => [61, 61, 61, 61, 61]
        case 5 => [60, 60, 4, 60, 4]
        case _ => [60, 4, 60, 4, 4];
      GroupTables(g)[c.precompile] == ids[g]
  {
    hide RotationOf;
  }

  /** The number of the table of group g, chosen by the step flags. */
  method ChooseTable(p: Proxy, g: nat, ghost c: Control)
    requires HasRoom(p) && g < 5 && c.Valid() && StepFlags(p.witnessRow, true, c.precompile)
    modifies p.witnessRow
    ensures p.witnessRow[TablePlace(g)] == TableId(Gates(c)[g].table)
    ensures OnlyChanged(p.witnessRow, TablePlace(g), TablePlace(g), TablePlace(g), TablePlace(g))
  {
    hide Gates;
    var w, ids := p.witnessRow, GroupTables(g);
    var v: Fp := 0;
    for i := 0 to 7
      invariant v == if i > c.precompile then ids[c.precompile] else 0
    {
      assert w[4 + i] == FromBool(c.precompile == i);
      v := if Mask(w[4 + i]) then Add(v, ids[i]) else v;
    }
    GroupTablesAreGates(c, g);
    w[TablePlace(g)] := v;
  }

  /** Every group's table place holds the number of the table that its gate needs. */
  ghost predicate TablesChosen(row: array<Fp>, c: Control)
    requires row.Length > 181 && c.Valid()
    reads row
  {
    forall g :: 0 <= g < 5 ==> row[TablePlace(g)] == TableId(Gates(c)[g].table)
  }

  /** The numbers of the five groups, step by step. */
  lemma TablesByStep(row: array<Fp>, c: Control)
    requires row.Length > 181 && c.Valid() && TablesChosen(row, c)
    ensures
      [row[38], row[63], row[88], row[113], row[138]] ==
        match c.precompile
        case 0 => [59, 4, 4, 4, 4]
        case 1 => [61, 61, 4, 61, 4]
        case 2 => [61, 4, 61, 4, 4]
        case 3 => [4, 4, 4, 4, 4]
        case 4 => [61, 61, 61, 61, 61]
        case 5 => [60, 60, 4, 60, 4]
        case _ => [60, 4, 60, 4, 4]
  {
    hide Gates, GroupTables;
    GroupTablesAreGates(c, 0);
    GroupTablesAreGates(c, 1);
    GroupTablesAreGates(c, 2);
    GroupTablesAreGates(c, 3);
    GroupTablesAreGates(c, 4);
    assert row[TablePlace(0)] == TableId(Gates(c)[0].table) && row[TablePlace(1)] == TableId(Gates(c)[1].table);
    assert row[TablePlace(2)] == TableId(Gates(c)[2].table) && row[TablePlace(3)] == TableId(Gates(c)[3].table);
    assert row[TablePlace(4)] == TableId(Gates(c)[4].table);
  }

  method EvalTables(p: Proxy, ghost c: Control, ghost outputs: seq<seq<nat>>)
    requires HasRoom(p) && c.Valid() && StepFlags(p.witnessRow, true, c.precompile)
    modifies p.witnessRow
    ensures
      var r := p.witnessRow;
      [r[38], r[63], r[88], r[113], r[138]] ==
        match c.precompile
        case 0 => [59, 4, 4, 4, 4]
        case 1 => [61, 61, 4, 61, 4]
        case 2 => [61, 4, 61, 4, 4]
        case 3 => [4, 4, 4, 4, 4]
        case 4 => [61, 61, 61, 61, 61]
        case 5 => [60, 60, 4, 60, 4]
        case _ => [60, 4, 60, 4, 4]
    ensures TablesChosen(p.witnessRow, c)
    ensures ValuesAt(p.witnessRow, outputs) == old(ValuesAt(p.witnessRow, outputs))
    ensures OnlyChanged(p.witnessRow, 35, 159, 35, 159)
  {
    hide Gates;
    var w := p.witnessRow;
    for g := 0 to 5
      invariant forall h :: 0 <= h < g ==> w[TablePlace(h)] == TableId(Gates(c)[h].table)
      invariant StepFlags(w, true, c.precompile)
      invariant forall h, i :: 0 <= h < 5 && 0 <= i < 8 ==> RowAt(w, h, i) == old(RowAt(w, h, i))
      invariant OnlyChanged(w, 35, 159, 35, 159)
    {
      ChooseTable(p, g, c);
    }
    forall h | 0 <= h < 5 ensures RowsAt(w, h) == old(RowsAt(w, h)) {
      assert forall i :: 0 <= i < 8 ==>
        RowsAt(w, h)[i] == RowAt(w, h, i) == old(RowAt(w, h, i)) == old(RowsAt(w, h))[i];
    }
    assert RowsAt(w, 0) == old(RowsAt(w, 0)) && RowsAt(w, 1) == old(RowsAt(w, 1)) && RowsAt(w, 2) == old(RowsAt(w, 2));
    TablesByStep(w, c);
  }

  method EvaluateRound(p: Proxy, ghost c: Control)
    requires HasRoom(p) && c.Valid() && FlagsFor(p.witnessRow, true, c)
    modifies p.witnessRow
    ensures FlagsFor(p.witnessRow, true, c) && RhoFlags(p.witnessRow, c) && ControlPlaces(p.witnessRow, c)
    ensures OnlyChanged(p.witnessRow, 160, 169, 160, 169)
  {
    hide FromBool, ControlLimbs, IotaRound;
    StandIn(c);
    EvalFn26To30(p, c);
    EvalFn31(p, c);
    EvalFn32To35(p, c);
  }

  /** The flags of a row, and the packed control bytes of its round constant. */
  method EvaluateFlags(p: Proxy, ghost c: Control)
    requires HasRoom(p) && c.Valid() && p.memoryRow[0] == 1 && p.memoryRow[6] == c.Encode()
    modifies p.witnessRow
    ensures FlagsFor(p.witnessRow, true, c) && RhoFlags(p.witnessRow, c) && ControlPlaces(p.witnessRow, c)
    ensures OnlyChanged(p.witnessRow, 4, 20, 160, 169)
  {
    hide Control.Encode, FromBool, ControlPlaces, RhoFlags, IotaRound, FlagsFor, Decode;
    RoundOfWord(c);
    DecodeEncode(c);
    EvalFn25(p);
    EvaluateRound(p, c);
  }

  method EvaluateRows(p: Proxy, ghost c: Control, ghost w: Words) returns (outputs: seq<seq<nat>>)
    requires HasRoom(p) && c.Valid() && Reads(p, c, w) && FlagsFor(p.witnessRow, true, c)
    requires ControlPlaces(p.witnessRow, c)
    modifies p.witnessRow
    ensures ValuesAt(p.witnessRow, outputs) == Honest(c, w) && TablesChosen(p.witnessRow, c)
    ensures OnlyChanged(p.witnessRow, 35, 159, 170, 181)
  {
    hide Honest, ValuesAt, WordAt, TablesChosen, Control.Encode, FromBool, ControlPlaces, IterationFlags, RoundFlags;
    outputs := EvalFn36(p, c, w);
    EvalTables(p, c, outputs);
  }

  /** One evaluation of an executing row: the places satisfy everything that the circuit enforces,
      each group names its table, and the words written are those of the machine's step. */
  method EvaluateWitness(p: Proxy, ghost c: Control, ghost w: Words) returns (outputs: seq<seq<nat>>)
    requires HasRoom(p) && c.Valid() && Reads(p, c, w)
    modifies p.witnessRow
    ensures
      var r := p.witnessRow;
      [r[38], r[63], r[88], r[113], r[138]] ==
        match c.precompile
        case 0 => [59, 4, 4, 4, 4]
        case 1 => [61, 61, 4, 61, 4]
        case 2 => [61, 4, 61, 4, 4]
        case 3 => [4, 4, 4, 4, 4]
        case 4 => [61, 61, 61, 61, 61]
        case 5 => [60, 60, 4, 60, 4]
        case _ => [60, 4, 60, 4, 4]
    ensures RowHolds(c, w, ValuesAt(p.witnessRow, outputs)) && TablesChosen(p.witnessRow, c)
    ensures FlagsFor(p.witnessRow, true, c) && RhoFlags(p.witnessRow, c) && ControlPlaces(p.witnessRow, c)
    ensures outputs == LimbsOf6(StepHalves(c, w)) && Lanes6(StepHalves(c, w)) == Outputs(c, Lanes6(w))
  {
    hide Honest, RowHolds, ValuesAt, WordAt, StepHalves, Lanes6, Outputs, TablesChosen, Control.Encode, FromBool,
      ControlLimbs, IotaRound, Decode;
    EvaluateFlags(p, c);
    outputs := EvaluateRows(p, c, w);
    HonestHolds(c, w);
    StepHalvesIsStep(c, w);
    OutputsOf(c, w, p.witnessRow, outputs);
    TablesByStep(p.witnessRow, c);
  }

  lemma OutputsOf(c: Control, w: Words, row: array<Fp>, outputs: seq<seq<nat>>)
    requires c.Valid() && row.Length > 181 && ValuesAt(row, outputs) == Honest(c, w)
    ensures outputs == LimbsOf6(StepHalves(c, w))
  {
    hide StepHalves, StepRows, Temporaries, TemporaryAt, RowsAt, Limbs;
  }
}
