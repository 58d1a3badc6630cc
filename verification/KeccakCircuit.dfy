/** One row of the keccak_special5 delegation circuit: the wiring of its five lookup groups, the
    values that the witness computation gives to the wires, and what the wiring alone enforces. */
module KeccakCircuit {
  import opened KeccakSpec
  import opened KeccakMachine
  import opened KeccakHalves
  import opened KeccakRows

  /** A wire is one of the six words read, the six written, three temporaries, or the packed control
      bytes of the iota step. */
  datatype Wire = In(n: nat) | Out(n: nat) | Tmp(n: nat) | ControlBytesWire | NoWire

  datatype Gate = Gate(table: Table, rotation: nat, in1: Wire, in2: Wire, out: Wire)

  function RotationGate(k: nat, from: Wire, to: Wire): Gate {
    Gate(RotLTable, k, from, NoWire, to)
  }

  function XorGate(x: Wire, y: Wire, to: Wire): Gate {
    Gate(XorTable, 0, x, y, to)
  }

  function AndNotGate(x: Wire, y: Wire, to: Wire): Gate {
    Gate(AndNTable, 0, x, y, to)
  }

  /** What each of the five lookup groups computes in each of the seven steps. */
  function Gates(c: Control): (g: seq<Gate>)
    requires c.Valid()
    ensures |g| == 5
  {
    var p := c.precompile;
    if p == IOTA_COLUMNXOR then
      [Gate(XorSpecialIota, 0, In(0), ControlBytesWire, Out(0)), XorGate(Out(0), In(1), Tmp(0)),
       XorGate(Tmp(0), In(2), Tmp(1)), XorGate(Tmp(1), In(3), Tmp(2)), XorGate(Tmp(2), In(4), Out(5))]
    else if p == COLUMNMIX1 then
      [RotationGate(1, In(0), Out(5)), RotationGate(1, In(2), Tmp(0)), XorGate(In(0), Tmp(0), Out(0)),
       RotationGate(1, In(4), Tmp(1)), XorGate(In(2), Tmp(1), Out(2))]
    else if p == COLUMNMIX2 then
      [RotationGate(1, In(1), Tmp(0)), XorGate(In(4), Tmp(0), Out(4)), RotationGate(1, In(3), Tmp(1)),
       XorGate(In(1), Tmp(1), Out(1)), XorGate(In(3), In(5), Out(3))]
    else if p == THETA then
      [XorGate(In(0), In(5), Out(0)), XorGate(In(1), In(5), Out(1)), XorGate(In(2), In(5), Out(2)),
       XorGate(In(3), In(5), Out(3)), XorGate(In(4), In(5), Out(4))]
    else if p == RHO then
      var r := RotationOf(c.iteration);
      [RotationGate(r[0], In(0), Out(0)), RotationGate(r[1], In(1), Out(1)), RotationGate(r[2], In(2), Out(2)),
       RotationGate(r[3], In(3), Out(3)), RotationGate(r[4], In(4), Out(4))]
    else if p == CHI1 then
      [AndNotGate(In(0), In(1), Out(4)), AndNotGate(In(1), In(2), Tmp(0)), XorGate(In(0), Tmp(0), Out(0)),
       AndNotGate(In(2), In(3), Tmp(1)), XorGate(In(1), Tmp(1), Out(1))]
    else
      [AndNotGate(In(2), In(0), Tmp(0)), XorGate(In(1), Tmp(0), Out(1)), AndNotGate(In(0), In(4), Tmp(1)),
       XorGate(In(2), Tmp(1), Out(2)), XorGate(In(0), In(3), Out(0))]
  }

  /** The words that a step leaves alone, as pairs of input and output position. */
  function Copies(c: Control): seq<(nat, nat)>
    requires c.Valid()
  {
    var p := c.precompile;
    if p == IOTA_COLUMNXOR then [(1, 1), (2, 2), (3, 3), (4, 4)]
    else if p == COLUMNMIX1 then [(1, 1), (3, 3), (4, 4)]
    else if p == COLUMNMIX2 then [(0, 0), (2, 2), (5, 5)]
    else if p == THETA || p == RHO then [(5, 5)]
    else if p == CHI1 then [(0, 5), (2, 2), (3, 3)]
    else [(3, 3), (4, 4), (5, 5)]
  }

  type Words = w: seq<Halves> | |w| == 6 witness seq(6, _ => Halves(0, 0))

  /** The places of a row: limbs of what is written and of the temporaries, and the lookup rows. */
  datatype Values = Values(output: seq<seq<nat>>, temporary: seq<seq<nat>>, rows: seq<Rows>) {
    ghost predicate Shaped() {
      && |output| == 6 && |temporary| == 3 && |rows| == 5
      && (forall k :: 0 <= k < 6 ==> |output[k]| == 4) && (forall k :: 0 <= k < 3 ==> |temporary[k]| == 4)
    }
  }

  /** The round whose constant the iota step adds: only its first iteration has one. */
  function IotaRound(c: Control): nat {
    if c.iteration == 0 then c.round else 0
  }

  function WireLimbs(c: Control, w: Words, v: Values, wire: Wire): (s: seq<nat>)
    requires v.Shaped()
    ensures |s| == 4
  {
    match wire
    case In(n) => if n < 6 then Limbs(w[n]) else [0, 0, 0, 0]
    case Out(n) => if n < 6 then v.output[n] else [0, 0, 0, 0]
    case Tmp(n) => if n < 3 then v.temporary[n] else [0, 0, 0, 0]
    case ControlBytesWire => ControlLimbs(IotaRound(c))
    case NoWire => [0, 0, 0, 0]
  }

  /** What the circuit enforces of one lookup group: its rows are in the chosen table and recompose
      to the wires. */
  ghost predicate GateHolds(c: Control, w: Words, v: Values, g: Gate, rows: Rows)
    requires v.Shaped()
  {
    && AllInTable(g.table, rows)
    && (if g.table.RotLTable? then
          g.rotation < 64 && RotationFits(rows, g.rotation, WireLimbs(c, w, v, g.in1), WireLimbs(c, w, v, g.out))
        else
          BytesFit(rows, WireLimbs(c, w, v, g.in1), WireLimbs(c, w, v, g.in2), WireLimbs(c, w, v, g.out)))
  }

  /** Everything that the circuit enforces of a row besides the next control word. */
  ghost predicate RowHolds(c: Control, w: Words, v: Values)
    requires c.Valid()
  {
    && v.Shaped()
    && GateHolds(c, w, v, Gates(c)[0], v.rows[0]) && GateHolds(c, w, v, Gates(c)[1], v.rows[1])
    && GateHolds(c, w, v, Gates(c)[2], v.rows[2]) && GateHolds(c, w, v, Gates(c)[3], v.rows[3])
    && GateHolds(c, w, v, Gates(c)[4], v.rows[4])
    && forall k :: 0 <= k < |Copies(c)| ==>
      Copies(c)[k].0 < 6 && Copies(c)[k].1 < 6 && v.output[Copies(c)[k].1] == Limbs(w[Copies(c)[k].0])
  }

  function IotaHalves(w: Words, rc: Halves): Words {
    var o := XorHalves(w[0], rc);
    [o, w[1], w[2], w[3], w[4], XorHalves(XorHalves(XorHalves(XorHalves(o, w[1]), w[2]), w[3]), w[4])]
  }

  function Mix1Halves(w: Words): Words {
    [XorHalves(w[0], RotlHalves(w[2], 1)), w[1], XorHalves(w[2], RotlHalves(w[4], 1)), w[3], w[4], RotlHalves(w[0], 1)]
  }

  function Mix2Halves(w: Words): Words {
    [w[0], XorHalves(w[1], RotlHalves(w[3], 1)), w[2], XorHalves(w[3], w[5]), XorHalves(w[4], RotlHalves(w[1], 1)),
      w[5]]
  }

  function ThetaHalves(w: Words): Words {
    [XorHalves(w[0], w[5]), XorHalves(w[1], w[5]), XorHalves(w[2], w[5]), XorHalves(w[3], w[5]), XorHalves(w[4], w[5]),
      w[5]]
  }

  function RhoHalves(w: Words, r: seq<nat>): Words
    requires |r| == 5 && forall k :: 0 <= k < 5 ==> r[k] < 64
  {
    [RotlHalves(w[0], r[0]), RotlHalves(w[1], r[1]), RotlHalves(w[2], r[2]), RotlHalves(w[3], r[3]),
      RotlHalves(w[4], r[4]), w[5]]
  }

  function Chi1Halves(w: Words): Words {
    [XorHalves(w[0], AndNotHalves(w[1], w[2])), XorHalves(w[1], AndNotHalves(w[2], w[3])), w[2], w[3],
     AndNotHalves(w[0], w[1]), w[0]]
  }

  function Chi2Halves(w: Words): Words {
    [XorHalves(w[0], w[3]), XorHalves(w[1], AndNotHalves(w[2], w[0])), XorHalves(w[2], AndNotHalves(w[0], w[4])), w[3],
      w[4], w[5]]
  }

  /** The step that a valid control word selects, on halves. */
  function StepHalves(c: Control, w: Words): Words
    requires c.Valid()
  {
    var p := c.precompile;
    if p == IOTA_COLUMNXOR then IotaHalves(w, Parts(AdjustedConstant(IotaRound(c))))
    else if p == COLUMNMIX1 then Mix1Halves(w)
    else if p == COLUMNMIX2 then Mix2Halves(w)
    else if p == THETA then ThetaHalves(w)
    else if p == RHO then RhoHalves(w, RotationOf(c.iteration))
    else if p == CHI1 then Chi1Halves(w)
    else Chi2Halves(w)
  }

  function Lanes6(w: Words): (s: seq<Lane>)
    ensures |s| == 6
  {
    [Join(w[0]), Join(w[1]), Join(w[2]), Join(w[3]), Join(w[4]), Join(w[5])]
  }

  /** Read as lanes, the step on halves is the step of the machine. */
  lemma StepHalvesIsStep(c: Control, w: Words)
    requires c.Valid()
    ensures Lanes6(StepHalves(c, w)) == Outputs(c, Lanes6(w))
  {
    hide Join, Xor, AndNot, Rotl, XorHalves, AndNotHalves, RotlHalves, Parts, AdjustedConstant;
    var p := c.precompile;
    if p == IOTA_COLUMNXOR {
      var rc := Parts(AdjustedConstant(IotaRound(c)));
      JoinParts(AdjustedConstant(IotaRound(c)));
      JoinXor(w[0], rc);
      var o := XorHalves(w[0], rc);
      var a := XorHalves(o, w[1]);
      var b := XorHalves(a, w[2]);
      var d := XorHalves(b, w[3]);
      JoinXor(o, w[1]); JoinXor(a, w[2]); JoinXor(b, w[3]); JoinXor(d, w[4]);
    } else if p == COLUMNMIX1 {
      JoinRotl(w[2], 1); JoinRotl(w[4], 1); JoinRotl(w[0], 1);
      JoinXor(w[0], RotlHalves(w[2], 1)); JoinXor(w[2], RotlHalves(w[4], 1));
    } else if p == COLUMNMIX2 {
      JoinRotl(w[3], 1); JoinRotl(w[1], 1);
      JoinXor(w[1], RotlHalves(w[3], 1)); JoinXor(w[3], w[5]); JoinXor(w[4], RotlHalves(w[1], 1));
    } else if p == THETA {
      JoinXor(w[0], w[5]); JoinXor(w[1], w[5]); JoinXor(w[2], w[5]); JoinXor(w[3], w[5]); JoinXor(w[4], w[5]);
    } else if p == RHO {
      var r := RotationOf(c.iteration);
      JoinRotl(w[0], r[0]); JoinRotl(w[1], r[1]); JoinRotl(w[2], r[2]); JoinRotl(w[3], r[3]); JoinRotl(w[4], r[4]);
    } else if p == CHI1 {
      JoinAndNot(w[1], w[2]); JoinAndNot(w[2], w[3]); JoinAndNot(w[0], w[1]);
      JoinXor(w[0], AndNotHalves(w[1], w[2])); JoinXor(w[1], AndNotHalves(w[2], w[3]));
    } else {
      JoinAndNot(w[2], w[0]); JoinAndNot(w[0], w[4]);
      JoinXor(w[0], w[3]); JoinXor(w[1], AndNotHalves(w[2], w[0])); JoinXor(w[2], AndNotHalves(w[0], w[4]));
    }
  }

  /** What a gate computes from its operands. */
  function Apply(c: Control, g: Gate, x: Halves, y: Halves): Halves
    requires c.Valid() && g.rotation < 64
  {
    match g.table
    case XorTable => XorHalves(x, y)
    case AndNTable => AndNotHalves(x, y)
    case RotLTable => RotlHalves(x, g.rotation)
    case XorSpecialIota => XorHalves(x, Parts(AdjustedConstant(IotaRound(c))))
    case ZeroEntry => x
  }

  /** A gate with a real table whose second operand fits it. */
  predicate Real(g: Gate) {
    g.rotation < 64 && g.table != ZeroEntry && (g.table.XorSpecialIota? ==> g.in2 == ControlBytesWire)
  }

  /** The rows of a gate fix what its output wire carries. */
  lemma GateDetermines(c: Control, w: Words, v: Values, n: nat, x: Halves, y: Halves)
    requires c.Valid() && n < 5 && v.Shaped() && Real(Gates(c)[n]) && GateHolds(c, w, v, Gates(c)[n], v.rows[n])
    requires WireLimbs(c, w, v, Gates(c)[n].in1) == Limbs(x)
    requires Gates(c)[n].table.XorTable? || Gates(c)[n].table.AndNTable?
      ==> WireLimbs(c, w, v, Gates(c)[n].in2) == Limbs(y)
    ensures WireLimbs(c, w, v, Gates(c)[n].out) == Limbs(Apply(c, Gates(c)[n], x, y))
  {
    hide Limbs, AllInTable, BytesFit, RotationFits, XorHalves, AndNotHalves, RotlHalves, Parts, AdjustedConstant,
      ControlLimbs, Gates;
    var g, rows := Gates(c)[n], v.rows[n];
    var out := WireLimbs(c, w, v, g.out);
    match g.table
    case XorTable => XorRowsDetermine(rows, x, y, out);
    case AndNTable => AndNotRowsDetermine(rows, x, y, out);
    case RotLTable => RotationRowsDetermine(rows, x, g.rotation, out);
    case XorSpecialIota => IotaRowsDetermine(rows, x, IotaRound(c), out);
    case ZeroEntry =>
  }

  lemma GatesReal(c: Control)
    requires c.Valid()
    ensures forall n :: 0 <= n < 5 ==> Real(Gates(c)[n])
  {
  }

  lemma RowDeterminesColumns(c: Control, w: Words, v: Values)
    requires c.Valid() && c.precompile < THETA && RowHolds(c, w, v)
    ensures forall k :: 0 <= k < 6 ==> v.output[k] == Limbs(StepHalves(c, w)[k])
  {
    hide Limbs, GateHolds, XorHalves, AndNotHalves, RotlHalves, Parts, AdjustedConstant, ControlLimbs, Real;
    GatesReal(c);
    var p := c.precompile;
    if p == IOTA_COLUMNXOR {
      var o := XorHalves(w[0], Parts(AdjustedConstant(IotaRound(c))));
      var a := XorHalves(o, w[1]);
      var b := XorHalves(a, w[2]);
      GateDetermines(c, w, v, 0, w[0], w[0]);
      GateDetermines(c, w, v, 1, o, w[1]);
      GateDetermines(c, w, v, 2, a, w[2]);
      GateDetermines(c, w, v, 3, b, w[3]);
      GateDetermines(c, w, v, 4, XorHalves(b, w[3]), w[4]);
      assert Copies(c)[0] == (1, 1) && Copies(c)[1] == (2, 2) && Copies(c)[2] == (3, 3) && Copies(c)[3] == (4, 4);
    } else if p == COLUMNMIX1 {
      GateDetermines(c, w, v, 0, w[0], w[0]);
      GateDetermines(c, w, v, 1, w[2], w[0]);
      GateDetermines(c, w, v, 2, w[0], RotlHalves(w[2], 1));
      GateDetermines(c, w, v, 3, w[4], w[0]);
      GateDetermines(c, w, v, 4, w[2], RotlHalves(w[4], 1));
      assert Copies(c)[0] == (1, 1) && Copies(c)[1] == (3, 3) && Copies(c)[2] == (4, 4);
    } else {
      GateDetermines(c, w, v, 0, w[1], w[0]);
      GateDetermines(c, w, v, 1, w[4], RotlHalves(w[1], 1));
      GateDetermines(c, w, v, 2, w[3], w[0]);
      GateDetermines(c, w, v, 3, w[1], RotlHalves(w[3], 1));
      GateDetermines(c, w, v, 4, w[3], w[5]);
      assert Copies(c)[0] == (0, 0) && Copies(c)[1] == (2, 2) && Copies(c)[2] == (5, 5);
    }
  }

  lemma RowDeterminesLanes(c: Control, w: Words, v: Values)
    requires c.Valid() && c.precompile >= THETA && RowHolds(c, w, v)
    ensures forall k :: 0 <= k < 6 ==> v.output[k] == Limbs(StepHalves(c, w)[k])
  {
    hide Limbs, GateHolds, XorHalves, AndNotHalves, RotlHalves, Parts, AdjustedConstant, ControlLimbs, Real;
    GatesReal(c);
    var p := c.precompile;
    if p == THETA || p == RHO {
      GateDetermines(c, w, v, 0, w[0], w[5]);
      GateDetermines(c, w, v, 1, w[1], w[5]);
      GateDetermines(c, w, v, 2, w[2], w[5]);
      GateDetermines(c, w, v, 3, w[3], w[5]);
      GateDetermines(c, w, v, 4, w[4], w[5]);
      assert Copies(c)[0] == (5, 5);
    } else if p == CHI1 {
      GateDetermines(c, w, v, 0, w[0], w[1]);
      GateDetermines(c, w, v, 1, w[1], w[2]);
      GateDetermines(c, w, v, 2, w[0], AndNotHalves(w[1], w[2]));
      GateDetermines(c, w, v, 3, w[2], w[3]);
      GateDetermines(c, w, v, 4, w[1], AndNotHalves(w[2], w[3]));
      assert Copies(c)[0] == (0, 5) && Copies(c)[1] == (2, 2) && Copies(c)[2] == (3, 3);
    } else {
      GateDetermines(c, w, v, 0, w[2], w[0]);
      GateDetermines(c, w, v, 1, w[1], AndNotHalves(w[2], w[0]));
      GateDetermines(c, w, v, 2, w[0], w[4]);
      GateDetermines(c, w, v, 3, w[2], AndNotHalves(w[0], w[4]));
      GateDetermines(c, w, v, 4, w[0], w[3]);
      assert Copies(c)[0] == (3, 3) && Copies(c)[1] == (4, 4) && Copies(c)[2] == (5, 5);
    }
  }

  /** The wiring leaves no choice: whatever rows and places satisfy it, the words written are those of
      the step. Tables and recomposition together rule out every other output. */
  lemma RowDetermines(c: Control, w: Words, v: Values)
    requires c.Valid() && RowHolds(c, w, v)
    ensures forall k :: 0 <= k < 6 ==> v.output[k] == Limbs(StepHalves(c, w)[k])
  {
    hide *;
    if c.precompile < THETA {
      RowDeterminesColumns(c, w, v);
    } else {
      RowDeterminesLanes(c, w, v);
    }
  }

  function LimbsOf6(w: Words): (s: seq<seq<nat>>)
    ensures |s| == 6 && forall k :: 0 <= k < 6 ==> |s[k]| == 4
  {
    [Limbs(w[0]), Limbs(w[1]), Limbs(w[2]), Limbs(w[3]), Limbs(w[4]), Limbs(w[5])]
  }

  /** The temporaries of a step. */
  function Temporaries(c: Control, w: Words): (t: seq<Halves>)
    requires c.Valid()
    ensures |t| == 3
  {
    var p, none := c.precompile, Halves(0, 0);
    if p == IOTA_COLUMNXOR then
      var a := XorHalves(XorHalves(w[0], Parts(AdjustedConstant(IotaRound(c)))), w[1]);
      [a, XorHalves(a, w[2]), XorHalves(XorHalves(a, w[2]), w[3])]
    else if p == COLUMNMIX1 then [RotlHalves(w[2], 1), RotlHalves(w[4], 1), none]
    else if p == COLUMNMIX2 then [RotlHalves(w[1], 1), RotlHalves(w[3], 1), none]
    else if p == CHI1 then [AndNotHalves(w[1], w[2]), AndNotHalves(w[2], w[3]), none]
    else if p == CHI2 then [AndNotHalves(w[2], w[0]), AndNotHalves(w[0], w[4]), none]
    else [none, none, none]
  }

  /** The rows of the five groups. */
  function StepRows(c: Control, w: Words): (s: seq<Rows>)
    requires c.Valid()
    ensures |s| == 5
  {
    var p := c.precompile;
    var t := Temporaries(c, w);
    if p == IOTA_COLUMNXOR then
      [IotaRows(w[0], IotaRound(c)), XorRows(XorHalves(w[0], Parts(AdjustedConstant(IotaRound(c)))), w[1]),
       XorRows(t[0], w[2]), XorRows(t[1], w[3]), XorRows(t[2], w[4])]
    else if p == COLUMNMIX1 then
      [RotationRows(w[0], 1), RotationRows(w[2], 1), XorRows(w[0], t[0]), RotationRows(w[4], 1), XorRows(w[2], t[1])]
    else if p == COLUMNMIX2 then
      [RotationRows(w[1], 1), XorRows(w[4], t[0]), RotationRows(w[3], 1), XorRows(w[1], t[1]), XorRows(w[3], w[5])]
    else if p == THETA then
      [XorRows(w[0], w[5]), XorRows(w[1], w[5]), XorRows(w[2], w[5]), XorRows(w[3], w[5]), XorRows(w[4], w[5])]
    else if p == RHO then
      var r := RotationOf(c.iteration);
      [RotationRows(w[0], r[0]), RotationRows(w[1], r[1]), RotationRows(w[2], r[2]), RotationRows(w[3], r[3]),
        RotationRows(w[4], r[4])]
    else if p == CHI1 then
      [AndNotRows(w[0], w[1]), AndNotRows(w[1], w[2]), XorRows(w[0], t[0]), AndNotRows(w[2], w[3]), XorRows(w[1], t[1])]
    else
      [AndNotRows(w[2], w[0]), XorRows(w[1], t[0]), AndNotRows(w[0], w[4]), XorRows(w[2], t[1]), XorRows(w[0], w[3])]
  }

  /** What the witness computation assigns for a valid control word. */
  function Honest(c: Control, w: Words): (v: Values)
    requires c.Valid()
    ensures v.Shaped()
  {
    var t := Temporaries(c, w);
    Values(LimbsOf6(StepHalves(c, w)), [Limbs(t[0]), Limbs(t[1]), Limbs(t[2])], StepRows(c, w))
  }

  lemma XorGateHolds(c: Control, w: Words, v: Values, n: nat, x: Halves, y: Halves)
    requires c.Valid() && n < 5 && v.Shaped() && Gates(c)[n].table.XorTable? && v.rows[n] == XorRows(x, y)
    requires WireLimbs(c, w, v, Gates(c)[n].in1) == Limbs(x) && WireLimbs(c, w, v, Gates(c)[n].in2) == Limbs(y)
    requires WireLimbs(c, w, v, Gates(c)[n].out) == Limbs(XorHalves(x, y))
    ensures GateHolds(c, w, v, Gates(c)[n], v.rows[n])
  {
    hide Gates, Limbs, XorHalves, XorRows, AllInTable, BytesFit, WireLimbs;
    XorRowsHold(x, y);
  }

  lemma AndNotGateHolds(c: Control, w: Words, v: Values, n: nat, x: Halves, y: Halves)
    requires c.Valid() && n < 5 && v.Shaped() && Gates(c)[n].table.AndNTable? && v.rows[n] == AndNotRows(x, y)
    requires WireLimbs(c, w, v, Gates(c)[n].in1) == Limbs(x) && WireLimbs(c, w, v, Gates(c)[n].in2) == Limbs(y)
    requires WireLimbs(c, w, v, Gates(c)[n].out) == Limbs(AndNotHalves(x, y))
    ensures GateHolds(c, w, v, Gates(c)[n], v.rows[n])
  {
    hide Gates, Limbs, AndNotHalves, AndNotRows, AllInTable, BytesFit, WireLimbs;
    AndNotRowsHold(x, y);
  }

  lemma RotationGateHolds(c: Control, w: Words, v: Values, n: nat, x: Halves)
    requires c.Valid() && n < 5 && v.Shaped() && Gates(c)[n].table.RotLTable? && Gates(c)[n].rotation < 64
    requires v.rows[n] == RotationRows(x, Gates(c)[n].rotation)
    requires WireLimbs(c, w, v, Gates(c)[n].in1) == Limbs(x)
    requires WireLimbs(c, w, v, Gates(c)[n].out) == Limbs(RotlHalves(x, Gates(c)[n].rotation))
    ensures GateHolds(c, w, v, Gates(c)[n], v.rows[n])
  {
    hide Gates, Limbs, RotlHalves, RotationRows, AllInTable, RotationFits, WireLimbs;
    RotationRowsHold(x, Gates(c)[n].rotation);
  }

  lemma IotaGateHolds(c: Control, w: Words, v: Values, n: nat, x: Halves)
    requires c.Valid() && n < 5 && v.Shaped() && Gates(c)[n].table.XorSpecialIota?
    requires Gates(c)[n].in2 == ControlBytesWire
    requires v.rows[n] == IotaRows(x, IotaRound(c))
    requires WireLimbs(c, w, v, Gates(c)[n].in1) == Limbs(x)
    requires WireLimbs(c, w, v, Gates(c)[n].out) == Limbs(XorHalves(x, Parts(AdjustedConstant(IotaRound(c)))))
    ensures GateHolds(c, w, v, Gates(c)[n], v.rows[n])
  {
    hide Gates, Limbs, XorHalves, IotaRows, AllInTable, BytesFit, Parts, AdjustedConstant, ControlLimbs;
    IotaRowsHold(x, IotaRound(c));
  }

  lemma HonestHoldsColumns(c: Control, w: Words)
    requires c.Valid() && c.precompile < THETA
    ensures RowHolds(c, w, Honest(c, w))
  {
    hide Limbs, GateHolds, XorHalves, AndNotHalves, RotlHalves, Parts, AdjustedConstant, ControlLimbs, XorRows,
      AndNotRows, RotationRows, IotaRows;
    var p, v, t := c.precompile, Honest(c, w), Temporaries(c, w);
    if p == IOTA_COLUMNXOR {
      IotaGateHolds(c, w, v, 0, w[0]);
      XorGateHolds(c, w, v, 1, XorHalves(w[0], Parts(AdjustedConstant(IotaRound(c)))), w[1]);
      XorGateHolds(c, w, v, 2, t[0], w[2]);
      XorGateHolds(c, w, v, 3, t[1], w[3]);
      XorGateHolds(c, w, v, 4, t[2], w[4]);
    } else if p == COLUMNMIX1 {
      RotationGateHolds(c, w, v, 0, w[0]);
      RotationGateHolds(c, w, v, 1, w[2]);
      XorGateHolds(c, w, v, 2, w[0], t[0]);
      RotationGateHolds(c, w, v, 3, w[4]);
      XorGateHolds(c, w, v, 4, w[2], t[1]);
    } else {
      RotationGateHolds(c, w, v, 0, w[1]);
      XorGateHolds(c, w, v, 1, w[4], t[0]);
      RotationGateHolds(c, w, v, 2, w[3]);
      XorGateHolds(c, w, v, 3, w[1], t[1]);
      XorGateHolds(c, w, v, 4, w[3], w[5]);
    }
  }

  lemma HonestHoldsLanes(c: Control, w: Words)
    requires c.Valid() && THETA <= c.precompile <= RHO
    ensures RowHolds(c, w, Honest(c, w))
  {
    hide Limbs, GateHolds, XorHalves, AndNotHalves, RotlHalves, Parts, AdjustedConstant, ControlLimbs, XorRows,
      AndNotRows, RotationRows, IotaRows;
    var p, v, t := c.precompile, Honest(c, w), Temporaries(c, w);
    if p == THETA {
      XorGateHolds(c, w, v, 0, w[0], w[5]);
      XorGateHolds(c, w, v, 1, w[1], w[5]);
      XorGateHolds(c, w, v, 2, w[2], w[5]);
      XorGateHolds(c, w, v, 3, w[3], w[5]);
      XorGateHolds(c, w, v, 4, w[4], w[5]);
    } else {
      RotationGateHolds(c, w, v, 0, w[0]);
      RotationGateHolds(c, w, v, 1, w[1]);
      RotationGateHolds(c, w, v, 2, w[2]);
      RotationGateHolds(c, w, v, 3, w[3]);
      RotationGateHolds(c, w, v, 4, w[4]);
    }
  }

  lemma HonestHoldsChi(c: Control, w: Words)
    requires c.Valid() && c.precompile >= CHI1
    ensures RowHolds(c, w, Honest(c, w))
  {
    hide Limbs, GateHolds, XorHalves, AndNotHalves, RotlHalves, Parts, AdjustedConstant, ControlLimbs, XorRows,
      AndNotRows, RotationRows, IotaRows;
    var p, v, t := c.precompile, Honest(c, w), Temporaries(c, w);
    if p == CHI1 {
      AndNotGateHolds(c, w, v, 0, w[0], w[1]);
      AndNotGateHolds(c, w, v, 1, w[1], w[2]);
      XorGateHolds(c, w, v, 2, w[0], t[0]);
      AndNotGateHolds(c, w, v, 3, w[2], w[3]);
      XorGateHolds(c, w, v, 4, w[1], t[1]);
    } else {
      AndNotGateHolds(c, w, v, 0, w[2], w[0]);
      XorGateHolds(c, w, v, 1, w[1], t[0]);
      AndNotGateHolds(c, w, v, 2, w[0], w[4]);
      XorGateHolds(c, w, v, 3, w[2], t[1]);
      XorGateHolds(c, w, v, 4, w[0], w[3]);
    }
  }

  /** In every step all forty rows agree with their group's table and recompose to the wires. */
  lemma HonestHolds(c: Control, w: Words)
    requires c.Valid()
    ensures RowHolds(c, w, Honest(c, w))
  {
    hide RowHolds, Honest;
    if c.precompile < THETA {
      HonestHoldsColumns(c, w);
    } else if c.precompile <= RHO {
      HonestHoldsLanes(c, w);
    } else {
      HonestHoldsChi(c, w);
    }
  }

  /** The next control fields as the witness computation selects them, in 16-bit arithmetic. */
  function NextControl(c: Control): Control {
    var p, last := c.precompile, c.iteration == 4;
    var afterLoop := if last then (p + 1) % 0x1_0000 else p;
    var retreat := if last then 0 else (p - 1) % 0x1_0000;
    var turn := if last then 0 else (c.iteration + 1) % 0x1_0000;
    Control(
      if p == 0 || p == 3 || p == 4 then afterLoop
      else if p == 1 || p == 2 || p == 5 then (p + 1) % 0x1_0000
      else if p == 6 then retreat
      else 0,
      if p == 0 || p == 3 || p == 4 || p == 6 then turn else if p < 7 then c.iteration else 0,
      if p == 6 && last then (c.round + 1) % 0x1_0000 else c.round)
  }

  /** Both ways of advancing the control word agree with the machine, which therefore stays on its
      path from row to row. */
  lemma NextControlIsBump(c: Control)
    requires c.Valid()
    ensures Decode(c.Encode()) == c && NextControl(c) == Bump(c)
  {
    hide Decode, Control.Encode;
    DecodeEncode(c);
  }

  /** The linear expression by which the circuit constrains the next control word, over the flags of
      the step and of the last iteration. */
  function NextControlExpression(c: Control): int {
    var flag := (p: nat) => if c.precompile == p then 1 else 0;
    var last := if c.iteration == 4 then 1 else 0;
    var step := c.precompile + (flag(1) + flag(2) + flag(5))
      + (flag(0) + flag(3) + flag(4)) * last - flag(6) * (1 + 5 * last);
    var iteration := c.iteration + (flag(0) + flag(3) + flag(4) + flag(6)) * (1 - 5 * last);
    var round := c.round + flag(6) * last;
    step + 8 * iteration + 64 * round
  }

  lemma NextControlConstraint(c: Control)
    requires c.Valid()
    ensures NextControlExpression(c) == Bump(c).Encode()
  {
  }
}
