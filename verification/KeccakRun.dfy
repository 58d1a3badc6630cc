/** What a whole run of the micro-program computes. */
module KeccakRun {
  import opened KeccakSpec
  import opened KeccakOrder
  import opened KeccakMachine

  /** Where round r keeps word t of the logical memory: the 25 lanes, then the scratch words. */
  function Physical(r: nat, t: nat): (k: nat)
    requires r <= 24 && t < 31
    ensures k < 31
  {
    if t < 25 then Place(r, t) else t
  }

  function Logical(m: Memory, r: nat): Memory
    requires r <= 24
  {
    seq(31, t requires 0 <= t < 31 => m[Physical(r, t)])
  }

  lemma PhysicalInjective(r: nat, s: nat, t: nat)
    requires r <= 24 && s < 31 && t < 31
    ensures Physical(r, s) == Physical(r, t) ==> s == t
  {
    if s < 25 && t < 25 {
      PlaceInjective(r, s, t);
    }
  }

  lemma {:induction false} LogicalScatter(m: Memory, r: nat, slots: seq<nat>, idx: seq<nat>, out: seq<Lane>, n: nat)
    requires r <= 24 && |slots| == |idx| == |out| == 6 && n <= 6
    requires forall k :: 0 <= k < 6 ==> slots[k] < 31 && idx[k] == Physical(r, slots[k]) < 31
    ensures Logical(Scatter(m, idx, out, n), r) == Scatter(Logical(m, r), slots, out, n)
  {
    if n > 0 {
      LogicalScatter(m, r, slots, idx, out, n - 1);
      forall t: nat | t < 31
        ensures Logical(Scatter(m, idx, out, n), r)[t] == Scatter(Logical(m, r), slots, out, n)[t]
      {
        PhysicalInjective(r, t, slots[n - 1]);
      }
    }
  }

  /** The slots a step works on. They do not depend on the round. */
  function Slots(c: Control): (slots: seq<nat>)
    requires c.Valid()
    ensures |slots| == 6 && forall k :: 0 <= k < 6 ==> slots[k] < 31
  {
    var p, i := c.precompile, c.iteration;
    if p == IOTA_COLUMNXOR then [i, i + 5, i + 10, i + 15, i + 20, 25 + i]
    else if p == COLUMNMIX1 || p == COLUMNMIX2 then [25, 26, 27, 28, 29, 30]
    else if p == THETA then [i, i + 5, i + 10, i + 15, i + 20, if i == 0 then 29 else 24 + i]
    else if p == RHO then [i, i + 5, i + 10, i + 15, i + 20, 25]
    else if p == CHI1 then [5 * i + 1, 5 * i + 2, 5 * i + 3, 5 * i + 4, 25, 26]
    else [5 * i, 5 * i + 3, 5 * i + 4, 25, 26, 27]
  }

  function LogicalStep(c: Control, m: Memory): Memory
    requires c.Valid()
  {
    Scatter(m, Slots(c), Outputs(c, Gather(m, Slots(c))), 6)
  }

  /** The row of the index table that a step reads memory through. */
  function RowOf(c: Control): (r: nat)
    requires c.Valid()
    ensures r <= 24
  {
    if c.precompile == CHI1 || c.precompile == CHI2 then c.round + 1 else c.round
  }

  /** A step on the real memory is the same step on the lanes in order. */
  lemma StepIsLogical(c: Control, m: Memory)
    requires c.Valid()
    ensures Logical(Step(c, m), RowOf(c)) == LogicalStep(c, Logical(m, RowOf(c)))
  {
    hide Outputs, Place;
    var r, slots, idx := RowOf(c), Slots(c), Indices(c);
    assert forall k :: 0 <= k < 6 ==> idx[k] == Physical(r, slots[k]);
    assert Gather(m, idx) == Gather(Logical(m, r), slots);
    LogicalScatter(m, r, slots, idx, Outputs(c, Gather(m, idx)), 6);
  }

  /** Moving on to the next row of the table is pi. */
  lemma NextRowIsPi(m: Memory, r: nat)
    requires r < 24
    ensures Logical(m, r + 1) == Pi(Logical(m, r)[..25]) + Logical(m, r)[25..]
  {
    forall j: nat | j < 25
      ensures Logical(m, r + 1)[j] == Pi(Logical(m, r)[..25])[j]
    {
      PlaceFollowsPi(r, j);
    }
  }

  /** A step's six writes, written out. */
  lemma ScatterWrites(m: Memory, idx: seq<nat>, out: seq<Lane>)
    requires |idx| == |out| == 6 && forall k :: 0 <= k < 6 ==> idx[k] < 31
    ensures Scatter(m, idx, out, 6)
      == m[idx[0] := out[0]][idx[1] := out[1]][idx[2] := out[2]][idx[3] := out[3]][idx[4] := out[4]][idx[5] := out[5]]
  {
    assert Scatter(m, idx, out, 1) == m[idx[0] := out[0]];
    assert Scatter(m, idx, out, 2) == Scatter(m, idx, out, 1)[idx[1] := out[1]];
    assert Scatter(m, idx, out, 3) == Scatter(m, idx, out, 2)[idx[2] := out[2]];
    assert Scatter(m, idx, out, 4) == Scatter(m, idx, out, 3)[idx[3] := out[3]];
    assert Scatter(m, idx, out, 5) == Scatter(m, idx, out, 4)[idx[4] := out[4]];
  }

  /** What the six writes do when they go to column i and to one scratch word. */
  lemma ColumnWrites(m: Memory, i: nat, k: nat, out: seq<Lane>, j: nat)
    requires i < 5 && 25 <= k < 31 && |out| == 6 && j < 31
    ensures Scatter(m, [i, i + 5, i + 10, i + 15, i + 20, k], out, 6)[j]
      == if j == k then out[5] else if j < 25 && j % 5 == i then out[j / 5] else m[j]
  {
    ScatterWrites(m, [i, i + 5, i + 10, i + 15, i + 20, k], out);
    var y := j / 5;
    assert j == 5 * y + j % 5;
  }

  /** The lanes of the first i columns come from b, the rest from a. */
  ghost predicate ColumnsDone(m: Memory, i: nat, a: Lanes, b: Lanes) {
    forall j: nat | j < 25 :: m[j] == if j % 5 < i then b[j] else a[j]
  }

  /** A column step that puts column i of b where column i of a was. */
  lemma ColumnAdvances(m: Memory, i: nat, k: nat, out: seq<Lane>, a: Lanes, b: Lanes)
    requires i < 5 && 25 <= k < 31 && |out| == 6 && ColumnsDone(m, i, a, b)
    requires ColumnOf(out, i, b) && out[5] == m[k]
    ensures
      var m' := Scatter(m, [i, i + 5, i + 10, i + 15, i + 20, k], out, 6);
      ColumnsDone(m', i + 1, a, b) && m'[25..] == m[25..]
  {
    var m' := Scatter(m, [i, i + 5, i + 10, i + 15, i + 20, k], out, 6);
    forall j: nat | j < 31
      ensures m'[j] == if j < 25 && j % 5 == i then b[j] else m[j]
    {
      ColumnWrites(m, i, k, out, j);
      assert j == 5 * (j / 5) + j % 5;
    }
  }

  /** The condition of ColumnAdvances, one lane at a time. */
  ghost predicate ColumnOf(out: seq<Lane>, i: nat, b: Lanes)
    requires i < 5 && |out| == 6
  {
    out[0] == b[i] && out[1] == b[5 + i] && out[2] == b[10 + i] && out[3] == b[15 + i] && out[4] == b[20 + i]
  }

  lemma ColumnIndex(i: nat)
    requires i < 5
    ensures i % 5 == (5 + i) % 5 == (10 + i) % 5 == (15 + i) % 5 == (20 + i) % 5 == i
  {
  }

  lemma ThetaColumn(a: Lanes, i: nat, w: seq<Lane>)
    requires i < 5 && |w| == 6 && ColumnOf(w, i, a) && w[5] == Mix(Parities(a), i)
    ensures ColumnOf(ThetaXor(w), i, Theta(a)) && ThetaXor(w)[5] == w[5]
  {
    hide Xor, Mix, Parities;
    ColumnIndex(i);
  }

  lemma RhoColumn(a: Lanes, i: nat, w: seq<Lane>)
    requires i < 5 && |w| == 6 && ColumnOf(w, i, a)
    ensures ColumnOf(RhoRotate(w, RotationOf(i)), i, Rho(a)) && RhoRotate(w, RotationOf(i))[5] == w[5]
  {
    hide Rotl;
  }

  /** The word from which the theta step takes D[i]. */
  function MixWord(i: nat): (k: nat)
    requires i < 5
    ensures 25 <= k < 30
  {
    if i == 0 then 29 else 24 + i
  }

  lemma ThetaStep(m: Memory, r: nat, i: nat, a: Lanes)
    requires r < 24 && i < 5
    requires ColumnsDone(m, i, a, Theta(a)) && m[MixWord(i)] == Mix(Parities(a), i)
    ensures ColumnsDone(LogicalStep(Control(THETA, i, r), m), i + 1, a, Theta(a))
    ensures LogicalStep(Control(THETA, i, r), m)[25..] == m[25..]
  {
    hide Mix, Parities, Scatter, ThetaXor, Theta;
    var w := Gather(m, Slots(Control(THETA, i, r)));
    ThetaColumn(a, i, w);
    ColumnAdvances(m, i, MixWord(i), ThetaXor(w), a, Theta(a));
  }

  lemma RhoStep(m: Memory, r: nat, i: nat, a: Lanes)
    requires r < 24 && i < 5 && ColumnsDone(m, i, a, Rho(a))
    ensures ColumnsDone(LogicalStep(Control(RHO, i, r), m), i + 1, a, Rho(a))
    ensures LogicalStep(Control(RHO, i, r), m)[25..] == m[25..]
  {
    hide Scatter, RhoRotate, Rho;
    var w := Gather(m, Slots(Control(RHO, i, r)));
    RhoColumn(a, i, w);
    ColumnAdvances(m, i, 25, RhoRotate(w, RotationOf(i)), a, Rho(a));
  }

  /** The lanes of the first i rows come from b, the rest from a. */
  ghost predicate RowsDone(m: Memory, i: nat, a: Lanes, b: Lanes) {
    forall j: nat | j < 25 :: m[j] == if j < 5 * i then b[j] else a[j]
  }

  lemma RowIndex(i: nat, x: nat)
    requires x < 5
    ensures (5 * i + x) % 5 == x && (5 * i + x) - (5 * i + x) % 5 == 5 * i
  {
  }

  lemma ChiRowLane(a: Lanes, i: nat, x: nat)
    requires i < 5 && x < 5
    ensures Chi(a)[5 * i + x] == Xor(a[5 * i + x], AndNot(a[5 * i + (x + 1) % 5], a[5 * i + (x + 2) % 5]))
  {
    hide Xor, AndNot;
    RowIndex(i, x);
  }

  lemma ChiRowLanes(a: Lanes, i: nat)
    requires i < 5
    ensures
      var e, b := 5 * i, Chi(a);
      && b[e] == Xor(a[e], AndNot(a[e + 1], a[e + 2])) && b[e + 1] == Xor(a[e + 1], AndNot(a[e + 2], a[e + 3]))
      && b[e + 2] == Xor(a[e + 2], AndNot(a[e + 3], a[e + 4])) && b[e + 3] == Xor(a[e + 3], AndNot(a[e + 4], a[e]))
      && b[e + 4] == Xor(a[e + 4], AndNot(a[e], a[e + 1]))
  {
    hide Xor, AndNot, Chi;
    ChiRowLane(a, i, 0); ChiRowLane(a, i, 1); ChiRowLane(a, i, 2); ChiRowLane(a, i, 3); ChiRowLane(a, i, 4);
  }

  lemma Chi1Writes(m: Memory, r: nat, i: nat)
    requires r < 24 && i < 5
    ensures
      var e := 5 * i;
      LogicalStep(Control(CHI1, i, r), m)
        == m[e + 1 := Xor(m[e + 1], AndNot(m[e + 2], m[e + 3]))][e + 2 := Xor(m[e + 2], AndNot(m[e + 3], m[e + 4]))]
           [e + 3 := m[e + 3]][e + 4 := m[e + 4]][25 := AndNot(m[e + 1], m[e + 2])][26 := m[e + 1]]
  {
    hide Xor, AndNot;
    var c := Control(CHI1, i, r);
    ScatterWrites(m, Slots(c), ChiFirst(Gather(m, Slots(c))));
  }

  lemma Chi2Writes(m: Memory, r: nat, i: nat)
    requires r < 24 && i < 5
    ensures
      var e := 5 * i;
      LogicalStep(Control(CHI2, i, r), m)
        == m[e := Xor(m[e], m[25])]
           [e + 3 := Xor(m[e + 3], AndNot(m[e + 4], m[e]))][e + 4 := Xor(m[e + 4], AndNot(m[e], m[26]))]
           [25 := m[25]][26 := m[26]][27 := m[27]]
  {
    hide Xor, AndNot;
    var c := Control(CHI2, i, r);
    ScatterWrites(m, Slots(c), ChiSecond(Gather(m, Slots(c))));
  }

  /** The two chi steps of row i overwrite what they read, yet leave the row that chi asks for. */
  lemma ChiSteps(m: Memory, r: nat, i: nat, a: Lanes)
    requires r < 24 && i < 5 && RowsDone(m, i, a, Chi(a))
    ensures
      var m' := LogicalStep(Control(CHI2, i, r), LogicalStep(Control(CHI1, i, r), m));
      && RowsDone(m', i + 1, a, Chi(a))
      && m'[25] == AndNot(a[5 * i + 1], a[5 * i + 2]) && m'[26] == a[5 * i + 1] && m'[27..] == m[27..]
  {
    hide Xor, AndNot, Chi, LogicalStep;
    ChiRowLanes(a, i);
    Chi1Writes(m, r, i);
    Chi2Writes(LogicalStep(Control(CHI1, i, r), m), r, i);
  }

  lemma XorZero(a: Lane)
    ensures Xor(a, Lane(0)) == a
  {
  }

  /** Iteration i stores the parity of column i; iteration 0 first adds the pending constant. */
  lemma IotaStep(m: Memory, r: nat, i: nat, b: Lanes)
    requires r <= 24 && i < 5
    requires b == if i == 0 then Iota(m[..25], AdjustedConstant(r)) else m[..25]
    ensures
      var m' := LogicalStep(Control(IOTA_COLUMNXOR, i, r), m);
      && m'[..25] == b
      && forall k: nat | 25 <= k < 31 :: m'[k] == if k == 25 + i then Parity(b, i) else m[k]
  {
    hide Xor;
    var c := Control(IOTA_COLUMNXOR, i, r);
    XorZero(m[i]);
    var out := Outputs(c, Gather(m, Slots(c)));
    assert out[0] == b[i];
    forall j: nat | j < 31
      ensures LogicalStep(c, m)[j] == if j == 25 + i then out[5] else if j < 25 then b[j] else m[j]
    {
      ColumnWrites(m, i, 25 + i, out, j);
      assert j == 5 * (j / 5) + j % 5;
    }
  }

  /** D of section 3.2.1 in the order in which the scratch words hold it, and rotl(C[0], 1). */
  function MixedWords(c: seq<Lane>): (d: seq<Lane>)
    requires |c| == 5
    ensures |d| == 6
  {
    [Mix(c, 1), Mix(c, 2), Mix(c, 3), Mix(c, 4), Mix(c, 0), Rotl(c[0], 1)]
  }

  /** The two column-mix steps turn the five parities into the five words of theta, although the
      first of them already overwrites C[0] and C[2]. */
  lemma ColumnMixSteps(m: Memory, r: nat, c: seq<Lane>)
    requires r < 24 && m[25..30] == c
    ensures
      var m' := LogicalStep(Control(COLUMNMIX2, 0, r), LogicalStep(Control(COLUMNMIX1, 0, r), m));
      m' == m[..25] + MixedWords(c)
  {
    hide Xor, Rotl;
    var c1, c2 := Control(COLUMNMIX1, 0, r), Control(COLUMNMIX2, 0, r);
    var out1 := ColumnMix1(Gather(m, Slots(c1)));
    ScatterWrites(m, Slots(c1), out1);
    var m1 := LogicalStep(c1, m);
    assert m1 == m[..25] + out1;
    var out2 := ColumnMix2(Gather(m1, Slots(c2)));
    ScatterWrites(m1, Slots(c2), out2);
    assert LogicalStep(c2, m1) == m[..25] + out2;
  }
}
