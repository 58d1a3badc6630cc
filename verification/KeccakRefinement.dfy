/** Whole rounds and whole runs of the micro-program, against Keccak-f[1600]. */
module KeccakRefinement {
  import opened KeccakSpec
  import opened KeccakOrder
  import opened KeccakMachine
  import opened KeccakRun

  /** One call, seen through the row of the index table that it reads memory through. */
  lemma OneCall(c: Control, m: Memory, n: nat)
    requires c.Valid()
    ensures Run(State(c, m), n + 1) == Run(State(Bump(c), Step(c, m)), n)
    ensures Logical(Step(c, m), RowOf(c)) == LogicalStep(c, Logical(m, RowOf(c)))
  {
    StepIsLogical(c, m);
  }

  /** The logical memory after the first i iota steps of round r. */
  ghost predicate ParitiesDone(m: Memory, r: nat, i: nat, b: Lanes)
    requires r <= 24 && i <= 5
  {
    && b == (if i == 0 then Iota(m[..25], AdjustedConstant(r)) else m[..25])
    && forall k: nat | k < i :: m[25 + k] == Parity(b, k)
  }

  lemma IotaAdvances(m: Memory, r: nat, i: nat, b: Lanes)
    requires r < 24 && i < 5 && ParitiesDone(m, r, i, b)
    ensures
      var m' := LogicalStep(Control(IOTA_COLUMNXOR, i, r), m);
      if i < 4 then ParitiesDone(m', r, i + 1, b) else m'[..25] == b && m'[25..30] == Parities(b)
  {
    hide LogicalStep, Parity, Iota;
    IotaStep(m, r, i, b);
  }

  lemma {:induction false} IotaPhase(m: Memory, r: nat, i: nat, b: Lanes)
    requires r < 24 && i < 5 && ParitiesDone(Logical(m, r), r, i, b)
    ensures
      var s := Run(State(Control(IOTA_COLUMNXOR, i, r), m), 5 - i);
      && s.control == Control(COLUMNMIX1, 0, r)
      && Logical(s.memory, r)[..25] == b && Logical(s.memory, r)[25..30] == Parities(b)
    decreases 5 - i
  {
    hide Logical, Step, LogicalStep, Parity, Iota, Parities, ParitiesDone;
    var c := Control(IOTA_COLUMNXOR, i, r);
    OneCall(c, m, 4 - i);
    IotaAdvances(Logical(m, r), r, i, b);
    if i < 4 {
      IotaPhase(Step(c, m), r, i + 1, b);
    }
  }

  lemma MixPhase(m: Memory, r: nat, c: seq<Lane>)
    requires r < 24 && Logical(m, r)[25..30] == c
    ensures
      var s := Run(State(Control(COLUMNMIX1, 0, r), m), 2);
      s.control == Control(THETA, 0, r) && Logical(s.memory, r) == Logical(m, r)[..25] + MixedWords(c)
  {
    hide Logical, Step, LogicalStep, MixedWords;
    var c1, c2 := Control(COLUMNMIX1, 0, r), Control(COLUMNMIX2, 0, r);
    OneCall(c1, m, 1);
    OneCall(c2, Step(c1, m), 0);
    ColumnMixSteps(Logical(m, r), r, c);
  }

  lemma {:induction false} ThetaPhase(m: Memory, r: nat, i: nat, a: Lanes)
    requires r < 24 && i < 5 && ColumnsDone(Logical(m, r), i, a, Theta(a))
    requires Logical(m, r)[25..] == MixedWords(Parities(a))
    ensures
      var s := Run(State(Control(THETA, i, r), m), 5 - i);
      && s.control == Control(RHO, 0, r)
      && Logical(s.memory, r) == Theta(a) + Logical(m, r)[25..]
    decreases 5 - i
  {
    hide Logical, Step, LogicalStep, Theta, Parities, Mix, Rotl;
    var c := Control(THETA, i, r);
    var d := MixedWords(Parities(a));
    assert Logical(m, r)[MixWord(i)] == d[MixWord(i) - 25] == Mix(Parities(a), i);
    OneCall(c, m, 4 - i);
    ThetaStep(Logical(m, r), r, i, a);
    if i < 4 {
      ThetaPhase(Step(c, m), r, i + 1, a);
    } else {
      assert Logical(Step(c, m), r)[..25] == Theta(a);
    }
  }

  lemma {:induction false} RhoPhase(m: Memory, r: nat, i: nat, a: Lanes)
    requires r < 24 && i < 5 && ColumnsDone(Logical(m, r), i, a, Rho(a))
    ensures
      var s := Run(State(Control(RHO, i, r), m), 5 - i);
      && s.control == Control(CHI1, 0, r)
      && Logical(s.memory, r) == Rho(a) + Logical(m, r)[25..]
    decreases 5 - i
  {
    hide Logical, Step, LogicalStep, Rho;
    var c := Control(RHO, i, r);
    OneCall(c, m, 4 - i);
    RhoStep(Logical(m, r), r, i, a);
    if i < 4 {
      RhoPhase(Step(c, m), r, i + 1, a);
    } else {
      assert Logical(Step(c, m), r)[..25] == Rho(a);
    }
  }

  lemma ChiAdvances(m: Memory, r: nat, i: nat, a: Lanes)
    requires r < 24 && i < 5 && RowsDone(m, i, a, Chi(a))
    ensures
      var m' := LogicalStep(Control(CHI2, i, r), LogicalStep(Control(CHI1, i, r), m));
      if i < 4 then RowsDone(m', i + 1, a, Chi(a)) && m'[27..] == m[27..]
      else m' == Chi(a) + [AndNot(a[21], a[22]), a[21]] + m[27..]
  {
    hide LogicalStep, Chi, AndNot;
    ChiSteps(m, r, i, a);
    var m' := LogicalStep(Control(CHI2, i, r), LogicalStep(Control(CHI1, i, r), m));
    if i == 4 {
      assert m'[..25] == Chi(a);
      assert m' == m'[..25] + [m'[25], m'[26]] + m'[27..];
    }
  }

  lemma {:induction false} ChiPhase(m: Memory, r: nat, i: nat, a: Lanes)
    requires r < 24 && i < 5 && RowsDone(Logical(m, r + 1), i, a, Chi(a))
    ensures
      var s := Run(State(Control(CHI1, i, r), m), 10 - 2 * i);
      && s.control == Control(IOTA_COLUMNXOR, 0, r + 1)
      && Logical(s.memory, r + 1) == Chi(a) + [AndNot(a[21], a[22]), a[21]] + Logical(m, r + 1)[27..]
    decreases 5 - i
  {
    hide Logical, Step, LogicalStep, Chi, AndNot, RowsDone;
    var c1, c2 := Control(CHI1, i, r), Control(CHI2, i, r);
    OneCall(c1, m, 9 - 2 * i);
    OneCall(c2, Step(c1, m), 8 - 2 * i);
    ChiAdvances(Logical(m, r + 1), r, i, a);
    if i < 4 {
      ChiPhase(Step(c2, Step(c1, m)), r, i + 1, a);
    }
  }

  /** Where the lanes of round r stand before chi. */
  function BeforeChi(a: Lanes): Lanes {
    Pi(Rho(Theta(a)))
  }

  /** The scratch words that a round leaves behind, a being the lanes it starts from. */
  function RoundScratch(a: Lanes): (s: seq<Lane>)
    ensures |s| == 6
  {
    var c, e := Parities(a), BeforeChi(a);
    [AndNot(e[21], e[22]), e[21], Mix(c, 3), Mix(c, 4), Mix(c, 0), Rotl(c[0], 1)]
  }

  /** The 27 calls of round r are one round of Keccak-f with iota left to the next round. */
  lemma RoundRun(m: Memory, r: nat, a: Lanes)
    requires r < 24 && Iota(Logical(m, r)[..25], AdjustedConstant(r)) == a
    ensures
      var s := Run(State(Control(IOTA_COLUMNXOR, 0, r), m), 27);
      && s.control == Control(IOTA_COLUMNXOR, 0, r + 1)
      && Logical(s.memory, r + 1) == Permute(a) + RoundScratch(a)
  {
    hide Logical, Iota, Parities, Mix, Theta, Rho, Pi, Chi, AndNot, Rotl, Run;
    var s0 := State(Control(IOTA_COLUMNXOR, 0, r), m);
    IotaPhase(m, r, 0, a);
    var s1 := Run(s0, 5);
    MixPhase(s1.memory, r, Parities(a));
    var s2 := Run(s1, 2);
    ThetaPhase(s2.memory, r, 0, a);
    var s3 := Run(s2, 5);
    RhoPhase(s3.memory, r, 0, Theta(a));
    var s4 := Run(s3, 5);
    NextRowIsPi(s4.memory, r);
    ChiPhase(s4.memory, r, 0, BeforeChi(a));
    RunAdd(s0, 5, 2);
    RunAdd(s0, 7, 5);
    RunAdd(s0, 12, 5);
    RunAdd(s0, 17, 10);
  }

  lemma AdjustedConstantIsDelayed(r: nat)
    requires r < 24
    ensures AdjustedConstant(0) == Lane(0) && AdjustedConstant(r + 1) == RoundConstant(r)
  {
  }

  /** At the edges of the run the lanes are in their own words. */
  lemma LogicalAtEdges(m: Memory)
    ensures Logical(m, 0) == m && Logical(m, 24) == m
  {
    forall j: nat | j < 25
      ensures Place(0, j) == j && Place(24, j) == j
    {
      PlaceCloses(j);
    }
  }

  const START := Control(IOTA_COLUMNXOR, 0, 0)

  /** The state of a run at the start of round r: iota of round r - 1 is still to come. */
  ghost predicate AtRound(s: State, m: Memory, r: nat)
    requires r <= 24
  {
    && s.control == Control(IOTA_COLUMNXOR, 0, r)
    && Iota(Logical(s.memory, r)[..25], AdjustedConstant(r)) == Rounds(m[..25], r)
    && (r > 0 ==> Logical(s.memory, r)[25..] == RoundScratch(Rounds(m[..25], r - 1)))
  }

  lemma AtRoundZero(m: Memory)
    ensures AtRound(State(START, m), m, 0)
  {
    hide Logical, Xor;
    LogicalAtEdges(m);
    AdjustedConstantIsDelayed(0);
    XorZero(m[0]);
  }

  lemma AtNextRound(s: State, m: Memory, r: nat)
    requires r < 24 && AtRound(s, m, r)
    ensures AtRound(Run(s, 27), m, r + 1)
  {
    hide Logical, Permute, RoundScratch, Run, Iota, AdjustedConstant, RoundConstant;
    var a := Rounds(m[..25], r);
    RoundRun(s.memory, r, a);
    AdjustedConstantIsDelayed(r);
    assert Rounds(m[..25], r + 1) == Iota(Permute(a), AdjustedConstant(r + 1));
  }

  lemma {:induction false} RunRounds(m: Memory, r: nat)
    requires r <= 24
    ensures AtRound(Run(State(START, m), 27 * r), m, r)
  {
    hide AtRound, Next;
    if r == 0 {
      AtRoundZero(m);
    } else {
      RunRounds(m, r - 1);
      AtNextRound(Run(State(START, m), 27 * (r - 1)), m, r - 1);
      RunAdd(State(START, m), 27 * (r - 1), 27);
    }
  }

  function AfterLastCall(b: Lanes, s: seq<Lane>): Memory
    requires |s| == 6
  {
    b + [Parity(b, 0)] + s[1..]
  }

  /** The 31 words after a complete permutation: 25 lanes and what stays in the scratch words. */
  function ExtendedKeccakF(m: Memory): Memory {
    AfterLastCall(KeccakF(m[..25]), RoundScratch(Rounds(m[..25], 23)))
  }

  /** The last call stores one parity and, through iota, the lanes. */
  lemma LastCall(m: Memory, b: Lanes)
    requires b == Iota(m[..25], AdjustedConstant(24))
    ensures Step(Control(IOTA_COLUMNXOR, 0, 24), m) == AfterLastCall(b, m[25..])
  {
    hide Logical, Iota, Parity, Step, LogicalStep;
    var c := Control(IOTA_COLUMNXOR, 0, 24);
    LogicalAtEdges(m);
    LogicalAtEdges(Step(c, m));
    StepIsLogical(c, m);
    IotaStep(m, 24, 0, b);
    var m' := Step(c, m);
    assert m' == m'[..25] + [m'[25]] + m'[26..];
  }

  lemma SingleCall(s: State)
    requires s.control.Valid()
    ensures Run(s, 1) == State(Bump(s.control), Step(s.control, s.memory))
  {
    hide Step, Bump;
    OneCall(s.control, s.memory, 0);
  }

  lemma LastControl()
    ensures Bump(Control(IOTA_COLUMNXOR, 0, 24)).Encode() == FINAL_CONTROL
  {
  }

  /** Starting from control word 0 and any 31 words, 649 calls leave Keccak-f[1600] of the first 25
      words in their own places, and the control word at its final value. */
  lemma WholeRun(m: Memory)
    ensures
      var s := Run(State(START, m), NUM_CALLS);
      s.memory == ExtendedKeccakF(m) && s.control.Encode() == FINAL_CONTROL
  {
    hide Logical, RoundScratch, Iota, Step, Run, AfterLastCall, Rounds;
    RunRounds(m, 24);
    var s := Run(State(START, m), 648);
    LogicalAtEdges(s.memory);
    RunAdd(State(START, m), 648, 1);
    SingleCall(s);
    LastControl();
    LastCall(s.memory, KeccakF(m[..25]));
  }
}
