/** The direct implementations of Keccak-f[1600] in the repository: the one that stands in for a
    whole run of the micro-program, and the textbook one of the reduced machine. */
module KeccakSoftware {
  import opened KeccakSpec
  import opened KeccakRefinement

  lemma XorLeftZero(a: Lane)
    ensures Xor(Lane(0), a) == a
  {
  }

  /** PI: the lane that step x of the rho and pi loop writes. */
  function PiLane(x: nat): (k: nat)
    requires x < 24
    ensures k < 25
  {
    match x
    case 0 => 10 case 1 => 7 case 2 => 11 case 3 => 17 case 4 => 18 case 5 => 3 case 6 => 5 case 7 => 16
    case 8 => 8 case 9 => 21 case 10 => 24 case 11 => 4 case 12 => 15 case 13 => 23 case 14 => 19 case 15 => 13
    case 16 => 12 case 17 => 2 case 18 => 20 case 19 => 14 case 20 => 22 case 21 => 9 case 22 => 6 case _ => 1
  }

  /** RHO: the rotation of step x. */
  function RhoStepOffset(x: nat): (k: nat)
    requires x < 24
    ensures k < 64
  {
    match x
    case 0 => 1 case 1 => 3 case 2 => 6 case 3 => 10 case 4 => 15 case 5 => 21 case 6 => 28 case 7 => 36
    case 8 => 45 case 9 => 55 case 10 => 2 case 11 => 14 case 12 => 27 case 13 => 41 case 14 => 56 case 15 => 8
    case 16 => 25 case 17 => 43 case 18 => 62 case 19 => 18 case 20 => 39 case 21 => 61 case 22 => 20 case _ => 44
  }

  /** The two tables are the walk of section 3.2.2 of FIPS 202, one step ahead, and its offsets. */
  lemma TablesFollowWalk(x: nat)
    requires x < 24
    ensures WalkTable(x) < 25 && PiLane(x) == WalkTable(x + 1)
    ensures RhoStepOffset(x) == RhoOffset(WalkTable(x))
  {
  }

  lemma PiSourceOfWalk0(x: nat)
    requires 0 <= x < 8
    ensures WalkTable(x + 1) < 25 && PiSource(WalkTable(x + 1)) == WalkTable(x)
  {
  }

  lemma PiSourceOfWalk1(x: nat)
    requires 8 <= x < 16
    ensures WalkTable(x + 1) < 25 && PiSource(WalkTable(x + 1)) == WalkTable(x)
  {
  }

  lemma PiSourceOfWalk2(x: nat)
    requires 16 <= x < 24
    ensures WalkTable(x + 1) < 25 && PiSource(WalkTable(x + 1)) == WalkTable(x)
  {
  }

  lemma PiSourceOfWalk(x: nat)
    requires x < 24
    ensures WalkTable(x + 1) < 25 && PiSource(WalkTable(x + 1)) == WalkTable(x)
  {
    if
    case x < 8 => PiSourceOfWalk0(x);
    case 8 <= x < 16 => PiSourceOfWalk1(x);
    case 16 <= x => PiSourceOfWalk2(x);
  }

  /** The step that writes lane k, or 24 for lane 0, which no step writes. */
  function WrittenAt(k: nat): nat
    requires k < 25
  {
    if k == 1 then 23 else if k == 0 then 24 else WalkIndex(k) - 1
  }

  /** The lanes after the first n steps of the loop. */
  ghost predicate RhoPiDone(s: seq<Lane>, a: Lanes, n: nat)
    requires |s| >= 25
  {
    forall k: nat | k < 25 :: s[k] == if WrittenAt(k) < n then Pi(Rho(a))[k] else a[k]
  }

  lemma RhoPiLane(a: Lanes, x: nat)
    requires x < 24
    ensures Pi(Rho(a))[PiLane(x)] == Rotl(a[WalkTable(x)], RhoStepOffset(x))
  {
    hide Rotl;
    TablesFollowWalk(x);
    PiSourceOfWalk(x);
  }

  lemma WrittenOnce(x: nat, k: nat)
    requires x < 24 && k < 25
    ensures WrittenAt(k) == x <==> k == PiLane(x)
  {
    TablesFollowWalk(x);
    if k != 0 {
      WalkIndexInverse(k);
    }
    if x < 23 {
      WalkTableInverse(x + 1);
    }
  }

  /** Lane 0 is its own source and is not rotated, so the loop may skip it. */
  lemma LaneZeroStays(a: Lanes)
    ensures Pi(Rho(a))[0] == a[0]
  {
  }

  /** Rho and pi in one pass around the cycle of lanes, carrying one lane at a time. */
  method RhoPiInPlace(state: array<Lane>)
    requires state.Length >= 25
    modifies state
    ensures state[..25] == Pi(Rho(old(state[..25]))) && state[25..] == old(state[25..])
  {
    hide Rotl, Pi, Rho;
    ghost var a := state[..25];
    var last := state[1];
    for x := 0 to 24
      invariant RhoPiDone(state[..25], a, x) && last == a[WalkTable(x)]
      invariant state[25..] == old(state[25..])
    {
      TablesFollowWalk(x);
      RhoPiLane(a, x);
      var saved := state[PiLane(x)];
      state[PiLane(x)] := Rotl(last, RhoStepOffset(x));
      last := saved;
      forall k: nat | k < 25
        ensures WrittenAt(k) == x <==> k == PiLane(x)
      {
        WrittenOnce(x, k);
      }
    }
    LaneZeroStays(a);
  }

  /** The xor of the first n lanes of column x, starting from zero. */
  function ColumnPrefix(a: Lanes, x: nat, n: nat): Lane
    requires x < 5 && n <= 5
  {
    if n == 0 then Lane(0) else Xor(ColumnPrefix(a, x, n - 1), a[5 * (n - 1) + x])
  }

  lemma ColumnPrefixIsParity(a: Lanes, x: nat)
    requires x < 5
    ensures ColumnPrefix(a, x, 5) == Parity(a, x)
  {
    hide Xor;
    XorLeftZero(a[x]);
    assert ColumnPrefix(a, x, 1) == a[x];
    assert ColumnPrefix(a, x, 3) == Xor(Xor(a[x], a[5 + x]), a[10 + x]);
  }

  method ColumnParities(state: array<Lane>) returns (c: array<Lane>)
    requires state.Length >= 25
    ensures fresh(c) && c.Length == 5 && c[..] == Parities(state[..25])
  {
    hide Xor, Parity;
    c := new Lane[5](_ => Lane(0));
    for x := 0 to 5
      invariant forall k: nat | k < x :: c[k] == Parity(state[..25], k)
      invariant forall k: nat | x <= k < 5 :: c[k] == Lane(0)
    {
      for y := 0 to 5
        invariant c[x] == ColumnPrefix(state[..25], x, y)
        invariant forall k: nat | k < x :: c[k] == Parity(state[..25], k)
        invariant forall k: nat | x < k < 5 :: c[k] == Lane(0)
      {
        c[x] := Xor(c[x], state[5 * y + x]);
      }
      ColumnPrefixIsParity(state[..25], x);
    }
  }

  /** Theta once the five parities are known. */
  method AddMix(state: array<Lane>, c: array<Lane>)
    requires state.Length >= 25 && c.Length == 5 && c != state && c[..] == Parities(state[..25])
    modifies state
    ensures state[..25] == Theta(old(state[..25])) && state[25..] == old(state[25..])
  {
    hide Xor, Rotl, Parities, Theta;
    ghost var a := state[..25];
    for x := 0 to 5
      invariant forall j: nat | j < 25 :: state[j] == if j % 5 < x then Theta(a)[j] else a[j]
      invariant state[25..] == old(state[25..])
    {
      var t1 := c[(x + 4) % 5];
      var t2 := Rotl(c[(x + 1) % 5], 1);
      var t := Xor(t1, t2);
      assert t == Mix(Parities(a), x);
      for y := 0 to 5
        invariant forall j: nat | j < 25 ::
          state[j] == if j % 5 < x || (j % 5 == x && j < 5 * y) then Theta(a)[j] else a[j]
        invariant state[25..] == old(state[25..])
      {
        ThetaAt(a, x, y);
        state[5 * y + x] := Xor(state[5 * y + x], t);
        LaneIndex(x, y);
      }
    }
  }

  lemma LaneIndex(x: nat, y: nat)
    requires x < 5 && y < 5
    ensures (5 * y + x) % 5 == x
    ensures forall j: nat | j < 25 && j % 5 == x && 5 * y <= j < 5 * (y + 1) :: j == 5 * y + x
  {
  }

  lemma ThetaAt(a: Lanes, x: nat, y: nat)
    requires x < 5 && y < 5
    ensures Theta(a)[5 * y + x] == Xor(a[5 * y + x], Mix(Parities(a), x))
  {
    hide Xor, Mix, Parities;
    LaneIndex(x, y);
  }

  /** Row y after chi, from the row before it. */
  function ChiOfRow(row: seq<Lane>, x: nat): Lane
    requires |row| == 5 && x < 5
  {
    Xor(row[x], AndNot(row[(x + 1) % 5], row[(x + 2) % 5]))
  }

  method CopyRow(state: array<Lane>, y: nat) returns (row: array<Lane>)
    requires state.Length >= y + 5
    ensures fresh(row) && row[..] == state[y..y + 5]
  {
    row := new Lane[5](_ => Lane(0));
    for x := 0 to 5
      invariant row[..x] == state[y..y + x]
    {
      row[x] := state[y + x];
    }
  }

  method ChiRow(state: array<Lane>, y: nat)
    requires state.Length >= y + 5
    modifies state
    ensures forall j: nat | y <= j < y + 5 :: state[j] == ChiOfRow(old(state[y..y + 5]), j - y)
    ensures forall j: nat | j < state.Length && !(y <= j < y + 5) :: state[j] == old(state[j])
  {
    hide Xor, AndNot, ChiOfRow;
    var row := CopyRow(state, y);
    ghost var r := row[..];
    for x := 0 to 5
      invariant row[..] == r
      invariant forall j: nat | y <= j < y + x :: state[j] == ChiOfRow(r, j - y)
      invariant forall j: nat | j < state.Length && !(y <= j < y + x) :: state[j] == old(state[j])
    {
      var t1 := row[(x + 1) % 5];
      var t2 := row[(x + 2) % 5];
      ChiOfRowAt(r, x, t1, t2);
      state[y + x] := Xor(row[x], AndNot(t1, t2));
    }
  }

  lemma ChiOfRowAt(row: seq<Lane>, x: nat, t1: Lane, t2: Lane)
    requires |row| == 5 && x < 5 && t1 == row[(x + 1) % 5] && t2 == row[(x + 2) % 5]
    ensures ChiOfRow(row, x) == Xor(row[x], AndNot(t1, t2))
  {
  }

  /** Chi, a row at a time, through a copy of the row. */
  method ChiInPlace(state: array<Lane>)
    requires state.Length >= 25
    modifies state
    ensures state[..25] == Chi(old(state[..25])) && state[25..] == old(state[25..])
  {
    hide Xor, AndNot, Chi, ChiOfRow;
    ghost var a := state[..25];
    for yStep := 0 to 5
      invariant forall j: nat | j < 25 :: state[j] == if j < 5 * yStep then Chi(a)[j] else a[j]
      invariant state[25..] == old(state[25..])
    {
      var y := 5 * yStep;
      assert state[y..y + 5] == a[y..y + 5];
      ChiRow(state, y);
      forall j: nat | y <= j < y + 5
        ensures state[j] == Chi(a)[j]
      {
        ChiAt(a, j - y, yStep);
      }
    }
  }

  lemma ChiAt(a: Lanes, x: nat, y: nat)
    requires x < 5 && y < 5
    ensures Chi(a)[5 * y + x] == ChiOfRow(a[5 * y..5 * y + 5], x)
  {
    hide Xor, AndNot;
    LaneIndex(x, y);
  }

  /** All of a round except iota, in place. */
  method PermuteInPlace(state: array<Lane>)
    requires state.Length >= 25
    modifies state
    ensures state[..25] == Permute(old(state[..25])) && state[25..] == old(state[25..])
  {
    hide Theta, Rho, Pi, Chi, Parities;
    var c := ColumnParities(state);
    AddMix(state, c);
    RhoPiInPlace(state);
    ChiInPlace(state);
  }

  lemma {:induction false} RoundsNext(a: Lanes, r: nat)
    requires r < 24
    ensures Rounds(a, 0) == a
    ensures Rounds(a, r + 1) == Iota(Permute(Rounds(a, r)), RoundConstant(r))
  {
  }

  method KeepMixes(state: array<Lane>, c: array<Lane>)
    requires state.Length == 31 && c.Length == 5 && c != state
    modifies state
    ensures state[..27] == old(state[..27])
    ensures state[27..] == [Mix(c[..], 3), Mix(c[..], 4), Mix(c[..], 0), Rotl(c[0], 1)]
  {
    hide Xor, Rotl;
    state[29] := Xor(c[4], Rotl(c[1], 1));
    state[27] := Xor(c[2], Rotl(c[4], 1));
    state[28] := Xor(c[3], Rotl(c[0], 1));
    state[30] := Rotl(c[0], 1);
  }

  /** The last round, which also leaves in the six scratch words what the micro-program would. */
  method LastRound(state: array<Lane>)
    requires state.Length == 31
    modifies state
    ensures state[..] == AfterLastCall(Round(old(state[..25]), 23), RoundScratch(old(state[..25])))
  {
    hide Xor, AndNot, Mix, Rotl, Theta, Rho, Pi, Chi, Parities, RoundConstant;
    ghost var a := state[..25];
    var c := ColumnParities(state);
    KeepMixes(state, c);
    assert state[..25] == state[..27][..25] == a;
    ghost var kept := state[27..];
    AddMix(state, c);
    RhoPiInPlace(state);
    state[26] := state[21];
    ChiInPlace(state);
    state[0] := Xor(state[0], RoundConstant(23));
    state[25] := Xor(Xor(Xor(Xor(state[0], state[5]), state[10]), state[15]), state[20]);
    assert state[27..] == kept == RoundScratch(a)[2..];
  }

  /** The stand-in for 649 calls: Keccak-f[1600] on the first 25 words, and the scratch words as the
      micro-program leaves them. */
  method KeccakF1600Ext(state: array<Lane>)
    requires state.Length == 31
    modifies state
    ensures state[..] == ExtendedKeccakF(old(state[..]))
  {
    hide Xor, Permute, Rounds, RoundConstant, RoundScratch, AfterLastCall;
    ghost var a := state[..25];
    RoundsNext(a, 0);
    for round := 0 to 23
      invariant state[..25] == Rounds(a, round)
    {
      RoundsNext(a, round);
      PermuteInPlace(state);
      state[0] := Xor(state[0], RoundConstant(round));
    }
    RoundsNext(a, 23);
    LastRound(state);
  }
}
