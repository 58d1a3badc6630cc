/** Keccak-f[1600] at the level of 64-bit lanes, following FIPS 202.

    Lane A[x, y] is kept at index 5 * y + x. Everything else about Keccak in this project is
    compared against the functions of this module. */
module KeccakSpec {
  import opened WordShifts

  datatype Lane = Lane(bits: bv64)

  type Lanes = s: seq<Lane> | |s| == 25 witness seq(25, _ => Lane(0))

  function Xor(a: Lane, b: Lane): Lane {
    Lane(a.bits ^ b.bits)
  }

  /** Not a, and b. */
  function AndNot(a: Lane, b: Lane): Lane {
    Lane(!a.bits & b.bits)
  }

  function Rotl(a: Lane, k: nat): Lane
    requires k < 64
  {
    Lane(Rotate(a.bits, k as bv8))
  }

  /** C[x] of section 3.2.1: the parity of a column of lanes. */
  function Parity(a: Lanes, x: nat): Lane
    requires x < 5
  {
    Xor(Xor(Xor(Xor(a[x], a[x + 5]), a[x + 10]), a[x + 15]), a[x + 20])
  }

  /** D[x] of section 3.2.1, from the five column parities. */
  function Mix(c: seq<Lane>, x: nat): Lane
    requires |c| == 5 && x < 5
  {
    Xor(c[(x + 4) % 5], Rotl(c[(x + 1) % 5], 1))
  }

  function Parities(a: Lanes): (c: seq<Lane>)
    ensures |c| == 5
  {
    [Parity(a, 0), Parity(a, 1), Parity(a, 2), Parity(a, 3), Parity(a, 4)]
  }

  function Theta(a: Lanes): Lanes {
    seq(25, j requires 0 <= j < 25 => Xor(a[j], Mix(Parities(a), j % 5)))
  }

  /** The walk of section 3.2.2: step t visits the lane at index Walk(t), starting at (1, 0) and
      going from (x, y) to (y, 2x + 3y). */
  function WalkNext(j: nat): (k: nat)
    requires j < 25
    ensures k < 25
  {
    var x, y := j % 5, j / 5;
    y + 5 * ((2 * x + 3 * y) % 5)
  }

  function Walk(t: nat): (j: nat)
    ensures j < 25
  {
    if t == 0 then 1 else WalkNext(Walk(t - 1))
  }

  /** The offset which that walk gives to the lane of step t: (t + 1)(t + 2) / 2 modulo 64. */
  function WalkOffset(t: nat): (k: nat)
    ensures k < 64
  {
    ((t + 1) * (t + 2) / 2) % 64
  }

  /** The offsets by lane index. RhoOffsetsFollowWalk ties them to the walk. */
  function RhoOffset(j: nat): (k: nat)
    requires j < 25
    ensures k < 64
  {
    match j
    case 0 => 0 case 1 => 1 case 2 => 62 case 3 => 28 case 4 => 27
    case 5 => 36 case 6 => 44 case 7 => 6 case 8 => 55 case 9 => 20
    case 10 => 3 case 11 => 10 case 12 => 43 case 13 => 25 case 14 => 39
    case 15 => 41 case 16 => 45 case 17 => 15 case 18 => 21 case 19 => 8
    case 20 => 18 case 21 => 2 case 22 => 61 case 23 => 56 case _ => 14
  }

  function Rho(a: Lanes): Lanes {
    seq(25, j requires 0 <= j < 25 => Rotl(a[j], RhoOffset(j)))
  }

  /** Section 3.2.3: the lane that pi moves to index j, A'[x, y] = A[(x + 3y) mod 5, x]. */
  function PiSource(j: nat): (k: nat)
    requires j < 25
    ensures k < 25
  {
    var x, y := j % 5, j / 5;
    (x + 3 * y) % 5 + 5 * x
  }

  function Pi(a: Lanes): Lanes {
    seq(25, j requires 0 <= j < 25 => a[PiSource(j)])
  }

  function ChiLane(a: Lanes, j: nat): Lane
    requires j < 25
  {
    var x, row := j % 5, j - j % 5;
    Xor(a[j], AndNot(a[row + (x + 1) % 5], a[row + (x + 2) % 5]))
  }

  function Chi(a: Lanes): Lanes {
    seq(25, j requires 0 <= j < 25 => ChiLane(a, j))
  }

  function RoundConstant(r: nat): Lane
    requires r < 24
  {
    match r
    case 0 => Lane(0x0000000000000001) case 1 => Lane(0x0000000000008082)
    case 2 => Lane(0x800000000000808a) case 3 => Lane(0x8000000080008000)
    case 4 => Lane(0x000000000000808b) case 5 => Lane(0x0000000080000001)
    case 6 => Lane(0x8000000080008081) case 7 => Lane(0x8000000000008009)
    case 8 => Lane(0x000000000000008a) case 9 => Lane(0x0000000000000088)
    case 10 => Lane(0x0000000080008009) case 11 => Lane(0x000000008000000a)
    case 12 => Lane(0x000000008000808b) case 13 => Lane(0x800000000000008b)
    case 14 => Lane(0x8000000000008089) case 15 => Lane(0x8000000000008003)
    case 16 => Lane(0x8000000000008002) case 17 => Lane(0x8000000000000080)
    case 18 => Lane(0x000000000000800a) case 19 => Lane(0x800000008000000a)
    case 20 => Lane(0x8000000080008081) case 21 => Lane(0x8000000000008080)
    case 22 => Lane(0x0000000080000001) case _ => Lane(0x8000000080008008)
  }

  function Iota(a: Lanes, rc: Lane): Lanes {
    a[0 := Xor(a[0], rc)]
  }

  /** A round without its iota step. */
  function Permute(a: Lanes): Lanes {
    Chi(Pi(Rho(Theta(a))))
  }

  /** Rnd(A, r) of section 3.3. */
  function Round(a: Lanes, r: nat): Lanes
    requires r < 24
  {
    Iota(Permute(a), RoundConstant(r))
  }

  /** The first n rounds of Keccak-f[1600]. */
  function Rounds(a: Lanes, n: nat): Lanes
    requires n <= 24
  {
    if n == 0 then a else Round(Rounds(a, n - 1), n - 1)
  }

  function KeccakF(a: Lanes): Lanes {
    Rounds(a, 24)
  }


  /** One step of the feedback shift register of algorithm 5; bit i of r is R[i]. */
  function LfsrStep(r: bv8): bv8 {
    (r << 1) ^ (if r & 0x80 == 0 then 0 else 0x71)
  }

  function Lfsr(t: nat): bv8 {
    if t == 0 then 1 else LfsrStep(Lfsr(t - 1))
  }

  /** rc(t), as a lane holding that bit alone. */
  function RcBit(t: nat): bv64 {
    (Lfsr(t % 255) & 1) as bv64
  }

  /** RC for round r by algorithm 6: bit 2^j - 1 of the lane is rc(j + 7r). */
  function LfsrConstant(r: nat): bv64 {
    RcBit(7 * r) | (RcBit(7 * r + 1) << 1) | (RcBit(7 * r + 2) << 3) | (RcBit(7 * r + 3) << 7)
    | (RcBit(7 * r + 4) << 15) | (RcBit(7 * r + 5) << 31) | (RcBit(7 * r + 6) << 63)
  }

  lemma RcBitBelowPeriod(t: nat)
    requires t < 255
    ensures RcBit(t) == (Lfsr(t) & 1) as bv64
  {
    assert t % 255 == t;
  }

  /** The constant of a round whose first register value is s. */
  function ConstantFrom(s: bv8): bv64 {
    var s1 := LfsrStep(s); var s2 := LfsrStep(s1); var s3 := LfsrStep(s2);
    var s4 := LfsrStep(s3); var s5 := LfsrStep(s4); var s6 := LfsrStep(s5);
    (s & 1) as bv64 | ((s1 & 1) as bv64 << 1) | ((s2 & 1) as bv64 << 3) | ((s3 & 1) as bv64 << 7)
    | ((s4 & 1) as bv64 << 15) | ((s5 & 1) as bv64 << 31) | ((s6 & 1) as bv64 << 63)
  }

  function SevenSteps(s: bv8): bv8 {
    LfsrStep(LfsrStep(LfsrStep(LfsrStep(LfsrStep(LfsrStep(LfsrStep(s)))))))
  }

  lemma LfsrUnfold(t: nat)
    ensures Lfsr(t + 1) == LfsrStep(Lfsr(t))
  {
  }

  lemma ConstantOfRound(r: nat, s: bv8)
    requires r < 24 && Lfsr(7 * r) == s
    ensures LfsrConstant(r) == ConstantFrom(s)
    ensures Lfsr(7 * (r + 1)) == SevenSteps(s)
  {
    var t := 7 * r;
    LfsrUnfold(t); LfsrUnfold(t + 1); LfsrUnfold(t + 2); LfsrUnfold(t + 3);
    LfsrUnfold(t + 4); LfsrUnfold(t + 5); LfsrUnfold(t + 6);
    RcBitBelowPeriod(t); RcBitBelowPeriod(t + 1); RcBitBelowPeriod(t + 2); RcBitBelowPeriod(t + 3);
    RcBitBelowPeriod(t + 4); RcBitBelowPeriod(t + 5); RcBitBelowPeriod(t + 6);
  }

  /** The register at the start of each round. */
  function LfsrAtRound(r: nat): bv8
    requires r <= 24
  {
    match r
    case 0 => 0x01 case 1 => 0x80 case 2 => 0xd8 case 3 => 0x1a case 4 => 0xdf
    case 5 => 0x09 case 6 => 0x35 case 7 => 0x4f case 8 => 0xca case 9 => 0x70
    case 10 => 0x41 case 11 => 0xec case 12 => 0xd5 case 13 => 0xcd case 14 => 0x63
    case 15 => 0xab case 16 => 0xaa case 17 => 0x2a case 18 => 0xf2 case 19 => 0xe8
    case 20 => 0x37 case 21 => 0x3e case 22 => 0x0b case 23 => 0x44 case _ => 0x8e
  }

  lemma LfsrTableSteps0(r: nat)
    requires 0 <= r < 8
    ensures SevenSteps(LfsrAtRound(r)) == LfsrAtRound(r + 1)
  {
  }

  lemma LfsrTableSteps1(r: nat)
    requires 8 <= r < 16
    ensures SevenSteps(LfsrAtRound(r)) == LfsrAtRound(r + 1)
  {
  }

  lemma LfsrTableSteps2(r: nat)
    requires 16 <= r < 24
    ensures SevenSteps(LfsrAtRound(r)) == LfsrAtRound(r + 1)
  {
  }

  lemma LfsrTableSteps(r: nat)
    requires r < 24
    ensures SevenSteps(LfsrAtRound(r)) == LfsrAtRound(r + 1)
  {
    if
    case r < 8 => LfsrTableSteps0(r);
    case 8 <= r < 16 => LfsrTableSteps1(r);
    case 16 <= r => LfsrTableSteps2(r);
  }

  lemma LfsrTableConstants0(r: nat)
    requires 0 <= r < 6
    ensures ConstantFrom(LfsrAtRound(r)) == RoundConstant(r).bits
  {
  }

  lemma LfsrTableConstants1(r: nat)
    requires 6 <= r < 12
    ensures ConstantFrom(LfsrAtRound(r)) == RoundConstant(r).bits
  {
  }

  lemma LfsrTableConstants2(r: nat)
    requires 12 <= r < 18
    ensures ConstantFrom(LfsrAtRound(r)) == RoundConstant(r).bits
  {
  }

  lemma LfsrTableConstants3(r: nat)
    requires 18 <= r < 24
    ensures ConstantFrom(LfsrAtRound(r)) == RoundConstant(r).bits
  {
  }

  lemma LfsrTableConstants(r: nat)
    requires r < 24
    ensures ConstantFrom(LfsrAtRound(r)) == RoundConstant(r).bits
  {
    if
    case r < 6 => LfsrTableConstants0(r);
    case 6 <= r < 12 => LfsrTableConstants1(r);
    case 12 <= r < 18 => LfsrTableConstants2(r);
    case 18 <= r => LfsrTableConstants3(r);
  }

  lemma LfsrRound(r: nat, s: bv8, s': bv8)
    requires r < 24 && Lfsr(7 * r) == s && SevenSteps(s) == s'
    ensures Lfsr(7 * (r + 1)) == s'
  {
    ConstantOfRound(r, s);
  }

  lemma LfsrRoundByTable(r: nat, s: bv8, s': bv8)
    requires r < 24 && Lfsr(7 * r) == s == LfsrAtRound(r) && s' == LfsrAtRound(r + 1)
    ensures Lfsr(7 * (r + 1)) == s'
  {
    LfsrTableSteps(r);
    LfsrRound(r, s, s');
  }

  lemma {:induction false} LfsrReaches(r: nat)
    requires r < 24
    ensures Lfsr(7 * r) == LfsrAtRound(r)
  {
    if r > 0 {
      LfsrReaches(r - 1);
      LfsrRoundByTable(r - 1, LfsrAtRound(r - 1), LfsrAtRound(r));
    }
  }

  /** The 24 constants in the repository are the ones the shift register of FIPS 202 generates. */
  lemma RoundConstantsFollowLfsr(r: nat)
    requires r < 24
    ensures RoundConstant(r).bits == LfsrConstant(r)
  {
    LfsrReaches(r);
    ConstantOfRound(r, LfsrAtRound(r));
    LfsrTableConstants(r);
  }

  /** The lanes in the order in which the walk of section 3.2.2 visits them. */
  function WalkTable(t: nat): nat
    requires t <= 24
  {
    match t
    case 0 => 1 case 1 => 10 case 2 => 7 case 3 => 11 case 4 => 17 case 5 => 18 case 6 => 3 case 7 => 5
    case 8 => 16 case 9 => 8 case 10 => 21 case 11 => 24 case 12 => 4 case 13 => 15 case 14 => 23 case 15 => 19
    case 16 => 13 case 17 => 12 case 18 => 2 case 19 => 20 case 20 => 14 case 21 => 22 case 22 => 9 case 23 => 6
    case _ => 1
  }

  lemma WalkTableStep0(t: nat)
    requires 0 <= t < 8
    ensures WalkTable(t) < 25 && WalkNext(WalkTable(t)) == WalkTable(t + 1)
  {
  }

  lemma WalkTableStep1(t: nat)
    requires 8 <= t < 16
    ensures WalkTable(t) < 25 && WalkNext(WalkTable(t)) == WalkTable(t + 1)
  {
  }

  lemma WalkTableStep2(t: nat)
    requires 16 <= t < 24
    ensures WalkTable(t) < 25 && WalkNext(WalkTable(t)) == WalkTable(t + 1)
  {
  }

  lemma WalkTableStep(t: nat)
    requires t < 24
    ensures WalkTable(t) < 25 && WalkNext(WalkTable(t)) == WalkTable(t + 1)
  {
    if
    case t < 8 => WalkTableStep0(t);
    case 8 <= t < 16 => WalkTableStep1(t);
    case 16 <= t => WalkTableStep2(t);
  }

  lemma WalkUnfold(t: nat, j: nat, k: nat)
    requires Walk(t) == j < 25 && WalkNext(j) == k
    ensures Walk(t + 1) == k
  {
  }

  lemma {:induction false} WalkVisits(t: nat)
    requires t <= 24
    ensures Walk(t) == WalkTable(t)
  {
    if t > 0 {
      WalkVisits(t - 1);
      WalkTableStep(t - 1);
      WalkUnfold(t - 1, WalkTable(t - 1), WalkTable(t));
    }
  }

  /** The step at which the walk visits a lane; it never visits lane 0. */
  function WalkIndex(j: nat): nat
    requires j < 25
  {
    match j
    case 0 => 24 case 1 => 0 case 2 => 18 case 3 => 6 case 4 => 12 case 5 => 7 case 6 => 23 case 7 => 2
    case 8 => 9 case 9 => 22 case 10 => 1 case 11 => 3 case 12 => 17 case 13 => 16 case 14 => 20 case 15 => 13
    case 16 => 8 case 17 => 4 case 18 => 5 case 19 => 15 case 20 => 19 case 21 => 10 case 22 => 21 case 23 => 14
    case _ => 11
  }

  lemma WalkTableInverse(t: nat)
    requires t < 24
    ensures WalkTable(t) < 25 && WalkIndex(WalkTable(t)) == t
  {
  }

  lemma WalkTableOffsets0(t: nat)
    requires 0 <= t < 6
    ensures RhoOffset(WalkTable(t)) == WalkOffset(t)
  {
  }

  lemma WalkTableOffsets1(t: nat)
    requires 6 <= t < 12
    ensures RhoOffset(WalkTable(t)) == WalkOffset(t)
  {
  }

  lemma WalkTableOffsets2(t: nat)
    requires 12 <= t < 18
    ensures RhoOffset(WalkTable(t)) == WalkOffset(t)
  {
  }

  lemma WalkTableOffsets3(t: nat)
    requires 18 <= t < 24
    ensures RhoOffset(WalkTable(t)) == WalkOffset(t)
  {
  }

  lemma WalkTableOffsets(t: nat)
    requires t < 24
    ensures RhoOffset(WalkTable(t)) == WalkOffset(t)
  {
    if
    case t < 6 => WalkTableOffsets0(t);
    case 6 <= t < 12 => WalkTableOffsets1(t);
    case 12 <= t < 18 => WalkTableOffsets2(t);
    case 18 <= t => WalkTableOffsets3(t);
  }

  lemma WalkIndexInverse(j: nat)
    requires 1 <= j < 25
    ensures WalkIndex(j) < 24 && WalkTable(WalkIndex(j)) == j
  {
  }

  /** The 25 offsets in the repository are the ones of the walk in section 3.2.2, which visits
      each lane other than A[0, 0], whose offset is 0, exactly once in its 24 steps. */
  lemma RhoOffsetsFollowWalk(j: nat, t: nat)
    requires j < 25 && t < 24
    ensures RhoOffset(0) == 0
    ensures Walk(t) == j <==> 1 <= j && t == WalkIndex(j)
    ensures Walk(t) == j ==> RhoOffset(j) == WalkOffset(t)
  {
    WalkVisits(t);
    WalkTableInverse(t);
    WalkTableOffsets(t);
    if 1 <= j {
      WalkIndexInverse(j);
    }
  }

  lemma LaneIndex(x: nat, y: nat)
    requires x < 5 && y < 5
    ensures (5 * y + x) % 5 == x && (5 * y + x) / 5 == y && 5 * y + x < 25
  {
  }

  /** The three operations on lanes, bit by bit; bit 63 comes around to bit 0. */
  lemma OperationsByBits(a: Lane, b: Lane)
    ensures Xor(a, b).bits == a.bits ^ b.bits && AndNot(a, b).bits == !a.bits & b.bits
    ensures Rotl(a, 1).bits == (a.bits << 1) | (a.bits >> 63)
  {
  }

  /** A rotation by k moves the top k bits below the others. */
  lemma RotateByBits(x: bv64, k: bv8)
    requires k < 64
    ensures Rotate(x, k) == (x << k) | (x >> (64 - k))
  {
  }

  lemma ParityOfColumn(a: Lanes, i: nat)
    requires i < 5
    ensures Parities(a)[i] == Xor(Xor(Xor(Xor(a[i], a[i + 5]), a[i + 10]), a[i + 15]), a[i + 20])
  {
    hide Xor;
  }

  lemma MixOfColumns(c: seq<Lane>, x: nat)
    requires |c| == 5 && x < 5
    ensures Mix(c, x) == Xor(c[(x + 4) % 5], Rotl(c[(x + 1) % 5], 1))
  {
    hide Xor, Rotl;
  }

  /** Theta as section 3.2.1 defines it: every lane with the parities of the column before it and, one
      position further, of the column after it. */
  lemma ThetaByLanes(a: Lanes, x: nat, y: nat)
    requires x < 5 && y < 5
    ensures
      var l, r := (x + 4) % 5, (x + 1) % 5;
      var before := Xor(Xor(Xor(Xor(a[l], a[l + 5]), a[l + 10]), a[l + 15]), a[l + 20]);
      var after := Xor(Xor(Xor(Xor(a[r], a[r + 5]), a[r + 10]), a[r + 15]), a[r + 20]);
      Theta(a)[5 * y + x] == Xor(a[5 * y + x], Xor(before, Rotl(after, 1)))
  {
    hide Xor, Rotl, Parities, Mix;
    LaneIndex(x, y);
    ParityOfColumn(a, (x + 4) % 5);
    ParityOfColumn(a, (x + 1) % 5);
    MixOfColumns(Parities(a), x);
  }

  /** Rho and pi together, in the direction of the walk: the lane at (x, y) goes to (y, 2x + 3y). */
  lemma RhoPiByLanes(a: Lanes, x: nat, y: nat)
    requires x < 5 && y < 5
    ensures 5 * ((2 * x + 3 * y) % 5) + y < 25
    ensures Pi(Rho(a))[5 * ((2 * x + 3 * y) % 5) + y] == Rotl(a[5 * y + x], RhoOffset(5 * y + x))
  {
    hide Rotl, RhoOffset;
    LaneIndex(x, y);
    LaneIndex(y, (2 * x + 3 * y) % 5);
    PiUndone(x, y);
  }

  lemma PiUndone(x: nat, y: nat)
    requires x < 5 && y < 5
    ensures (y + 3 * ((2 * x + 3 * y) % 5)) % 5 == x
  {
    var q, z := (2 * x + 3 * y) / 5, (2 * x + 3 * y) % 5;
    assert y + 3 * z == x + 5 * (x + 2 * y - 3 * q);
  }

  /** Chi and iota as sections 3.2.4 and 3.2.5 define them. */
  lemma ChiIotaByLanes(a: Lanes, x: nat, y: nat, r: nat)
    requires x < 5 && y < 5 && r < 24
    ensures Chi(a)[5 * y + x] == Xor(a[5 * y + x], AndNot(a[5 * y + (x + 1) % 5], a[5 * y + (x + 2) % 5]))
    ensures Iota(a, RoundConstant(r))[5 * y + x]
      == if x == 0 && y == 0 then Xor(a[0], RoundConstant(r)) else a[5 * y + x]
  {
    hide Xor, AndNot, RoundConstant;
    LaneIndex(x, y);
  }
}
