/** The micro-program of the keccak_special5 delegation: an 11-bit control word selects one of
    seven steps, each of which rewrites six of 31 memory words, and the control word advances
    itself. */
module KeccakMachine {
  import opened KeccakSpec
  import opened KeccakOrder

  const IOTA_COLUMNXOR := 0
  const COLUMNMIX1 := 1
  const COLUMNMIX2 := 2
  const THETA := 3
  const RHO := 4
  const CHI1 := 5
  const CHI2 := 6
  const NUM_CALLS := 649
  const FINAL_CONTROL := 1544

  datatype Control = Control(precompile: nat, iteration: nat, round: nat) {
    /** The combinations for which the index table holds no junk. */
    predicate Valid() {
      precompile < 7 && iteration < 5 && (round < 24 || (round == 24 && precompile == IOTA_COLUMNXOR))
    }

    /** The control word: 3 bits, 3 bits, 5 bits, lowest first. */
    function Encode(): nat {
      precompile + 8 * iteration + 64 * round
    }
  }

  function Decode(x10: nat): Control {
    Control(x10 % 8, x10 / 8 % 8, x10 / 64)
  }

  lemma DecodeEncode(c: Control)
    requires c.precompile < 8 && c.iteration < 8
    ensures Decode(c.Encode()) == c
  {
    LowBits(8, c.precompile, c.iteration + 8 * c.round);
    LowBits(8, c.iteration, c.round);
    LowBits(64, c.precompile + 8 * c.iteration, c.round);
  }

  lemma LowBits(d: nat, low: nat, high: nat)
    requires (d == 8 || d == 64) && low < d
    ensures (low + d * high) % d == low && (low + d * high) / d == high
  {
  }

  /** The control word of the following call. */
  function Bump(c: Control): Control
    requires c.Valid()
  {
    var last := c.iteration == 4;
    if c.precompile == IOTA_COLUMNXOR || c.precompile == THETA || c.precompile == RHO then
      Control(if last then c.precompile + 1 else c.precompile, (c.iteration + 1) % 5, c.round)
    else if c.precompile == CHI2 then
      Control(if last then IOTA_COLUMNXOR else c.precompile - 1, (c.iteration + 1) % 5,
              if last then c.round + 1 else c.round)
    else
      c.(precompile := c.precompile + 1)
  }

  type Memory = m: seq<Lane> | |m| == 31 witness seq(31, _ => Lane(0))

  /** The six memory words a step reads and writes. */
  function Indices(c: Control): (idx: seq<nat>)
    requires c.Valid()
    ensures |idx| == 6 && forall k :: 0 <= k < 6 ==> idx[k] < 31
  {
    var p, i, r := c.precompile, c.iteration, c.round;
    if p == IOTA_COLUMNXOR then
      [Place(r, i), Place(r, i + 5), Place(r, i + 10), Place(r, i + 15), Place(r, i + 20), 25 + i]
    else if p == COLUMNMIX1 || p == COLUMNMIX2 then
      [25, 26, 27, 28, 29, 30]
    else if p == THETA then
      [Place(r, i), Place(r, i + 5), Place(r, i + 10), Place(r, i + 15), Place(r, i + 20),
       if i == 0 then 29 else 24 + i]
    else if p == RHO then
      [Place(r, i), Place(r, i + 5), Place(r, i + 10), Place(r, i + 15), Place(r, i + 20), 25]
    else if p == CHI1 then
      [Place(r + 1, 5 * i + 1), Place(r + 1, 5 * i + 2), Place(r + 1, 5 * i + 3),
       Place(r + 1, 5 * i + 4), 25, 26]
    else
      [Place(r + 1, 5 * i), Place(r + 1, 5 * i + 3), Place(r + 1, 5 * i + 4), 25, 26, 27]
  }

  /** ROUND_CONSTANTS_ADJUSTED: the constants moved to the start of the following round. */
  function AdjustedConstant(r: nat): Lane
    requires r <= 24
  {
    match r
    case 0 => Lane(0) case 1 => Lane(1) case 2 => Lane(32898)
    case 3 => Lane(9223372036854808714) case 4 => Lane(9223372039002292224) case 5 => Lane(32907)
    case 6 => Lane(2147483649) case 7 => Lane(9223372039002292353) case 8 => Lane(9223372036854808585)
    case 9 => Lane(138) case 10 => Lane(136) case 11 => Lane(2147516425)
    case 12 => Lane(2147483658) case 13 => Lane(2147516555) case 14 => Lane(9223372036854775947)
    case 15 => Lane(9223372036854808713) case 16 => Lane(9223372036854808579) case 17 => Lane(9223372036854808578)
    case 18 => Lane(9223372036854775936) case 19 => Lane(32778) case 20 => Lane(9223372039002259466)
    case 21 => Lane(9223372039002292353) case 22 => Lane(9223372036854808704) case 23 => Lane(2147483649)
    case _ => Lane(9223372039002292232)
  }

  /** The rotations of iteration x of the rho step, for the lanes of column x. */
  function RotationOf(iteration: nat): (rot: seq<nat>)
    requires iteration < 5
    ensures |rot| == 5 && forall k :: 0 <= k < 5 ==> rot[k] < 64
  {
    match iteration
    case 0 => [0, 36, 3, 41, 18]
    case 1 => [1, 44, 10, 45, 2]
    case 2 => [62, 6, 43, 15, 61]
    case 3 => [28, 55, 25, 21, 56]
    case _ => [27, 20, 39, 8, 14]
  }

  function IotaColumnXor(w: seq<Lane>, rc: Lane): (out: seq<Lane>)
    requires |w| == 6
    ensures |out| == 6
  {
    var idx0 := Xor(w[0], rc);
    [idx0, w[1], w[2], w[3], w[4], Xor(Xor(Xor(Xor(idx0, w[1]), w[2]), w[3]), w[4])]
  }

  function ColumnMix1(w: seq<Lane>): (out: seq<Lane>)
    requires |w| == 6
    ensures |out| == 6
  {
    [Xor(w[0], Rotl(w[2], 1)), w[1], Xor(w[2], Rotl(w[4], 1)), w[3], w[4], Rotl(w[0], 1)]
  }

  function ColumnMix2(w: seq<Lane>): (out: seq<Lane>)
    requires |w| == 6
    ensures |out| == 6
  {
    [w[0], Xor(w[1], Rotl(w[3], 1)), w[2], Xor(w[3], w[5]), Xor(w[4], Rotl(w[1], 1)), w[5]]
  }

  function ThetaXor(w: seq<Lane>): (out: seq<Lane>)
    requires |w| == 6
    ensures |out| == 6
  {
    [Xor(w[0], w[5]), Xor(w[1], w[5]), Xor(w[2], w[5]), Xor(w[3], w[5]), Xor(w[4], w[5]), w[5]]
  }

  function RhoRotate(w: seq<Lane>, rot: seq<nat>): (out: seq<Lane>)
    requires |w| == 6 && |rot| == 5 && forall k :: 0 <= k < 5 ==> rot[k] < 64
    ensures |out| == 6
  {
    [Rotl(w[0], rot[0]), Rotl(w[1], rot[1]), Rotl(w[2], rot[2]), Rotl(w[3], rot[3]),
     Rotl(w[4], rot[4]), w[5]]
  }

  function ChiFirst(w: seq<Lane>): (out: seq<Lane>)
    requires |w| == 6
    ensures |out| == 6
  {
    [Xor(w[0], AndNot(w[1], w[2])), Xor(w[1], AndNot(w[2], w[3])), w[2], w[3], AndNot(w[0], w[1]), w[0]]
  }

  function ChiSecond(w: seq<Lane>): (out: seq<Lane>)
    requires |w| == 6
    ensures |out| == 6
  {
    [Xor(w[0], w[3]), Xor(w[1], AndNot(w[2], w[0])), Xor(w[2], AndNot(w[0], w[4])), w[3], w[4], w[5]]
  }

  /** What a step puts back into the six words it read. */
  function Outputs(c: Control, w: seq<Lane>): (out: seq<Lane>)
    requires c.Valid() && |w| == 6
    ensures |out| == 6
  {
    var p, i := c.precompile, c.iteration;
    if p == IOTA_COLUMNXOR then IotaColumnXor(w, AdjustedConstant(if i == 0 then c.round else 0))
    else if p == COLUMNMIX1 then ColumnMix1(w)
    else if p == COLUMNMIX2 then ColumnMix2(w)
    else if p == THETA then ThetaXor(w)
    else if p == RHO then RhoRotate(w, RotationOf(i))
    else if p == CHI1 then ChiFirst(w)
    else ChiSecond(w)
  }

  function Gather(m: Memory, idx: seq<nat>): (w: seq<Lane>)
    requires |idx| == 6 && forall k :: 0 <= k < 6 ==> idx[k] < 31
    ensures |w| == 6
  {
    [m[idx[0]], m[idx[1]], m[idx[2]], m[idx[3]], m[idx[4]], m[idx[5]]]
  }

  /** The memory after the first n of a step's writes. */
  function Scatter(m: Memory, idx: seq<nat>, out: seq<Lane>, n: nat): Memory
    requires |idx| == |out| == 6 && n <= 6 && forall k :: 0 <= k < 6 ==> idx[k] < 31
  {
    if n == 0 then m else Scatter(m, idx, out, n - 1)[idx[n - 1] := out[n - 1]]
  }

  function Step(c: Control, m: Memory): Memory
    requires c.Valid()
  {
    var idx := Indices(c);
    Scatter(m, idx, Outputs(c, Gather(m, idx)), 6)
  }

  datatype State = State(control: Control, memory: Memory)

  /** One call of the delegation. A control word outside the table is a panic in the source;
      here the machine stops on it. */
  function Next(s: State): State {
    if s.control.Valid() then State(Bump(s.control), Step(s.control, s.memory)) else s
  }

  function Run(s: State, n: nat): State
    decreases n, s
  {
    if n == 0 then s else Run(Next(s), n - 1)
  }

  lemma {:induction false} RunAdd(s: State, a: nat, b: nat)
    ensures Run(s, a + b) == Run(Run(s, a), b)
    decreases a
  {
    hide Next;
    if a > 0 {
      RunAdd(Next(s), a - 1, b);
    }
  }
}
