/** The field of 2^31 - 1 elements in which witness places are stored, by canonical value. */
module Mersenne31 {
  const P := 0x7FFF_FFFF

  type Fp = x: int | 0 <= x < P

  function Add(a: Fp, b: Fp): Fp {
    (a + b) % P
  }

  function Sub(a: Fp, b: Fp): Fp {
    (a - b) % P
  }

  function Mul(a: Fp, b: Fp): Fp {
    (a * b) % P
  }

  function FromInteger(v: nat): Fp {
    v % P
  }

  function FromBool(b: bool): Fp {
    if b then 1 else 0
  }

  /** The two constants that a mask combines with to form an exclusive or: 0 and -2. */
  const MINUS_TWO: Fp := 2147483645

  lemma ModUnique(x: int, y: Fp, k: int)
    requires x == y + P * k
    ensures x % P == y
  {
  }

  lemma ShiftMod(x: int, k: int)
    ensures (x + P * k) % P == x % P
  {
  }

  lemma SmallMod(y: Fp)
    ensures y % P == y
  {
  }

  lemma SumMod(a: int, b: int)
    ensures (a % P + b % P) % P == (a + b) % P && (a % P - b % P) % P == (a - b) % P
  {
    ShiftMod(a + b, -(a / P) - b / P);
    ShiftMod(a - b, -(a / P) + b / P);
  }

  lemma ReduceProduct(a: int, b: int)
    ensures ((a % P) * (b % P)) % P == (a * b) % P
  {
    var i, j := a / P, b / P;
    var k := (a % P) * j + i * (b % P) + P * (i * j);
    assert a * b == (P * i + a % P) * (P * j + b % P) == (a % P) * (b % P) + P * k;
    ShiftMod((a % P) * (b % P), k);
  }

  /** A field accumulator that holds an integer sum modulo p. */
  lemma Accumulate(v: Fp, sum: int, t: int)
    requires v == sum % P
    ensures Add(v, t % P) == (sum + t) % P
  {
    SumMod(sum, t);
  }

  lemma ProductOfFlags(a: bool, b: bool)
    ensures Add(0, Mul(FromBool(a), FromBool(b))) == FromBool(a && b)
  {
  }

  lemma AddZero(x: Fp)
    ensures Add(0, x) == x && Add(x, 0) == x
  {
  }
}
