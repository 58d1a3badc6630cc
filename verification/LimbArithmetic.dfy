/** 32-bit words in two 16-bit limb places, and the field expressions that circuits share. */
module LimbArithmetic {
  import opened Mersenne31
  import opened Witness
  import opened MulRelation
  import opened RiscvM

  /** The 16-bit places i and j hold the word v. */
  ghost predicate Holds32(row: array<Fp>, i: nat, j: nat, v: Word)
    requires i < row.Length && j < row.Length
    reads row
  {
    row[i] == v % TWO16 && row[j] == v / TWO16
  }

  /** Exclusive or, and-not and nor of two boolean places, as field expressions. */
  function XorField(a: Fp, b: Fp): Fp {
    Add(Add(Add(0, Mul(Mul(a, MINUS_TWO), b)), a), b)
  }

  function AndNotField(a: Fp, b: Fp): Fp {
    Add(Sub(0, Mul(a, b)), a)
  }

  function NorField(a: Fp, b: Fp): Fp {
    Sub(Sub(Add(1, Mul(a, b)), a), b)
  }

  lemma BooleanFields(a: bool, b: bool)
    ensures XorField(FromBool(a), FromBool(b)) == FromBool(a != b)
    ensures AndNotField(FromBool(a), FromBool(b)) == FromBool(a && !b)
    ensures NorField(FromBool(a), FromBool(b)) == FromBool(!a && !b)
    ensures Mul(FromBool(a), FromBool(b)) == FromBool(a && b)
  {
  }

  /** A field expression f * x - f * y + y over a boolean f chooses x or y. */
  function Blend(f: Fp, x: Fp, y: Fp): Fp {
    Add(Sub(Add(0, Mul(f, x)), Mul(f, y)), y)
  }

  lemma BlendChooses(b: bool, x: Fp, y: Fp)
    ensures Blend(FromBool(b), x, y) == if b then x else y
  {
  }

  /** The and-not of a place with a boolean one clears it under that flag. */
  lemma ClearIs(a: Fp, f: bool)
    ensures AndNotField(a, FromBool(f)) == if f then 0 else a
  {
  }

  /** A two-limb word is zero exactly when its limbs add to zero in the field. */
  lemma ZeroTest(v: Word)
    ensures Add(v % TWO16, v / TWO16) == 0 <==> v == 0
  {
  }

  /** The word read from two limb places. */
  method ReadWord(row: array<Fp>, low: nat, high: nat, ghost v: Word) returns (w: Word)
    requires low < row.Length && high < row.Length && Holds32(row, low, high, v)
    ensures w == v
  {
    w := Add32(TWO16 * U16(row[high]), U16(row[low]));
  }

  /** Both limb equations of a + b = c + 2^32 * overflow, with a carry between the limbs. */
  predicate LimbEquations(a: Word, b: Word, c: Word, carry: bool, overflow: bool) {
    && a % TWO16 + b % TWO16 == c % TWO16 + TWO16 * Bit(carry)
    && a / TWO16 + b / TWO16 + Bit(carry) == c / TWO16 + TWO16 * Bit(overflow)
  }

  /** One limb equation, over places. */
  predicate Closes(a: nat, b: nat, c: nat, carry: nat) {
    a + b == c + 0x1_0000 * carry
  }

  /** Both limb equations over the limbs and the two carry places. */
  lemma LimbsClose(a: Word, b: Word, c: Word, carry: Fp, overflow: Fp)
    requires carry <= 1 && overflow <= 1 && LimbEquations(a, b, c, carry == 1, overflow == 1)
    ensures Closes(a % TWO16, b % TWO16, c % TWO16, carry)
    ensures a / TWO16 + b / TWO16 + carry == c / TWO16 + 0x1_0000 * overflow
  {
  }

  /** The carry that makes the first equation true makes the second one true as well. */
  lemma CarryBetweenLimbs(a: Word, b: Word, c: Word, overflow: bool)
    requires a + b == c + TWO32 * Bit(overflow)
    ensures
      var t := a % TWO16 + b % TWO16 - c % TWO16;
      (t == 0 || t == TWO16) && LimbEquations(a, b, c, t == TWO16, overflow)
  {
  }

  /** The carry bit as the evaluator takes it from a wrapping difference. */
  function CarryBit(a: nat, b: nat, c: nat): bool {
    Sub32(Add32(a, b), c) / TWO16 % 2 == 1
  }

  lemma CarryBitIs(a: nat, b: nat, c: nat)
    requires a < TWO16 && b < TWO16 && c < TWO16 && (a + b - c == 0 || a + b - c == TWO16)
    ensures CarryBit(a, b, c) == (a + b - c == TWO16)
  {
  }

  /** So the bit that the evaluator takes closes both limb equations. */
  lemma CarryBitCloses(a: Word, b: Word, c: Word, overflow: bool)
    requires a + b == c + TWO32 * Bit(overflow)
    ensures LimbEquations(a, b, c, CarryBit(a % TWO16, b % TWO16, c % TWO16), overflow)
  {
    hide LimbEquations, CarryBit;
    CarryBetweenLimbs(a, b, c, overflow);
    CarryBitIs(a % TWO16, b % TWO16, c % TWO16);
  }
}
