/** The M extension of RV32 as its manual defines it: integer products and quotients. */
module RiscvM {
  import opened MulRelation

  datatype Operation = MUL | MULH | MULHSU | MULHU | DIV | DIVU | REM | REMU

  /** A 32-bit word. */
  type Word = w: nat | w < TWO32

  /** The two's complement value of a word. */
  function AsSigned(w: Word): (v: int)
    ensures v == Signed(w, w >= 0x8000_0000)
  {
    if w < 0x8000_0000 then w else w - TWO32
  }

  /** The low 32 bits of an integer. */
  function ToWord(v: int): Word {
    v % TWO32
  }

  /** Quotient and remainder rounded towards zero, as the division instructions need them. */
  function Quot(n: int, d: int): int
    requires d != 0
  {
    var q := Abs(n) / Abs(d);
    if (n < 0) != (d < 0) then -q else q
  }

  function Rem(n: int, d: int): int
    requires d != 0
  {
    var r := Abs(n) % Abs(d);
    if n < 0 then -r else r
  }

  function Abs(x: int): nat {
    if x < 0 then -x else x
  }

  /** The value that the instruction writes to rd. */
  function Result(op: Operation, rs1: Word, rs2: Word): Word {
    match op
    case MUL => ToWord(rs1 * rs2)
    case MULH => ToWord(AsSigned(rs1) * AsSigned(rs2) / TWO32)
    case MULHSU => ToWord(AsSigned(rs1) * rs2 / TWO32)
    case MULHU => ToWord(rs1 * rs2 / TWO32)
    case DIV =>
      if rs2 == 0 then ToWord(-1)
      else if rs1 == 0x8000_0000 && rs2 == 0xFFFF_FFFF then 0x8000_0000
      else ToWord(Quot(AsSigned(rs1), AsSigned(rs2)))
    case DIVU => if rs2 == 0 then ToWord(-1) else rs1 / rs2
    case REM =>
      if rs2 == 0 then rs1
      else if rs1 == 0x8000_0000 && rs2 == 0xFFFF_FFFF then 0
      else ToWord(Rem(AsSigned(rs1), AsSigned(rs2)))
    case REMU => if rs2 == 0 then rs1 else rs1 % rs2
  }

  lemma NaturalDivision(n: nat, d: nat)
    requires d > 0
    ensures n == d * (n / d) + n % d && 0 <= n / d && 0 <= n % d < d
  {
  }

  lemma QuotientBounds(n: nat, d: nat, q: nat, r: nat)
    requires d > 0 && n == d * q + r
    ensures q <= n && r <= n
  {
    assert (d - 1) * q >= 0;
  }

  lemma SignedDivision(n: int, d: int, q: int, r: int)
    requires d != 0 && Abs(n) == Abs(d) * q + r
    ensures (if (n < 0) != (d < 0) then -q else q) * d + (if n < 0 then -r else r) == n
  {
    assert (-q) * d == -(q * d) && q * (-d) == -(q * d);
  }

  lemma QuotRem(n: int, d: int)
    requires d != 0
    ensures Quot(n, d) * d + Rem(n, d) == n
    ensures Abs(Rem(n, d)) < Abs(d)
    ensures Abs(Quot(n, d)) <= Abs(n) && Abs(Rem(n, d)) <= Abs(n)
  {
    var q, r := Abs(n) / Abs(d), Abs(n) % Abs(d);
    NaturalDivision(Abs(n), Abs(d));
    QuotientBounds(Abs(n), Abs(d), q, r);
    SignedDivision(n, d, q, r);
  }
}
