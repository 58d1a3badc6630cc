/** The instruction decoder of the full and the minimal machine. Bits 7 and 20 of an instruction are
    never cut out: they appear through multiplication by 2^24 and 2^27, the inverses of 2^7 and 2^4
    modulo 2^31 - 1. */
module Decoder {
  import opened Mersenne31
  import opened Witness
  import opened Digits
  import opened MulRelation
  import opened RiscvM

  datatype Format = RType | IType | SType | BType | UType | JType

  /** An instruction word in the pieces of its two 16-bit halves, lowest bits first. */
  datatype Pieces = Pieces(opcode: nat, bit7: nat, rdHigh: nat, funct3: nat, rs1Low: nat,
                           rs1High: nat, bit20: nat, rs2High: nat, funct6: nat, sign: nat) {
    predicate Valid() {
      && opcode < 0x80 && bit7 < 2 && rdHigh < 0x10 && funct3 < 8 && rs1Low < 2
      && rs1High < 0x10 && bit20 < 2 && rs2High < 0x10 && funct6 < 0x40 && sign < 2
    }

    function Low(): nat {
      opcode + 0x80 * bit7 + 0x100 * rdHigh + 0x1000 * funct3 + 0x8000 * rs1Low
    }

    function High(): nat {
      rs1High + 0x10 * bit20 + 0x20 * rs2High + 0x200 * funct6 + 0x8000 * sign
    }

    function Word(): nat {
      Low() + TWO16 * High()
    }
  }

  /** Cutting a word gives the only pieces that make it up. */
  function Cut(w: Word): (c: Pieces)
    ensures c.Valid() && c.Word() == w
  {
    var l, h := w % TWO16, w / TWO16;
    CutHalf7(l);
    CutHalf4(h);
    Pieces(l % 0x80, l / 0x80 % 2, l / 0x100 % 0x10, l / 0x1000 % 8, l / 0x8000 % 2,
           h % 0x10, h / 0x10 % 2, h / 0x20 % 0x10, h / 0x200 % 0x40, h / 0x8000 % 2)
  }

  lemma CutHalf7(l: nat)
    requires l < TWO16
    ensures l == l % 0x80 + 0x80 * (l / 0x80 % 2) + 0x100 * (l / 0x100 % 0x10) + 0x1000 * (l / 0x1000 % 8)
      + 0x8000 * (l / 0x8000 % 2)
  {
    NextDigit(l, 0x80, 2);
    NextDigit(l, 0x100, 0x10);
    NextDigit(l, 0x1000, 8);
  }

  lemma CutHalf4(h: nat)
    requires h < TWO16
    ensures h == h % 0x10 + 0x10 * (h / 0x10 % 2) + 0x20 * (h / 0x20 % 0x10) + 0x200 * (h / 0x200 % 0x40)
      + 0x8000 * (h / 0x8000 % 2)
  {
    NextDigit(h, 0x10, 2);
    NextDigit(h, 0x20, 0x10);
    NextDigit(h, 0x200, 0x40);
  }

  lemma LowUnique(c: Pieces, d: Pieces)
    requires c.Valid() && d.Valid() && c.Low() == d.Low()
    ensures c.opcode == d.opcode && c.bit7 == d.bit7 && c.rdHigh == d.rdHigh && c.funct3 == d.funct3
    ensures c.rs1Low == d.rs1Low
  {
    Digit(0x80, c.opcode, c.bit7 + 2 * (c.rdHigh + 0x10 * (c.funct3 + 8 * c.rs1Low)),
          d.opcode, d.bit7 + 2 * (d.rdHigh + 0x10 * (d.funct3 + 8 * d.rs1Low)));
    Digit(2, c.bit7, c.rdHigh + 0x10 * (c.funct3 + 8 * c.rs1Low), d.bit7, d.rdHigh + 0x10 * (d.funct3 + 8 * d.rs1Low));
    Digit(0x10, c.rdHigh, c.funct3 + 8 * c.rs1Low, d.rdHigh, d.funct3 + 8 * d.rs1Low);
    Digit(8, c.funct3, c.rs1Low, d.funct3, d.rs1Low);
  }

  lemma HighUnique(c: Pieces, d: Pieces)
    requires c.Valid() && d.Valid() && c.High() == d.High()
    ensures c.rs1High == d.rs1High && c.bit20 == d.bit20 && c.rs2High == d.rs2High && c.funct6 == d.funct6
    ensures c.sign == d.sign
  {
    Digit(0x10, c.rs1High, c.bit20 + 2 * (c.rs2High + 0x10 * (c.funct6 + 0x40 * c.sign)),
          d.rs1High, d.bit20 + 2 * (d.rs2High + 0x10 * (d.funct6 + 0x40 * d.sign)));
    Digit(2, c.bit20, c.rs2High + 0x10 * (c.funct6 + 0x40 * c.sign), d.bit20,
      d.rs2High + 0x10 * (d.funct6 + 0x40 * d.sign));
    Digit(0x10, c.rs2High, c.funct6 + 0x40 * c.sign, d.rs2High, d.funct6 + 0x40 * d.sign);
    Digit(0x40, c.funct6, c.sign, d.funct6, d.sign);
  }

  /** Only one cut of a word is possible. */
  lemma CutUnique(c: Pieces, d: Pieces)
    requires c.Valid() && d.Valid() && c.Word() == d.Word()
    ensures c == d
  {
    hide Pieces.Low, Pieces.High, Pieces.Valid;
    HalvesFit(c);
    HalvesFit(d);
    Digit(TWO16, c.Low(), c.High(), d.Low(), d.High());
    LowUnique(c, d);
    HighUnique(c, d);
  }

  lemma HalvesFit(c: Pieces)
    requires c.Valid()
    ensures c.Low() < TWO16 && c.High() < TWO16
  {
  }

  /** A field of bits from..from+size of a word, given the powers of two of both. */
  function Field(w: nat, power: nat, size: nat): (f: nat)
    requires power > 0 && size > 0
    ensures f < size
  {
    w / power % size
  }

  /** The two's complement reading of an n-bit immediate as a 32-bit word, given half = 2^(n-1). */
  function SignExtend(v: nat, half: nat): Word
    requires 0 < half <= 0x8000_0000 && v < 2 * half
  {
    if v < half then v else TWO32 - 2 * half + v
  }

  /** The immediates of the base formats, by the bit positions of section 2.3 of the RISC-V
      Unprivileged ISA, version 20191213. */
  function Immediate(format: Format, w: Word): Word
    requires !format.RType?
  {
    match format
    case IType => SignExtend(Field(w, 0x10_0000, 0x1000), 0x800)
    case SType => SignExtend(Field(w, 0x200_0000, 0x80) * 0x20 + Field(w, 0x80, 0x20), 0x800)
    case BType =>
      SignExtend(Field(w, 0x8000_0000, 2) * 0x1000 + Field(w, 0x80, 2) * 0x800
                 + Field(w, 0x200_0000, 0x40) * 0x20 + Field(w, 0x100, 0x10) * 2, 0x1000)
    case UType => Field(w, 0x1000, 0x10_0000) * 0x1000
    case JType =>
      SignExtend(Field(w, 0x8000_0000, 2) * 0x10_0000 + Field(w, 0x1000, 0x100) * 0x1000
                 + Field(w, 0x10_0000, 2) * 0x800 + Field(w, 0x20_0000, 0x400) * 2, 0x10_0000)
  }

  function Rd(w: Word): nat {
    Field(w, 0x80, 0x20)
  }

  /** The fields above in terms of the pieces. */
  lemma FieldsByPieces(c: Pieces)
    requires c.Valid()
    ensures
      var w := c.Word();
      && Field(w, 0x80, 2) == c.bit7 && Field(w, 0x80, 0x20) == c.bit7 + 2 * c.rdHigh
      && Field(w, 0x100, 0x10) == c.rdHigh
      && Field(w, 0x1000, 0x10_0000) == c.funct3 + 8 * c.rs1Low + 0x10 * c.High()
      && Field(w, 0x1000, 0x100) == c.funct3 + 8 * c.rs1Low + 0x10 * c.rs1High
  {
    hide Field;
    var w, h := c.Word(), c.High();
    var low, top := c.opcode + 0x80 * c.bit7, c.funct3 + 8 * c.rs1Low;
    FieldIs(w, 0x80, 2, c.opcode, c.bit7, c.rdHigh + 0x10 * (top + 0x10 * h));
    FieldIs(w, 0x80, 0x20, c.opcode, c.bit7 + 2 * c.rdHigh, top + 0x10 * h);
    FieldIs(w, 0x100, 0x10, low, c.rdHigh, top + 0x10 * h);
    FieldIs(w, 0x1000, 0x10_0000, low + 0x100 * c.rdHigh, top + 0x10 * h, 0);
    FieldIs(w, 0x1000, 0x100, low + 0x100 * c.rdHigh, top + 0x10 * c.rs1High,
      c.bit20 + 2 * c.rs2High + 0x20 * c.funct6 + 0x800 * c.sign);
  }

  lemma HighFieldsByPieces(c: Pieces)
    requires c.Valid()
    ensures
      var w := c.Word();
      && Field(w, 0x10_0000, 0x1000) == c.bit20 + 2 * c.rs2High + 0x20 * c.funct6 + 0x800 * c.sign
      && Field(w, 0x10_0000, 2) == c.bit20 && Field(w, 0x20_0000, 0x400) == c.rs2High + 0x10 * c.funct6
      && Field(w, 0x200_0000, 0x80) == c.funct6 + 0x40 * c.sign && Field(w, 0x200_0000, 0x40) == c.funct6
      && Field(w, 0x8000_0000, 2) == c.sign
  {
    hide Field;
    var w, l, top := c.Word(), c.Low() + TWO16 * c.rs1High, c.funct6 + 0x40 * c.sign;
    var rest := l + 0x10_0000 * c.bit20 + 0x20_0000 * c.rs2High;
    FieldIs(w, 0x10_0000, 0x1000, l, c.bit20 + 2 * c.rs2High + 0x20 * top, 0);
    FieldIs(w, 0x10_0000, 2, l, c.bit20, c.rs2High + 0x10 * top);
    FieldIs(w, 0x20_0000, 0x400, l + 0x10_0000 * c.bit20, c.rs2High + 0x10 * c.funct6, c.sign);
    FieldIs(w, 0x200_0000, 0x80, rest, top, 0);
    FieldIs(w, 0x200_0000, 0x40, rest, c.funct6, c.sign);
    FieldIs(w, 0x8000_0000, 2, rest + 0x200_0000 * c.funct6, c.sign, 0);
  }

  lemma FieldIs(w: nat, power: nat, size: nat, rest: nat, field: nat, above: nat)
    requires rest < power && field < size && w == rest + power * (field + size * above)
    ensures Field(w, power, size) == field
  {
    Divides(w, power, rest, field + size * above);
    Digit(size, w / power % size, w / power / size, field, above);
  }

  /** What the two immediate expressions sum up to over the integers, before reduction. */
  function LowSum(format: Format, c: Pieces): int {
    var l, h := c.Low(), c.High();
    32 * c.funct6 +
    match format
    case RType => 0
    case IType => 0x800_0000 * h + 2013265919 * c.rs1High + 2147483615 * c.funct6 + 61440 * c.sign
    case SType => 0x100_0000 * l + 2130706431 * c.opcode + 2147483615 * c.funct3 + 2147483391 * c.rs1Low
      + 63488 * c.sign
    case BType =>
      16 * l + 2147483631 * c.opcode + 2147479553 * c.rdHigh + 2147418111 * c.funct3 + 2146959359 * c.rs1Low
        + 61440 * c.sign
    case UType => 4096 * c.funct3 + 32768 * c.rs1Low + 2147483615 * c.funct6
    case JType =>
      128 * h + 4096 * c.funct3 + 32768 * c.rs1Low + 2147483519 * c.rs1High + 2147479553 * c.rs2High
      + 2147418111 * c.funct6 + 2143289343 * c.sign
  }

  function HighSum(format: Format, c: Pieces): int {
    65535 * c.sign +
    match format
    case UType => c.High() + 2147418112 * c.sign
    case JType => c.rs1High + 2147483632 * c.sign
    case _ => 0
  }

  /** The immediate of a word in terms of its pieces. */
  function ImmediateOf(format: Format, c: Pieces): Word
    requires c.Valid() && !format.RType?
  {
    match format
    case IType => SignExtend(c.bit20 + 2 * c.rs2High + 0x20 * c.funct6 + 0x800 * c.sign, 0x800)
    case SType => SignExtend((c.funct6 + 0x40 * c.sign) * 0x20 + (c.bit7 + 2 * c.rdHigh), 0x800)
    case BType => SignExtend(c.sign * 0x1000 + c.bit7 * 0x800 + c.funct6 * 0x20 + c.rdHigh * 2, 0x1000)
    case UType => (c.funct3 + 8 * c.rs1Low + 0x10 * c.High()) * 0x1000
    case JType =>
      SignExtend(c.sign * 0x10_0000 + (c.funct3 + 8 * c.rs1Low + 0x10 * c.rs1High) * 0x1000
                 + c.bit20 * 0x800 + (c.rs2High + 0x10 * c.funct6) * 2, 0x10_0000)
  }

  lemma ImmediateByPieces(format: Format, c: Pieces)
    requires c.Valid() && !format.RType?
    ensures Immediate(format, c.Word()) == ImmediateOf(format, c)
  {
    FieldsByPieces(c);
    HighFieldsByPieces(c);
    hide Field, SignExtend, Pieces.High, Pieces.Low, Pieces.Word;
  }

  /** For every word and every format with an immediate, the field expressions are its two halves. */
  lemma ImmediateByFields(format: Format, w: Word)
    requires !format.RType?
    ensures LowSum(format, Cut(w)) % P == Immediate(format, w) % TWO16
    ensures HighSum(format, Cut(w)) % P == Immediate(format, w) / TWO16
  {
    hide *;
    var c := Cut(w);
    ImmediateByPieces(format, c);
    match format
    case IType => LowI(c);
    case SType => LowS(c);
    case BType => LowB(c);
    case UType => LowU(c);
    case JType => LowJ(c);
  }

  lemma Limbs(v: Word, low: nat, high: nat)
    requires low < TWO16 && v == low + TWO16 * high
    ensures v % TWO16 == low && v / TWO16 == high
  {
  }

  lemma LowI(c: Pieces)
    requires c.Valid()
    ensures LowSum(IType, c) % P == ImmediateOf(IType, c) % TWO16
    ensures HighSum(IType, c) % P == ImmediateOf(IType, c) / TWO16
  {
    var low := c.bit20 + 2 * c.rs2High + 0x20 * c.funct6 + 0xF800 * c.sign;
    Limbs(ImmediateOf(IType, c), low, 0xFFFF * c.sign);
    ModUnique(LowSum(IType, c), low, c.rs1High + c.bit20 + 2 * c.rs2High + 0x21 * c.funct6 + 0x800 * c.sign);
  }

  lemma LowS(c: Pieces)
    requires c.Valid()
    ensures LowSum(SType, c) % P == ImmediateOf(SType, c) % TWO16
    ensures HighSum(SType, c) % P == ImmediateOf(SType, c) / TWO16
  {
    var low := c.bit7 + 2 * c.rdHigh + 0x20 * c.funct6 + 0xF800 * c.sign;
    Limbs(ImmediateOf(SType, c), low, 0xFFFF * c.sign);
    ModUnique(LowSum(SType, c), low, c.opcode + c.bit7 + 2 * c.rdHigh + 33 * c.funct3 + 257 * c.rs1Low);
  }

  lemma LowB(c: Pieces)
    requires c.Valid()
    ensures LowSum(BType, c) % P == ImmediateOf(BType, c) % TWO16
    ensures HighSum(BType, c) % P == ImmediateOf(BType, c) / TWO16
  {
    var low := c.bit7 * 0x800 + c.funct6 * 0x20 + c.rdHigh * 2 + 0xF000 * c.sign;
    Limbs(ImmediateOf(BType, c), low, 0xFFFF * c.sign);
    ModUnique(LowSum(BType, c), low, c.opcode + c.rdHigh + c.funct3 + c.rs1Low);
  }

  lemma LowU(c: Pieces)
    requires c.Valid()
    ensures LowSum(UType, c) % P == ImmediateOf(UType, c) % TWO16
    ensures HighSum(UType, c) % P == ImmediateOf(UType, c) / TWO16
  {
    var low := 0x1000 * c.funct3 + 0x8000 * c.rs1Low;
    Limbs(ImmediateOf(UType, c), low, c.High());
    ModUnique(LowSum(UType, c), low, c.funct6);
    ModUnique(HighSum(UType, c), c.High(), c.sign);
  }

  lemma LowJ(c: Pieces)
    requires c.Valid()
    ensures LowSum(JType, c) % P == ImmediateOf(JType, c) % TWO16
    ensures HighSum(JType, c) % P == ImmediateOf(JType, c) / TWO16
  {
    var low := 0x1000 * c.funct3 + 0x8000 * c.rs1Low + 0x800 * c.bit20 + 2 * c.rs2High + 0x20 * c.funct6;
    var high := c.rs1High + 0xFFF0 * c.sign;
    Limbs(ImmediateOf(JType, c), low, high);
    ModUnique(LowSum(JType, c), low, c.rs1High + c.rs2High + c.funct6 + c.sign);
    ModUnique(HighSum(JType, c), high, c.sign);
  }

  /** The same decoder stands in two circuits; these are the places that it uses in each. */
  datatype Places = Places(low: nat, high: nat, opcode: nat, rdHigh: nat, funct3: nat, rs1Low: nat,
                           rs1High: nat, rs2High: nat, funct6: nat, sign: nat, firstFormat: nat,
                           immediateLow: nat, immediateHigh: nat, rd: nat)

  const FULL := Places(83, 84, 88, 85, 89, 33, 86, 87, 90, 34, 36, 112, 113, 6)
  const MINIMAL := Places(56, 57, 61, 58, 62, 18, 59, 60, 63, 19, 21, 85, 86, 1)

  predicate Known(at: Places) {
    at == FULL || at == MINIMAL
  }

  ghost predicate HasRoom(p: Proxy) {
    p.Valid(0, 193, 7)
  }

  /** The instruction word that the row's two halves spell. */
  ghost predicate Instruction(p: Proxy, at: Places, w: Word)
    requires HasRoom(p) && Known(at)
    reads p.witnessRow
  {
    p.witnessRow[at.low] == w % TWO16 && p.witnessRow[at.high] == w / TWO16
  }

  ghost predicate PiecesInPlace(p: Proxy, at: Places, c: Pieces)
    requires HasRoom(p) && Known(at)
    reads p.witnessRow
  {
    var r := p.witnessRow;
    && r[at.opcode] == c.opcode && r[at.rdHigh] == c.rdHigh && r[at.funct3] == c.funct3 && r[at.rs1Low] == c.rs1Low
    && r[at.rs1High] == c.rs1High && r[at.rs2High] == c.rs2High && r[at.funct6] == c.funct6 && r[at.sign] == c.sign
  }

  /** The cuts and shifts by which the pieces come out of the two halves. */
  method CutHalves(low: nat, high: nat, ghost w: Word)
    returns (opcode: nat, rdHigh: nat, funct3: nat, rs1Low: nat, rs1High: nat, rs2High: nat, funct6: nat, sign: nat)
    requires low == w % TWO16 && high == w / TWO16
    ensures
      var c := Cut(w);
      && opcode == c.opcode && rdHigh == c.rdHigh && funct3 == c.funct3 && rs1Low == c.rs1Low
      && rs1High == c.rs1High && rs2High == c.rs2High && funct6 == c.funct6 && sign == c.sign
  {
    Shifts(low, high);
    var l, h := low, high;
    opcode := l % 0x80;
    l := l / 0x100;
    rdHigh := l % 0x10;
    l := l / 0x10;
    funct3 := l % 8;
    l := l / 8;
    rs1Low := l % 2;
    rs1High := h % 0x10;
    h := h / 0x20;
    rs2High := h % 0x10;
    h := h / 0x10;
    funct6 := h % 0x40;
    h := h / 0x40;
    sign := h % 2;
  }

  method EvalFn3(p: Proxy, at: Places, ghost w: Word)
    requires HasRoom(p) && Known(at) && Instruction(p, at, w)
    modifies p.witnessRow
    ensures PiecesInPlace(p, at, Cut(w))
    ensures if at == FULL then OnlyChanged(p.witnessRow, 33, 34, 85, 90) else OnlyChanged(p.witnessRow, 18, 19, 58, 63)
  {
    hide Cut;
    var r := p.witnessRow;
    var opcode, rdHigh, funct3, rs1Low, rs1High, rs2High, funct6, sign := CutHalves(U16(r[at.low]), U16(r[at.high]), w);
    r[at.opcode], r[at.rdHigh], r[at.funct3], r[at.rs1Low] := opcode, rdHigh, funct3, rs1Low;
    r[at.rs1High], r[at.rs2High], r[at.funct6], r[at.sign] := rs1High, rs2High, funct6, sign;
  }

  lemma Shifts(l: nat, h: nat)
    ensures l / 0x100 / 0x10 == l / 0x1000 && l / 0x1000 / 8 == l / 0x8000
    ensures h / 0x20 / 0x10 == h / 0x200 && h / 0x200 / 0x40 == h / 0x8000
  {
  }

  /** One term of a field expression: a scaled place, times a flag. */
  method AddScaled(v: Fp, ghost sum: int, scale: Fp, x: Fp, flag: Fp) returns (v': Fp, ghost sum': int)
    requires v == sum % P && flag <= 1
    ensures sum' == sum + (if flag == 1 then scale * x else 0) && v' == sum' % P
  {
    hide Add;
    ghost var t := if flag == 1 then scale * x else 0;
    SmallMod((x * scale) % P);
    Accumulate(v, sum, t);
    v', sum' := Add(v, Mul(Mul(x, scale), flag)), sum + t;
  }

  /** The decoder table marks exactly one format, in six places in the order R, I, S, B, U, J. */
  ghost predicate FormatMarked(p: Proxy, at: Places, format: Format)
    requires HasRoom(p) && Known(at)
    reads p.witnessRow
  {
    var r, k := p.witnessRow, at.firstFormat;
    && r[k + 1] == FromBool(format.IType?) && r[k + 2] == FromBool(format.SType?) && r[k + 3] == FromBool(format.BType?)
    && r[k + 4] == FromBool(format.UType?) && r[k + 5] == FromBool(format.JType?)
  }

  /** The places of the flags and pieces, as numbers, add up to the low half. */
  method LowExpression(
      i: Fp, s: Fp, b: Fp, u: Fp, j: Fp, low: Fp, high: Fp, opcode: Fp, rdHigh: Fp, funct3: Fp,
      rs1Low: Fp, rs1High: Fp, rs2High: Fp, funct6: Fp, sign: Fp, ghost format: Format, ghost c: Pieces)
    returns (v: Fp)
    requires i == FromBool(format.IType?) && s == FromBool(format.SType?) && b == FromBool(format.BType?)
    requires u == FromBool(format.UType?) && j == FromBool(format.JType?)
    requires low == c.Low() && high == c.High() && opcode == c.opcode && rdHigh == c.rdHigh && funct3 == c.funct3
    requires rs1Low == c.rs1Low && rs1High == c.rs1High && rs2High == c.rs2High && funct6 == c.funct6 && sign == c.sign
    ensures v == LowSum(format, c) % P
  {
    hide Pieces.Low, Pieces.High;
    ghost var sum := 0;
    v := 0;
    v, sum := AddScaled(v, sum, 16777216, low, s);
    v, sum := AddScaled(v, sum, 16, low, b);
    v, sum := AddScaled(v, sum, 134217728, high, i);
    v, sum := AddScaled(v, sum, 128, high, j);
    v, sum := AddScaled(v, sum, 2130706431, opcode, s);
    v, sum := AddScaled(v, sum, 2147483631, opcode, b);
    v, sum := AddScaled(v, sum, 2147479553, rdHigh, b);
    v, sum := AddScaled(v, sum, 2147483615, funct3, s);
    v, sum := AddScaled(v, sum, 2147418111, funct3, b);
    v, sum := AddScaled(v, sum, 4096, funct3, u);
    v, sum := AddScaled(v, sum, 4096, funct3, j);
    v, sum := AddScaled(v, sum, 2147483391, rs1Low, s);
    v, sum := AddScaled(v, sum, 2146959359, rs1Low, b);
    v, sum := AddScaled(v, sum, 32768, rs1Low, u);
    v, sum := AddScaled(v, sum, 32768, rs1Low, j);
    v, sum := AddScaled(v, sum, 2013265919, rs1High, i);
    v, sum := AddScaled(v, sum, 2147483519, rs1High, j);
    v, sum := AddScaled(v, sum, 2147479553, rs2High, j);
    v, sum := AddScaled(v, sum, 2147483615, funct6, i);
    v, sum := AddScaled(v, sum, 2147483615, funct6, u);
    v, sum := AddScaled(v, sum, 2147418111, funct6, j);
    v, sum := AddScaled(v, sum, 61440, sign, i);
    v, sum := AddScaled(v, sum, 63488, sign, s);
    v, sum := AddScaled(v, sum, 61440, sign, b);
    v, sum := AddScaled(v, sum, 2143289343, sign, j);
    v, sum := AddScaled(v, sum, 32, funct6, 1);
    assert sum == LowSum(format, c);
  }

  method EvalFn8(p: Proxy, at: Places, ghost w: Word, ghost format: Format)
    requires HasRoom(p) && Known(at) && Instruction(p, at, w) && PiecesInPlace(p, at, Cut(w))
    requires FormatMarked(p, at, format)
    modifies p.witnessRow
    ensures p.witnessRow[at.immediateLow] == LowSum(format, Cut(w)) % P
    ensures OnlyChanged(p.witnessRow, at.immediateLow, at.immediateLow, at.immediateLow, at.immediateLow)
  {
    hide Cut, Pieces.Valid;
    ghost var c := Cut(w);
    LowAndHigh(w);
    var r := p.witnessRow;
    var i, s, b, u, j := r[at.firstFormat + 1], r[at.firstFormat + 2], r[at.firstFormat + 3], r[at.firstFormat + 4],
      r[at.firstFormat + 5];
    var low, high, opcode, rdHigh, funct3 := r[at.low], r[at.high], r[at.opcode], r[at.rdHigh], r[at.funct3];
    var rs1Low, rs1High, rs2High, funct6, sign := r[at.rs1Low], r[at.rs1High], r[at.rs2High], r[at.funct6], r[at.sign];
    r[at.immediateLow] := LowExpression(i, s, b, u, j, low, high, opcode, rdHigh, funct3,
      rs1Low, rs1High, rs2High, funct6, sign, format, c);
  }

  lemma LowAndHigh(w: Word)
    ensures Cut(w).Low() == w % TWO16 && Cut(w).High() == w / TWO16
  {
    hide Cut;
    HalvesFit(Cut(w));
    Digit(TWO16, Cut(w).Low(), Cut(w).High(), w % TWO16, w / TWO16);
  }

  method EvalFn9(p: Proxy, at: Places, ghost w: Word, ghost format: Format)
    requires HasRoom(p) && Known(at) && Instruction(p, at, w) && PiecesInPlace(p, at, Cut(w))
    requires FormatMarked(p, at, format)
    modifies p.witnessRow
    ensures p.witnessRow[at.immediateHigh] == HighSum(format, Cut(w)) % P
    ensures OnlyChanged(p.witnessRow, at.immediateHigh, at.immediateHigh, at.immediateHigh, at.immediateHigh)
  {
    hide Cut, Pieces.Valid;
    ghost var c := Cut(w);
    LowAndHigh(w);
    var r := p.witnessRow;
    var u, j := r[at.firstFormat + 4], r[at.firstFormat + 5];
    ghost var sum := 0;
    var v: Fp := 0;
    v, sum := AddScaled(v, sum, 1, r[at.high], u);
    v, sum := AddScaled(v, sum, 1, r[at.rs1High], j);
    v, sum := AddScaled(v, sum, 2147418112, r[at.sign], u);
    v, sum := AddScaled(v, sum, 2147483632, r[at.sign], j);
    v, sum := AddScaled(v, sum, 65535, r[at.sign], 1);
    assert sum == HighSum(format, c);
    r[at.immediateHigh] := v;
  }

  lemma RdField(w: Word)
    ensures Field(w, 0x80, 0x20) == w / 0x80 % 0x20
  {
  }

  /** The register number of rd, as eval_fn_89 of the full machine and eval_fn_54 of the minimal one
      put it in scratch space. */
  method EvalRd(p: Proxy, at: Places, ghost w: Word)
    requires HasRoom(p) && Known(at) && Instruction(p, at, w) && PiecesInPlace(p, at, Cut(w))
    modifies p.scratchSpace
    ensures p.scratchSpace[at.rd] == Rd(w) < 32
    ensures p.scratchSpace[at.rd] == w / 0x80 % 0x20 == Cut(w).bit7 + 2 * Cut(w).rdHigh
    ensures OnlyChanged(p.scratchSpace, at.rd, at.rd, at.rd, at.rd)
  {
    hide Cut, Field;
    ghost var c := Cut(w);
    LowAndHigh(w);
    FieldsByPieces(c);
    assert Field(w, 0x80, 0x20) == w / 0x80 % 0x20 by {
      RdField(w);
    }
    var r := p.witnessRow;
    ghost var sum := 0;
    var v: Fp := 0;
    v, sum := AddScaled(v, sum, 16777216, r[at.low], 1);
    v, sum := AddScaled(v, sum, 2130706431, r[at.opcode], 1);
    v, sum := AddScaled(v, sum, 2147483615, r[at.funct3], 1);
    v, sum := AddScaled(v, sum, 2147483391, r[at.rs1Low], 1);
    ModUnique(sum, c.bit7 + 2 * c.rdHigh, c.opcode + c.bit7 + 2 * c.rdHigh + 33 * c.funct3 + 257 * c.rs1Low);
    p.scratchSpace[at.rd] := v;
  }

  /** The decoder on one row: for every instruction word and every format with an immediate, the two
      immediate places hold the halves of the sign-extended immediate, and rd its register number. */
  method Decode(p: Proxy, at: Places, ghost w: Word, ghost format: Format)
    requires HasRoom(p) && Known(at) && Instruction(p, at, w) && FormatMarked(p, at, format)
    modifies p.witnessRow, p.scratchSpace
    ensures !format.RType? ==>
      p.witnessRow[at.immediateLow] == Immediate(format, w) % TWO16
        && p.witnessRow[at.immediateHigh] == Immediate(format, w) / TWO16
    ensures p.scratchSpace[at.rd] == Rd(w) < 32
    ensures p.scratchSpace[at.rd] == w / 0x80 % 0x20
    ensures PiecesInPlace(p, at, Cut(w))
  {
    hide Cut, LowSum, HighSum, Immediate, Field;
    EvalFn3(p, at, w);
    EvalFn8(p, at, w, format);
    EvalFn9(p, at, w, format);
    EvalRd(p, at, w);
    if !format.RType? {
      ImmediateByFields(format, w);
    }
  }

  /** What each format makes of a word, with bit 31 as the sign: sums of its bit fields. */
  lemma ImmediateOfWord(w: Word)
    ensures
      var sign := w / 0x8000_0000;
      && Immediate(IType, w) == w / 0x10_0000 + 0xFFFF_F000 * sign
      && Immediate(SType, w) == w / 0x80 % 0x20 + 0x20 * (w / 0x200_0000) + 0xFFFF_F000 * sign
      && Immediate(UType, w) == w - w % 0x1000
  {
    SignOfFields(w);
  }

  lemma SignOfFields(w: Word)
    ensures w / 0x8000_0000 == (if w < 0x8000_0000 then 0 else 1)
    ensures w / 0x10_0000 < 0x1000 && (w / 0x10_0000 < 0x800 <==> w < 0x8000_0000)
    ensures w / 0x200_0000 < 0x80 && (w / 0x200_0000 < 0x40 <==> w < 0x8000_0000)
  {
  }

  /** Likewise for the two formats whose fields are out of order. */
  lemma JumpImmediateOfWord(w: Word)
    ensures
      var sign := w / 0x8000_0000;
      && Immediate(BType, w)
         == 2 * (w / 0x100 % 0x10) + 0x20 * (w / 0x200_0000 % 0x40) + 0x800 * (w / 0x80 % 2) + 0xFFFF_F000 * sign
      && Immediate(JType, w)
         == 2 * (w / 0x20_0000 % 0x400) + 0x800 * (w / 0x10_0000 % 2) + 0x1000 * (w / 0x1000 % 0x100)
            + 0xFFF0_0000 * sign
  {
    SignOfFields(w);
  }

  /** The pieces by their places in the two halves. */
  lemma PiecesOfHalves(w: Word)
    ensures
      var c, l, h := Cut(w), w % TWO16, w / TWO16;
      && c.opcode == l % 0x80 && c.rdHigh == l / 0x100 % 0x10 && c.funct3 == l / 0x1000 % 8
      && c.rs1Low == l / 0x8000 % 2 && c.sign == h / 0x8000 % 2
      && c.rs1High == h % 0x10 && c.rs2High == h / 0x20 % 0x10 && c.funct6 == h / 0x200 % 0x40
  {
  }

  /** The format that five flags of which at most one is set stand for. */
  ghost function FormatOf(i: Fp, s: Fp, b: Fp, u: Fp, j: Fp): Format {
    if i == 1 then IType else if s == 1 then SType else if b == 1 then BType else if u == 1 then UType
    else if j == 1 then JType else RType
  }

  lemma ImmediateOfFlags(i: Fp, s: Fp, b: Fp, u: Fp, j: Fp, w: Word)
    requires i <= 1 && s <= 1 && b <= 1 && u <= 1 && j <= 1 && i + s + b + u + j == 1
    ensures
      var sign := w / 0x8000_0000;
      Immediate(FormatOf(i, s, b, u, j), w) ==
        if i == 1 then w / 0x10_0000 + 0xFFFF_F000 * sign
        else if s == 1 then w / 0x80 % 0x20 + 0x20 * (w / 0x200_0000) + 0xFFFF_F000 * sign
        else if b == 1 then
          2 * (w / 0x100 % 0x10) + 0x20 * (w / 0x200_0000 % 0x40) + 0x800 * (w / 0x80 % 2) + 0xFFFF_F000 * sign
        else if u == 1 then w - w % 0x1000
        else
          2 * (w / 0x20_0000 % 0x400) + 0x800 * (w / 0x10_0000 % 2) + 0x1000 * (w / 0x1000 % 0x100) + 0xFFF0_0000 * sign
  {
    hide Immediate;
    ImmediateOfWord(w);
    JumpImmediateOfWord(w);
  }

  lemma FlagsMark(p: Proxy, at: Places, i: Fp, s: Fp, b: Fp, u: Fp, j: Fp)
    requires HasRoom(p) && Known(at) && i <= 1 && s <= 1 && b <= 1 && u <= 1 && j <= 1 && i + s + b + u + j <= 1
    requires
      var r, k := p.witnessRow, at.firstFormat;
      r[k + 1] == i && r[k + 2] == s && r[k + 3] == b && r[k + 4] == u && r[k + 5] == j
    ensures FormatMarked(p, at, FormatOf(i, s, b, u, j))
    ensures i + s + b + u + j == 1 ==> !FormatOf(i, s, b, u, j).RType?
  {
  }

  /** The decoder of the full machine, over its places: halves in 83 and 84, format flags in 37 to 41, the
      pieces in 33, 34 and 85 to 90, the immediate in 112 and 113 and rd in scratch place 6. */
  method DecodeFull(p: Proxy)
    requires HasRoom(p) && p.witnessRow[83] < TWO16 && p.witnessRow[84] < TWO16
    requires forall k: nat | 37 <= k < 42 :: p.witnessRow[k] <= 1
    requires var r := p.witnessRow; r[37] + r[38] + r[39] + r[40] + r[41] <= 1
    modifies p.witnessRow, p.scratchSpace
    ensures
      var r, l, h := p.witnessRow, old(p.witnessRow[83]), old(p.witnessRow[84]);
      && r[88] == l % 0x80 && r[85] == l / 0x100 % 0x10 && r[89] == l / 0x1000 % 8 && r[33] == l / 0x8000 % 2
      && r[86] == h % 0x10 && r[87] == h / 0x20 % 0x10 && r[90] == h / 0x200 % 0x40 && r[34] == h / 0x8000 % 2
    ensures
      var r, l, h := p.witnessRow, old(p.witnessRow[83]), old(p.witnessRow[84]);
      var w := l + TWO16 * h;
      var sign := w / 0x8000_0000;
      var v :=
        if old(r[37]) == 1 then w / 0x10_0000 + 0xFFFF_F000 * sign
        else if old(r[38]) == 1 then w / 0x80 % 0x20 + 0x20 * (w / 0x200_0000) + 0xFFFF_F000 * sign
        else if old(r[39]) == 1 then
          2 * (w / 0x100 % 0x10) + 0x20 * (w / 0x200_0000 % 0x40) + 0x800 * (w / 0x80 % 2) + 0xFFFF_F000 * sign
        else if old(r[40]) == 1 then w - w % 0x1000
        else
          2 * (w / 0x20_0000 % 0x400) + 0x800 * (w / 0x10_0000 % 2) + 0x1000 * (w / 0x1000 % 0x100)
          + 0xFFF0_0000 * sign;
      && (old(r[37] + r[38] + r[39] + r[40] + r[41]) == 1 ==> r[112] == v % TWO16 && r[113] == v / TWO16)
      && p.scratchSpace[6] == w / 0x80 % 0x20
  {
    hide Cut, Immediate, FormatOf, FormatMarked;
    ghost var r := p.witnessRow;
    ghost var w: Word := r[83] + TWO16 * r[84];
    Limbs(w, r[83], r[84]);
    ghost var format := FormatOf(r[37], r[38], r[39], r[40], r[41]);
    FlagsMark(p, FULL, r[37], r[38], r[39], r[40], r[41]);
    if r[37] + r[38] + r[39] + r[40] + r[41] == 1 {
      ImmediateOfFlags(r[37], r[38], r[39], r[40], r[41], w);
    }
    PiecesOfHalves(w);
    Decode(p, FULL, w, format);
  }

  /** The decoder of the minimal machine: halves in 56 and 57, format flags in 22 to 26, the pieces in 18,
      19 and 58 to 63, the immediate in 85 and 86 and rd in scratch place 1. */
  method DecodeMinimal(p: Proxy)
    requires HasRoom(p) && p.witnessRow[56] < TWO16 && p.witnessRow[57] < TWO16
    requires forall k: nat | 22 <= k < 27 :: p.witnessRow[k] <= 1
    requires var r := p.witnessRow; r[22] + r[23] + r[24] + r[25] + r[26] <= 1
    modifies p.witnessRow, p.scratchSpace
    ensures
      var r, l, h := p.witnessRow, old(p.witnessRow[56]), old(p.witnessRow[57]);
      && r[61] == l % 0x80 && r[58] == l / 0x100 % 0x10 && r[62] == l / 0x1000 % 8 && r[18] == l / 0x8000 % 2
      && r[59] == h % 0x10 && r[60] == h / 0x20 % 0x10 && r[63] == h / 0x200 % 0x40 && r[19] == h / 0x8000 % 2
    ensures
      var r, l, h := p.witnessRow, old(p.witnessRow[56]), old(p.witnessRow[57]);
      var w := l + TWO16 * h;
      var sign := w / 0x8000_0000;
      var v :=
        if old(r[22]) == 1 then w / 0x10_0000 + 0xFFFF_F000 * sign
        else if old(r[23]) == 1 then w / 0x80 % 0x20 + 0x20 * (w / 0x200_0000) + 0xFFFF_F000 * sign
        else if old(r[24]) == 1 then
          2 * (w / 0x100 % 0x10) + 0x20 * (w / 0x200_0000 % 0x40) + 0x800 * (w / 0x80 % 2) + 0xFFFF_F000 * sign
        else if old(r[25]) == 1 then w - w % 0x1000
        else
          2 * (w / 0x20_0000 % 0x400) + 0x800 * (w / 0x10_0000 % 2) + 0x1000 * (w / 0x1000 % 0x100)
          + 0xFFF0_0000 * sign;
      && (old(r[22] + r[23] + r[24] + r[25] + r[26]) == 1 ==> r[85] == v % TWO16 && r[86] == v / TWO16)
      && p.scratchSpace[1] == w / 0x80 % 0x20
  {
    hide Cut, Immediate, FormatOf, FormatMarked;
    ghost var r := p.witnessRow;
    ghost var w: Word := r[56] + TWO16 * r[57];
    Limbs(w, r[56], r[57]);
    ghost var format := FormatOf(r[22], r[23], r[24], r[25], r[26]);
    FlagsMark(p, MINIMAL, r[22], r[23], r[24], r[25], r[26]);
    if r[22] + r[23] + r[24] + r[25] + r[26] == 1 {
      ImmediateOfFlags(r[22], r[23], r[24], r[25], r[26], w);
    }
    PiecesOfHalves(w);
    Decode(p, MINIMAL, w, format);
  }

  /** What the circuit leaves a prover no choice about: pieces in range whose scaled differences from
      the two halves are boolean in the field are the cut of the word. */
  lemma OnlyTheCutPasses(w: Word, c: Pieces, x: Fp, y: Fp)
    requires c.Valid() && c.bit7 == x && c.bit20 == y
    requires ((w % TWO16 - (c.Low() - 0x80 * c.bit7)) * 0x100_0000) % P == x
    requires ((w / TWO16 - (c.High() - 0x10 * c.bit20)) * 0x800_0000) % P == y
    ensures c == Cut(w)
  {
    HalvesFit(c);
    InverseOfPower(w % TWO16 - (c.Low() - 0x80 * c.bit7), 0x100_0000, 0x80, x);
    InverseOfPower(w / TWO16 - (c.High() - 0x10 * c.bit20), 0x800_0000, 0x10, y);
    hide Cut, Pieces.Low, Pieces.High;
    CutUnique(c, Cut(w));
  }

  /** A small integer whose product with an inverse power of two is x in the field is that power times x. */
  lemma InverseOfPower(n: int, inverse: int, power: nat, x: nat)
    requires (power == 0x80 && inverse == 0x100_0000) || (power == 0x10 && inverse == 0x800_0000)
    requires -TWO16 < n < TWO16 && x <= 1 && (n * inverse) % P == x
    ensures n == power * x
  {
    var k := (n * inverse) / P;
    assert n * inverse == P * k + x;
    if power == 0x80 {
      assert n * 0x100_0000 * 0x80 == P * (0x80 * k) + 0x80 * x;
      assert n - 0x80 * x == P * (0x80 * k - n);
    } else {
      assert n * 0x800_0000 * 0x10 == P * (0x10 * k) + 0x10 * x;
      assert n - 0x10 * x == P * (0x10 * k - n);
    }
  }
}
