/** Comparisons, jumps and branches of RV32I as its manual defines them. */
module RiscvControl {
  import opened MulRelation
  import opened RiscvM

  datatype Kind = Jal | Jalr | Slt | Slti | Branch

  /** What the funct3 of a branch or set-less-than asks of two words. */
  predicate Condition(funct3: nat, a: Word, b: Word)
    requires funct3 < 8
  {
    match funct3
    case 0 => a == b
    case 1 => a != b
    case 2 => AsSigned(a) < AsSigned(b)
    case 3 => a < b
    case 4 => AsSigned(a) < AsSigned(b)
    case 5 => AsSigned(a) >= AsSigned(b)
    case 6 => a < b
    case _ => a >= b
  }

  /** The second operand of a comparison. */
  function Operand2(kind: Kind, rs2: Word, imm: Word): Word {
    if kind.Slti? then imm else rs2
  }

  /** The address that follows, before a jump clears its lowest bit. */
  function Target(kind: Kind, taken: bool, pc: Word, rs1: Word, imm: Word): Word {
    match kind
    case Jal => ToWord(pc + imm)
    case Jalr => ToWord(rs1 + imm)
    case Branch => if taken then ToWord(pc + imm) else ToWord(pc + 4)
    case _ => ToWord(pc + 4)
  }

  /** Whether control moves away from the next instruction. */
  predicate Jumps(kind: Kind, taken: bool) {
    kind.Jal? || kind.Jalr? || (kind.Branch? && taken)
  }

  function NextPc(kind: Kind, taken: bool, pc: Word, rs1: Word, imm: Word): Word {
    var t := Target(kind, taken, pc, rs1, imm);
    if Jumps(kind, taken) then t - t % 2 else t
  }

  /** What is written to rd, where x0 stays zero. */
  function RdValue(kind: Kind, rdIsZero: bool, pc: Word, condition: bool): Word {
    if rdIsZero || kind.Branch? then 0
    else if kind.Jal? || kind.Jalr? then ToWord(pc + 4)
    else Bit(condition)
  }
}
