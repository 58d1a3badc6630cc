/** Loads and stores of RV32I within one aligned word. */
module RiscvMemory {
  import opened MulRelation
  import opened RiscvM

  function BytePower(offset: nat): (p: nat)
    requires offset < 4
    ensures p > 0
  {
    match offset case 0 => 1 case 1 => 0x100 case 2 => 0x1_0000 case _ => 0x100_0000
  }

  function ByteAt(w: Word, offset: nat): (b: nat)
    requires offset < 4
    ensures b < 256
  {
    w / BytePower(offset) % 256
  }

  function HalfAt(w: Word, offset: nat): (h: nat)
    requires offset < 4
    ensures h < TWO16
  {
    if offset < 2 then w % TWO16 else w / TWO16
  }

  predicate IsLoad(funct3: nat) {
    funct3 in {0, 1, 2, 4, 5}
  }

  predicate IsStore(funct3: nat) {
    funct3 < 3
  }

  /** An access that crosses its natural alignment. */
  predicate Misaligned(funct3: nat, offset: nat) {
    (funct3 % 4 == 1 && offset % 2 == 1) || (funct3 == 2 && offset != 0)
  }

  /** lb, lh, lw, lbu and lhu by funct3. */
  function LoadValue(funct3: nat, w: Word, offset: nat): Word
    requires IsLoad(funct3) && offset < 4
  {
    var b, h := ByteAt(w, offset), HalfAt(w, offset);
    match funct3
    case 0 => if b < 0x80 then b else TWO32 - 0x100 + b
    case 1 => if h < 0x8000 then h else TWO32 - TWO16 + h
    case 2 => w
    case 4 => b
    case _ => h
  }

  /** The word in memory after sb, sh or sw. */
  function StoreValue(funct3: nat, before: Word, value: Word, offset: nat): int
    requires IsStore(funct3) && offset < 4
  {
    match funct3
    case 0 => before + BytePower(offset) * (value % 256 - ByteAt(before, offset))
    case 1 => before + (if offset < 2 then 1 else TWO16) * (value % TWO16 - HalfAt(before, offset))
    case _ => value
  }
}
