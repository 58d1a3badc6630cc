/** The witness evaluator of the load and store circuit. Methods are named after the evaluation
    functions they model, and places are numbered as in that circuit's layout. */
module LoadStoreCircuit {
  import opened Mersenne31
  import opened Witness
  import opened Digits
  import opened LimbArithmetic
  import opened MulRelation
  import opened RiscvM
  import opened RiscvMemory

  /** The table of address offsets: the two low bits, and a mask of less-than-word, high-limb and trap.
      Its last two inputs are read from bits 17 and 18, which belong to funct3. */
  function OffsetTable(key: nat): (r: (nat, nat))
    ensures r.0 < 4 && r.1 < 8
  {
    var offset, funct3 := key % 4, key / 0x1_0000 % 8;
    var storeBit, x0Bit := key / 0x2_0000 % 2 == 1, key / 0x4_0000 % 2 == 1;
    var lessThanWord := funct3 in {0, 1, 4, 5};
    var base := BaseTrap(funct3, offset);
    var trap := base && !(IsLoad(funct3) && !storeBit && x0Bit);
    (offset, Bit(lessThanWord) + 2 * Bit(offset > 1) + 4 * Bit(trap))
  }

  /** What traps by width and offset alone. */
  predicate BaseTrap(funct3: nat, offset: nat) {
    match funct3
    case 2 => offset != 0
    case 1 => offset % 2 != 0
    case 5 => offset % 2 != 0
    case 0 => false
    case 4 => false
    case _ => true
  }

  /** The trap rule as the table's comments state it: a load to x0 never traps for its alignment. */
  predicate StatedTrap(funct3: nat, offset: nat, store: bool, rdIsZero: bool) {
    BaseTrap(funct3, offset) && !(IsLoad(funct3) && !store && rdIsZero)
  }

  /** The key that the circuit sends to that table. */
  function OffsetKey(address: nat, funct3: nat, store: bool, rdIsZero: bool): nat {
    address + 0x1_0000 * funct3 + 0x8_0000 * Bit(!store) + 0x10_0000 * Bit(rdIsZero)
  }

  lemma OffsetKeyFields(address: nat, funct3: nat, store: bool, rdIsZero: bool)
    requires address < TWO16 && funct3 < 8
    ensures
      var key := OffsetKey(address, funct3, store, rdIsZero);
      && key % 4 == address % 4 && key / 0x1_0000 % 8 == funct3
      && key / 0x2_0000 % 2 == funct3 / 2 % 2 && key / 0x4_0000 % 2 == funct3 / 4 % 2
  {
    var rest := Bit(!store) + 2 * Bit(rdIsZero);
    var key := OffsetKey(address, funct3, store, rdIsZero);
    assert key == address + 0x1_0000 * (funct3 + 8 * rest);
    Fields(address, 0x1_0000, funct3 + 8 * rest);
    Fields(funct3, 8, rest);
    Fields(address + 0x1_0000 * (funct3 % 2), 0x2_0000, funct3 / 2 + 4 * rest);
    Fields(address + 0x1_0000 * (funct3 % 4), 0x4_0000, funct3 / 4 + 2 * rest);
    PlusFours(address, 0x4000 * (funct3 + 8 * rest));
    PlusTwos(funct3 / 2, 2 * rest);
    PlusTwos(funct3 / 4, rest);
  }

  /** What the table does to the circuit's keys: of the loads, lhu never traps. */
  lemma OffsetTableMeans(address: nat, funct3: nat, store: bool, rdIsZero: bool)
    requires address < TWO16 && funct3 < 8
    ensures
      var r := OffsetTable(OffsetKey(address, funct3, store, rdIsZero));
      var offset := address % 4;
      && r.0 == offset
      && r.1 == Bit(funct3 in {0, 1, 4, 5}) + 2 * Bit(offset > 1) + 4 * Bit(BaseTrap(funct3, offset) && funct3 != 5)
  {
    OffsetKeyFields(address, funct3, store, rdIsZero);
    hide OffsetKey;
  }

  /** The table follows the stated rule exactly outside two families: a misaligned lhu that is not a
      load to x0, and a misaligned lh or lw that is one. */
  lemma TrapAsStatedIff(address: nat, funct3: nat, store: bool, rdIsZero: bool)
    requires address < TWO16 && funct3 < 8
    ensures
      var offset := address % 4;
      var trap := OffsetTable(OffsetKey(address, funct3, store, rdIsZero)).1 >= 4;
      trap == StatedTrap(funct3, offset, store, rdIsZero)
      <==> !(Misaligned(funct3, offset) && (funct3 == 5) != (!store && rdIsZero))
  {
    OffsetTableMeans(address, funct3, store, rdIsZero);
    hide OffsetTable, OffsetKey;
  }

  /** A misaligned lhu into a register is let through. */
  lemma MisalignedLhuPasses()
    ensures OffsetTable(OffsetKey(1, 5, false, false)).1 < 4 && StatedTrap(5, 1, false, false)
  {
    OffsetTableMeans(1, 5, false, false);
    hide OffsetTable, OffsetKey;
  }

  /** The key of the three tables for parts of a limb: limb, offset and funct3. */
  function LimbKey(limb: nat, offset: nat, funct3: nat): nat {
    limb + 0x1_0000 * offset + 0x4_0000 * funct3
  }

  lemma LimbKeyFields(limb: nat, offset: nat, funct3: nat)
    requires limb < TWO16 && offset < 4 && funct3 < 8
    ensures
      var k := LimbKey(limb, offset, funct3);
      k % 0x1_0000 == limb && k / 0x1_0000 % 4 == offset && k / 0x4_0000 % 8 == funct3
  {
    assert LimbKey(limb, offset, funct3) == limb + 0x1_0000 * (offset + 4 * funct3);
    Fields(limb, 0x1_0000, offset + 4 * funct3);
    Fields(offset, 4, funct3);
    Fields(limb + 0x1_0000 * offset, 0x4_0000, funct3);
  }

  /** The half-word or byte that a load takes from a limb, extended to two limbs. */
  function LoadTable(key: nat): (r: (nat, nat))
    ensures r.0 < TWO16 && r.1 < TWO16
  {
    var limb, offset, funct3 := key % 0x1_0000, key / 0x1_0000 % 4, key / 0x4_0000 % 8;
    var source := if offset % 2 == 0 then limb % 256 else limb / 256;
    match funct3
    case 1 => if offset % 2 != 0 then (0, 0) else if limb >= 0x8000 then (limb, 0xFFFF) else (limb, 0)
    case 5 => if offset % 2 != 0 then (0, 0) else (limb, 0)
    case 0 => if source >= 0x80 then (source + 0xFF00, 0xFFFF) else (source, 0)
    case 4 => (source, 0)
    case _ => (0, 0)
  }

  /** What a store keeps of the limb that it changes. */
  function KeepTable(key: nat): (r: nat)
    ensures r < TWO16
  {
    var limb, offset, funct3 := key % 0x1_0000, key / 0x1_0000 % 4, key / 0x4_0000 % 8;
    if funct3 == 0 then (if offset % 2 != 0 then limb % 256 else limb - limb % 256) else 0
  }

  /** What it puts into that limb. */
  function PutTable(key: nat): (r: nat)
    ensures r < TWO16
  {
    var limb, offset, funct3 := key % 0x1_0000, key / 0x1_0000 % 4, key / 0x4_0000 % 8;
    if funct3 == 1 then limb
    else if funct3 == 0 then (if offset % 2 != 0 then 256 * (limb % 256) else limb % 256)
    else 0
  }

  /** The limb that an offset lies in. */
  function SelectedLimb(w: Word, offset: nat): (l: nat)
    ensures l < TWO16
  {
    if offset > 1 then w / TWO16 else w % TWO16
  }

  lemma ByteParts(a: nat, b: nat, c: nat, d: nat)
    requires a < 256 && b < 256 && c < 256 && d < 256
    ensures
      var w := a + 256 * b + TWO16 * (c + 256 * d);
      && ByteAt(w, 0) == a && ByteAt(w, 1) == b && ByteAt(w, 2) == c && ByteAt(w, 3) == d
  {
    Fields(a, 256, b + 256 * c + TWO16 * d);
    Fields(b, 256, c + 256 * d);
    Fields(a + 256 * b, TWO16, c + 256 * d);
    Fields(c, 256, d);
    Fields(a + 256 * b + TWO16 * c, 0x100_0000, d);
  }

  lemma LimbBytes(limb: nat)
    requires limb < TWO16
    ensures limb == limb % 256 + 256 * (limb / 256) && limb / 256 < 256
  {
  }

  lemma ByteOfLimb(w: Word, offset: nat)
    requires offset < 4
    ensures
      var limb := SelectedLimb(w, offset);
      && ByteAt(w, offset) == (if offset % 2 == 0 then limb % 256 else limb / 256)
      && HalfAt(w, offset) == limb
      && limb == limb % 256 + 256 * (limb / 256)
  {
    var low, high := w % TWO16, w / TWO16;
    LimbBytes(low);
    LimbBytes(high);
    ByteParts(low % 256, low / 256, high % 256, high / 256);
    assert w == low + TWO16 * high;
    hide ByteAt;
  }

  /** A load through the limb and the table is the load that funct3 asks for, wherever the word comes
      from, for every aligned access narrower than a word. */
  lemma LoadByTable(funct3: nat, w: Word, offset: nat)
    requires funct3 in {0, 1, 4, 5} && offset < 4 && !Misaligned(funct3, offset)
    ensures
      var r := LoadTable(LimbKey(SelectedLimb(w, offset), offset, funct3));
      var v := LoadValue(funct3, w, offset);
      r.0 == v % TWO16 && r.1 == v / TWO16
  {
    var limb := SelectedLimb(w, offset);
    LimbKeyFields(limb, offset, funct3);
    ByteOfLimb(w, offset);
    hide LimbKey, SelectedLimb, ByteAt, HalfAt;
    var r := LoadTable(LimbKey(limb, offset, funct3));
    Fields(r.0, TWO16, r.1);
  }

  /** A misaligned lhu that is let through loads zero. */
  lemma MisalignedLoadsZero(w: Word, offset: nat)
    requires offset < 4 && Misaligned(5, offset)
    ensures LoadTable(LimbKey(SelectedLimb(w, offset), offset, 5)) == (0, 0)
  {
    LimbKeyFields(SelectedLimb(w, offset), offset, 5);
    hide LimbKey, SelectedLimb;
  }

  /** The limbs of memory after a store narrower than a word. */
  function MergedLow(before: Word, value: Word, offset: nat, funct3: nat): nat {
    if offset > 1 then before % TWO16
    else KeepTable(LimbKey(before % TWO16, offset, funct3)) + PutTable(LimbKey(value % TWO16, offset, funct3))
  }

  function MergedHigh(before: Word, value: Word, offset: nat, funct3: nat): nat {
    if offset <= 1 then before / TWO16
    else KeepTable(LimbKey(before / TWO16, offset, funct3)) + PutTable(LimbKey(value % TWO16, offset, funct3))
  }

  /** The changed limb, for every offset: the kept part and the new part share no bit. */
  lemma MergedLimb(before: Word, value: Word, offset: nat, funct3: nat)
    requires funct3 < 2 && offset < 4 && !Misaligned(funct3, offset)
    ensures
      var limb := SelectedLimb(before, offset);
      var merged := KeepTable(LimbKey(limb, offset, funct3)) + PutTable(LimbKey(value % TWO16, offset, funct3));
      && merged < TWO16
      && (funct3 == 1 ==> merged == value % TWO16)
      && (funct3 == 0 ==>
            merged == limb + (if offset % 2 == 0 then 1 else 256) * (value % 256 - ByteAt(before, offset)))
  {
    var limb := SelectedLimb(before, offset);
    LimbKeyFields(limb, offset, funct3);
    LimbKeyFields(value % TWO16, offset, funct3);
    ByteOfLimb(before, offset);
    LowByte(value);
    hide LimbKey, SelectedLimb, ByteAt;
  }

  lemma LowByte(v: Word)
    ensures v % TWO16 % 256 == v % 256
  {
    var h := v / TWO16;
    Fields(v % TWO16 % 256, 256, v % TWO16 / 256 + 256 * h);
    assert v == v % TWO16 % 256 + 256 * (v % TWO16 / 256 + 256 * h);
  }

  /** A store narrower than a word writes exactly what the instruction asks for, and leaves the other
      half of the word alone. */
  lemma MergeIsStore(before: Word, value: Word, offset: nat, funct3: nat)
    requires funct3 < 2 && offset < 4 && !Misaligned(funct3, offset)
    ensures
      var low, high := MergedLow(before, value, offset, funct3), MergedHigh(before, value, offset, funct3);
      && low < TWO16 && high < TWO16 && low + TWO16 * high == StoreValue(funct3, before, value, offset)
      && (if offset > 1 then low == before % TWO16 else high == before / TWO16)
  {
    hide KeepTable, PutTable, LimbKey, ByteAt, HalfAt;
    MergedLimb(before, value, offset, funct3);
    ByteOfLimb(before, offset);
    PowerOfOffset(offset);
    var low, high := before % TWO16, before / TWO16;
    assert before == low + TWO16 * high;
    if offset > 1 {
      var merged := MergedHigh(before, value, offset, funct3);
      assert low + TWO16 * merged == before + TWO16 * (merged - high);
    } else {
      var merged := MergedLow(before, value, offset, funct3);
      assert merged + TWO16 * high == before + (merged - low);
    }
  }

  /** The weight of a byte is that of its limb times that of the byte in it. */
  lemma PowerOfOffset(offset: nat)
    requires offset < 4
    ensures BytePower(offset) == (if offset > 1 then TWO16 else 1) * (if offset % 2 == 0 then 1 else 256)
  {
  }

  /** The inputs of a row: address parts, the word in the second query (rs2, or what a load finds in
      memory), the word that a store finds in memory, and the decoded flags. ROM spans `bound` blocks of 2^16 bytes. */
  datatype Access = Access(rs1: Word, imm: Word, value: Word, before: Word, funct3: nat, store: bool, rdIsZero: bool,
    bound: nat) {
    predicate Valid() {
      funct3 < 8 && 0 < bound <= TWO16
    }

    ghost predicate Read(p: Proxy)
      reads p.memoryRow, p.witnessRow
    {
      && Valid() && p.Valid(24, 54, 2)
      && Holds32(p.memoryRow, 2, 3, rs1) && Holds32(p.memoryRow, 7, 8, value) && Holds32(p.memoryRow, 14, 15, before)
      && p.memoryRow[9] == FromBool(store)
      && Holds32(p.witnessRow, 3, 4, imm) && p.witnessRow[2] == FromBool(rdIsZero) && p.witnessRow[5] == funct3
    }

    function Address(): Word {
      ToWord(rs1 + imm)
    }

    function Offset(): (o: nat)
      ensures o < 4
    {
      Address() % 4
    }

    predicate InRam()
      requires Valid()
    {
      Address() / TWO16 >= bound
    }

    predicate RomLoad()
      requires Valid()
    {
      !store && !InRam()
    }

    predicate RamLoad()
      requires Valid()
    {
      !store && InRam()
    }

    predicate Narrow() {
      funct3 in {0, 1, 4, 5}
    }

    predicate High() {
      Offset() > 1
    }

    /** The index of the aligned ROM word. */
    function RomIndex(): nat
      requires Valid()
    {
      (Address() % TWO16 - Offset()) / 4 + 0x4000 * (Address() / TWO16 % bound)
    }

    /** The word that a load reads. */
    function Source(rom: nat -> Word): Word
      requires Valid()
    {
      if InRam() then value else rom(RomIndex())
    }
  }

  /** RAM starts where ROM ends, and below that the ROM word is the one at the address. */
  lemma RamFromAddress(x: Access)
    requires x.Valid()
    ensures x.InRam() <==> x.Address() >= TWO16 * x.bound
    ensures !x.InRam() ==> x.RomIndex() == x.Address() / 4
  {
    hide Access.Address;
    var low, high := x.Address() % TWO16, x.Address() / TWO16;
    OffsetOfLimb(x);
    assert x.Address() == low + TWO16 * high;
    if !x.InRam() {
      SmallChunk(high, x.bound);
      assert x.Address() / 4 == low / 4 + 0x4000 * high;
    }
  }

  lemma SmallChunk(chunk: nat, bound: nat)
    requires chunk < bound
    ensures chunk % bound == chunk
  {
  }

  method EvalFn2(p: Proxy, ghost x: Access)
    requires x.Read(p)
    modifies p.witnessRow
    ensures Holds32(p.witnessRow, 10, 11, x.Address()) && p.witnessRow[12] == FromBool(x.rs1 + x.imm >= TWO32)
    ensures OnlyChanged(p.witnessRow, 10, 12, 10, 12)
  {
    hide Access.Address;
    var rs1 := ReadWord(p.memoryRow, 2, 3, x.rs1);
    var imm := ReadWord(p.witnessRow, 3, 4, x.imm);
    var a := Add32(rs1, imm);
    assert a == x.Address() by {
      AddressIs(x);
    }
    p.witnessRow[10] := a % TWO16;
    p.witnessRow[11] := a / TWO16;
    p.witnessRow[12] := FromBool(rs1 + imm >= TWO32);
  }

  lemma AddressIs(x: Access)
    ensures x.Address() == Add32(x.rs1, x.imm)
  {
  }

  lemma OffsetOfLimb(x: Access)
    ensures x.Address() % TWO16 % 4 == x.Offset()
  {
    var a := x.Address();
    PlusFours(a % TWO16, 0x4000 * (a / TWO16));
    assert a == a % TWO16 + 4 * (0x4000 * (a / TWO16));
  }

  lemma OffsetKeyByField(address: nat, funct3: nat, store: bool, rdIsZero: bool)
    requires address < TWO16 && funct3 < 8
    ensures
      var v := Add(Add(524288, Mul(1048576, FromBool(rdIsZero))), Mul(65536, funct3));
      Add(Add(v, Mul(2146959359, FromBool(store))), Mul(1, address)) == OffsetKey(address, funct3, store, rdIsZero)
  {
    var r, s: int := FromBool(rdIsZero), FromBool(store);
    var sum := 524288 + 1048576 * r;
    SmallMod(524288);
    Accumulate(524288, 524288, 1048576 * r);
    Accumulate(sum % P, sum, 65536 * funct3);
    sum := sum + 65536 * funct3;
    Accumulate(sum % P, sum, 2146959359 * s);
    sum := sum + 2146959359 * s;
    Accumulate(sum % P, sum, 1 * address);
    ShiftMod(OffsetKey(address, funct3, store, rdIsZero), s);
    SmallMod(OffsetKey(address, funct3, store, rdIsZero));
    hide Add;
  }

  /** The offset lookup. */
  method EvalFn3(p: Proxy, ghost x: Access)
    requires x.Read(p) && Holds32(p.witnessRow, 10, 11, x.Address())
    modifies p.witnessRow
    ensures
      var r := OffsetTable(OffsetKey(x.Address() % TWO16, x.funct3, x.store, x.rdIsZero));
      p.witnessRow[21] == r.0 == x.Offset() && p.witnessRow[22] == r.1
    ensures OnlyChanged(p.witnessRow, 21, 22, 21, 22)
  {
    hide Add, Mul, FromBool, Access.Address, OffsetTable, OffsetKey, Access.Offset;
    var w := p.witnessRow;
    OffsetKeyByField(x.Address() % TWO16, x.funct3, x.store, x.rdIsZero);
    OffsetTableMeans(x.Address() % TWO16, x.funct3, x.store, x.rdIsZero);
    OffsetOfLimb(x);
    var v := Add(524288, Mul(1048576, w[2]));
    v := Add(v, Mul(65536, w[5]));
    v := Add(v, Mul(2146959359, p.memoryRow[9]));
    v := Add(v, Mul(1, w[10]));
    var r := OffsetTable(v);
    w[21] := r.0;
    w[22] := r.1;
  }

  lemma MaskBits(narrow: bool, high: bool, trap: bool)
    ensures
      var m := Bit(narrow) + 2 * Bit(high) + 4 * Bit(trap);
      m % 2 == FromBool(narrow) && m / 2 % 2 == FromBool(high) && (m >= 4 <==> trap)
  {
  }

  method EvalFn4(p: Proxy, ghost x: Access)
    requires x.Read(p)
    requires p.witnessRow[22] == OffsetTable(OffsetKey(x.Address() % TWO16, x.funct3, x.store, x.rdIsZero)).1
    modifies p.witnessRow
    ensures p.witnessRow[13] == FromBool(x.Narrow()) && p.witnessRow[14] == FromBool(x.High())
    ensures OnlyChanged(p.witnessRow, 13, 14, 13, 14)
  {
    hide FromBool, Access.Address, OffsetTable, OffsetKey, Access.Offset;
    OffsetTableMeans(x.Address() % TWO16, x.funct3, x.store, x.rdIsZero);
    OffsetOfLimb(x);
    MaskBits(x.Narrow(), x.High(), BaseTrap(x.funct3, x.Offset()) && x.funct3 != 5);
    var v := p.witnessRow[22];
    p.witnessRow[13] := v % 2;
    p.witnessRow[14] := v / 2 % 2;
  }

  /** The table that tells RAM from ROM by the high limb. */
  method EvalFn5(p: Proxy, bound: nat, ghost x: Access)
    requires x.Read(p) && bound == x.bound && p.witnessRow[11] == x.Address() / TWO16
    modifies p.witnessRow
    ensures p.witnessRow[23] == FromBool(x.InRam()) && p.witnessRow[24] == x.Address() / TWO16 % bound
    ensures p.witnessRow[23] == (if p.witnessRow[11] >= bound then 1 else 0)
    ensures OnlyChanged(p.witnessRow, 23, 24, 23, 24)
  {
    hide Access.Address;
    var w := p.witnessRow;
    w[23] := FromBool(w[11] >= bound);
    w[24] := w[11] % bound;
  }

  /** Store, load from ROM and load from RAM: exactly one of three flags is set. */
  ghost predicate CaseFlags(p: Proxy, x: Access)
    requires x.Valid() && p.Valid(24, 54, 2)
    reads p.memoryRow, p.scratchSpace
  {
    && p.memoryRow[9] == FromBool(x.store)
    && p.scratchSpace[0] == FromBool(x.RomLoad()) && p.scratchSpace[1] == FromBool(x.RamLoad())
    && p.memoryRow[9] + p.scratchSpace[0] + p.scratchSpace[1] == 1
  }

  method EvalFn6To7(p: Proxy, ghost x: Access)
    requires x.Read(p) && p.witnessRow[23] == FromBool(x.InRam())
    modifies p.scratchSpace
    ensures CaseFlags(p, x)
  {
    hide NorField, AndNotField, Access.Address;
    BooleanFields(x.store, x.InRam());
    BooleanFields(x.InRam(), x.store);
    p.scratchSpace[0] := NorField(p.memoryRow[9], p.witnessRow[23]);
    AndNotCommutes(p.memoryRow[9], p.witnessRow[23]);
    p.scratchSpace[1] := Add(Sub(0, Mul(p.memoryRow[9], p.witnessRow[23])), p.witnessRow[23]);
  }

  lemma AndNotCommutes(a: Fp, b: Fp)
    ensures Add(Sub(0, Mul(a, b)), b) == AndNotField(b, a)
  {
  }

  /** The row after the address is understood. */
  ghost predicate AddressDone(p: Proxy, x: Access)
    requires x.Valid() && p.Valid(24, 54, 2)
    reads p.memoryRow, p.witnessRow, p.scratchSpace
  {
    var w := p.witnessRow;
    && CaseFlags(p, x)
    && Holds32(w, 10, 11, x.Address()) && w[21] == x.Offset()
    && w[22] == OffsetTable(OffsetKey(x.Address() % TWO16, x.funct3, x.store, x.rdIsZero)).1
    && w[13] == FromBool(x.Narrow()) && w[14] == FromBool(x.High())
    && w[23] == FromBool(x.InRam()) && w[24] == x.Address() / TWO16 % x.bound
  }

  method EvaluateAddress(p: Proxy, bound: nat, ghost x: Access)
    requires x.Read(p) && bound == x.bound
    modifies p.witnessRow, p.scratchSpace
    ensures x.Read(p) && AddressDone(p, x)
  {
    hide FromBool, Access.Address, OffsetTable, OffsetKey, Access.Offset, Access.InRam, Access.High, Access.Narrow;
    EvalFn2(p, x);
    EvalFn3(p, x);
    EvalFn4(p, x);
    EvalFn5(p, bound, x);
    EvalFn6To7(p, x);
  }

  /** The key of a limb table in the field. */
  function LimbKeyField(limb: Fp, offset: Fp, funct3: Fp): Fp {
    Add(Add(Add(0, Mul(262144, funct3)), Mul(65536, offset)), Mul(1, limb))
  }

  lemma LimbKeyByField(limb: Fp, offset: Fp, funct3: Fp)
    requires limb < TWO16 && offset < 4 && funct3 < 8
    ensures LimbKeyField(limb, offset, funct3) == LimbKey(limb, offset, funct3)
  {
  }

  /** The ROM key: 2^29 is the inverse of 4 modulo p. */
  lemma RomKeyByField(address: Fp, offset: Fp, chunk: Fp)
    requires address < TWO16 && offset == address % 4 && chunk < TWO16
    ensures Add(Add(Add(0, Mul(536870912, address)), Mul(1610612735, offset)), Mul(16384, chunk))
         == (address - offset) / 4 + 0x4000 * chunk
  {
    var q := address / 4;
    var u, v, w := 536870912 * address, 1610612735 * offset, 16384 * chunk;
    assert address == 4 * q + offset && (address - offset) / 4 == q;
    SmallMod(0);
    Accumulate(0, 0, u);
    Accumulate((0 + u) % P, 0 + u, v);
    Accumulate((0 + u + v) % P, 0 + u + v, w);
    ShiftMod(q + w, q + offset);
    SmallMod(q + w);
    hide Add;
  }

  /** The limb words of the lookups: what the first and the second lookup give in each case. */
  function Half(w: Word, high: bool): (l: nat)
    ensures l < TWO16
  {
    if high then w / TWO16 else w % TWO16
  }

  function PartKey(w: Word, x: Access): nat {
    LimbKey(Half(w, x.High()), x.Offset(), x.funct3)
  }

  ghost predicate FirstLookup(row: array<Fp>, x: Access, rom: nat -> Word)
    requires x.Valid() && row.Length >= 54
    reads row
  {
    && (x.RomLoad() ==> Holds32(row, 33, 34, rom(x.RomIndex())))
    && (x.RamLoad() ==> (row[33], row[34]) == LoadTable(PartKey(x.value, x)))
    && (x.store ==> row[33] == KeepTable(PartKey(x.before, x)) && row[34] == 0)
  }

  /** A conditional lookup result in two places. */
  method Assign2(row: array<Fp>, flag: bool, i: nat, r: (nat, nat))
    requires i + 1 < row.Length && r.0 < TWO16 && r.1 < TWO16
    modifies row
    ensures flag ==> row[i] == r.0 && row[i + 1] == r.1
    ensures !flag ==> forall k: nat | k < row.Length :: row[k] == old(row[k])
    ensures OnlyChanged(row, i, i + 1, i, i + 1)
  {
    if flag {
      row[i], row[i + 1] := r.0, r.1;
    }
  }

  method RomLookup(row: array<Fp>, rom: nat -> Word, ghost x: Access) returns (w: Word)
    requires row.Length >= 54 && x.Valid()
    requires row[10] == x.Address() % TWO16 && row[21] == x.Offset() && row[24] == x.Address() / TWO16 % x.bound
    ensures w == rom(x.RomIndex())
  {
    hide Access.Address, Add, Mul;
    OffsetOfLimb(x);
    RomKeyByField(row[10], row[21], row[24]);
    var key := Add(Add(Add(0, Mul(536870912, row[10])), Mul(1610612735, row[21])), Mul(16384, row[24]));
    w := rom(key);
  }

  /** The first lookup: a ROM word, part of a RAM word, or what a store keeps. Each of three writers
      fills the shared places in its own case only. */
  method EvalFn13(p: Proxy, rom: nat -> Word, ghost x: Access)
    requires x.Read(p) && AddressDone(p, x)
    modifies p.witnessRow
    ensures x.RomLoad() ==> Holds32(p.witnessRow, 33, 34, rom(x.RomIndex()))
    ensures OnlyChanged(p.witnessRow, 33, 34, 33, 34)
  {
    hide LoadTable, KeepTable, OffsetTable, OffsetKey, Access.Address, Access.InRam, Access.Offset, LimbKey,
      LimbKeyField, Access.High;
    var w := p.witnessRow;
    var r := RomLookup(w, rom, x);
    Assign2(w, Mask(p.scratchSpace[0]), 33, (r % TWO16, r / TWO16));
  }

  method EvalFn14To15(p: Proxy, ghost x: Access)
    requires x.Read(p) && AddressDone(p, x)
    modifies p.witnessRow
    ensures p.witnessRow[40] == Half(x.value, x.High())
    ensures if x.RamLoad() then (p.witnessRow[33], p.witnessRow[34]) == LoadTable(PartKey(x.value, x))
            else p.witnessRow[33] == old(p.witnessRow[33]) && p.witnessRow[34] == old(p.witnessRow[34])
    ensures OnlyChanged(p.witnessRow, 33, 34, 40, 40)
  {
    hide LoadTable, KeepTable, OffsetTable, OffsetKey, Access.Address, Access.InRam, Access.Offset, LimbKey,
      LimbKeyField, Access.High;
    var w, m := p.witnessRow, p.memoryRow;
    w[40] := if Mask(w[14]) then m[8] else m[7];
    LimbKeyByField(w[40], w[21], w[5]);
    Assign2(w, Mask(p.scratchSpace[1]), 33, LoadTable(LimbKeyField(w[40], w[21], w[5])));
  }

  method EvalFn16To17(p: Proxy, ghost x: Access)
    requires x.Read(p) && AddressDone(p, x)
    modifies p.witnessRow
    ensures p.witnessRow[43] == Half(x.before, x.High())
    ensures if x.store then p.witnessRow[33] == KeepTable(PartKey(x.before, x)) && p.witnessRow[34] == 0
            else p.witnessRow[33] == old(p.witnessRow[33]) && p.witnessRow[34] == old(p.witnessRow[34])
    ensures OnlyChanged(p.witnessRow, 33, 34, 43, 43)
  {
    hide LoadTable, KeepTable, OffsetTable, OffsetKey, Access.Address, Access.InRam, Access.Offset, LimbKey,
      LimbKeyField, Access.High;
    var w, m := p.witnessRow, p.memoryRow;
    w[43] := if Mask(w[14]) then m[15] else m[14];
    LimbKeyByField(w[43], w[21], w[5]);
    Assign2(w, Mask(m[9]), 33, (KeepTable(LimbKeyField(w[43], w[21], w[5])), 0));
  }

  method EvaluateFirstLookup(p: Proxy, rom: nat -> Word, ghost x: Access)
    requires x.Read(p) && AddressDone(p, x)
    modifies p.witnessRow
    ensures FirstLookup(p.witnessRow, x, rom)
    ensures p.witnessRow[40] == Half(x.value, x.High()) && p.witnessRow[43] == Half(x.before, x.High())
    ensures OnlyChanged(p.witnessRow, 33, 34, 40, 43)
  {
    hide FromBool, LoadTable, KeepTable, OffsetTable, OffsetKey, Access.Address, Access.InRam, Access.Offset, PartKey,
      Access.High, Half;
    EvalFn13(p, rom, x);
    EvalFn14To15(p, x);
    EvalFn16To17(p, x);
  }

  /** The second lookup: part of a ROM word, or what a store puts. */
  ghost predicate SecondLookup(row: array<Fp>, x: Access, rom: nat -> Word)
    requires x.Valid() && row.Length >= 54
    reads row
  {
    && (x.RomLoad() ==> (row[36], row[37]) == LoadTable(PartKey(rom(x.RomIndex()), x)))
    && (x.store ==> row[36] == PutTable(LimbKey(x.value % TWO16, x.Offset(), x.funct3)) && row[37] == 0)
  }

  method EvalFn18(p: Proxy, ghost x: Access, rom: nat -> Word)
    requires x.Read(p) && AddressDone(p, x)
    modifies p.witnessRow
    ensures x.store ==> SecondLookup(p.witnessRow, x, rom)
    ensures OnlyChanged(p.witnessRow, 36, 37, 36, 37)
  {
    hide LoadTable, PutTable, OffsetTable, OffsetKey, Access.Address, Access.InRam, Access.Offset, LimbKey,
      LimbKeyField, Access.High;
    var w, m := p.witnessRow, p.memoryRow;
    LimbKeyByField(m[7], w[21], w[5]);
    Assign2(w, Mask(m[9]), 36, (PutTable(LimbKeyField(m[7], w[21], w[5])), 0));
  }

  method EvalFn27To28(p: Proxy, rom: nat -> Word, ghost x: Access)
    requires x.Read(p) && AddressDone(p, x) && FirstLookup(p.witnessRow, x, rom)
    requires x.store ==> SecondLookup(p.witnessRow, x, rom)
    modifies p.witnessRow
    ensures SecondLookup(p.witnessRow, x, rom)
    ensures x.RomLoad() ==> p.witnessRow[35] == Half(rom(x.RomIndex()), x.High())
    ensures OnlyChanged(p.witnessRow, 35, 37, 35, 37)
  {
    hide LoadTable, PutTable, KeepTable, OffsetTable, OffsetKey, Access.Address, Access.InRam, Access.Offset, LimbKey,
      LimbKeyField, Access.High;
    var w := p.witnessRow;
    w[35] := if Mask(w[14]) then w[34] else w[33];
    if x.RomLoad() {
      LimbKeyByField(w[35], w[21], w[5]);
    }
    Assign2(w, Mask(p.scratchSpace[0]), 36, LoadTable(LimbKeyField(w[35], w[21], w[5])));
  }

  /** A term of a summed key, added only in its own case. */
  method AddInCase(v: Fp, flag: bool, scale: Fp, x: Fp) returns (v': Fp)
    ensures v' == if flag then Add(v, Mul(scale, x)) else v
  {
    v' := if flag then Add(v, Mul(scale, x)) else v;
  }

  /** The key of the active case, whichever it is. */
  function FirstKey(x: Access): nat
    requires x.Valid()
  {
    if x.store then PartKey(x.before, x) else if x.InRam() then PartKey(x.value, x) else x.RomIndex()
  }

  function SecondKey(x: Access, rom: nat -> Word): nat
    requires x.Valid()
  {
    if x.store then LimbKey(x.value % TWO16, x.Offset(), x.funct3)
    else if x.InRam() then 0
    else PartKey(rom(x.RomIndex()), x)
  }

  /** Field sums over the cases, taken apart: only one case contributes. */
  method SumFirstKey(p: Proxy, ghost x: Access) returns (v: Fp)
    requires x.Read(p) && AddressDone(p, x)
    requires p.witnessRow[40] == Half(x.value, x.High()) && p.witnessRow[43] == Half(x.before, x.High())
    ensures v == FirstKey(x)
  {
    hide Add, Mul, OffsetTable, OffsetKey, Access.Address, Access.Offset, Access.High, LimbKey, Half, Access.InRam;
    var w := p.witnessRow;
    var store, rom, ram := Mask(p.memoryRow[9]), Mask(p.scratchSpace[0]), Mask(p.scratchSpace[1]);
    KeySums(w[10], w[21], w[24], w[40], w[43], w[5], x);
    v := 0;
    v := AddInCase(v, store, 1, w[43]);
    v := AddInCase(v, ram, 1, w[40]);
    v := AddInCase(v, store, 262144, w[5]);
    v := AddInCase(v, ram, 262144, w[5]);
    v := AddInCase(v, store, 65536, w[21]);
    v := AddInCase(v, rom, 536870912, w[10]);
    v := AddInCase(v, rom, 1610612735, w[21]);
    v := AddInCase(v, ram, 65536, w[21]);
    v := AddInCase(v, rom, 16384, w[24]);
  }

  /** The same sums, one case at a time. */
  lemma KeySums(address: Fp, offset: Fp, chunk: Fp, loaded: Fp, kept: Fp, funct3: Fp, x: Access)
    requires x.Valid() && address == x.Address() % TWO16 && offset == x.Offset()
    requires chunk == x.Address() / TWO16 % x.bound
    requires loaded == Half(x.value, x.High()) && kept == Half(x.before, x.High()) && funct3 == x.funct3
    ensures Add(Add(Add(0, Mul(1, kept)), Mul(262144, funct3)), Mul(65536, offset)) == PartKey(x.before, x)
    ensures Add(Add(Add(0, Mul(1, loaded)), Mul(262144, funct3)), Mul(65536, offset)) == PartKey(x.value, x)
    ensures Add(Add(Add(0, Mul(536870912, address)), Mul(1610612735, offset)), Mul(16384, chunk)) == x.RomIndex()
  {
    hide Access.Address, Access.High;
    OffsetOfLimb(x);
    LimbFirst(kept, offset, funct3);
    LimbFirst(loaded, offset, funct3);
    RomKeyByField(address, offset, chunk);
    hide Add, Mul, LimbKey;
  }

  lemma LimbFirst(limb: Fp, offset: Fp, funct3: Fp)
    requires limb < TWO16 && offset < 4 && funct3 < 8
    ensures Add(Add(Add(0, Mul(1, limb)), Mul(262144, funct3)), Mul(65536, offset)) == LimbKey(limb, offset, funct3)
  {
  }

  /** Places 25 to 28: the one row that the first shared lookup enforces. */
  method EvalFn19To22(p: Proxy, ghost x: Access)
    requires x.Read(p) && AddressDone(p, x)
    requires p.witnessRow[40] == Half(x.value, x.High()) && p.witnessRow[43] == Half(x.before, x.High())
    modifies p.witnessRow
    ensures
      var w := p.witnessRow;
      && w[25] == FirstKey(x) && w[26] == w[33] && w[27] == w[34]
      && w[28] == if x.store then 54 else if x.InRam() then 45 else 46
    ensures OnlyChanged(p.witnessRow, 25, 28, 25, 28)
  {
    hide OffsetTable, OffsetKey, Access.Address, Access.Offset, Access.High, Half, FirstKey;
    var w := p.witnessRow;
    var store, rom, ram := Mask(p.memoryRow[9]), Mask(p.scratchSpace[0]), Mask(p.scratchSpace[1]);
    var key := SumFirstKey(p, x);
    w[25] := key;
    var v := if store then Add(0, w[33]) else 0;
    v := if rom then Add(v, w[33]) else v;
    w[26] := if ram then Add(v, w[33]) else v;
    v := if store then Add(0, w[34]) else 0;
    v := if rom then Add(v, w[34]) else v;
    w[27] := if ram then Add(v, w[34]) else v;
    v := if rom then Add(0, 46) else 0;
    v := if ram then Add(v, 45) else v;
    w[28] := if store then Add(v, 54) else v;
  }

  method EvalFn24(p: Proxy, ghost x: Access)
    requires x.Read(p) && AddressDone(p, x)
    modifies p.witnessRow
    ensures p.witnessRow[32] == if x.store then 55 else if x.InRam() then 0 else 45
    ensures OnlyChanged(p.witnessRow, 32, 32, 32, 32)
  {
    hide OffsetTable, OffsetKey, Access.Address, Access.Offset, Access.High;
    var v := if Mask(p.scratchSpace[0]) then Add(0, 45) else 0;
    p.witnessRow[32] := if Mask(p.memoryRow[9]) then Add(v, 55) else v;
  }

  /** Places 29 to 31: the row that the second shared lookup enforces. A load from RAM uses none, and
      its row is all zero. */
  method EvalFn37To39(p: Proxy, ghost x: Access, ghost rom: nat -> Word)
    requires x.Read(p) && AddressDone(p, x)
    requires x.RomLoad() ==> p.witnessRow[35] == Half(rom(x.RomIndex()), x.High())
    modifies p.witnessRow
    ensures
      var w := p.witnessRow;
      && w[29] == SecondKey(x, rom)
      && w[30] == (if x.RamLoad() then 0 else w[36]) && w[31] == (if x.RamLoad() then 0 else w[37])
    ensures OnlyChanged(p.witnessRow, 29, 31, 29, 31)
  {
    hide Add, Mul, OffsetTable, OffsetKey, Access.Address, Access.Offset, Access.High, LimbKey, Half;
    var w := p.witnessRow;
    var store, inRom := Mask(p.memoryRow[9]), Mask(p.scratchSpace[0]);
    LimbFirst(p.memoryRow[7], w[21], w[5]);
    if x.RomLoad() {
      LimbFirst(w[35], w[21], w[5]);
    }
    var v := AddInCase(0, store, 1, p.memoryRow[7]);
    v := AddInCase(v, inRom, 1, w[35]);
    v := AddInCase(v, store, 262144, w[5]);
    v := AddInCase(v, inRom, 262144, w[5]);
    v := AddInCase(v, store, 65536, w[21]);
    v := AddInCase(v, inRom, 65536, w[21]);
    w[29] := v;
    AddZero(w[36]);
    AddZero(w[37]);
    v := if store then Add(0, w[36]) else 0;
    w[30] := if inRom then Add(v, w[36]) else v;
    v := if store then Add(0, w[37]) else 0;
    w[31] := if inRom then Add(v, w[37]) else v;
  }

  /** The limbs that a load delivers from a word, before x0 is taken into account. */
  function LoadLimbs(w: Word, x: Access): (nat, nat) {
    if x.Narrow() then LoadTable(PartKey(w, x)) else (w % TWO16, w / TWO16)
  }

  /** The merge of a load from ROM and from RAM: full word or part. */
  method EvalFn29To32(p: Proxy, ghost x: Access, ghost rom: nat -> Word)
    requires x.Read(p) && AddressDone(p, x)
    requires FirstLookup(p.witnessRow, x, rom) && SecondLookup(p.witnessRow, x, rom)
    modifies p.witnessRow
    ensures
      var w := p.witnessRow;
      && (x.RomLoad() ==> (w[38], w[39]) == LoadLimbs(rom(x.RomIndex()), x))
      && (x.RamLoad() ==> (w[41], w[42]) == LoadLimbs(x.value, x))
    ensures OnlyChanged(p.witnessRow, 38, 39, 41, 42)
  {
    hide Blend, LoadTable, PutTable, KeepTable, OffsetTable, OffsetKey, Access.Address, Access.Offset, Access.High,
      Access.Narrow, PartKey;
    var w, m := p.witnessRow, p.memoryRow;
    BlendChooses(x.Narrow(), w[36], w[33]);
    BlendChooses(x.Narrow(), w[37], w[34]);
    BlendChooses(x.Narrow(), w[33], m[7]);
    BlendChooses(x.Narrow(), w[34], m[8]);
    w[38] := Blend(w[13], w[36], w[33]);
    w[39] := Blend(w[13], w[37], w[34]);
    w[41] := Blend(w[13], w[33], m[7]);
    w[42] := Blend(w[13], w[34], m[8]);
  }

  /** f * x - f * a - f * b + a + b and f * a + f * b - f * y + y choose between a limb and a sum of two. */
  function KeepOrSum(f: Fp, x: Fp, a: Fp, b: Fp): Fp {
    Add(Add(Sub(Sub(Add(0, Mul(f, x)), Mul(f, a)), Mul(f, b)), a), b)
  }

  function SumOrKeep(f: Fp, y: Fp, a: Fp, b: Fp): Fp {
    Add(Sub(Add(Add(0, Mul(f, a)), Mul(f, b)), Mul(f, y)), y)
  }

  lemma TakeAndGiveBack(x: Fp, a: Fp, b: Fp)
    ensures Add(Add(Sub(Sub(x, a), b), a), b) == x
  {
    SubCommutes(x, a, b);
    AddAfterSub(Sub(x, b), a);
    AddAfterSub(x, b);
    hide Add, Sub;
  }

  lemma SubCommutes(x: Fp, a: Fp, b: Fp)
    ensures Sub(Sub(x, a), b) == Sub(Sub(x, b), a)
  {
  }

  lemma AddAfterSub(x: Fp, a: Fp)
    ensures Add(Sub(x, a), a) == x
  {
  }

  lemma Multiples(a: Fp)
    ensures Mul(0, a) == 0 && Mul(1, a) == a && Add(0, a) == a && Sub(a, 0) == a && Add(a, 0) == a
  {
  }

  lemma MergeFields(f: bool, x: Fp, a: Fp, b: Fp)
    requires a < TWO16 && b < TWO16
    ensures KeepOrSum(FromBool(f), x, a, b) == if f then x else a + b
    ensures SumOrKeep(FromBool(f), x, a, b) == if f then a + b else x
  {
    Multiples(x);
    Multiples(a);
    Multiples(b);
    Multiples(0);
    assert Add(a, b) == a + b;
    TakeAndGiveBack(x, a, b);
    AddAfterSub(Add(a, b), x);
    hide Add, Sub, Mul;
  }

  /** The word that a store writes back. */
  function StoreLimbs(x: Access): (nat, nat) {
    if x.Narrow() then
      (MergedLow(x.before, x.value, x.Offset(), x.funct3), MergedHigh(x.before, x.value, x.Offset(), x.funct3))
    else
      (x.value % TWO16, x.value / TWO16)
  }

  method EvalFn33To34(p: Proxy, ghost x: Access, ghost rom: nat -> Word)
    requires x.Read(p) && AddressDone(p, x)
    requires FirstLookup(p.witnessRow, x, rom) && SecondLookup(p.witnessRow, x, rom)
    modifies p.witnessRow
    ensures x.store ==>
      && p.witnessRow[44] == MergedLow(x.before, x.value, x.Offset(), x.funct3)
      && p.witnessRow[45] == MergedHigh(x.before, x.value, x.Offset(), x.funct3)
    ensures OnlyChanged(p.witnessRow, 44, 45, 44, 45)
  {
    hide KeepOrSum, SumOrKeep, LoadTable, PutTable, KeepTable, OffsetTable, OffsetKey, Access.Address, Access.Narrow,
      Access.Offset, LimbKey;
    var w, m := p.witnessRow, p.memoryRow;
    if x.store {
      MergeFields(x.High(), m[14], w[33], w[36]);
      MergeFields(x.High(), m[15], w[33], w[36]);
    }
    w[44] := KeepOrSum(w[14], m[14], w[33], w[36]);
    w[45] := SumOrKeep(w[14], m[15], w[33], w[36]);
  }

  method EvalFn35To36(p: Proxy, ghost x: Access)
    requires x.Read(p) && AddressDone(p, x)
    requires x.store ==>
      && p.witnessRow[44] == MergedLow(x.before, x.value, x.Offset(), x.funct3)
      && p.witnessRow[45] == MergedHigh(x.before, x.value, x.Offset(), x.funct3)
    modifies p.witnessRow
    ensures x.store ==> (p.witnessRow[46], p.witnessRow[47]) == StoreLimbs(x)
    ensures OnlyChanged(p.witnessRow, 46, 47, 46, 47)
  {
    hide Blend, MergedLow, MergedHigh, OffsetTable, OffsetKey, Access.Address, Access.Narrow, Access.Offset;
    var w, m := p.witnessRow, p.memoryRow;
    BlendChooses(x.Narrow(), w[44], m[7]);
    BlendChooses(x.Narrow(), w[45], m[8]);
    w[46] := Blend(w[13], w[44], m[7]);
    w[47] := Blend(w[13], w[45], m[8]);
  }

  /** The two load results combined, and zero for x0. */
  method EvalFn41To44(p: Proxy, ghost x: Access, ghost rom: nat -> Word)
    requires x.Read(p) && AddressDone(p, x)
    requires x.RomLoad() ==> (p.witnessRow[38], p.witnessRow[39]) == LoadLimbs(rom(x.RomIndex()), x)
    requires x.RamLoad() ==> (p.witnessRow[41], p.witnessRow[42]) == LoadLimbs(x.value, x)
    modifies p.witnessRow
    ensures (p.witnessRow[48], p.witnessRow[49]) == if x.store then (0, 0) else LoadLimbs(x.Source(rom), x)
    ensures !x.store ==>
      (p.witnessRow[50], p.witnessRow[51]) == if x.rdIsZero then (0, 0) else LoadLimbs(x.Source(rom), x)
    ensures OnlyChanged(p.witnessRow, 48, 51, 48, 51)
  {
    hide LoadLimbs, OffsetTable, OffsetKey, Access.Address, Access.Narrow, Access.High, Add, Sub, Mul, Blend;
    var w, s := p.witnessRow, p.scratchSpace;
    OneOfTwo(x.RomLoad(), x.RamLoad(), w[38], w[41]);
    OneOfTwo(x.RomLoad(), x.RamLoad(), w[39], w[42]);
    w[48] := Add(Add(0, Mul(s[0], w[38])), Mul(s[1], w[41]));
    w[49] := Add(Add(0, Mul(s[0], w[39])), Mul(s[1], w[42]));
    ClearIs(w[48], x.rdIsZero);
    ClearIs(w[49], x.rdIsZero);
    w[50] := AndNotField(w[48], w[2]);
    w[51] := AndNotField(w[49], w[2]);
  }

  lemma OneOfTwo(f: bool, g: bool, a: Fp, b: Fp)
    requires !(f && g)
    ensures Add(Add(0, Mul(FromBool(f), a)), Mul(FromBool(g), b)) == if f then a else if g then b else 0
  {
  }

  /** The circuit has no third bit for the mask, so a row that traps cannot be completed. */
  predicate Passes(row: array<Fp>)
    requires row.Length >= 54
    reads row
  {
    var mask: int, narrow: int, high: int := row[22], row[13], row[14];
    mask == narrow + 2 * high
  }

  /** What the finished row means. */
  ghost predicate Done(p: Proxy, x: Access, rom: nat -> Word)
    requires x.Valid() && p.Valid(24, 54, 2)
    reads p.memoryRow, p.witnessRow, p.scratchSpace
  {
    var w := p.witnessRow;
    && AddressDone(p, x) && FirstLookup(w, x, rom) && SecondLookup(w, x, rom)
    && w[25] == FirstKey(x) && w[26] == w[33] && w[27] == w[34]
    && w[28] == (if x.store then 54 else if x.InRam() then 45 else 46)
    && w[29] == SecondKey(x, rom)
    && w[30] == (if x.RamLoad() then 0 else w[36]) && w[31] == (if x.RamLoad() then 0 else w[37])
    && w[32] == (if x.store then 55 else if x.InRam() then 0 else 45)
    && (!x.store ==> (w[50], w[51]) == if x.rdIsZero then (0, 0) else LoadLimbs(x.Source(rom), x))
    && (x.store ==> (w[46], w[47]) == StoreLimbs(x))
  }

  method EvaluateLookups(p: Proxy, rom: nat -> Word, ghost x: Access)
    requires x.Read(p) && AddressDone(p, x)
    modifies p.witnessRow
    ensures x.Read(p) && AddressDone(p, x)
    ensures FirstLookup(p.witnessRow, x, rom) && SecondLookup(p.witnessRow, x, rom)
    ensures
      var w := p.witnessRow;
      && w[25] == FirstKey(x) && w[26] == w[33] && w[27] == w[34]
      && w[28] == (if x.store then 54 else if x.InRam() then 45 else 46)
      && w[32] == (if x.store then 55 else if x.InRam() then 0 else 45)
      && (x.RomLoad() ==> w[35] == Half(rom(x.RomIndex()), x.High()))
  {
    hide FromBool, Access.Address, OffsetTable, OffsetKey, Access.Offset, Access.InRam, Access.High, Access.Narrow,
      FirstKey, LoadTable, KeepTable, PutTable, PartKey, LimbKey, Half;
    EvaluateFirstLookup(p, rom, x);
    EvalFn18(p, x, rom);
    EvalFn19To22(p, x);
    EvalFn24(p, x);
    EvalFn27To28(p, rom, x);
  }

  method EvaluateRow(p: Proxy, rom: nat -> Word, bound: nat, ghost x: Access)
    requires x.Read(p) && bound == x.bound
    modifies p.witnessRow, p.scratchSpace
    ensures Done(p, x, rom)
  {
    hide FromBool, Access.Address, OffsetTable, OffsetKey, Access.Offset, Access.InRam, Access.High, Access.Narrow,
      FirstKey, SecondKey, LoadTable, KeepTable, PutTable, PartKey, LimbKey, Half, LoadLimbs, StoreLimbs, MergedLow,
      MergedHigh;
    EvaluateAddress(p, bound, x);
    EvaluateLookups(p, rom, x);
    EvalFn29To32(p, x, rom);
    EvalFn33To34(p, x, rom);
    EvalFn35To36(p, x);
    EvalFn37To39(p, x, rom);
    EvalFn41To44(p, x, rom);
  }

  /** Exactly which rows can be completed: aligned accesses of a known width, and every lhu. */
  lemma PassesIff(p: Proxy, x: Access)
    requires x.Valid() && p.Valid(24, 54, 2) && AddressDone(p, x)
    ensures Passes(p.witnessRow) <==> !BaseTrap(x.funct3, x.Offset()) || x.funct3 == 5
    ensures p.witnessRow[22] == p.witnessRow[13] + 2 * p.witnessRow[14] <==>
      x.funct3 in {0, 4, 5} || (x.funct3 == 1 && x.Offset() % 2 == 0) || (x.funct3 == 2 && x.Offset() == 0)
  {
    hide OffsetTable, OffsetKey, Access.Address, Access.Offset;
    OffsetTableMeans(x.Address() % TWO16, x.funct3, x.store, x.rdIsZero);
    OffsetOfLimb(x);
  }

  /** Every load that passes leaves the ISA's value in rd, from ROM or RAM alike, except that a
      misaligned lhu leaves zero. */
  lemma LoadMeans(p: Proxy, x: Access, rom: nat -> Word)
    requires x.Read(p) && Done(p, x, rom) && Passes(p.witnessRow) && !x.store
    ensures IsLoad(x.funct3) && (Misaligned(x.funct3, x.Offset()) ==> x.funct3 == 5)
    ensures
      var expected :=
        if x.rdIsZero || Misaligned(x.funct3, x.Offset()) then 0
        else LoadValue(x.funct3, x.Source(rom), x.Offset());
      Holds32(p.witnessRow, 50, 51, expected)
    ensures x.Source(rom) == if x.Address() >= TWO16 * x.bound then x.value else rom(x.Address() / 4)
  {
    PassesIff(p, x);
    SourceByAddress(x, rom);
    var w := x.Source(rom);
    if Misaligned(x.funct3, x.Offset()) {
      MisalignedLoadsZero(w, x.Offset());
    } else if x.Narrow() {
      LoadByTable(x.funct3, w, x.Offset());
    }
    hide OffsetTable, OffsetKey, Access.Address, Access.Offset, LoadTable, Access.Source, ByteAt, HalfAt, LimbKey,
      AddressDone, FirstKey, SecondKey, Access.InRam, StoreLimbs, Passes;
  }

  /** Where the word comes from makes no difference: a ROM access and a RAM access at the same address
      that find the same word leave the same rd. */
  lemma RomAndRamAgree(p: Proxy, q: Proxy, x: Access, y: Access, rom: nat -> Word)
    requires x.Read(p) && Done(p, x, rom) && x.RomLoad() && y.Read(q) && Done(q, y, rom) && y.RamLoad()
    requires x.Address() == y.Address() && x.funct3 == y.funct3 && x.rdIsZero == y.rdIsZero
    requires y.value == rom(x.RomIndex())
    ensures p.witnessRow[50] == q.witnessRow[50] && p.witnessRow[51] == q.witnessRow[51]
  {
    hide OffsetTable, OffsetKey, Access.Address, LoadTable, LimbKey, AddressDone, FirstKey, SecondKey, Access.InRam,
      StoreLimbs;
  }

  /** Every store that passes writes back what the instruction asks for, and one narrower than a word
      leaves the half that the offset does not select alone. */
  lemma StoreMeans(p: Proxy, x: Access, rom: nat -> Word)
    requires x.Read(p) && Done(p, x, rom) && Passes(p.witnessRow) && x.store && IsStore(x.funct3)
    ensures
      var low, high := p.witnessRow[46], p.witnessRow[47];
      && low < TWO16 && high < TWO16 && low + TWO16 * high == StoreValue(x.funct3, x.before, x.value, x.Offset())
      && (x.funct3 < 2 ==> if x.High() then low == x.before % TWO16 else high == x.before / TWO16)
  {
    PassesIff(p, x);
    if x.Narrow() {
      MergeIsStore(x.before, x.value, x.Offset(), x.funct3);
    }
    hide OffsetTable, OffsetKey, Access.Address, Access.Offset, MergedLow, MergedHigh, ByteAt, HalfAt, LimbKey,
      AddressDone, FirstKey, SecondKey, Access.InRam, LoadLimbs, Passes;
  }

  /** A row of one of the lookup tables, which the row names by number: 45 for parts of a loaded limb, 46
      for the ROM, 54 and 55 for what a store keeps and puts. Table 0 has only the zero row. */
  predicate InTable(number: nat, key: nat, first: nat, second: nat, rom: nat -> Word) {
    match number
    case 0 => key == 0 && first == 0 && second == 0
    case 45 => (first, second) == LoadTable(key)
    case 46 => first == rom(key) % TWO16 && second == rom(key) / TWO16
    case 54 => first == KeepTable(key) && second == 0
    case 55 => first == PutTable(key) && second == 0
    case _ => false
  }

  /** Both lookup rows of a finished row are in the tables that they name. */
  lemma LookupsInTables(p: Proxy, x: Access, rom: nat -> Word)
    requires x.Valid() && p.Valid(24, 54, 2) && Done(p, x, rom)
    ensures
      var w := p.witnessRow;
      InTable(w[28], w[25], w[26], w[27], rom) && InTable(w[32], w[29], w[30], w[31], rom)
  {
    hide AddressDone, Access.Address, Access.InRam, Access.RomIndex, PartKey, LimbKey, LoadTable, KeepTable, PutTable,
      LoadLimbs, StoreLimbs, Access.Source;
  }

  /** What the tables make of a word, funct3 by funct3. */
  lemma LoadLimbsAre(word: Word, x: Access)
    requires x.Valid() && (x.funct3 in {0, 4, 5} || (x.funct3 == 1 && x.Offset() % 2 == 0) || x.funct3 == 2)
    ensures
      var offset := x.Offset();
      var limb := if offset > 1 then word / TWO16 else word % TWO16;
      var byte := if offset % 2 == 1 then limb / 256 else limb % 256;
      LoadLimbs(word, x) ==
        if x.funct3 == 0 then (if byte >= 0x80 then (byte + 0xFF00, 0xFFFF) else (byte, 0))
        else if x.funct3 == 1 then (limb, if limb >= 0x8000 then 0xFFFF else 0)
        else if x.funct3 == 2 then (word % TWO16, word / TWO16)
        else if x.funct3 == 4 then (byte, 0)
        else if offset % 2 == 1 then (0, 0) else (limb, 0)
  {
    hide Access.Address, Access.Offset, LimbKey;
    LimbKeyFields(Half(word, x.High()), x.Offset(), x.funct3);
  }

  /** What a load leaves in the limbs for rd, in terms of the limbs of the word that it reads. */
  lemma LoadByLimbs(p: Proxy, x: Access, rom: nat -> Word)
    requires x.Valid() && p.Valid(24, 54, 2) && Done(p, x, rom) && Passes(p.witnessRow) && !x.store
    ensures
      var w, word, offset := p.witnessRow, x.Source(rom), x.Offset();
      var limb := if offset > 1 then word / TWO16 else word % TWO16;
      var byte := if offset % 2 == 1 then limb / 256 else limb % 256;
      (w[50], w[51]) ==
        if x.rdIsZero then (0, 0)
        else if x.funct3 == 0 then (if byte >= 0x80 then (byte + 0xFF00, 0xFFFF) else (byte, 0))
        else if x.funct3 == 1 then (limb, if limb >= 0x8000 then 0xFFFF else 0)
        else if x.funct3 == 2 then (word % TWO16, word / TWO16)
        else if x.funct3 == 4 then (byte, 0)
        else if offset % 2 == 1 then (0, 0) else (limb, 0)
    ensures x.funct3 in {0, 1, 2, 4, 5}
    ensures (x.funct3 == 1 ==> x.Offset() % 2 == 0) && (x.funct3 == 2 ==> x.Offset() == 0)
  {
    hide AddressDone, Access.Address, Access.Source, Access.Offset, Access.InRam, LoadLimbs, StoreLimbs, FirstLookup,
      SecondLookup, FirstKey, SecondKey, BaseTrap;
    PassesIff(p, x);
    LoadLimbsAre(x.Source(rom), x);
  }

  /** What a store makes of the word before it, funct3 by funct3. */
  lemma StoreLimbsAre(x: Access)
    requires x.Valid() && x.funct3 < 3
    ensures
      var offset := x.Offset();
      var low, high := x.before % TWO16, x.before / TWO16;
      var limb, value := if offset > 1 then high else low, x.value % TWO16;
      var changed :=
        if x.funct3 == 1 then value
        else if offset % 2 == 1 then limb % 256 + 256 * (value % 256) else limb - limb % 256 + value % 256;
      StoreLimbs(x) ==
        if x.funct3 == 2 then (value, x.value / TWO16) else if offset > 1 then (low, changed) else (changed, high)
  {
    hide Access.Address, Access.Offset, LimbKey;
    LimbKeyFields(if x.High() then x.before / TWO16 else x.before % TWO16, x.Offset(), x.funct3);
    LimbKeyFields(x.value % TWO16, x.Offset(), x.funct3);
  }

  /** What a store writes back, limb by limb. */
  lemma StoreByLimbs(p: Proxy, x: Access, rom: nat -> Word)
    requires x.Valid() && p.Valid(24, 54, 2) && Done(p, x, rom) && x.store && x.funct3 < 3
    ensures
      var w, offset := p.witnessRow, x.Offset();
      var low, high := x.before % TWO16, x.before / TWO16;
      var limb, value := if offset > 1 then high else low, x.value % TWO16;
      var changed :=
        if x.funct3 == 1 then value
        else if offset % 2 == 1 then limb % 256 + 256 * (value % 256) else limb - limb % 256 + value % 256;
      (w[46], w[47]) ==
        if x.funct3 == 2 then (value, x.value / TWO16) else if offset > 1 then (low, changed) else (changed, high)
  {
    hide AddressDone, Access.Address, Access.Source, Access.Offset, Access.InRam, LoadLimbs, StoreLimbs, FirstLookup,
      SecondLookup, FirstKey, SecondKey, BaseTrap;
    StoreLimbsAre(x);
  }

  /** What the address places of a finished row hold. */
  lemma AddressByPlaces(p: Proxy, x: Access)
    requires x.Valid() && p.Valid(24, 54, 2) && AddressDone(p, x)
    ensures
      var w := p.witnessRow;
      && w[10] == x.Address() % TWO16 && w[11] == x.Address() / TWO16 && w[21] == x.Address() % 4 == x.Offset()
      && w[23] == (if x.Address() >= TWO16 * x.bound then 1 else 0) && w[24] == w[11] % x.bound
      && w[13] == (if x.funct3 in {0, 1, 4, 5} then 1 else 0) && w[14] == (if x.Address() % 4 > 1 then 1 else 0)
  {
    hide OffsetTable, OffsetKey, Access.Address;
    RamFromAddress(x);
  }

  /** One evaluation of the row. In terms of places: with rs1 in memory 2 and 3 and the immediate in 3 and
      4, the address is in 10 and 11; RAM starts at 2^16 times the bound. A load that passes leaves in
      50 and 51 the value that funct3 in place 5 selects from the limbs of the word at that address, or
      zero for x0. A store leaves in 46 and 47 the limbs of the word in memory places 14 and 15 with those
      in 7 and 8 written over them. Both lookup rows are in the tables that they name. */
  method EvaluateWitness(p: Proxy, rom: nat -> Word, bound: nat, ghost x: Access)
    requires x.Read(p) && bound == x.bound
    modifies p.witnessRow, p.scratchSpace
    ensures
      var m, w, funct3, offset := p.memoryRow, p.witnessRow, old(p.witnessRow[5]), p.witnessRow[21];
      var word := rom((w[10] + TWO16 * w[11]) / 4);
      var low, high := if w[23] == 1 then m[7] else word % TWO16, if w[23] == 1 then m[8] else word / TWO16;
      var limb := if offset > 1 then high else low;
      var byte := if offset % 2 == 1 then limb / 256 else limb % 256;
      m[9] == 0 && Passes(w) ==>
        && funct3 in {0, 1, 2, 4, 5} && (funct3 == 1 ==> offset % 2 == 0) && (funct3 == 2 ==> offset == 0)
        && (w[50], w[51]) ==
          if old(w[2]) == 1 then (0, 0)
          else if funct3 == 0 then (if byte >= 0x80 then (byte + 0xFF00, 0xFFFF) else (byte, 0))
          else if funct3 == 1 then (limb, if limb >= 0x8000 then 0xFFFF else 0)
          else if funct3 == 2 then (low, high)
          else if funct3 == 4 then (byte, 0)
          else if offset % 2 == 1 then (0, 0) else (limb, 0)
    ensures
      var m, w, funct3, offset := p.memoryRow, p.witnessRow, old(p.witnessRow[5]), p.witnessRow[21];
      var limb := if offset > 1 then m[15] else m[14];
      var changed :=
        if funct3 == 1 then m[7]
        else if offset % 2 == 1 then limb % 256 + 256 * (m[7] % 256) else limb - limb % 256 + m[7] % 256;
      m[9] == 1 && funct3 < 3 ==>
        (w[46], w[47]) ==
          if funct3 == 2 then (m[7], m[8]) else if offset > 1 then (m[14], changed) else (changed, m[15])
    ensures
      var w := p.witnessRow;
      InTable(w[28], w[25], w[26], w[27], rom) && InTable(w[32], w[29], w[30], w[31], rom)
    ensures
      var m, w := p.memoryRow, p.witnessRow;
      var address := (m[2] + TWO16 * m[3] + old(w[3]) + TWO16 * old(w[4])) % TWO32;
      && w[10] == address % TWO16 && w[11] == address / TWO16 && w[21] == address % 4
      && w[23] == (if address >= TWO16 * bound then 1 else 0) && w[24] == address / TWO16 % bound
      && w[13] == (if old(w[5]) in {0, 1, 4, 5} then 1 else 0) && w[14] == (if address % 4 > 1 then 1 else 0)
      && w[28] == (if m[9] == 1 then 54 else if w[23] == 1 then 45 else 46)
      && w[32] == (if m[9] == 1 then 55 else if w[23] == 1 then 0 else 45)
    ensures
      var w, funct3 := p.witnessRow, old(p.witnessRow[5]);
      Passes(w) <==> funct3 in {0, 4, 5} || (funct3 == 1 && w[21] % 2 == 0) || (funct3 == 2 && w[21] == 0)
    ensures Done(p, x, rom)
  {
    hide Done, AddressDone, Passes, LoadLimbs, StoreLimbs, InTable, Access.Source;
    ghost var m, w := p.memoryRow, p.witnessRow;
    assert x.rs1 == m[2] + TWO16 * m[3] && x.imm == w[3] + TWO16 * w[4] && x.funct3 == w[5];
    assert x.value == m[7] + TWO16 * m[8] && x.before == m[14] + TWO16 * m[15];
    assert m[9] == FromBool(x.store) && w[2] == FromBool(x.rdIsZero);
    EvaluateRow(p, rom, bound, x);
    DoneParts(p, x, rom);
    AddressByPlaces(p, x);
    PassesIff(p, x);
    LookupsInTables(p, x, rom);
    SourceByAddress(x, rom);
    if x.store {
      if x.funct3 < 3 {
        StoreByLimbs(p, x, rom);
      }
    } else if Passes(w) {
      LoadByLimbs(p, x, rom);
    }
  }

  lemma DoneParts(p: Proxy, x: Access, rom: nat -> Word)
    requires x.Valid() && p.Valid(24, 54, 2) && Done(p, x, rom)
    ensures AddressDone(p, x)
    ensures
      var w := p.witnessRow;
      && w[28] == (if x.store then 54 else if x.InRam() then 45 else 46)
      && w[32] == (if x.store then 55 else if x.InRam() then 0 else 45)
  {
    hide AddressDone;
  }

  lemma SourceByAddress(x: Access, rom: nat -> Word)
    requires x.Valid()
    ensures x.Source(rom) == if x.Address() >= TWO16 * x.bound then x.value else rom(x.Address() / 4)
    ensures x.InRam() == (x.Address() >= TWO16 * x.bound)
  {
    hide Access.Address, Access.RomIndex;
    RamFromAddress(x);
  }
}
