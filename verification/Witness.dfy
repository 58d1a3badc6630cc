/** The row of witness places that an evaluator fills in, and the integer views of a place. */
module Witness {
  import opened Mersenne31

  function U16(x: Fp): nat {
    x % 0x1_0000
  }

  function U8(x: Fp): nat {
    x % 0x100
  }

  function Mask(x: Fp): bool {
    x == 1
  }

  /** Wrapping 16-bit and 32-bit arithmetic. */
  function Add16(a: nat, b: nat): nat {
    (a + b) % 0x1_0000
  }

  function Sub16(a: nat, b: nat): nat {
    (a - b) % 0x1_0000
  }

  function Add32(a: nat, b: nat): nat {
    (a + b) % 0x1_0000_0000
  }

  function Sub32(a: nat, b: nat): nat {
    (a - b) % 0x1_0000_0000
  }

  function Mul32(a: nat, b: nat): nat {
    (a * b) % 0x1_0000_0000
  }

  /** Shift left by one byte. */
  function Shl8(a: nat): nat {
    (a * 0x100) % 0x1_0000_0000
  }

  class Proxy {
    const memoryRow: array<Fp>
    const witnessRow: array<Fp>
    const scratchSpace: array<Fp>

    /** Room for the places that a circuit uses. The three rows never overlap. */
    ghost predicate Valid(memoryPlaces: nat, witnessPlaces: nat, scratchPlaces: nat) {
      && memoryRow.Length >= memoryPlaces && witnessRow.Length >= witnessPlaces && scratchSpace.Length >= scratchPlaces
      && memoryRow != witnessRow && memoryRow != scratchSpace && witnessRow != scratchSpace
    }

    constructor (memoryPlaces: nat, witnessPlaces: nat, scratchPlaces: nat)
      ensures Valid(memoryPlaces, witnessPlaces, scratchPlaces)
      ensures fresh(memoryRow) && fresh(witnessRow) && fresh(scratchSpace)
    {
      memoryRow := new Fp[memoryPlaces](_ => 0);
      witnessRow := new Fp[witnessPlaces](_ => 0);
      scratchSpace := new Fp[scratchPlaces](_ => 0);
    }
  }

  /** Nothing outside places i..j and k..l changed. */
  twostate predicate OnlyChanged(row: array<Fp>, i: nat, j: nat, k: nat, l: nat)
    reads row
  {
    forall n: nat | n < row.Length && !(i <= n <= j) && !(k <= n <= l) :: row[n] == old(row[n])
  }

  /** A place that several writers share is overwritten only under the writer's flag. */
  method StoreIf(row: array<Fp>, flag: bool, i: nat, v: Fp)
    requires i < row.Length
    modifies row
    ensures row[i] == if flag then v else old(row[i])
    ensures OnlyChanged(row, i, i, i, i)
  {
    row[i] := if flag then v else row[i];
  }
}
