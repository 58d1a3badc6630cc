/** The 32-bit accumulators that the column carries are computed in. Each is shown to hold the integer
    column sum modulo 2^32, whatever is accumulated. */
module ColumnAccumulator {
  import opened MulRelation
  import opened Witness

  lemma ModShift(x: int, k: int)
    ensures (x + TWO32 * k) % TWO32 == x % TWO32
  {
  }

  lemma ModAdd(v: nat, sum: int, t: int)
    requires v == sum % TWO32
    ensures (v + t % TWO32) % TWO32 == (sum + t) % TWO32 && (v + t) % TWO32 == (sum + t) % TWO32
  {
    ModShift(sum + t, -(sum / TWO32) - t / TWO32);
    ModShift(sum + t, -(sum / TWO32));
  }

  /** Adding to a 32-bit accumulator that holds an integer sum modulo 2^32: a term, a product, or a
      product shifted by a byte. */
  method AddTerm(v: nat, ghost sum: int, t: nat) returns (v': nat, ghost sum': int)
    requires v == sum % TWO32
    ensures sum' == sum + t && v' == sum' % TWO32
  {
    ModAdd(v, sum, t);
    v', sum' := Add32(v, t), sum + t;
  }

  method AddProduct(v: nat, ghost sum: int, x: nat, y: nat) returns (v': nat, ghost sum': int)
    requires v == sum % TWO32
    ensures sum' == sum + x * y && v' == sum' % TWO32
  {
    ModAdd(v, sum, x * y);
    v', sum' := Add32(v, Mul32(x, y)), sum + x * y;
  }

  method AddShifted(v: nat, ghost sum: int, x: nat, y: nat) returns (v': nat, ghost sum': int)
    requires v == sum % TWO32
    ensures sum' == sum + 256 * (x * y) && v' == sum' % TWO32
  {
    ModShift(256 * (x * y), -256 * ((x * y) / TWO32));
    ModAdd(v, sum, 256 * (x * y));
    v', sum' := Add32(v, Shl8(Mul32(x, y))), sum + 256 * (x * y);
  }

  method SubtractLimb(v: nat, ghost sum: int, d: nat) returns (v': nat)
    requires v == sum % TWO32
    ensures v' == (sum - d) % TWO32
  {
    var t: int := d;
    ModAdd(v, sum, -t);
    v' := Sub32(v, d);
  }

  method Accumulate0(a: Bytes, b: Bytes, lo: nat, d: nat) returns (v: nat)
    ensures v == (Column0(a, b, lo) - d) % TWO32
  {
    ghost var sum := 0;
    v, sum := AddProduct(0, sum, a.b0, b.b0);
    v, sum := AddShifted(v, sum, a.b0, b.b1);
    v, sum := AddShifted(v, sum, a.b1, b.b0);
    v, sum := AddTerm(v, sum, lo);
    v := SubtractLimb(v, sum, d);
  }

  method Accumulate1(a: Bytes, b: Bytes, hi: nat, carry: nat, d: nat) returns (v: nat)
    ensures v == (Column1(a, b, hi) + carry - d) % TWO32
  {
    ghost var sum := 0;
    v, sum := AddTerm(0, sum, carry);
    v, sum := AddProduct(v, sum, a.b0, b.b2);
    v, sum := AddShifted(v, sum, a.b0, b.b3);
    v, sum := AddProduct(v, sum, a.b1, b.b1);
    v, sum := AddShifted(v, sum, a.b1, b.b2);
    v, sum := AddProduct(v, sum, a.b2, b.b0);
    v, sum := AddShifted(v, sum, a.b2, b.b1);
    v, sum := AddShifted(v, sum, a.b3, b.b0);
    v, sum := AddTerm(v, sum, hi);
    v := SubtractLimb(v, sum, d);
  }

  method Accumulate2(a: Bytes, aNeg: bool, b: Bytes, bNeg: bool, addNeg: bool, carry: nat, d: nat) returns (v: nat)
    ensures v == (Column2(a, aNeg, b, bNeg, addNeg) + carry - d) % TWO32
  {
    var x, y := Extension(aNeg), Extension(bNeg);
    ghost var sum := 0;
    v, sum := AddTerm(0, sum, carry);
    v, sum := AddProduct(v, sum, a.b0, y);
    v, sum := AddShifted(v, sum, a.b0, y);
    v, sum := AddProduct(v, sum, a.b1, b.b3);
    v, sum := AddShifted(v, sum, a.b1, y);
    v, sum := AddProduct(v, sum, a.b2, b.b2);
    v, sum := AddShifted(v, sum, a.b2, b.b3);
    v, sum := AddProduct(v, sum, a.b3, b.b1);
    v, sum := AddShifted(v, sum, a.b3, b.b2);
    v, sum := AddProduct(v, sum, x, b.b0);
    v, sum := AddShifted(v, sum, x, b.b1);
    v, sum := AddShifted(v, sum, x, b.b0);
    v, sum := AddTerm(v, sum, 65535 * Bit(addNeg));
    v := SubtractLimb(v, sum, d);
  }

  method Accumulate3(a: Bytes, aNeg: bool, b: Bytes, bNeg: bool, addNeg: bool, carry: nat, d: nat) returns (v: nat)
    ensures v == (Column3(a, aNeg, b, bNeg, addNeg) + carry - d) % TWO32
  {
    var x, y := Extension(aNeg), Extension(bNeg);
    ghost var sum := 0;
    v, sum := AddTerm(0, sum, carry);
    v, sum := AddProduct(v, sum, a.b0, y);
    v, sum := AddShifted(v, sum, a.b0, y);
    v, sum := AddProduct(v, sum, a.b1, y);
    v, sum := AddShifted(v, sum, a.b1, y);
    v, sum := AddProduct(v, sum, a.b2, y);
    v, sum := AddShifted(v, sum, a.b2, y);
    v, sum := AddProduct(v, sum, a.b3, b.b3);
    v, sum := AddShifted(v, sum, a.b3, y);
    v, sum := AddProduct(v, sum, x, b.b2);
    v, sum := AddShifted(v, sum, x, b.b3);
    v, sum := AddProduct(v, sum, x, b.b1);
    v, sum := AddShifted(v, sum, x, b.b2);
    v, sum := AddProduct(v, sum, x, b.b0);
    v, sum := AddShifted(v, sum, x, b.b1);
    v, sum := AddShifted(v, sum, x, b.b0);
    v, sum := AddTerm(v, sum, 65535 * Bit(addNeg));
    v := SubtractLimb(v, sum, d);
  }
}
