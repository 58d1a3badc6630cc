/** Numbers in digits: taking a number apart at a power gives back the parts it was made of. */
module Digits {
  lemma TimesGrows(d: nat, m: nat, n: nat)
    requires m <= n
    ensures d * m <= d * n
  {
  }

  lemma DigitAtMost(d: nat, q1: nat, r1: nat, q2: nat, r2: nat)
    requires r1 < d && r1 + d * q1 == r2 + d * q2
    ensures q2 <= q1
  {
    if q2 > q1 {
      TimesGrows(d, q1 + 1, q2);
      assert false;
    }
  }

  /** A number has one lowest digit to base d, and one rest. */
  lemma Digit(d: nat, r1: nat, q1: nat, r2: nat, q2: nat)
    requires r1 < d && r2 < d && r1 + d * q1 == r2 + d * q2
    ensures r1 == r2 && q1 == q2
  {
    DigitAtMost(d, q1, r1, q2, r2);
    DigitAtMost(d, q2, r2, q1, r1);
  }

  lemma Divides(w: nat, power: nat, rest: nat, q: nat)
    requires rest < power && w == rest + power * q
    ensures w / power == q
  {
    Digit(power, w % power, w / power, rest, q);
  }

  lemma Fields(low: nat, power: nat, high: nat)
    requires power > 0 && low < power
    ensures (low + power * high) % power == low && (low + power * high) / power == high
  {
    var n := low + power * high;
    Digit(power, n % power, n / power, low, high);
  }

  lemma PlusTwos(l: nat, k: nat)
    ensures (l + 2 * k) % 2 == l % 2
  {
  }

  lemma PlusFours(l: nat, k: nat)
    ensures (l + 4 * k) % 4 == l % 4
  {
  }

  /** One more digit of the rest of a number. */
  lemma NextDigit(l: nat, d: nat, e: nat)
    requires d > 0 && e > 0
    ensures l / d == l / d % e + e * (l / (d * e))
  {
    RestOf(l, d, e, l % d, l / d, l / d % e, l / d / e);
  }

  lemma RestOf(l: nat, d: nat, e: nat, r: nat, rest: nat, q: nat, above: nat)
    requires l == r + d * rest && rest == q + e * above && r < d && q < e
    ensures d * e > 0 && l / (d * e) == above
  {
    assert d * (q + e * above) == d * q + (d * e) * above;
    TimesGrows(d, q, e - 1);
    assert r + d * q < d * e;
    Divides(l, d * e, r + d * q, above);
  }
}
