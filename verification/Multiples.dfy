/** Multiples of a unit. */
module Multiples {
  lemma Times(a: nat, d: int)
    ensures d >= 1 ==> a * d >= a
    ensures d <= -1 ==> a * d + a <= 0
  {
  }

  lemma Distribute(a: nat, x: int, y: int)
    ensures a * x - a * y == a * (x - y)
  {
  }

  /** A quotient lies between the same bounds as the number, in units. */
  lemma Between(a: nat, q: int, r: int, lo: int, hi: int)
    requires 0 <= r < a && a * lo <= a * q + r < a * hi
    ensures lo <= q < hi
  {
    Distribute(a, q, lo);
    Times(a, q - lo);
    Distribute(a, q, hi);
    Times(a, q - hi);
  }

  lemma Multiple(a: nat, k: nat)
    requires a > 0
    ensures (a * k) % a == 0
  {
    var q, r := (a * k) / a, (a * k) % a;
    assert a * k == a * q + r;
    assert a * (k - q) == r;
    Times(a, k - q);
  }

  /** Two multiples are at least one step apart, and the next number a step on is one. */
  lemma StepApart(a: nat, x: nat, y: nat)
    requires a > 0 && x % a == 0 && y % a == 0 && x < y
    ensures x + a <= y && (x + a) % a == 0
  {
    var i, j := x / a, y / a;
    assert x == a * i && y == a * j;
    Distribute(a, j, i);
    Times(a, j - i);
    Multiple(a, i + 1);
    Distribute(a, i, -1);
  }

  lemma DividesThrough(n: nat, a: nat)
    requires a > 0 && n % a == 0
    ensures a % 8 == 0 ==> n % 8 == 0
    ensures a % 128 == 0 ==> n % 128 == 0
  {
    var q := n / a;
    assert n == a * q;
    if a % 8 == 0 {
      assert a * q == 8 * (a / 8 * q);
      Multiple(8, a / 8 * q);
    }
    if a % 128 == 0 {
      assert a * q == 128 * (a / 128 * q);
      Multiple(128, a / 128 * q);
    }
  }

  /** Rounding up to the next multiple passes no other. */
  lemma RoundUp(a: nat, x: nat)
    requires a > 0
    ensures (x - x % a) % a == 0 && (x - x % a + a) % a == 0
    ensures forall y :: x <= y && y % a == 0 && x % a != 0 ==> x - x % a + a <= y
  {
    var q := x / a;
    assert x - x % a == a * q;
    Multiple(a, q);
    Multiple(a, q + 1);
    Distribute(a, q, -1);
    forall y | x <= y && y % a == 0 && x % a != 0 ensures x - x % a + a <= y {
      StepApart(a, x - x % a, y);
    }
  }
}
