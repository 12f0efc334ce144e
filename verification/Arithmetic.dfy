/** Arithmetic for bounds on repeated growth and decay. */
module Arithmetic {
  function Pow(base: nat, n: nat): nat {
    if n == 0 then 1 else base * Pow(base, n - 1)
  }

  function Min(a: int, b: int): int {
    if a <= b then a else b
  }

  function Max(a: int, b: int): int {
    if a <= b then b else a
  }

  lemma {:induction false} PowPositive(base: nat, n: nat)
    requires base > 0
    ensures Pow(base, n) > 0
    decreases n
  {
    if n > 0 {
      PowPositive(base, n - 1);
      assert Pow(base, n) == base * Pow(base, n - 1);
    }
  }

  lemma PowStep(base: nat, n: nat)
    requires n >= 1
    ensures Pow(base, n) == base * Pow(base, n - 1)
  {
  }

  lemma ScaleUp(x: nat, a: int, b: int)
    requires a <= b
    ensures x * a <= x * b
  {
  }

  lemma Cancel(d: nat, a: int, b: int)
    requires d >= 1 && d * a < d * b
    ensures a < b
  {
    assert d * (b - a) > 0;
  }

  lemma Quotient(x: nat, d: nat)
    requires d >= 1
    ensures 0 <= x / d && d * (x / d) <= x < d * (x / d + 1)
  {
    assert x == d * (x / d) + x % d;
  }

  lemma DivideAtLeast(x: nat, d: nat, q: nat)
    requires d >= 1 && d * q <= x
    ensures x / d >= q
  {
    Quotient(x, d);
    Cancel(d, q, x / d + 1);
  }

  lemma DivideAtMost(x: nat, d: nat, q: nat)
    requires d >= 1 && x <= d * q
    ensures 0 <= x / d <= q
  {
    Quotient(x, d);
    Cancel(d, x / d, q + 1);
  }

  lemma DivideBelow(x: nat, d: nat, q: nat)
    requires d >= 1 && x < d * q
    ensures x / d < q
  {
    Quotient(x, d);
    Cancel(d, x / d, q);
  }
}
